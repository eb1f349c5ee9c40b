/** The least-active load balancer for streams (src/inet256lb/stream.go). */
module Balancer {
  import opened Wrappers

  type Backend(==, !new)

  /** pickBackend with counters that stand still: the least active backend, or an error if there is none. */
  method PickBackend(active: map<Backend, nat>) returns (best: Option<Backend>)
    ensures best.None? <==> active == map[]
    ensures best.Some? ==> best.value in active && forall b :: b in active ==> active[best.value] <= active[b]
  {
    best := None;
    var minActive := 0;
    var todo := active.Keys;
    while todo != {}
      invariant todo <= active.Keys
      invariant best.None? ==> todo == active.Keys
      invariant best.Some? ==> best.value in active && active[best.value] == minActive
      invariant best.Some? ==> forall b :: b in active && b !in todo ==> minActive <= active[b]
      decreases todo
    {
      var b :| b in todo;
      todo := todo - {b};
      if best.None? || active[b] < minActive {
        best, minActive := Some(b), active[b];
      }
    }
  }

  // ----- Concurrent connections

  /** A connection reads the counters one at a time, holds its pick, and is then served.  Other
      connections may move the counters between any two of its reads. */
  datatype Conn =
    | Scanning(read: set<Backend>, best: Option<Backend>, low: nat)
    | Picked(backend: Backend)
    | Serving(backend: Backend)

  datatype State = State(active: map<Backend, nat>, conns: map<nat, Conn>)

  datatype Step =
    | Arrive(id: nat)
    | Read(id: nat, backend: Backend)
    | Finish(id: nat)
    | Increment(id: nat)

  /** Connections between their arrival and their increment. */
  ghost function Busy(s: State): set<nat> {
    set id | id in s.conns && !s.conns[id].Serving?
  }

  /** At most k connections are busy at a time, and none ends. */
  ghost predicate Enabled(s: State, step: Step, k: nat) {
    match step
    case Arrive(id) => id !in s.conns && s.active != map[] && |Busy(s)| < k
    case Read(id, b) => id in s.conns && s.conns[id].Scanning? && b in s.active && b !in s.conns[id].read
    case Finish(id) => id in s.conns && s.conns[id].Scanning? && s.conns[id].read == s.active.Keys && s.conns[id].best.Some?
    case Increment(id) => id in s.conns && s.conns[id].Picked? && s.conns[id].backend in s.active
  }

  ghost function Apply(s: State, step: Step, k: nat): State
    requires Enabled(s, step, k)
  {
    match step
    case Arrive(id) => s.(conns := s.conns[id := Scanning({}, None, 0)])
    case Read(id, b) =>
      var Scanning(read, best, low) := s.conns[id];
      s.(conns := s.conns[id := if best.None? || s.active[b] < low
                                then Scanning(read + {b}, Some(b), s.active[b])
                                else Scanning(read + {b}, best, low)])
    case Finish(id) => s.(conns := s.conns[id := Picked(s.conns[id].best.value)])
    case Increment(id) =>
      var b := s.conns[id].backend;
      State(s.active[b := s.active[b] + 1], s.conns[id := Serving(b)])
  }

  ghost predicate IsRun(s: State, run: seq<Step>, k: nat)
    decreases run
  {
    run == [] || (Enabled(s, run[0], k) && IsRun(Apply(s, run[0], k), run[1..], k))
  }

  ghost function After(s: State, run: seq<Step>, k: nat): State
    requires IsRun(s, run, k)
    decreases run
  {
    if run == [] then s else After(Apply(s, run[0], k), run[1..], k)
  }

  ghost predicate Init(s: State) {
    s.conns == map[] && forall b :: b in s.active ==> s.active[b] == 0
  }

  // ----- The invariant

  ghost function PickedOn(s: State, b: Backend): set<nat> {
    set id | id in s.conns && s.conns[id] == Picked(b)
  }

  /** Scans whose best so far is b, read when its count was at most m. */
  ghost function ScanOn(s: State, b: Backend, m: nat): set<nat> {
    set id | id in s.conns && s.conns[id].Scanning? && s.conns[id].best == Some(b) && s.conns[id].low <= m
  }

  /** Counts only grow, so what a scan has read is never below its best. */
  ghost predicate ScanOk(s: State, c: Conn) {
    c.Scanning? ==>
      && c.read <= s.active.Keys
      && (c.best.None? <==> c.read == {})
      && (c.best.Some? ==> c.best.value in c.read)
      && (forall b :: b in c.read && c.best.Some? ==> s.active[b] >= c.low)
  }

  /** For every count m that some backend has not passed: what b has, what is picked for it and
      what may still be picked for it at m come to at most m + k. */
  ghost predicate Capped(s: State, b: Backend, c: Backend, m: nat, k: nat)
    requires b in s.active && c in s.active
  {
    m >= s.active[c] ==> s.active[b] + |PickedOn(s, b)| + |ScanOn(s, b, m)| <= m + k
  }

  ghost predicate Inv(s: State, k: nat) {
    && |Busy(s)| <= k
    && (forall id :: id in s.conns ==> ScanOk(s, s.conns[id]))
    && (forall id :: id in s.conns && s.conns[id].Picked? ==> s.conns[id].backend in s.active)
    && (forall b, c, m: nat :: b in s.active && c in s.active ==> Capped(s, b, c, m, k))
  }

  lemma Subset<T>(a: set<T>, b: set<T>)
    requires a <= b
    ensures |a| <= |b|
  {
    assert b == a + (b - a);
  }

  lemma BusySplit(s: State, b: Backend, m: nat)
    ensures |PickedOn(s, b)| + |ScanOn(s, b, m)| <= |Busy(s)|
  {
    assert PickedOn(s, b) !! ScanOn(s, b, m);
    Subset(PickedOn(s, b) + ScanOn(s, b, m), Busy(s));
  }

  lemma ArriveKeeps(s: State, id: nat, k: nat)
    requires Inv(s, k) && Enabled(s, Arrive(id), k)
    ensures Inv(Apply(s, Arrive(id), k), k)
  {
    var s' := Apply(s, Arrive(id), k);
    assert Busy(s') == Busy(s) + {id};
    forall b, c, m: nat | b in s.active && c in s.active ensures Capped(s', b, c, m, k) {
      assert Capped(s, b, c, m, k);
      assert PickedOn(s', b) == PickedOn(s, b) && ScanOn(s', b, m) == ScanOn(s, b, m);
    }
  }

  lemma ReadKeeps(s: State, id: nat, x: Backend, k: nat)
    requires Inv(s, k) && Enabled(s, Read(id, x), k)
    ensures Inv(Apply(s, Read(id, x), k), k)
  {
    var s' := Apply(s, Read(id, x), k);
    assert ScanOk(s, s.conns[id]);
    assert Busy(s') == Busy(s);
    forall b, c, m: nat | b in s.active && c in s.active ensures Capped(s', b, c, m, k) {
      assert Capped(s, b, c, m, k);
      assert PickedOn(s', b) == PickedOn(s, b);
      if b == x && m >= s.active[x] {
        BusySplit(s', b, m);
      } else {
        assert ScanOn(s', b, m) <= ScanOn(s, b, m);
        Subset(ScanOn(s', b, m), ScanOn(s, b, m));
      }
    }
  }

  /** The scan has seen every backend at or above its best, so its pick moves from one term of the
      sum to another. */
  lemma FinishKeeps(s: State, id: nat, k: nat)
    requires Inv(s, k) && Enabled(s, Finish(id), k)
    ensures Inv(Apply(s, Finish(id), k), k)
  {
    var s' := Apply(s, Finish(id), k);
    assert Busy(s') == Busy(s);
    forall b, c, m: nat | b in s.active && c in s.active ensures Capped(s', b, c, m, k) {
      assert Capped(s, b, c, m, k);
      FinishCaps(s, id, k, b, c, m);
    }
  }

  lemma FinishCaps(s: State, id: nat, k: nat, b: Backend, c: Backend, m: nat)
    requires Enabled(s, Finish(id), k) && ScanOk(s, s.conns[id])
    requires b in s.active && c in s.active && Capped(s, b, c, m, k)
    ensures Capped(Apply(s, Finish(id), k), b, c, m, k)
  {
    var s' := Apply(s, Finish(id), k);
    if b != s.conns[id].best.value {
      assert PickedOn(s', b) == PickedOn(s, b) && ScanOn(s', b, m) == ScanOn(s, b, m);
    } else if m >= s.active[c] {
      assert id in ScanOn(s, b, m) && id !in PickedOn(s, b);
      assert PickedOn(s', b) == PickedOn(s, b) + {id} && ScanOn(s', b, m) == ScanOn(s, b, m) - {id};
    }
  }

  lemma IncrementKeeps(s: State, id: nat, k: nat)
    requires Inv(s, k) && Enabled(s, Increment(id), k)
    ensures Inv(Apply(s, Increment(id), k), k)
  {
    var s' := Apply(s, Increment(id), k);
    var x := s.conns[id].backend;
    Subset(Busy(s'), Busy(s));
    forall j | j in s'.conns ensures ScanOk(s', s'.conns[j]) { assert ScanOk(s, s.conns[j]); }
    forall b, c, m: nat | b in s.active && c in s.active ensures Capped(s', b, c, m, k) {
      assert Capped(s, b, c, m, k);
      assert ScanOn(s', b, m) == ScanOn(s, b, m);
      if b != x {
        assert PickedOn(s', b) == PickedOn(s, b);
      } else {
        assert PickedOn(s, b) == PickedOn(s', b) + {id} && id !in PickedOn(s', b);
      }
    }
  }

  lemma {:induction false} RunKeeps(s: State, run: seq<Step>, k: nat)
    requires Inv(s, k) && IsRun(s, run, k)
    ensures Inv(After(s, run, k), k)
    ensures After(s, run, k).active.Keys == s.active.Keys
    decreases run
  {
    if run != [] {
      match run[0] {
        case Arrive(id) => ArriveKeeps(s, id, k);
        case Read(id, b) => ReadKeeps(s, id, b, k);
        case Finish(id) => FinishKeeps(s, id, k);
        case Increment(id) => IncrementKeeps(s, id, k);
      }
      RunKeeps(Apply(s, run[0], k), run[1..], k);
    }
  }

  /** With at most k connections between arrival and increment, and none that ends, the active
      counts of any two backends never differ by more than k, whatever the interleaving of
      arrivals, single reads of counters and increments. */
  lemma ImbalanceBound(s: State, run: seq<Step>, k: nat, b: Backend, c: Backend)
    requires Init(s) && IsRun(s, run, k) && b in s.active && c in s.active
    ensures After(s, run, k).active.Keys == s.active.Keys
    ensures After(s, run, k).active[b] <= After(s, run, k).active[c] + k
  {
    assert Inv(s, k);
    RunKeeps(s, run, k);
    var t := After(s, run, k);
    assert Capped(t, b, c, t.active[c], k);
  }

  // ----- The bound is reached

  lemma {:induction false} RunAppend(s: State, run: seq<Step>, more: seq<Step>, k: nat)
    requires IsRun(s, run, k) && IsRun(After(s, run, k), more, k)
    ensures IsRun(s, run + more, k) && After(s, run + more, k) == After(After(s, run, k), more, k)
    decreases run
  {
    if run == [] {
      assert run + more == more;
    } else {
      RunAppend(Apply(s, run[0], k), run[1..], more, k);
      assert (run + more)[1..] == run[1..] + more;
    }
  }

  /** n connections have picked b, and the first `done` of them have been counted. */
  ghost function Pile(b: Backend, c: Backend, n: nat, done: nat): State {
    State(map[b := done, c := 0], PileConns(b, n, done))
  }

  ghost function PileConns(b: Backend, n: nat, done: nat): (conns: map<nat, Conn>)
    ensures forall id: nat :: id in conns <==> id < n
    ensures forall id :: id in conns ==> conns[id] == if id < done then Serving(b) else Picked(b)
  {
    if n == 0 then map[] else PileConns(b, n - 1, done)[n - 1 := if n - 1 < done then Serving(b) else Picked(b)]
  }

  lemma {:induction false} PileBusy(b: Backend, c: Backend, n: nat)
    ensures |Busy(Pile(b, c, n, 0))| == n
  {
    if n > 0 {
      PileBusy(b, c, n - 1);
      assert Busy(Pile(b, c, n, 0)) == Busy(Pile(b, c, n - 1, 0)) + {n - 1};
    }
  }

  lemma PickOneMore(b: Backend, c: Backend, n: nat, k: nat) returns (run: seq<Step>)
    requires b != c && n < k
    ensures IsRun(Pile(b, c, n, 0), run, k) && After(Pile(b, c, n, 0), run, k) == Pile(b, c, n + 1, 0)
  {
    PileBusy(b, c, n);
    var s := Pile(b, c, n, 0);
    assert b in s.active;
    run := ScanPicksFirst(s, n, b, c, k);
    assert s.conns[n := Picked(b)] == Pile(b, c, n + 1, 0).conns;
  }

  /** A scan that reads b before c, with no connection counted on either, picks b. */
  lemma ScanPicksFirst(s: State, id: nat, b: Backend, c: Backend, k: nat) returns (run: seq<Step>)
    requires b != c && s.active == map[b := 0, c := 0] && Enabled(s, Arrive(id), k)
    ensures IsRun(s, run, k) && After(s, run, k) == s.(conns := s.conns[id := Picked(b)])
  {
    ReadFirst(s, id, b, c, k);
    ReadSecond(s, id, b, c, k);
    var t := Extend(s, s, [], Arrive(id), k);
    run := [] + [Arrive(id)];
    t := Extend(s, t, run, Read(id, b), k);
    run := run + [Read(id, b)];
    t := Extend(s, t, run, Read(id, c), k);
    run := run + [Read(id, c)];
    t := Extend(s, t, run, Finish(id), k);
    run := run + [Finish(id)];
  }

  ghost function WithConn(s: State, id: nat, conn: Conn): State {
    s.(conns := s.conns[id := conn])
  }

  lemma ReadFirst(s: State, id: nat, b: Backend, c: Backend, k: nat)
    requires b != c && s.active == map[b := 0, c := 0]
    ensures var t := WithConn(s, id, Scanning({}, None, 0));
      Enabled(t, Read(id, b), k) && Apply(t, Read(id, b), k) == WithConn(s, id, Scanning({b}, Some(b), 0))
  {
    var t := WithConn(s, id, Scanning({}, None, 0));
    assert {} + {b} == {b};
    assert Apply(t, Read(id, b), k).conns == s.conns[id := Scanning({b}, Some(b), 0)];
  }

  lemma ReadSecond(s: State, id: nat, b: Backend, c: Backend, k: nat)
    requires b != c && s.active == map[b := 0, c := 0]
    ensures var t, u := WithConn(s, id, Scanning({b}, Some(b), 0)), WithConn(s, id, Scanning({b, c}, Some(b), 0));
      && Enabled(t, Read(id, c), k) && Apply(t, Read(id, c), k) == u
      && Enabled(u, Finish(id), k) && Apply(u, Finish(id), k) == WithConn(s, id, Picked(b))
  {
    var t, u := WithConn(s, id, Scanning({b}, Some(b), 0)), WithConn(s, id, Scanning({b, c}, Some(b), 0));
    assert {b} + {c} == {b, c} == s.active.Keys;
    assert Apply(t, Read(id, c), k).conns == u.conns;
    assert Apply(u, Finish(id), k).conns == s.conns[id := Picked(b)];
  }

  /** One more step at the end of a run. */
  lemma Extend(s: State, t: State, run: seq<Step>, step: Step, k: nat) returns (u: State)
    requires IsRun(s, run, k) && After(s, run, k) == t && Enabled(t, step, k)
    ensures u == Apply(t, step, k) && IsRun(s, run + [step], k) && After(s, run + [step], k) == u
  {
    u := Apply(t, step, k);
    assert [step][1..] == [];
    assert IsRun(u, [], k) && After(u, [], k) == u;
    assert IsRun(t, [step], k);
    assert After(t, [step], k) == After(u, [step][1..], k);
    RunAppend(s, run, [step], k);
  }

  lemma {:induction false} PickAll(b: Backend, c: Backend, n: nat, k: nat) returns (run: seq<Step>)
    requires b != c && n <= k
    ensures IsRun(Pile(b, c, 0, 0), run, k) && After(Pile(b, c, 0, 0), run, k) == Pile(b, c, n, 0)
  {
    if n == 0 {
      run := [];
    } else {
      var first := PickAll(b, c, n - 1, k);
      var last := PickOneMore(b, c, n - 1, k);
      RunAppend(Pile(b, c, 0, 0), first, last, k);
      run := first + last;
    }
  }

  lemma {:induction false} CountAll(b: Backend, c: Backend, n: nat, done: nat, k: nat) returns (run: seq<Step>)
    requires b != c && done <= n
    ensures IsRun(Pile(b, c, n, done), run, k) && After(Pile(b, c, n, done), run, k) == Pile(b, c, n, n)
    decreases n - done
  {
    if done == n {
      run := [];
    } else {
      CountOne(b, c, n, done, k);
      var rest := CountAll(b, c, n, done + 1, k);
      run := [Increment(done)] + rest;
      assert run[1..] == rest;
    }
  }

  lemma CountOne(b: Backend, c: Backend, n: nat, done: nat, k: nat)
    requires b != c && done < n
    ensures Enabled(Pile(b, c, n, done), Increment(done), k)
    ensures Apply(Pile(b, c, n, done), Increment(done), k) == Pile(b, c, n, done + 1)
  {
    var next := Apply(Pile(b, c, n, done), Increment(done), k);
    assert next.conns == Pile(b, c, n, done + 1).conns;
    assert next.active == Pile(b, c, n, done + 1).active;
  }

  /** Two backends can differ by exactly k. */
  lemma BoundIsReached(b: Backend, c: Backend, k: nat)
    requires b != c
    ensures Init(Pile(b, c, 0, 0))
    ensures exists run :: IsRun(Pile(b, c, 0, 0), run, k)
                          && After(Pile(b, c, 0, 0), run, k).active == map[b := k, c := 0]
  {
    var picks := PickAll(b, c, k, k);
    var counts := CountAll(b, c, k, 0, k);
    RunAppend(Pile(b, c, 0, 0), picks, counts, k);
    assert IsRun(Pile(b, c, 0, 0), picks + counts, k);
  }
}
