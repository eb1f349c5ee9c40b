/** The multihoming link monitor: last sightings of peers by address
    (src/mesh256/multihoming/link_monitor.go). */
module LinkMonitor {
  import opened Wrappers

  /** A peer. */
  type Peer(==, !new)

  /** A transport address, and its text. */
  type LinkAddr(==, !new)

  type Time = nat

  type Seen = map<string, Time>

  datatype State = State(sightings: map<Peer, Seen>, addrs: map<string, LinkAddr>)

  function SeenBy(s: State, k: Peer): Seen {
    if k in s.sightings then s.sightings[k] else map[]
  }

  /** The last sighting of peer k at the address with text ka. */
  function Sighting(s: State, k: Peer, ka: string): Option<Time> {
    if ka in SeenBy(s, k) then Some(SeenBy(s, k)[ka]) else None
  }

  function Marked(s: State, k: Peer, ka: string, a: LinkAddr, t: Time): State {
    var m := SeenBy(s, k);
    var current := if ka in m then m[ka] else 0;
    if t > current then State(s.sightings[k := m[ka := t]], s.addrs[ka := a])
    else s.(sightings := s.sightings[k := m])
  }

  predicate TooOld(now: Time, seen: Time, expireAfter: nat) {
    now - seen > expireAfter
  }

  function Fresh(m: Seen, now: Time, expireAfter: nat): Seen {
    map ka | ka in m && !TooOld(now, m[ka], expireAfter) :: m[ka]
  }

  /** Every peer keeps its map, even when nothing is left in it. */
  function Cleaned(s: State, now: Time, expireAfter: nat): State {
    s.(sightings := map k | k in s.sightings :: Fresh(s.sightings[k], now, expireAfter))
  }

  // ----- Histories

  datatype Event = Mark(k: Peer, ka: string, a: LinkAddr, t: Time) | Cleanup(now: Time)

  function TimeOf(e: Event): Time {
    match e
    case Mark(_, _, _, t) => t
    case Cleanup(now) => now
  }

  function Step(s: State, e: Event, expireAfter: nat): State {
    match e
    case Mark(k, ka, a, t) => Marked(s, k, ka, a, t)
    case Cleanup(now) => Cleaned(s, now, expireAfter)
  }

  function Replay(h: seq<Event>, expireAfter: nat): State {
    if h == [] then State(map[], map[]) else Step(Replay(h[..|h| - 1], expireAfter), h[|h| - 1], expireAfter)
  }

  lemma ReplayAppend(h: seq<Event>, e: Event, expireAfter: nat)
    ensures Replay(h + [e], expireAfter) == Step(Replay(h, expireAfter), e, expireAfter)
  {
    assert (h + [e])[..|h + [e]| - 1] == h;
  }

  /** The marks come in the order of their times, and so do the cleanups.  A mark and a cleanup need
      not: both loops read the clock before they take the lock. */
  ghost predicate Ordered(h: seq<Event>) {
    forall i, j :: 0 <= i < j < |h| && (h[i].Mark? <==> h[j].Mark?) ==> TimeOf(h[i]) <= TimeOf(h[j])
  }

  predicate Marks(e: Event, k: Peer, ka: string) {
    e.Mark? && e.k == k && e.ka == ka
  }

  /** The index of the latest mark of k at ka. */
  function LastMark(h: seq<Event>, k: Peer, ka: string): (r: Option<nat>)
    ensures r.Some? ==> r.value < |h| && Marks(h[r.value], k, ka) && forall j :: r.value < j < |h| ==> !Marks(h[j], k, ka)
    ensures r.None? ==> forall j :: 0 <= j < |h| ==> !Marks(h[j], k, ka)
  {
    if h == [] then None
    else if Marks(h[|h| - 1], k, ka) then Some(|h| - 1)
    else LastMark(h[..|h| - 1], k, ka)
  }

  /** The index of the most recent cleanup. */
  function LastCleanup(h: seq<Event>): (r: Option<nat>)
    ensures r.Some? ==> r.value < |h| && h[r.value].Cleanup? && forall j :: r.value < j < |h| ==> !h[j].Cleanup?
    ensures r.None? ==> forall j :: 0 <= j < |h| ==> !h[j].Cleanup?
  {
    if h == [] then None
    else if h[|h| - 1].Cleanup? then Some(|h| - 1)
    else LastCleanup(h[..|h| - 1])
  }

  /** Mark i is followed by no cleanup that finds it too old. */
  ghost predicate Survives(h: seq<Event>, i: nat, expireAfter: nat)
    requires i < |h| && h[i].Mark?
  {
    forall j :: i < j < |h| && h[j].Cleanup? ==> !TooOld(h[j].now, h[i].t, expireAfter)
  }

  ghost predicate Survivor(h: seq<Event>, i: nat, k: Peer, ka: string, expireAfter: nat) {
    i < |h| && Marks(h[i], k, ka) && h[i].t > 0 && Survives(h, i, expireAfter)
  }

  ghost predicate SurvivedAt(h: seq<Event>, t: Time, k: Peer, ka: string, expireAfter: nat) {
    exists i: nat :: Survivor(h, i, k, ka, expireAfter) && h[i].t == t
  }

  /** `v` is the greatest time of a mark of k at ka that survives, or None if none does. */
  ghost predicate GreatestSurvivor(h: seq<Event>, v: Option<Time>, k: Peer, ka: string, expireAfter: nat) {
    && (v.Some? ==> SurvivedAt(h, v.value, k, ka, expireAfter))
    && (forall i: nat :: Survivor(h, i, k, ka, expireAfter) ==> v.Some? && h[i].t <= v.value)
  }

  lemma SurvivesStep(h: seq<Event>, i: nat, expireAfter: nat)
    requires i < |h| - 1 && h[i].Mark?
    ensures var last := h[|h| - 1];
      Survives(h, i, expireAfter) <==>
        Survives(h[..|h| - 1], i, expireAfter) && (last.Cleanup? ==> !TooOld(last.now, h[i].t, expireAfter))
  {
    var init := h[..|h| - 1];
    assert forall j :: 0 <= j < |h| - 1 ==> init[j] == h[j];
    if Survives(h, i, expireAfter) {
      forall j | i < j < |init| && init[j].Cleanup? ensures !TooOld(init[j].now, init[i].t, expireAfter) {
        assert h[j].Cleanup?;
      }
    }
  }

  lemma SurvivorStep(h: seq<Event>, i: nat, k: Peer, ka: string, expireAfter: nat)
    requires i < |h| - 1
    ensures var last := h[|h| - 1];
      Survivor(h, i, k, ka, expireAfter) <==>
        Survivor(h[..|h| - 1], i, k, ka, expireAfter) && (last.Cleanup? ==> !TooOld(last.now, h[i].t, expireAfter))
  {
    if Marks(h[i], k, ka) { SurvivesStep(h, i, expireAfter); }
  }

  lemma SightingStep(s: State, e: Event, expireAfter: nat, k: Peer, ka: string)
    ensures var v := Sighting(s, k, ka);
      Sighting(Step(s, e, expireAfter), k, ka) ==
        match e
        case Mark(_, _, _, t) => if Marks(e, k, ka) && t > (if v.Some? then v.value else 0) then Some(t) else v
        case Cleanup(now) => if v.Some? && TooOld(now, v.value, expireAfter) then None else v
  {}

  /** For every history, in whatever order its times are, the sighting of k at ka is the greatest
      time of a mark that no later cleanup found too old. */
  lemma {:induction false} SightingIsGreatestSurvivor(h: seq<Event>, expireAfter: nat, k: Peer, ka: string)
    ensures GreatestSurvivor(h, Sighting(Replay(h, expireAfter), k, ka), k, ka, expireAfter)
    decreases |h|
  {
    if h != [] {
      var init, last := h[..|h| - 1], h[|h| - 1];
      SightingIsGreatestSurvivor(init, expireAfter, k, ka);
      SightingStep(Replay(init, expireAfter), last, expireAfter, k, ka);
      GreatestStep(h, Sighting(Replay(init, expireAfter), k, ka), k, ka, expireAfter);
    }
  }

  lemma GreatestStep(h: seq<Event>, v: Option<Time>, k: Peer, ka: string, expireAfter: nat)
    requires h != [] && GreatestSurvivor(h[..|h| - 1], v, k, ka, expireAfter)
    ensures var e := h[|h| - 1];
      var w := match e
        case Mark(_, _, _, t) => if Marks(e, k, ka) && t > (if v.Some? then v.value else 0) then Some(t) else v
        case Cleanup(now) => if v.Some? && TooOld(now, v.value, expireAfter) then None else v;
      GreatestSurvivor(h, w, k, ka, expireAfter)
  {
    var init, n := h[..|h| - 1], |h| - 1;
    forall i: nat | i < n
      ensures Survivor(h, i, k, ka, expireAfter) <==>
        Survivor(init, i, k, ka, expireAfter) && (h[n].Cleanup? ==> !TooOld(h[n].now, h[i].t, expireAfter))
    {
      SurvivorStep(h, i, k, ka, expireAfter);
    }
    if v.Some? {
      var i: nat :| Survivor(init, i, k, ka, expireAfter) && init[i].t == v.value;
      assert h[i] == init[i];
    }
    if Marks(h[n], k, ka) && h[n].t > 0 { assert Survivor(h, n, k, ka, expireAfter); }
  }

  /** On an ordered history only the most recent cleanup matters. */
  lemma LastCleanupDecides(h: seq<Event>, i: nat, expireAfter: nat)
    requires Ordered(h) && i < |h| && h[i].Mark?
    ensures Survives(h, i, expireAfter) <==>
      (LastCleanup(h).None? || LastCleanup(h).value < i || !TooOld(h[LastCleanup(h).value].now, h[i].t, expireAfter))
  {
    var c := LastCleanup(h);
    if c.Some? && c.value > i && !TooOld(h[c.value].now, h[i].t, expireAfter) {
      forall j | i < j < |h| && h[j].Cleanup? ensures !TooOld(h[j].now, h[i].t, expireAfter) {
        assert j <= c.value;
        assert TimeOf(h[j]) <= TimeOf(h[c.value]);
      }
    }
  }

  /** Under a clock that does not go back, k is seen at ka exactly when its latest mark has a time
      and follows the most recent cleanup or was no older than expireAfter at it; the sighting
      is then the time of that mark. */
  lemma SightingsRefineHistory(h: seq<Event>, expireAfter: nat, k: Peer, ka: string)
    requires Ordered(h)
    ensures var i, c := LastMark(h, k, ka), LastCleanup(h);
      Sighting(Replay(h, expireAfter), k, ka) ==
        if i.Some? && h[i.value].t > 0
           && (c.None? || c.value < i.value || h[c.value].now - h[i.value].t <= expireAfter)
        then Some(h[i.value].t) else None
  {
    SightingIsGreatestSurvivor(h, expireAfter, k, ka);
    var last := LastMark(h, k, ka);
    if last.Some? {
      LastCleanupDecides(h, last.value, expireAfter);
      forall i: nat | Survivor(h, i, k, ka, expireAfter)
        ensures Survivor(h, last.value, k, ka, expireAfter) && h[i].t <= h[last.value].t
      {
        LastSurvives(h, i, last.value, k, ka, expireAfter);
      }
    }
  }

  /** A later mark survives if an earlier one does. */
  lemma LastSurvives(h: seq<Event>, i: nat, last: nat, k: Peer, ka: string, expireAfter: nat)
    requires Ordered(h) && Survivor(h, i, k, ka, expireAfter) && LastMark(h, k, ka) == Some(last)
    ensures Survivor(h, last, k, ka, expireAfter) && h[i].t <= h[last].t
  {
    assert i <= last && TimeOf(h[i]) <= TimeOf(h[last]);
    forall j | last < j < |h| && h[j].Cleanup? ensures !TooOld(h[j].now, h[last].t, expireAfter) {
      assert !TooOld(h[j].now, h[i].t, expireAfter);
    }
  }

  // ----- Sighted addresses are bound

  /** Every sighted key has a time and is bound to an address of that text. */
  ghost predicate Bound(s: State, keyOf: LinkAddr -> string) {
    && (forall k, ka :: Sighting(s, k, ka).Some? ==> Sighting(s, k, ka).value > 0 && ka in s.addrs)
    && (forall ka :: ka in s.addrs ==> keyOf(s.addrs[ka]) == ka)
  }

  lemma MarkedBound(s: State, keyOf: LinkAddr -> string, k: Peer, a: LinkAddr, t: Time)
    requires Bound(s, keyOf)
    ensures Bound(Marked(s, k, keyOf(a), a, t), keyOf)
  {
    var s' := Marked(s, k, keyOf(a), a, t);
    forall p, ka | Sighting(s', p, ka).Some? ensures Sighting(s', p, ka).value > 0 && ka in s'.addrs {
      if p != k || ka != keyOf(a) || t <= (if ka in SeenBy(s, k) then SeenBy(s, k)[ka] else 0) {
        assert Sighting(s', p, ka) == Sighting(s, p, ka);
      }
    }
  }

  lemma CleanedBound(s: State, keyOf: LinkAddr -> string, now: Time, expireAfter: nat)
    requires Bound(s, keyOf)
    ensures Bound(Cleaned(s, now, expireAfter), keyOf)
  {
    var s' := Cleaned(s, now, expireAfter);
    forall p, ka | Sighting(s', p, ka).Some? ensures Sighting(s', p, ka).value > 0 && ka in s'.addrs {
      assert Sighting(s', p, ka) == Sighting(s, p, ka);
    }
  }

  // ----- The monitor

  datatype Pick = Picked(a: LinkAddr) | NotInStore | NoGoodAddress | MissingAddress

  class LinkMonitor {
    const expireAfter: nat
    const keyOf: LinkAddr -> string
    var sightings: map<Peer, Seen>
    var addrs: map<string, LinkAddr>
    ghost var history: seq<Event>

    ghost predicate Valid()
      reads this
    {
      State(sightings, addrs) == Replay(history, expireAfter) && Bound(State(sightings, addrs), keyOf)
    }

    constructor (expireAfter: nat, keyOf: LinkAddr -> string)
      ensures Valid() && history == [] && this.expireAfter == expireAfter
    {
      this.expireAfter, this.keyOf := expireAfter, keyOf;
      sightings, addrs, history := map[], map[], [];
    }

    method Mark(k: Peer, a: LinkAddr, t: Time)
      requires Valid()
      modifies this
      ensures Valid() && history == old(history) + [Event.Mark(k, keyOf(a), a, t)]
    {
      ghost var before, was := history, State(sightings, addrs);
      MarkedBound(was, keyOf, k, a, t);
      var m: Seen := if k in sightings then sightings[k] else map[];
      sightings := sightings[k := m];
      var ka := keyOf(a);
      var current := if ka in m then m[ka] else 0;
      if t > current {
        m := m[ka := t];
        sightings := sightings[k := m];
        addrs := addrs[ka := a];
      }
      assert State(sightings, addrs) == Marked(was, k, ka, a, t);
      history := history + [Event.Mark(k, ka, a, t)];
      ReplayAppend(before, Event.Mark(k, ka, a, t), expireAfter);
    }

    /** The address last seen for k, if there is one; else one of the store's, chosen by `choice`. */
    method PickAddr(k: Peer, inStore: bool, stored: seq<LinkAddr>, choice: nat) returns (r: Pick)
      requires Valid() && (stored != [] ==> choice < |stored|)
      ensures !r.MissingAddress?
      ensures r.NotInStore? <==> !inStore
      ensures inStore && SeenBy(State(sightings, addrs), k) != map[] ==>
        && r.Picked? && keyOf(r.a) in SeenBy(State(sightings, addrs), k)
        && keyOf(r.a) in addrs && r.a == addrs[keyOf(r.a)]
        && forall ka :: ka in SeenBy(State(sightings, addrs), k) ==>
             SeenBy(State(sightings, addrs), k)[ka] <= SeenBy(State(sightings, addrs), k)[keyOf(r.a)]
      ensures inStore && SeenBy(State(sightings, addrs), k) == map[] ==>
        r == if stored == [] then NoGoodAddress else Picked(stored[choice])
    {
      if !inStore {
        return NotInStore;
      }
      var m := SeenBy(State(sightings, addrs), k);
      var latestAddr: Option<LinkAddr> := None;
      var latestTime := 0;
      var todo := m.Keys;
      while todo != {}
        invariant todo <= m.Keys
        invariant latestAddr.None? ==> todo == m.Keys && latestTime == 0
        invariant latestAddr.Some? ==>
          var ka := keyOf(latestAddr.value);
          ka in m && m[ka] == latestTime && ka in addrs && addrs[ka] == latestAddr.value
        invariant forall ka :: ka in m && ka !in todo ==> m[ka] <= latestTime
        decreases todo
      {
        var ka :| ka in todo;
        todo := todo - {ka};
        assert Sighting(State(sightings, addrs), k, ka) == Some(m[ka]);
        if latestTime == 0 || m[ka] > latestTime {
          latestTime := m[ka];
          if ka !in addrs {
            return MissingAddress;
          }
          latestAddr := Some(addrs[ka]);
        }
      }
      if latestAddr.Some? {
        return Picked(latestAddr.value);
      }
      r := if stored == [] then NoGoodAddress else Picked(stored[choice]);
    }

    method CleanupOnce(now: Time)
      requires Valid()
      modifies this
      ensures Valid() && history == old(history) + [Cleanup(now)]
    {
      ghost var before, was := history, State(sightings, addrs);
      CleanedBound(was, keyOf, now, expireAfter);
      var ids := sightings.Keys;
      while ids != {}
        invariant ids <= was.sightings.Keys == sightings.Keys
        invariant addrs == was.addrs && history == before
        invariant forall k :: k in was.sightings ==>
          sightings[k] == if k in ids then was.sightings[k] else Fresh(was.sightings[k], now, expireAfter)
        decreases ids
      {
        var id :| id in ids;
        ids := ids - {id};
        var kept := ExpireSeen(sightings[id], now, expireAfter);
        sightings := sightings[id := kept];
        // The source now deletes the peer if the outer map is empty, which it never is here.
        assert id in sightings;
      }
      history := history + [Cleanup(now)];
      ReplayAppend(before, Cleanup(now), expireAfter);
      assert sightings == Cleaned(was, now, expireAfter).sightings;
    }
  }

  /** The inner loop of a cleanup. */
  method ExpireSeen(m: Seen, now: Time, expireAfter: nat) returns (kept: Seen)
    ensures kept == Fresh(m, now, expireAfter)
  {
    kept := m;
    var todo := m.Keys;
    while todo != {}
      invariant todo <= m.Keys
      invariant kept == map ka | ka in m && (ka in todo || !TooOld(now, m[ka], expireAfter)) :: m[ka]
      decreases todo
    {
      var ka :| ka in todo;
      todo := todo - {ka};
      if TooOld(now, m[ka], expireAfter) {
        kept := kept - {ka};
      }
    }
  }
}
