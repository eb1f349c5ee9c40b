/** The register of the central discovery server (src/discovery/centraldisco/server.go). */
module CentralDisco {
  import opened Wrappers

  /** The address of a public key. */
  type Peer(==, !new)

  /** What a valid announcement says besides its time: TTL, endpoints and signature. */
  type Details(==, !new)

  datatype Record = Record(timestamp: nat, details: Details)

  type Register = map<Peer, Record>

  /** A request as the checks of Announce see it: None is a part that does not parse. */
  datatype Request = Request(peer: Option<Peer>, signed: bool, timestamp: Option<Option<nat>>, endpointsOk: bool, details: Details)

  datatype Status = Accepted | BadKey | BadSignature | BadAnnounce | BadTimestamp | BadEndpoint | Stale

  datatype Announcement = Announcement(peer: Peer, record: Record)

  /** A request that parses and is signed by its key says this. */
  ghost predicate Says(q: Request, a: Announcement) {
    && q.peer == Some(a.peer) && q.signed && q.endpointsOk
    && q.timestamp == Some(Some(a.record.timestamp)) && q.details == a.record.details
  }

  predicate Newer(m: Register, a: Announcement) {
    a.peer !in m || a.record.timestamp > m[a.peer].timestamp
  }

  function Announced(m: Register, a: Announcement): Register {
    if Newer(m, a) then m[a.peer := a.record] else m
  }

  // ----- Runs

  function Replay(run: seq<Announcement>): Register {
    if run == [] then map[] else Announced(Replay(run[..|run| - 1]), run[|run| - 1])
  }

  lemma ReplayAppend(run: seq<Announcement>, a: Announcement)
    ensures Replay(run + [a]) == Announced(Replay(run), a)
  {
    assert (run + [a])[..|run + [a]| - 1] == run;
  }

  /** `a` was announced, and no announcement of its peer has a greater timestamp. */
  ghost predicate IsLatest(run: seq<Announcement>, a: Announcement) {
    a in run && forall b :: b in run && b.peer == a.peer ==> b.record.timestamp <= a.record.timestamp
  }

  /** The register holds, for every peer that announced, a record with its greatest timestamp. */
  lemma {:induction false} ReplayHoldsLatest(run: seq<Announcement>)
    ensures forall p :: p in Replay(run) ==> IsLatest(run, Announcement(p, Replay(run)[p]))
    ensures forall a :: a in run ==> a.peer in Replay(run)
  {
    if run != [] {
      var init, last := run[..|run| - 1], run[|run| - 1];
      ReplayHoldsLatest(init);
      assert run == init + [last];
      forall p | p in Replay(run) ensures IsLatest(run, Announcement(p, Replay(run)[p])) {
        if p in Replay(init) { assert IsLatest(init, Announcement(p, Replay(init)[p])); }
      }
    }
  }

  /** An announcement replaces the record exactly if it is newer than all of its peer so far. */
  lemma NewerThanAll(run: seq<Announcement>, a: Announcement)
    ensures Newer(Replay(run), a) <==>
      forall b :: b in run && b.peer == a.peer ==> b.record.timestamp < a.record.timestamp
  {
    ReplayHoldsLatest(run);
    if a.peer in Replay(run) { assert IsLatest(run, Announcement(a.peer, Replay(run)[a.peer])); }
  }

  /** Stored timestamps strictly increase: later announcements leave a record alone or replace it
      by one with a greater timestamp. */
  lemma {:induction false} TimestampsGrow(run: seq<Announcement>, more: seq<Announcement>, p: Peer)
    requires p in Replay(run)
    ensures p in Replay(run + more)
    ensures Replay(run + more)[p] == Replay(run)[p] || Replay(run + more)[p].timestamp > Replay(run)[p].timestamp
  {
    if more == [] {
      assert run + more == run;
    } else {
      var init := more[..|more| - 1];
      TimestampsGrow(run, init, p);
      assert (run + more)[..|run + more| - 1] == run + init;
    }
  }

  /** Announcements of one peer with its greatest timestamp all carry the same record. */
  ghost predicate LatestAgree(run: seq<Announcement>) {
    forall a, b :: IsLatest(run, a) && IsLatest(run, b) && a.peer == b.peer ==> a.record == b.record
  }

  ghost predicate OrderIndependent(run: seq<Announcement>) {
    forall other: seq<Announcement> :: multiset(other) == multiset(run) ==> Replay(other) == Replay(run)
  }

  lemma SameMembers(run: seq<Announcement>, other: seq<Announcement>)
    requires multiset(other) == multiset(run)
    ensures forall a :: a in run <==> a in other
  {
    forall a ensures a in run <==> a in other {
      assert a in run <==> a in multiset(run);
      assert a in other <==> a in multiset(other);
    }
  }

  lemma AgreeingRunsCommute(run: seq<Announcement>, other: seq<Announcement>)
    requires LatestAgree(run) && multiset(other) == multiset(run)
    ensures Replay(other) == Replay(run)
  {
    SameMembers(run, other);
    ReplayHoldsLatest(run);
    ReplayHoldsLatest(other);
    forall p ensures p in Replay(run) <==> p in Replay(other) {
      if p in Replay(run) { assert IsLatest(run, Announcement(p, Replay(run)[p])); }
      if p in Replay(other) { assert IsLatest(other, Announcement(p, Replay(other)[p])); }
    }
    forall p | p in Replay(run) ensures Replay(run)[p] == Replay(other)[p] {
      assert IsLatest(other, Announcement(p, Replay(other)[p]));
      assert IsLatest(run, Announcement(p, Replay(other)[p]));
      assert IsLatest(run, Announcement(p, Replay(run)[p]));
    }
  }

  /** A record with the greatest timestamp stays if it comes first. */
  lemma {:induction false} FirstLatestStays(a: Announcement, rest: seq<Announcement>)
    requires forall b :: b in rest && b.peer == a.peer ==> b.record.timestamp <= a.record.timestamp
    ensures a.peer in Replay([a] + rest) && Replay([a] + rest)[a.peer] == a.record
  {
    if rest == [] {
      assert [a] + rest == [a];
      assert [a][..0] == [];
    } else {
      FirstLatestStays(a, rest[..|rest| - 1]);
      assert ([a] + rest)[..|[a] + rest| - 1] == [a] + rest[..|rest| - 1];
    }
  }

  /** The run with one of its announcements moved to the front. */
  lemma MoveToFront(run: seq<Announcement>, a: Announcement) returns (rest: seq<Announcement>)
    requires a in run
    ensures multiset([a] + rest) == multiset(run)
  {
    var i :| 0 <= i < |run| && run[i] == a;
    rest := run[..i] + run[i + 1..];
    assert run == run[..i] + [run[i]] + run[i + 1..];
  }

  lemma LatestFirst(run: seq<Announcement>, a: Announcement) returns (other: seq<Announcement>)
    requires IsLatest(run, a)
    ensures multiset(other) == multiset(run)
    ensures a.peer in Replay(other) && Replay(other)[a.peer] == a.record
  {
    var rest := MoveToFront(run, a);
    other := [a] + rest;
    SameMembers(run, other);
    forall b | b in rest && b.peer == a.peer ensures b.record.timestamp <= a.record.timestamp {
      assert b in other;
    }
    FirstLatestStays(a, rest);
  }

  /** What the register ends up with does not depend on the order of arrival exactly when no peer
      has two different records that share its greatest timestamp. */
  lemma OrderIndependence(run: seq<Announcement>)
    ensures OrderIndependent(run) <==> LatestAgree(run)
  {
    if LatestAgree(run) {
      forall other: seq<Announcement> | multiset(other) == multiset(run) ensures Replay(other) == Replay(run) {
        AgreeingRunsCommute(run, other);
      }
    } else {
      var a, b :| IsLatest(run, a) && IsLatest(run, b) && a.peer == b.peer && a.record != b.record;
      var x := LatestFirst(run, a);
      var y := LatestFirst(run, b);
      assert Replay(x) != Replay(y);
    }
  }

  /** In particular for announcements with distinct timestamps per peer. */
  lemma DistinctTimestampsSuffice(run: seq<Announcement>)
    requires forall a, b :: a in run && b in run && a.peer == b.peer && a.record.timestamp == b.record.timestamp ==> a == b
    ensures OrderIndependent(run)
  {
    OrderIndependence(run);
  }

  // ----- The server

  class Server {
    var m: Register
    ghost var requests: seq<Request>
    ghost var run: seq<Announcement>

    /** The register is the replay of the announcements in `run`, and these are what the requests so
        far said that parsed and were signed. */
    ghost predicate Valid()
      reads this
    {
      && m == Replay(run)
      && (forall a :: a in run ==> exists q :: q in requests && Says(q, a))
      && (forall q, a :: q in requests && Says(q, a) ==> a in run)
    }

    constructor ()
      ensures Valid() && run == [] && requests == []
    {
      m, run, requests := map[], [], [];
    }

    /** The status tells the first check that fails, and then nothing is stored.  A request that passes
        them joins the run, and is accepted exactly if its timestamp is greater than any its peer
        announced before. */
    method Announce(r: Request) returns (status: Status)
      requires Valid()
      modifies this
      ensures Valid() && requests == old(requests) + [r]
      ensures status == BadKey <==> r.peer.None?
      ensures status == BadSignature <==> r.peer.Some? && !r.signed
      ensures status == BadAnnounce <==> r.peer.Some? && r.signed && r.timestamp.None?
      ensures status == BadTimestamp <==> r.peer.Some? && r.signed && r.timestamp == Some(None)
      ensures status == BadEndpoint <==>
        r.peer.Some? && r.signed && r.timestamp.Some? && r.timestamp.value.Some? && !r.endpointsOk
      ensures status != Accepted && status != Stale ==> m == old(m) && run == old(run)
      ensures status == Accepted || status == Stale ==>
        var a := Announcement(r.peer.value, Record(r.timestamp.value.value, r.details));
        && run == old(run) + [a]
        && (status == Accepted <==>
              forall b :: b in old(run) && b.peer == a.peer ==> b.record.timestamp < a.record.timestamp)
    {
      ghost var was := run;
      requests := requests + [r];
      if r.peer.None? {
        return BadKey;
      }
      if !r.signed {
        return BadSignature;
      }
      if r.timestamp.None? {
        return BadAnnounce;
      }
      if r.timestamp.value.None? {
        return BadTimestamp;
      }
      if !r.endpointsOk {
        return BadEndpoint;
      }
      var addr, timeNext := r.peer.value, r.timestamp.value.value;
      ghost var a := Announcement(addr, Record(timeNext, r.details));
      ReplayAppend(was, a);
      NewerThanAll(was, a);
      assert Says(r, a) && r in requests;
      run := run + [a];
      if addr in m {
        if !(timeNext > m[addr].timestamp) {
          return Stale;
        }
      }
      m := m[addr := Record(timeNext, r.details)];
      status := Accepted;
    }

    /** The latest that x announced, or nothing if it never did.  It comes from a request with the key
        and a good signature of x. */
    method Get(x: Peer) returns (r: Option<Record>)
      requires Valid()
      ensures r.None? <==> forall a :: a in run ==> a.peer != x
      ensures r.Some? ==> IsLatest(run, Announcement(x, r.value))
      ensures r.Some? ==> exists q :: (
        q in requests && q.peer == Some(x) && q.signed && q.endpointsOk
        && q.timestamp == Some(Some(r.value.timestamp)) && q.details == r.value.details)
    {
      ReplayHoldsLatest(run);
      r := if x in m then Some(m[x]) else None;
      if r.Some? { assert IsLatest(run, Announcement(x, r.value)); }
    }
  }
}
