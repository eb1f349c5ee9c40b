/** The beaconnet router object: its methods change the table in place and return what they
    send.  Each is proved against the decisions in Routing, which the network model runs. */
module Router {
  import opened Routing
  import opened Wrappers

  const UINT64: nat := 0x1_0000_0000_0000_0000

  /** time.Duration(x - y) for 64-bit unsigned x and y: wrap around, then read as signed. */
  function WrappedDifference(x: nat, y: nat): int {
    var w := (x - y) % UINT64;
    if w < UINT64 / 2 then w else w - UINT64
  }

  predicate Expired(now: nat, counter: nat, ttl: nat) {
    WrappedDifference(now, counter) > ttl
  }

  function Unexpired(t: Table, now: nat, ttl: nat): Table {
    map a | a in t && !Expired(now, t[a].counter, ttl) :: t[a]
  }

  /** For times of this era the wrapped age is the age: an entry expires when it is more than
      the TTL old, and one from the future does not. */
  lemma ExpiredMeansOld(now: nat, counter: nat, ttl: nat)
    requires now < UINT64 / 2 && counter < UINT64 / 2
    ensures Expired(now, counter, ttl) <==> now - counter > ttl
  {
    if now < counter {
      assert (now - counter) % UINT64 == now - counter + UINT64;
    }
  }

  class Router {
    const localID: Addr
    const broadcastAddr: Addr
    const peers: seq<Addr>
    const peerStateTTL: nat
    const beaconPeriod: nat
    var peerStates: Table
    var ourBeacon: nat
    var lastBeacon: Option<nat>
    var lastCleanup: Option<nat>

    ghost predicate Valid() {
      && (forall i, j :: 0 <= i < j < |peers| ==> peers[i] != peers[j])
      && peerStateTTL > 0
    }

    ghost function PeerSet(): set<Addr> {
      set p | p in peers
    }

    constructor (localID: Addr, broadcastAddr: Addr, peers: seq<Addr>, ttl: nat, period: nat, now: nat)
      requires forall i, j :: 0 <= i < j < |peers| ==> peers[i] != peers[j]
      requires ttl > 0
      ensures Valid()
      ensures this.localID == localID && this.broadcastAddr == broadcastAddr && this.peers == peers
      ensures peerStateTTL == ttl && beaconPeriod == period
      ensures peerStates == map[] && ourBeacon == now && lastBeacon == lastCleanup == None
    {
      this.localID, this.broadcastAddr, this.peers := localID, broadcastAddr, peers;
      peerStateTTL, beaconPeriod := ttl, period;
      peerStates, ourBeacon := map[], now;
      lastBeacon, lastCleanup := None, None;
    }

    method UpdatePeerState(next: Addr, peer: Addr, counter: nat) returns (updated: bool, created: bool)
      modifies this`peerStates
      ensures updated <==> peer !in old(peerStates) || counter > old(peerStates)[peer].counter
      ensures created <==> peer !in old(peerStates)
      ensures peerStates == if updated then old(peerStates)[peer := PeerState(next, counter)] else old(peerStates)
    {
      var known := peer in peerStates;
      updated := false;
      if !known || counter > peerStates[peer].counter {
        updated := true;
        peerStates := peerStates[peer := PeerState(next, counter)];
      }
      created := !known;
    }

    /** One packet per peer other than `exclude`, in the order of the peer list. */
    method Broadcast(exclude: Addr, c: Content) returns (sends: seq<Packet>)
      requires Valid()
      ensures forall q :: (multiset(sends)[q] ==
        if q.to in peers && q.to != exclude && q == Packet(localID, q.to, localID, broadcastAddr, c) then 1 else 0)
      ensures multiset(sends) == BroadcastCopies(localID, PeerSet(), broadcastAddr, exclude, c)
    {
      sends := [];
      for i := 0 to |peers|
        invariant forall p :: p in sends ==> p == Packet(localID, p.to, localID, broadcastAddr, c)
        invariant forall m :: Packet(localID, m, localID, broadcastAddr, c) in sends <==> m in peers[..i] && m != exclude
        invariant forall j, k :: 0 <= j < k < |sends| ==> sends[j] != sends[k]
      {
        if peers[i] != exclude {
          assert peers[i] !in peers[..i];
          sends := sends + [Packet(localID, peers[i], localID, broadcastAddr, c)];
        }
      }
      assert peers[..|peers|] == peers;
      MultisetOfDistinct(sends);
      assert (set p | p in sends) == (set m | m in PeerSet() && m != exclude :: Packet(localID, m, localID, broadcastAddr, c));
    }

    /** Packet p holds a beacon and came over the link from p.from; `verified` tells whether its
        signature is good.  `heard` is the address reported to the network above.  What is sent is
        the rebroadcast of a broadcast beacon that is new, the relay of a targeted one by the table
        as it is then, and our own beacon on first contact; nothing else. */
    method HandleBeacon(p: Packet, verified: bool) returns (sends: seq<Packet>, heard: Option<Addr>)
      requires Valid() && p.content.Beacon?
      modifies this`peerStates
      ensures !verified ==> peerStates == old(peerStates) && sends == [] && heard == None
      ensures verified ==>
        var Beacon(origin, counter) := p.content;
        var newer := origin !in old(peerStates) || counter > old(peerStates)[origin].counter;
        && heard == Some(origin)
        && peerStates == (if newer then old(peerStates)[origin := PeerState(p.from, counter)] else old(peerStates))
        && forall q :: (multiset(sends)[q] ==
          (if newer && p.dst == broadcastAddr && q.to in peers && q.to != p.from
              && q == Packet(localID, q.to, localID, broadcastAddr, p.content) then 1 else 0)
          + (if p.dst != broadcastAddr && p.dst in peerStates
                && q == Packet(localID, peerStates[p.dst].next, localID, p.dst, p.content) then 1 else 0)
          + (if origin !in old(peerStates) && q == Packet(localID, p.from, localID, p.src, Beacon(localID, ourBeacon)) then 1 else 0))
      ensures verified ==>
        && peerStates == Updated(old(peerStates), p.from, p.content.origin, p.content.counter)
        && multiset(sends) == BeaconSends(localID, PeerSet(), broadcastAddr, old(peerStates), ourBeacon, p)
    {
      sends, heard := [], None;
      if !verified {
        return;
      }
      ghost var was := peerStates;
      var updated, created := UpdatePeerState(p.from, p.content.origin, p.content.counter);
      sends := SendOnBeacon(p, updated, created);
      heard := Some(p.content.origin);
      AllSendsOnBeacon(localID, PeerSet(), broadcastAddr, was, ourBeacon, p);
    }

    /** The sends of HandleBeacon, after the update. */
    method SendOnBeacon(p: Packet, updated: bool, created: bool) returns (sends: seq<Packet>)
      requires Valid() && p.content.Beacon?
      ensures multiset(sends) ==
        (if updated && p.dst == broadcastAddr
         then BroadcastCopies(localID, PeerSet(), broadcastAddr, p.from, p.content) else multiset{})
        + (if p.dst != broadcastAddr then RelayCopies(localID, peerStates, p.dst, p.content) else multiset{})
        + (if created then multiset{Packet(localID, p.from, localID, p.src, Beacon(localID, ourBeacon))} else multiset{})
    {
      sends := [];
      if updated && p.dst == broadcastAddr {
        sends := Broadcast(p.from, p.content);
      }
      if p.dst != broadcastAddr {
        if p.dst in peerStates {
          sends := sends + [Packet(localID, peerStates[p.dst].next, localID, p.dst, p.content)];
        }
      }
      if created {
        sends := sends + [Packet(localID, p.from, localID, p.src, Beacon(localID, ourBeacon))];
      }
    }

    /** `delivered` is what goes up to the application; `stuck` is the "cannot forward" error. */
    method HandleData(p: Packet) returns (sends: seq<Packet>, delivered: Option<(Addr, Letter)>, stuck: bool)
      requires p.content.Data?
      ensures delivered == if p.dst == localID then Some((p.src, p.content.letter)) else None
      ensures stuck <==> p.dst != localID && p.dst !in peers && p.dst !in peerStates
      ensures sends ==
        if p.dst == localID || stuck then []
        else [Packet(localID, if p.dst in peers then p.dst else peerStates[p.dst].next, p.src, p.dst, p.content)]
      ensures var hop := RouteData(localID, PeerSet(), peerStates, p.dst);
        && (delivered.Some? <==> hop.Local?) && (stuck <==> hop.Unknown?)
        && (sends != [] ==> !hop.Local? && !hop.Unknown? && sends[0].to == hop.to)
    {
      sends, delivered, stuck := [], None, false;
      if p.dst == localID {
        delivered := Some((p.src, p.content.letter));
      } else if p.dst in peers {
        sends := [p.(from := localID, to := p.dst)];
      } else if p.dst !in peerStates {
        stuck := true;
      } else {
        sends := [p.(from := localID, to := peerStates[p.dst].next)];
      }
    }

    method HandleAbove(dst: Addr, letter: Letter) returns (ok: bool, sends: seq<Packet>)
      ensures ok <==> dst in peers || dst in peerStates
      ensures sends ==
        if ok then [Packet(localID, if dst in peers then dst else peerStates[dst].next, localID, dst, Data(letter))] else []
      ensures var hop := RouteAbove(PeerSet(), peerStates, dst);
        ok == !hop.Unknown? && (ok ==> sends[0].to == hop.to)
    {
      var next: Addr;
      if dst in peers {
        next := dst;
      } else {
        if dst !in peerStates {
          return false, [];
        }
        next := peerStates[dst].next;
      }
      ok, sends := true, [Packet(localID, next, localID, dst, Data(letter))];
    }

    /** The cleanup guard subtracts the wrong way round, so on a clock that does not go back the
        table survives every heartbeat. */
    method Heartbeat(now: nat) returns (sends: seq<Packet>)
      requires Valid()
      modifies this
      ensures old(lastCleanup).None? || old(lastCleanup).value <= now ==>
        peerStates == old(peerStates) && lastCleanup == old(lastCleanup)
      ensures var cleans := old(lastCleanup).Some? && old(lastCleanup).value - now >= peerStateTTL;
        && peerStates == (if cleans then Unexpired(old(peerStates), now, peerStateTTL) else old(peerStates))
        && lastCleanup == if cleans then Some(now) else old(lastCleanup)
      ensures old(lastBeacon).None? || now >= old(lastBeacon).value + beaconPeriod ==>
        && ourBeacon == now && lastBeacon == Some(now)
        && forall q :: (multiset(sends)[q] ==
          if q.to in peers && q.to != localID && q == Packet(localID, q.to, localID, broadcastAddr, Beacon(localID, now)) then 1 else 0)
      ensures old(lastBeacon).Some? && now < old(lastBeacon).value + beaconPeriod ==>
        ourBeacon == old(ourBeacon) && lastBeacon == old(lastBeacon) && sends == []
      ensures (lastBeacon, ourBeacon) ==
        if BeaconDue(old(lastBeacon), now, beaconPeriod) then (Some(now), now) else (old(lastBeacon), old(ourBeacon))
    {
      sends := [];
      if lastCleanup.Some? && lastCleanup.value - now >= peerStateTTL {
        CleanupOnce(now);
        lastCleanup := Some(now);
      }
      if lastBeacon.None? || now - lastBeacon.value >= beaconPeriod {
        ourBeacon := now;
        sends := Broadcast(localID, Beacon(localID, now));
        lastBeacon := Some(now);
      }
    }

    /** Drops exactly the expired entries. */
    method CleanupOnce(now: nat)
      modifies this`peerStates
      ensures forall a :: a in peerStates <==> a in old(peerStates) && !Expired(now, old(peerStates)[a].counter, peerStateTTL)
      ensures forall a :: a in peerStates ==> peerStates[a] == old(peerStates)[a]
      ensures peerStates == Unexpired(old(peerStates), now, peerStateTTL)
    {
      var todo := peerStates.Keys;
      while todo != {}
        invariant todo <= old(peerStates).Keys
        invariant peerStates == map a | a in old(peerStates)
                                      && (a in todo || !Expired(now, old(peerStates)[a].counter, peerStateTTL)) :: old(peerStates)[a]
        decreases todo
      {
        var a :| a in todo;
        todo := todo - {a};
        if Expired(now, peerStates[a].counter, peerStateTTL) {
          peerStates := peerStates - {a};
        }
      }
    }
  }

  /** Try i is the first to know a next hop for dst: a link, or an entry in its view of the table. */
  ghost predicate FirstRoute(peers: set<Addr>, views: seq<Table>, dst: Addr, i: nat) {
    && i < |views| && (dst in peers || dst in views[i])
    && forall j :: 0 <= j < i ==> dst !in peers && dst !in views[j]
  }

  /** The retry loop of Tell.  `views` are the tables that HandleAbove finds at its tries before
      the deadline.  The first try that has a next hop is the last one, whether or not the link
      takes the message, so at most one message leaves. */
  method Tell(local: Addr, peers: set<Addr>, views: seq<Table>, dst: Addr, letter: Letter) returns (ok: bool, sends: seq<Packet>)
    ensures ok <==> views != [] && (dst in peers || exists i: nat :: i < |views| && dst in views[i])
    ensures !ok ==> sends == []
    ensures ok ==> exists i: nat :: (
      FirstRoute(peers, views, dst, i)
      && sends == [Packet(local, if dst in peers then dst else views[i][dst].next, local, dst, Data(letter))])
  {
    for i := 0 to |views|
      invariant i > 0 ==> dst !in peers
      invariant forall j :: 0 <= j < i ==> dst !in views[j]
    {
      var hop := RouteAbove(peers, views[i], dst);
      if !hop.Unknown? {
        assert FirstRoute(peers, views, dst, i);
        return true, [Packet(local, hop.to, local, dst, Data(letter))];
      }
    }
    ok, sends := false, [];
  }

  lemma {:induction false} MultisetOfDistinct<T>(s: seq<T>)
    requires forall j, k :: 0 <= j < k < |s| ==> s[j] != s[k]
    ensures multiset(s) == multiset(set x | x in s)
    decreases |s|
  {
    if s != [] {
      var init, last := s[..|s| - 1], s[|s| - 1];
      MultisetOfDistinct(init);
      assert s == init + [last];
      assert (set x | x in s) == (set x | x in init) + {last};
    }
  }
}
