/** One beaconnet router on values: its peer table, the decisions its handlers take
    and the packets they emit.  The class in Router.dfy runs these decisions in place;
    the network in Mesh.dfy runs them on every node at once. */
module Routing {
  import opened Bits
  import opened Wrappers

  /** An INET256 address.  Routing only ever compares addresses for equality. */
  type Addr(==, !new)

  datatype PeerState = PeerState(next: Addr, counter: nat)

  type Table = map<Addr, PeerState>

  /** The body of one application message.  `id` names the Tell it came from, so that two
      messages with equal bytes stay apart; routers copy it and never look at it. */
  datatype Letter = Letter(id: nat, text: seq<uint8>)

  datatype Content = Beacon(origin: Addr, counter: nat) | Data(letter: Letter)

  /** A message between two neighbours: the link ends `from` and `to`, the header fields
      `src` and `dst`, and the body. */
  datatype Packet = Packet(from: Addr, to: Addr, src: Addr, dst: Addr, content: Content)

  /** What a router keeps about itself, besides its identity and its peers. */
  datatype Node = Node(table: Table, ourBeacon: nat, lastBeacon: Option<nat>, now: nat)

  datatype Decision = Local | Direct(to: Addr) | ByTable(to: Addr) | Unknown

  /** A beacon is adopted when its origin is new or its counter is higher than the stored one. */
  predicate Adopts(t: Table, origin: Addr, counter: nat) {
    origin !in t || counter > t[origin].counter
  }

  function Updated(t: Table, next: Addr, origin: Addr, counter: nat): Table {
    if Adopts(t, origin, counter) then t[origin := PeerState(next, counter)] else t
  }

  /** Where a message from the application goes first. */
  function RouteAbove(peers: set<Addr>, t: Table, dst: Addr): (hop: Decision)
    ensures !hop.Local?
  {
    if dst in peers then Direct(dst)
    else if dst in t then ByTable(t[dst].next)
    else Unknown
  }

  /** Where a data message from the network goes next. */
  function RouteData(local: Addr, peers: set<Addr>, t: Table, dst: Addr): Decision {
    if dst == local then Local else RouteAbove(peers, t, dst)
  }

  /** The copies that a broadcast sends: one to every peer but `exclude`. */
  function BroadcastCopies(local: Addr, peers: set<Addr>, broadcast: Addr, exclude: Addr, c: Content): (copies: multiset<Packet>)
    ensures forall p :: p in copies ==> p.content == c
  {
    multiset(set m | m in peers && m != exclude :: Packet(local, m, local, broadcast, c))
  }

  /** The beacon a router passes on towards the destination of a targeted beacon, if it knows one. */
  function RelayCopies(local: Addr, t: Table, dst: Addr, c: Content): multiset<Packet> {
    if dst in t then multiset{Packet(local, t[dst].next, local, dst, c)} else multiset{}
  }

  /** All that a router sends on a verified beacon: the rebroadcast of a broadcast beacon it adopts,
      the relay of a targeted one along the updated table, and its own beacon on first contact. */
  function BeaconSends(local: Addr, peers: set<Addr>, broadcast: Addr, t: Table, ourBeacon: nat, p: Packet): multiset<Packet>
    requires p.content.Beacon?
  {
    (if Adopts(t, p.content.origin, p.content.counter) && p.dst == broadcast
     then BroadcastCopies(local, peers, broadcast, p.from, p.content) else multiset{})
    + (if p.dst != broadcast
       then RelayCopies(local, Updated(t, p.from, p.content.origin, p.content.counter), p.dst, p.content) else multiset{})
    + (if p.content.origin !in t then multiset{Packet(local, p.from, local, p.src, Beacon(local, ourBeacon))} else multiset{})
  }

  /** How often packet q is among them. */
  lemma SendsOnBeacon(local: Addr, peers: set<Addr>, broadcast: Addr, t: Table, ourBeacon: nat, p: Packet, q: Packet)
    requires p.content.Beacon?
    ensures var Beacon(origin, counter) := p.content;
      var newer := origin !in t || counter > t[origin].counter;
      var t' := if newer then t[origin := PeerState(p.from, counter)] else t;
      BeaconSends(local, peers, broadcast, t, ourBeacon, p)[q] ==
        (if newer && p.dst == broadcast && q.to in peers && q.to != p.from
            && q == Packet(local, q.to, local, broadcast, p.content) then 1 else 0)
        + (if p.dst != broadcast && p.dst in t' && q == Packet(local, t'[p.dst].next, local, p.dst, p.content) then 1 else 0)
        + (if origin !in t && q == Packet(local, p.from, local, p.src, Beacon(local, ourBeacon)) then 1 else 0)
  {
    CopiesOfBroadcast(local, peers, broadcast, p.from, p.content, q);
  }

  lemma AllSendsOnBeacon(local: Addr, peers: set<Addr>, broadcast: Addr, t: Table, ourBeacon: nat, p: Packet)
    requires p.content.Beacon?
    ensures var Beacon(origin, counter) := p.content;
      var newer := origin !in t || counter > t[origin].counter;
      var t' := if newer then t[origin := PeerState(p.from, counter)] else t;
      && t' == Updated(t, p.from, origin, counter)
      && forall q :: (BeaconSends(local, peers, broadcast, t, ourBeacon, p)[q] ==
        (if newer && p.dst == broadcast && q.to in peers && q.to != p.from
            && q == Packet(local, q.to, local, broadcast, p.content) then 1 else 0)
        + (if p.dst != broadcast && p.dst in t' && q == Packet(local, t'[p.dst].next, local, p.dst, p.content) then 1 else 0)
        + (if origin !in t && q == Packet(local, p.from, local, p.src, Beacon(local, ourBeacon)) then 1 else 0))
  {
    forall q {
      SendsOnBeacon(local, peers, broadcast, t, ourBeacon, p, q);
    }
  }

  lemma CopiesOfBroadcast(local: Addr, peers: set<Addr>, broadcast: Addr, exclude: Addr, c: Content, q: Packet)
    ensures BroadcastCopies(local, peers, broadcast, exclude, c)[q] ==
      if q.to in peers && q.to != exclude && q == Packet(local, q.to, local, broadcast, c) then 1 else 0
  {}

  /** A heartbeat beacons when the period has passed since the last beacon. */
  predicate BeaconDue(lastBeacon: Option<nat>, now: nat, period: nat) {
    lastBeacon.None? || now - lastBeacon.value >= period
  }
}
