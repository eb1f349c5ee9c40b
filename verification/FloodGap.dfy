/** Why the coverage of a flood needs its condition on targeted beacons. */
module FloodGap {
  import opened Routing
  import opened Wrappers
  import opened Mesh
  import opened Flooding
  import opened Coverage

  /** Three nodes in a line, d - x - y, and the counter of a beacon. */
  datatype Line = Line(cfg: Config, d: Addr, x: Addr, y: Addr, c: nat) {
    ghost predicate Valid() {
      ValidConfig(cfg) && d != x && x != y && d != y && cfg.peers == map[d := {x}, x := {d, y}, y := {x}]
    }

    /** The broadcast of d to x. */
    ghost function Flood(): Packet {
      Packet(d, x, d, cfg.broadcast, Beacon(d, c))
    }

    /** The reply of d to x on first hearing from it. */
    ghost function Reply(): Packet {
      Packet(d, x, d, x, Beacon(d, c))
    }

    /** The broadcast of x. */
    ghost function Hello(to: Addr): Packet {
      Packet(x, to, x, cfg.broadcast, Beacon(x, c))
    }

    /** What matters of a state once d has beaconed: whether x knows d, and what is in transit. */
    ghost predicate Stage(s: State, xKnows: bool, outbox: multiset<Packet>, wire: multiset<Packet>) {
      && s.nodes.Keys == {d, x, y} == cfg.peers.Keys && |s.trails| == |s.tells|
      && s.nodes[x].table == (if xKnows then map[d := PeerState(d, c)] else map[])
      && s.nodes[y].table == map[]
      && s.nodes[d].ourBeacon == c && s.nodes[d].lastBeacon == Some(c)
      && s.outbox == outbox && s.wire == wire
    }
  }

  lemma FirstHeartbeat(l: Line, s: State)
    requires l.Valid() && Init(l.cfg, s) && l.d in s.nodes && l.c >= s.nodes[l.d].now
    ensures Enabled(l.cfg, s, Heartbeat(l.d, l.c))
    ensures var t := Apply(l.cfg, s, Heartbeat(l.d, l.c));
      && l.Stage(t, false, multiset{l.Flood()}, multiset{})
      && t.nodes[l.d].table == map[] && t.nodes[l.x] == s.nodes[l.x]
  {
    assert (set m | m in l.cfg.peers[l.d] && m != l.d :: Packet(l.d, m, l.d, l.cfg.broadcast, Beacon(l.d, l.c))) == {l.Flood()};
    assert s.outbox + multiset({l.Flood()}) == multiset{l.Flood()};
  }

  lemma SecondHeartbeat(l: Line, s: State)
    requires l.Valid() && l.Stage(s, false, multiset{l.Flood()}, multiset{}) && s.nodes[l.d].table == map[]
    requires l.c >= s.nodes[l.x].now && s.nodes[l.x].lastBeacon == None
    ensures Enabled(l.cfg, s, Heartbeat(l.x, l.c))
    ensures var t := Apply(l.cfg, s, Heartbeat(l.x, l.c));
      && l.Stage(t, false, multiset{l.Flood(), l.Hello(l.d), l.Hello(l.y)}, multiset{})
      && t.nodes[l.d].table == map[]
  {
    assert (set m | m in l.cfg.peers[l.x] && m != l.x :: Packet(l.x, m, l.x, l.cfg.broadcast, Beacon(l.x, l.c)))
        == {l.Hello(l.d), l.Hello(l.y)};
    assert multiset{l.Flood()} + multiset({l.Hello(l.d), l.Hello(l.y)}) == multiset{l.Flood(), l.Hello(l.d), l.Hello(l.y)};
  }

  lemma TransmitStage(l: Line, s: State, xKnows: bool, outbox: multiset<Packet>, p: Packet)
    requires l.Stage(s, xKnows, outbox, multiset{}) && p in outbox
    ensures Enabled(l.cfg, s, Transmit(p))
    ensures l.Stage(Apply(l.cfg, s, Transmit(p)), xKnows, outbox - multiset{p}, multiset{p})
    ensures Apply(l.cfg, s, Transmit(p)).nodes == s.nodes
  {
    assert multiset{} + multiset{p} == multiset{p};
  }

  /** d hears from x for the first time, and replies. */
  lemma FirstContact(l: Line, s: State, outbox: multiset<Packet>)
    requires l.Valid() && l.Stage(s, false, outbox, multiset{l.Hello(l.d)}) && s.nodes[l.d].table == map[]
    ensures Enabled(l.cfg, s, DeliverBeacon(l.Hello(l.d)))
    ensures var t := Apply(l.cfg, s, DeliverBeacon(l.Hello(l.d)));
      && Enabled(l.cfg, t, Respond(RespondJob(l.d, l.x, l.x)))
      && l.Stage(Apply(l.cfg, t, Respond(RespondJob(l.d, l.x, l.x))), false, outbox + multiset{l.Reply()}, multiset{})
  {
    assert (set m | m in l.cfg.peers[l.d] && m != l.x :: Packet(l.d, m, l.d, l.cfg.broadcast, Beacon(l.x, l.c))) == {};
    assert multiset{l.Hello(l.d)} - multiset{l.Hello(l.d)} == multiset{};
  }

  /** The reply is adopted but not passed on. */
  lemma ReplyAdopted(l: Line, s: State, outbox: multiset<Packet>)
    requires l.Valid() && l.Stage(s, false, outbox, multiset{l.Reply()})
    ensures Enabled(l.cfg, s, DeliverBeacon(l.Reply()))
    ensures l.Stage(Apply(l.cfg, s, DeliverBeacon(l.Reply())), true, outbox, multiset{})
  {
    assert multiset{l.Reply()} - multiset{l.Reply()} == multiset{};
  }

  /** The broadcast then brings nothing new, and is not passed on either. */
  lemma FloodIgnored(l: Line, s: State, outbox: multiset<Packet>)
    requires l.Valid() && l.Stage(s, true, outbox, multiset{l.Flood()})
    ensures Enabled(l.cfg, s, DeliverBeacon(l.Flood()))
    ensures l.Stage(Apply(l.cfg, s, DeliverBeacon(l.Flood())), true, outbox, multiset{})
  {
    assert multiset{l.Flood()} - multiset{l.Flood()} == multiset{};
  }

  lemma ReachReply(l: Line, s: State) returns (t: State)
    requires l.Valid() && Init(l.cfg, s) && l.d in s.nodes && l.x in s.nodes
    requires l.c >= s.nodes[l.d].now && l.c >= s.nodes[l.x].now
    ensures Reaches(l.cfg, s, t) && l.Stage(t, false, multiset{l.Flood(), l.Hello(l.y), l.Reply()}, multiset{})
  {
    assert IsRun(l.cfg, s, []) && LosesNothing([]) && After(l.cfg, s, []) == s;
    FirstHeartbeat(l, s);
    ReachesNext(l.cfg, s, s, Heartbeat(l.d, l.c));
    var s1 := Apply(l.cfg, s, Heartbeat(l.d, l.c));
    SecondHeartbeat(l, s1);
    ReachesNext(l.cfg, s, s1, Heartbeat(l.x, l.c));
    var s2 := Apply(l.cfg, s1, Heartbeat(l.x, l.c));
    t := ReachContact(l, s, s2);
  }

  lemma ReachSent(l: Line, s: State, t: State, xKnows: bool, outbox: multiset<Packet>, p: Packet) returns (u: State)
    requires Reaches(l.cfg, s, t) && l.Stage(t, xKnows, outbox + multiset{p}, multiset{})
    ensures Reaches(l.cfg, s, u) && l.Stage(u, xKnows, outbox, multiset{p}) && u.nodes == t.nodes
  {
    TransmitStage(l, t, xKnows, outbox + multiset{p}, p);
    ReachesNext(l.cfg, s, t, Transmit(p));
    u := Apply(l.cfg, t, Transmit(p));
    assert outbox + multiset{p} - multiset{p} == outbox;
  }

  lemma ReachContact(l: Line, s: State, s2: State) returns (t: State)
    requires l.Valid() && Reaches(l.cfg, s, s2) && s2.nodes.Keys == {l.d, l.x, l.y} && s2.nodes[l.d].table == map[]
    requires l.Stage(s2, false, multiset{l.Flood(), l.Hello(l.d), l.Hello(l.y)}, multiset{})
    ensures Reaches(l.cfg, s, t) && l.Stage(t, false, multiset{l.Flood(), l.Hello(l.y), l.Reply()}, multiset{})
  {
    Swap(l.Flood(), l.Hello(l.d), l.Hello(l.y));
    var s3 := ReachSent(l, s, s2, false, multiset{l.Flood(), l.Hello(l.y)}, l.Hello(l.d));
    t := ReachReplied(l, s, s3, multiset{l.Flood(), l.Hello(l.y)});
    Swap(l.Flood(), l.Reply(), l.Hello(l.y));
  }

  lemma Swap(a: Packet, b: Packet, c: Packet)
    ensures multiset{a, b, c} == multiset{a, c} + multiset{b} == multiset{a, c, b}
    ensures multiset{a, c} == multiset{c} + multiset{a}
  {}

  lemma ReachReplied(l: Line, s: State, t: State, outbox: multiset<Packet>) returns (u: State)
    requires l.Valid() && Reaches(l.cfg, s, t) && l.Stage(t, false, outbox, multiset{l.Hello(l.d)}) && t.nodes[l.d].table == map[]
    ensures Reaches(l.cfg, s, u) && l.Stage(u, false, outbox + multiset{l.Reply()}, multiset{})
  {
    FirstContact(l, t, outbox);
    ReachesNext(l.cfg, s, t, DeliverBeacon(l.Hello(l.d)));
    var t1 := Apply(l.cfg, t, DeliverBeacon(l.Hello(l.d)));
    ReachesNext(l.cfg, s, t1, Respond(RespondJob(l.d, l.x, l.x)));
    u := Apply(l.cfg, t1, Respond(RespondJob(l.d, l.x, l.x)));
  }

  lemma ReachAdopted(l: Line, s: State, t: State, outbox: multiset<Packet>) returns (u: State)
    requires l.Valid() && Reaches(l.cfg, s, t) && l.Stage(t, false, outbox + multiset{l.Reply()}, multiset{})
    ensures Reaches(l.cfg, s, u) && l.Stage(u, true, outbox, multiset{})
  {
    var t1 := ReachSent(l, s, t, false, outbox, l.Reply());
    ReplyAdopted(l, t1, outbox);
    ReachesNext(l.cfg, s, t1, DeliverBeacon(l.Reply()));
    u := Apply(l.cfg, t1, DeliverBeacon(l.Reply()));
  }

  lemma ReachIgnored(l: Line, s: State, t: State, outbox: multiset<Packet>) returns (u: State)
    requires l.Valid() && Reaches(l.cfg, s, t) && l.Stage(t, true, outbox + multiset{l.Flood()}, multiset{})
    ensures Reaches(l.cfg, s, u) && l.Stage(u, true, outbox, multiset{})
  {
    var t1 := ReachSent(l, s, t, true, outbox, l.Flood());
    FloodIgnored(l, t1, outbox);
    ReachesNext(l.cfg, s, t1, DeliverBeacon(l.Flood()));
    u := Apply(l.cfg, t1, DeliverBeacon(l.Flood()));
  }

  lemma GapIsOpen(l: Line, u: State)
    requires l.Valid() && l.Stage(u, true, multiset{l.Hello(l.y)}, multiset{})
    ensures Beaconed(u, l.d, l.c) && !HasNewer(u, l.y, l.d, l.c)
    ensures forall p :: InTransit(u, p) ==> !Floods(l.cfg, p, l.d, l.c)
  {}

  /** A run that loses nothing, in which x adopts the beacon of d from the targeted reply before the
      broadcast copy arrives: the flood ends at x, and y, connected to d, never hears of it. */
  lemma TargetedBeaconStopsFlood(l: Line, s: State)
    requires l.Valid() && Init(l.cfg, s) && l.d in s.nodes && l.x in s.nodes
    requires l.c >= s.nodes[l.d].now && l.c >= s.nodes[l.x].now
    ensures IsPath(l.cfg, [l.d, l.x, l.y])
    ensures exists t :: Reaches(l.cfg, s, t) && Beaconed(t, l.d, l.c) && !HasNewer(t, l.y, l.d, l.c)
                        && forall p :: InTransit(t, p) ==> !Floods(l.cfg, p, l.d, l.c)
  {
    var t := ReachGap(l, s);
    GapIsOpen(l, t);
  }

  lemma ReachGap(l: Line, s: State) returns (t: State)
    requires l.Valid() && Init(l.cfg, s) && l.d in s.nodes && l.x in s.nodes
    requires l.c >= s.nodes[l.d].now && l.c >= s.nodes[l.x].now
    ensures Reaches(l.cfg, s, t) && l.Stage(t, true, multiset{l.Hello(l.y)}, multiset{})
  {
    var t0 := ReachReply(l, s);
    Swap(l.Flood(), l.Reply(), l.Hello(l.y));
    var t1 := ReachAdopted(l, s, t0, multiset{l.Flood(), l.Hello(l.y)});
    t := ReachIgnored(l, s, t1, multiset{l.Hello(l.y)});
  }
}
