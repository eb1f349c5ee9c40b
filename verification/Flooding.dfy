/** How far and how often a beacon is flooded. */
module Flooding {
  import opened Routing
  import opened Mesh
  import opened LoopFreedom

  /** Node d has broadcast a beacon with counter at least c from a heartbeat. */
  ghost predicate Beaconed(s: State, d: Addr, c: nat) {
    d in s.nodes && s.nodes[d].lastBeacon.Some? && s.nodes[d].lastBeacon.value >= c
  }

  ghost predicate HasNewer(s: State, n: Addr, d: Addr, c: nat) {
    Knows(s, n, d) && Entry(s, n, d).counter >= c
  }

  // ----- At most one rebroadcast per router and beacon

  ghost predicate IsLink(cfg: Config, n: Addr, m: Addr) {
    n in cfg.peers && m in cfg.peers[n]
  }

  ghost function Allowance(cfg: Config, s: State, d: Addr, c: nat, n: Addr, m: Addr): nat {
    if !IsLink(cfg, n, m) then 0
    else (if HasNewer(s, n, d, c) then 1 else 0) + (if n == d && Beaconed(s, d, c) then 1 else 0)
  }

  ghost predicate EmittedOk(cfg: Config, s: State) {
    forall d, c, n, m :: Emitted(s, d, c)[(n, m)] <= Allowance(cfg, s, d, c, n, m)
  }

  lemma HeartbeatEmits(cfg: Config, s: State, n: Addr, now: nat)
    requires ValidConfig(cfg) && EmittedOk(cfg, s) && Enabled(cfg, s, Heartbeat(n, now))
    ensures EmittedOk(cfg, ApplyHeartbeat(cfg, s, n, now))
  {
    var s' := ApplyHeartbeat(cfg, s, n, now);
    forall d, c, a, b ensures Emitted(s', d, c)[(a, b)] <= Allowance(cfg, s', d, c, a, b) {
      assert Emitted(s, d, c)[(a, b)] <= Allowance(cfg, s, d, c, a, b);
      assert HasNewer(s, a, d, c) <==> HasNewer(s', a, d, c);
      assert Beaconed(s, d, c) ==> Beaconed(s', d, c);
    }
  }

  lemma BeaconEmits(cfg: Config, s: State, p: Packet)
    requires EmittedOk(cfg, s) && Enabled(cfg, s, DeliverBeacon(p))
    ensures EmittedOk(cfg, ApplyBeacon(cfg, s, p))
  {
    var s' := ApplyBeacon(cfg, s, p);
    forall d, c, a, b ensures Emitted(s', d, c)[(a, b)] <= Allowance(cfg, s', d, c, a, b) {
      assert Emitted(s, d, c)[(a, b)] <= Allowance(cfg, s, d, c, a, b);
      BeaconAllowed(cfg, s, p, d, c, a, b);
    }
  }

  /** A router that rebroadcasts a beacon had no entry as new before, and has one now. */
  lemma BeaconAllowed(cfg: Config, s: State, p: Packet, d: Addr, c: nat, a: Addr, b: Addr)
    requires Enabled(cfg, s, DeliverBeacon(p)) && Emitted(s, d, c)[(a, b)] <= Allowance(cfg, s, d, c, a, b)
    ensures var s' := ApplyBeacon(cfg, s, p); Emitted(s', d, c)[(a, b)] <= Allowance(cfg, s', d, c, a, b)
  {
    var s' := ApplyBeacon(cfg, s, p);
    BeaconAllowance(cfg, s, p, d, c, a, b);
    if d == p.content.origin && c == p.content.counter && a == p.to && Adopts(s.nodes[a].table, d, c) {
      BeaconRaises(cfg, s, p);
    } else {
      assert Emitted(s', d, c)[(a, b)] == Emitted(s, d, c)[(a, b)];
    }
  }

  lemma BeaconAllowance(cfg: Config, s: State, p: Packet, d: Addr, c: nat, a: Addr, b: Addr)
    requires Enabled(cfg, s, DeliverBeacon(p))
    ensures Allowance(cfg, s, d, c, a, b) <= Allowance(cfg, ApplyBeacon(cfg, s, p), d, c, a, b)
  {
    var s' := ApplyBeacon(cfg, s, p);
    assert HasNewer(s, a, d, c) ==> HasNewer(s', a, d, c);
    assert Beaconed(s, d, c) <==> Beaconed(s', d, c);
  }

  lemma BeaconRaises(cfg: Config, s: State, p: Packet)
    requires Enabled(cfg, s, DeliverBeacon(p)) && Adopts(s.nodes[p.to].table, p.content.origin, p.content.counter)
    ensures var d, c := p.content.origin, p.content.counter;
      !HasNewer(s, p.to, d, c) && HasNewer(ApplyBeacon(cfg, s, p), p.to, d, c)
  {}

  lemma OtherEmits(cfg: Config, s: State, step: Step)
    requires EmittedOk(cfg, s) && Enabled(cfg, s, step) && !step.Heartbeat? && !step.DeliverBeacon?
    ensures EmittedOk(cfg, Apply(cfg, s, step))
  {
    OtherFrame(cfg, s, step);
    SameEmits(cfg, s, Apply(cfg, s, step));
  }

  lemma OtherFrame(cfg: Config, s: State, step: Step)
    requires Enabled(cfg, s, step) && !step.Heartbeat? && !step.DeliverBeacon?
    ensures Apply(cfg, s, step).nodes == s.nodes && Apply(cfg, s, step).emitted == s.emitted
  {
    if HandlesNoBeacon(step) { QuietStep(cfg, s, step); }
  }

  lemma SameEmits(cfg: Config, s: State, s': State)
    requires EmittedOk(cfg, s) && s'.nodes == s.nodes && s'.emitted == s.emitted
    ensures EmittedOk(cfg, s')
  {
    forall d, c, a, b ensures Emitted(s', d, c)[(a, b)] <= Allowance(cfg, s', d, c, a, b) {
      assert Emitted(s, d, c)[(a, b)] <= Allowance(cfg, s, d, c, a, b);
    }
  }

  lemma {:induction false} RunEmits(cfg: Config, s: State, run: seq<Step>)
    requires ValidConfig(cfg) && EmittedOk(cfg, s) && IsRun(cfg, s, run)
    ensures EmittedOk(cfg, After(cfg, s, run))
    decreases run
  {
    if run != [] {
      match run[0] {
        case Heartbeat(n, now) => HeartbeatEmits(cfg, s, n, now);
        case DeliverBeacon(p) => BeaconEmits(cfg, s, p);
        case _ => OtherEmits(cfg, s, run[0]);
      }
      RunEmits(cfg, Apply(cfg, s, run[0]), run[1..]);
    }
  }

  ghost function LinksFrom(cfg: Config, nodes: set<Addr>): set<(Addr, Addr)> {
    set n, m | n in nodes && n in cfg.peers && m in cfg.peers[n] :: (n, m)
  }

  /** The sum of the peer counts of some nodes. */
  ghost function PeerCounts(cfg: Config, nodes: set<Addr>): nat
    requires nodes <= cfg.peers.Keys
  {
    if nodes == {} then 0
    else var n :| n in nodes; |cfg.peers[n]| + PeerCounts(cfg, nodes - {n})
  }

  lemma {:induction false} PairsCount(n: Addr, ms: set<Addr>)
    ensures |set m | m in ms :: (n, m)| == |ms|
  {
    if ms != {} {
      var x :| x in ms;
      PairsCount(n, ms - {x});
      assert (set m | m in ms :: (n, m)) == (set m | m in ms - {x} :: (n, m)) + {(n, x)};
    }
  }

  lemma {:induction false} LinksCount(cfg: Config, nodes: set<Addr>)
    requires nodes <= cfg.peers.Keys
    ensures |LinksFrom(cfg, nodes)| == PeerCounts(cfg, nodes)
    decreases nodes
  {
    if nodes != {} {
      var n :| n in nodes && PeerCounts(cfg, nodes) == |cfg.peers[n]| + PeerCounts(cfg, nodes - {n});
      LinksCount(cfg, nodes - {n});
      PairsCount(n, cfg.peers[n]);
      var own := set m | m in cfg.peers[n] :: (n, m);
      assert LinksFrom(cfg, nodes) == LinksFrom(cfg, nodes - {n}) + own;
      assert LinksFrom(cfg, nodes - {n}) !! own;
    }
  }

  lemma SubmultisetSmaller<T>(a: multiset<T>, b: multiset<T>)
    requires a <= b
    ensures |a| <= |b|
  {
    assert b == a + (b - a);
  }

  lemma CopiesBounded(cfg: Config, d: Addr, copies: multiset<(Addr, Addr)>)
    requires d in cfg.peers
    requires forall n, m :: (n, m) in copies ==> IsLink(cfg, n, m)
    requires forall n, m :: copies[(n, m)] <= if n == d then 2 else 1
    ensures |copies| <= PeerCounts(cfg, cfg.peers.Keys) + |cfg.peers[d]|
  {
    var all, own := LinksFrom(cfg, cfg.peers.Keys), set m | m in cfg.peers[d] :: (d, m);
    forall l | l in copies ensures copies[l] <= (multiset(all) + multiset(own))[l] {
      var (n, m) := l;
      assert IsLink(cfg, n, m);
    }
    SubmultisetSmaller(copies, multiset(all) + multiset(own));
    LinksCount(cfg, cfg.peers.Keys);
    PairsCount(d, cfg.peers[d]);
  }

  /** In every run and interleaving, a router other than the origin puts at most one broadcast
      copy of the beacon (d, c) on each of its links; the origin at most two.  So one beacon
      costs at most the sum of all peer counts plus the peer count of its origin. */
  lemma FloodIsBounded(cfg: Config, s0: State, run: seq<Step>, d: Addr, c: nat)
    requires ValidConfig(cfg) && Init(cfg, s0) && IsRun(cfg, s0, run) && d in cfg.peers
    ensures var copies := Emitted(After(cfg, s0, run), d, c);
      && (forall n, m :: (n, m) in copies ==> IsLink(cfg, n, m))
      && (forall n, m :: copies[(n, m)] <= if n == d then 2 else 1)
      && |copies| <= PeerCounts(cfg, cfg.peers.Keys) + |cfg.peers[d]|
  {
    InitEmits(cfg, s0);
    RunEmits(cfg, s0, run);
    EmittedShape(cfg, After(cfg, s0, run), d, c);
    CopiesBounded(cfg, d, Emitted(After(cfg, s0, run), d, c));
  }

  lemma InitEmits(cfg: Config, s: State)
    requires Init(cfg, s)
    ensures EmittedOk(cfg, s)
  {}

  lemma EmittedShape(cfg: Config, s: State, d: Addr, c: nat)
    requires EmittedOk(cfg, s)
    ensures forall n, m :: (n, m) in Emitted(s, d, c) ==> IsLink(cfg, n, m)
    ensures forall n, m :: Emitted(s, d, c)[(n, m)] <= if n == d then 2 else 1
  {
    forall n, m
      ensures (n, m) in Emitted(s, d, c) ==> IsLink(cfg, n, m)
      ensures Emitted(s, d, c)[(n, m)] <= if n == d then 2 else 1
    {
      assert Emitted(s, d, c)[(n, m)] <= Allowance(cfg, s, d, c, n, m);
    }
  }

  // ----- The copies counted are the copies sent

  ghost function Copy(cfg: Config, n: Addr, m: Addr, d: Addr, c: nat): Packet {
    Packet(n, m, n, cfg.broadcast, Beacon(d, c))
  }

  /** On every link there are at most as many copies of a beacon in transit as were counted. */
  ghost predicate CopiesCounted(cfg: Config, s: State) {
    forall d, c, n, m :: Copies(s, Copy(cfg, n, m, d, c)) <= Emitted(s, d, c)[(n, m)]
  }

  lemma HeartbeatCounts(cfg: Config, s: State, n: Addr, now: nat)
    requires CopiesCounted(cfg, s) && Enabled(cfg, s, Heartbeat(n, now))
    ensures CopiesCounted(cfg, ApplyHeartbeat(cfg, s, n, now))
  {
    var s' := ApplyHeartbeat(cfg, s, n, now);
    forall d, c, a, b ensures Copies(s', Copy(cfg, a, b, d, c)) <= Emitted(s', d, c)[(a, b)] {
      assert Copies(s, Copy(cfg, a, b, d, c)) <= Emitted(s, d, c)[(a, b)];
      BroadcastCounted(cfg, n, n, n, now, d, c, a, b);
    }
  }

  /** A broadcast queues exactly the copies that are counted for it. */
  lemma BroadcastCounted(cfg: Config, x: Addr, exclude: Addr, origin: Addr, counter: nat, d: Addr, c: nat, a: Addr, b: Addr)
    requires x in cfg.peers
    ensures BroadcastCopies(x, cfg.peers[x], cfg.broadcast, exclude, Beacon(origin, counter))[Copy(cfg, a, b, d, c)]
         == if d == origin && c == counter then Links(cfg, x, exclude)[(a, b)] else 0
  {}

  lemma BeaconCounts(cfg: Config, s: State, p: Packet)
    requires CopiesCounted(cfg, s) && Enabled(cfg, s, DeliverBeacon(p))
    ensures CopiesCounted(cfg, ApplyBeacon(cfg, s, p))
  {
    var s' := ApplyBeacon(cfg, s, p);
    forall d, c, a, b ensures Copies(s', Copy(cfg, a, b, d, c)) <= Emitted(s', d, c)[(a, b)] {
      assert Copies(s, Copy(cfg, a, b, d, c)) <= Emitted(s, d, c)[(a, b)];
      BroadcastCounted(cfg, p.to, p.from, p.content.origin, p.content.counter, d, c, a, b);
    }
  }

  /** No other step adds a broadcast copy. */
  lemma OtherCounts(cfg: Config, s: State, step: Step)
    requires ValidConfig(cfg) && TableInv(cfg, s)
    requires CopiesCounted(cfg, s) && Enabled(cfg, s, step) && !step.Heartbeat? && !step.DeliverBeacon?
    ensures CopiesCounted(cfg, Apply(cfg, s, step))
  {
    var s' := Apply(cfg, s, step);
    OtherFrame(cfg, s, step);
    forall d, c, a, b ensures Copies(s', Copy(cfg, a, b, d, c)) <= Emitted(s', d, c)[(a, b)] {
      assert Copies(s, Copy(cfg, a, b, d, c)) <= Emitted(s, d, c)[(a, b)];
      OtherSendsNone(cfg, s, step, Copy(cfg, a, b, d, c));
    }
  }

  ghost predicate Loses(step: Step, q: Packet) {
    step == LoseQueued(q) || step == LoseOnWire(q)
  }

  lemma OtherSendsNone(cfg: Config, s: State, step: Step, q: Packet)
    requires ValidConfig(cfg) && TableInv(cfg, s)
    requires Enabled(cfg, s, step) && !step.Heartbeat? && !step.DeliverBeacon?
    requires q.content.Beacon? && q.dst == cfg.broadcast
    ensures Copies(Apply(cfg, s, step), q) == Copies(s, q) - if Loses(step, q) then 1 else 0
  {
    match step {
      case Relay(j) => assert JobOk(cfg, s, j);
      case Respond(j) => assert JobOk(cfg, s, j);
      case DeliverData(p) => DataSendsNone(cfg, s, p, q);
      case AttemptTell(id) => AttemptSendsNone(cfg, s, id, q);
      case _ => LinkSendsNone(cfg, s, step, q);
    }
  }

  lemma DataSendsNone(cfg: Config, s: State, p: Packet, q: Packet)
    requires Enabled(cfg, s, DeliverData(p)) && q.content.Beacon?
    ensures Copies(ApplyData(cfg, s, p), q) == Copies(s, q)
  {}

  lemma AttemptSendsNone(cfg: Config, s: State, id: nat, q: Packet)
    requires Enabled(cfg, s, AttemptTell(id)) && q.content.Beacon?
    ensures Copies(ApplyAttempt(cfg, s, id), q) == Copies(s, q)
  {}

  lemma LinkSendsNone(cfg: Config, s: State, step: Step, q: Packet)
    requires Enabled(cfg, s, step)
    requires step.StartTell? || step.AbandonTell? || step.Transmit? || step.LoseQueued? || step.LoseOnWire?
    ensures Copies(Apply(cfg, s, step), q) == Copies(s, q) - if Loses(step, q) then 1 else 0
  {}

  lemma {:induction false} RunCounts(cfg: Config, s: State, run: seq<Step>)
    requires ValidConfig(cfg) && TableInv(cfg, s) && CopiesCounted(cfg, s) && IsRun(cfg, s, run)
    ensures CopiesCounted(cfg, After(cfg, s, run))
    decreases run
  {
    if run != [] {
      StepCounts(cfg, s, run[0]);
      StepKeeps(cfg, s, run[0]);
      RunCounts(cfg, Apply(cfg, s, run[0]), run[1..]);
    }
  }

  lemma StepCounts(cfg: Config, s: State, step: Step)
    requires ValidConfig(cfg) && TableInv(cfg, s) && CopiesCounted(cfg, s) && Enabled(cfg, s, step)
    ensures CopiesCounted(cfg, Apply(cfg, s, step))
  {
    match step {
      case Heartbeat(n, now) => HeartbeatCounts(cfg, s, n, now);
      case DeliverBeacon(p) => BeaconCounts(cfg, s, p);
      case _ => OtherCounts(cfg, s, step);
    }
  }

  /** The history that FloodIsBounded speaks of counts real packets: in every run a broadcast
      beacon in transit was counted on its link, so it is one of at most two copies there. */
  lemma TransitIsCounted(cfg: Config, s0: State, run: seq<Step>, p: Packet)
    requires ValidConfig(cfg) && Init(cfg, s0) && IsRun(cfg, s0, run)
    requires p.content.Beacon? && p.dst == cfg.broadcast && Copies(After(cfg, s0, run), p) > 0
    ensures var s := After(cfg, s0, run);
      && Copies(s, p) <= Emitted(s, p.content.origin, p.content.counter)[(p.from, p.to)]
      && Copies(s, p) <= if p.from == p.content.origin then 2 else 1
  {
    var s := After(cfg, s0, run);
    InitHolds(cfg, s0);
    RunCounts(cfg, s0, run);
    RunKeeps(cfg, s0, run);
    assert BeaconOk(cfg, s, p);
    assert p == Copy(cfg, p.from, p.to, p.content.origin, p.content.counter);
    InitEmits(cfg, s0);
    RunEmits(cfg, s0, run);
    EmittedShape(cfg, s, p.content.origin, p.content.counter);
  }
}
