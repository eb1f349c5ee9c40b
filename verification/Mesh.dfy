/** A network of beaconnet routers over a fixed peer graph, as a state machine.

    Every handler is split where the source drops its lock: the table update of a beacon is
    one step, looking up the destination of a targeted beacon is another, reading our own
    beacon for a first-contact reply a third, and handing a queued packet to the link a
    fourth.  Steps of all the handlers of all the nodes interleave freely. */
module Mesh {
  import opened Bits
  import opened Routing
  import opened Wrappers

  /** The peer graph, the address that means "everyone", and the beacon period. */
  datatype Config = Config(peers: map<Addr, set<Addr>>, broadcast: Addr, period: nat)

  /** Peering is mutual, no node has the broadcast address and the period is positive. */
  ghost predicate ValidConfig(cfg: Config) {
    && (forall n, m :: n in cfg.peers && m in cfg.peers[n] ==> m in cfg.peers && n in cfg.peers[m])
    && cfg.broadcast !in cfg.peers
    && cfg.period > 0
  }

  /** The rest of a beacon handler after its table update. */
  datatype Job =
    | RelayJob(node: Addr, dst: Addr, beacon: Content)
    | RespondJob(node: Addr, prev: Addr, src: Addr)

  datatype TellStatus = Trying | Sent | GaveUp

  datatype Tell = Tell(src: Addr, dst: Addr, text: seq<uint8>, status: TellStatus)

  /** A forwarding decision that used a table entry: the node, and the rank of the entry. */
  datatype Hop = Hop(node: Addr, counter: nat, stamp: nat)

  datatype Delivery = Delivery(at: Addr, src: Addr, letter: Letter)

  /** `outbox` holds packets that a handler has yet to hand to the link, `wire` the ones in
      transit.  The last six fields are history: no step reads them to decide anything. */
  datatype State = State(
    nodes: map<Addr, Node>,
    outbox: multiset<Packet>,
    wire: multiset<Packet>,
    jobs: multiset<Job>,
    steps: nat,
    adopted: map<(Addr, Addr), nat>,
    emitted: map<(Addr, nat), multiset<(Addr, Addr)>>,
    tells: seq<Tell>,
    trails: seq<seq<Hop>>,
    delivered: seq<Delivery>)

  /** Every router has just been Reset. */
  ghost predicate Init(cfg: Config, s: State) {
    && s.nodes.Keys == cfg.peers.Keys
    && (forall n :: n in s.nodes ==> s.nodes[n].table == map[] && s.nodes[n].lastBeacon == None)
    && s.outbox == s.wire == multiset{}
    && s.jobs == multiset{}
    && s.steps == 0
    && s.adopted == map[]
    && s.emitted == map[]
    && s.tells == []
    && s.trails == []
    && s.delivered == []
  }

  /** Every configuration has such a state, whatever the clocks of its routers show. */
  lemma InitExists(cfg: Config, clocks: map<Addr, nat>) returns (s: State)
    requires cfg.peers.Keys <= clocks.Keys
    ensures Init(cfg, s) && forall n :: n in cfg.peers ==> s.nodes[n].now == s.nodes[n].ourBeacon == clocks[n]
  {
    var nodes := map n | n in cfg.peers :: Node(map[], clocks[n], None, clocks[n]);
    s := State(nodes, multiset{}, multiset{}, multiset{}, 0, map[], map[], [], [], []);
  }

  datatype Step =
    | Heartbeat(node: Addr, now: nat)
    | DeliverBeacon(packet: Packet)
    | Relay(job: Job)
    | Respond(job: Job)
    | DeliverData(packet: Packet)
    | StartTell(node: Addr, dst: Addr, text: seq<uint8>)
    | AttemptTell(id: nat)
    | AbandonTell(id: nat)
    | Transmit(packet: Packet)
    | LoseQueued(packet: Packet)
    | LoseOnWire(packet: Packet)

  ghost predicate Enabled(cfg: Config, s: State, step: Step) {
    && s.nodes.Keys == cfg.peers.Keys
    && |s.trails| == |s.tells|
    && match step
       case Heartbeat(n, now) => n in s.nodes && now >= s.nodes[n].now
       case DeliverBeacon(p) => p in s.wire && p.content.Beacon? && p.to in s.nodes
       case Relay(j) => j in s.jobs && j.RelayJob? && j.node in s.nodes
       case Respond(j) => j in s.jobs && j.RespondJob? && j.node in s.nodes
       case DeliverData(p) => p in s.wire && p.content.Data? && p.to in s.nodes
       case StartTell(n, _, _) => n in s.nodes
       case AttemptTell(id) => id < |s.tells| && s.tells[id].status == Trying && s.tells[id].src in s.nodes
       case AbandonTell(id) => id < |s.tells| && s.tells[id].status == Trying
       case Transmit(p) => p in s.outbox
       case LoseQueued(p) => p in s.outbox
       case LoseOnWire(p) => p in s.wire
  }

  ghost function Apply(cfg: Config, s: State, step: Step): State
    requires Enabled(cfg, s, step)
  {
    match step
    case Heartbeat(n, now) => ApplyHeartbeat(cfg, s, n, now)
    case DeliverBeacon(p) => ApplyBeacon(cfg, s, p)
    case Relay(j) => ApplyRelay(cfg, s, j)
    case Respond(j) => ApplyRespond(cfg, s, j)
    case DeliverData(p) => ApplyData(cfg, s, p)
    case StartTell(n, dst, text) =>
      s.(tells := s.tells + [Tell(n, dst, text, Trying)], trails := s.trails + [[]], steps := s.steps + 1)
    case AttemptTell(id) => ApplyAttempt(cfg, s, id)
    case AbandonTell(id) => s.(tells := s.tells[id := s.tells[id].(status := GaveUp)], steps := s.steps + 1)
    case Transmit(p) => s.(outbox := s.outbox - multiset{p}, wire := s.wire + multiset{p}, steps := s.steps + 1)
    case LoseQueued(p) => s.(outbox := s.outbox - multiset{p}, steps := s.steps + 1)
    case LoseOnWire(p) => s.(wire := s.wire - multiset{p}, steps := s.steps + 1)
  }

  /** How many copies of p wait in an outbox or are on the wire. */
  ghost function Copies(s: State, p: Packet): nat {
    s.outbox[p] + s.wire[p]
  }

  /** Broadcast copies of the beacon (d, c) emitted so far, by link. */
  ghost function Emitted(s: State, d: Addr, c: nat): multiset<(Addr, Addr)> {
    if (d, c) in s.emitted then s.emitted[(d, c)] else multiset{}
  }

  ghost function Links(cfg: Config, n: Addr, exclude: Addr): multiset<(Addr, Addr)>
    requires n in cfg.peers
  {
    multiset(set m | m in cfg.peers[n] && m != exclude :: (n, m))
  }

  ghost function ApplyHeartbeat(cfg: Config, s: State, n: Addr, now: nat): State
    requires n in s.nodes && n in cfg.peers
  {
    var node := s.nodes[n];
    var due := BeaconDue(node.lastBeacon, now, cfg.period);
    s.(nodes := s.nodes[n := if due then node.(ourBeacon := now, lastBeacon := Some(now), now := now)
                             else node.(now := now)],
       outbox := if due then s.outbox + BroadcastCopies(n, cfg.peers[n], cfg.broadcast, n, Beacon(n, now)) else s.outbox,
       emitted := if due then s.emitted[(n, now) := Emitted(s, n, now) + Links(cfg, n, n)] else s.emitted,
       steps := s.steps + 1)
  }

  /** The locked table update of a beacon, with its rebroadcast queued and the rest of the
      handler left as jobs. */
  ghost function ApplyBeacon(cfg: Config, s: State, p: Packet): State
    requires p.content.Beacon? && p.to in s.nodes && p.to in cfg.peers
  {
    var n, d, c := p.to, p.content.origin, p.content.counter;
    var t := s.nodes[n].table;
    var updated := Adopts(t, d, c);
    var rebroadcast := updated && p.dst == cfg.broadcast;
    s.(nodes := s.nodes[n := s.nodes[n].(table := Updated(t, p.from, d, c))],
       wire := s.wire - multiset{p},
       outbox := if rebroadcast then s.outbox + BroadcastCopies(n, cfg.peers[n], cfg.broadcast, p.from, p.content) else s.outbox,
       jobs := s.jobs + (if p.dst != cfg.broadcast then multiset{RelayJob(n, p.dst, p.content)} else multiset{})
                      + (if d !in t then multiset{RespondJob(n, p.from, p.src)} else multiset{}),
       adopted := if updated then s.adopted[(n, d) := s.steps] else s.adopted,
       emitted := if rebroadcast then s.emitted[(d, c) := Emitted(s, d, c) + Links(cfg, n, p.from)] else s.emitted,
       steps := s.steps + 1)
  }

  ghost function ApplyRelay(cfg: Config, s: State, j: Job): State
    requires j.RelayJob? && j.node in s.nodes
  {
    s.(jobs := s.jobs - multiset{j},
       outbox := s.outbox + RelayCopies(j.node, s.nodes[j.node].table, j.dst, j.beacon),
       steps := s.steps + 1)
  }

  ghost function ApplyRespond(cfg: Config, s: State, j: Job): State
    requires j.RespondJob? && j.node in s.nodes
  {
    s.(jobs := s.jobs - multiset{j},
       outbox := s.outbox + multiset{Packet(j.node, j.prev, j.node, j.src, Beacon(j.node, s.nodes[j.node].ourBeacon))},
       steps := s.steps + 1)
  }

  ghost function ApplyData(cfg: Config, s: State, p: Packet): State
    requires p.content.Data? && p.to in s.nodes && p.to in cfg.peers
  {
    var n := p.to;
    var hop := RouteData(n, cfg.peers[n], s.nodes[n].table, p.dst);
    s.(wire := s.wire - multiset{p},
       outbox := if hop.Direct? || hop.ByTable? then s.outbox + multiset{p.(from := n, to := hop.to)} else s.outbox,
       trails := if hop.ByTable? then Extended(s, n, p.dst, p.content.letter.id) else s.trails,
       delivered := if hop.Local? then s.delivered + [Delivery(n, p.src, p.content.letter)] else s.delivered,
       steps := s.steps + 1)
  }

  /** One try of HandleAbove by the retry loop of Tell. */
  ghost function ApplyAttempt(cfg: Config, s: State, id: nat): State
    requires id < |s.tells| && s.tells[id].src in s.nodes && s.tells[id].src in cfg.peers
  {
    var Tell(n, dst, text, _) := s.tells[id];
    var hop := RouteAbove(cfg.peers[n], s.nodes[n].table, dst);
    s.(outbox := if hop.Unknown? then s.outbox
                 else s.outbox + multiset{Packet(n, hop.to, n, dst, Data(Letter(id, text)))},
       tells := if hop.Unknown? then s.tells else s.tells[id := s.tells[id].(status := Sent)],
       trails := if hop.ByTable? then Extended(s, n, dst, id) else s.trails,
       steps := s.steps + 1)
  }

  /** The trails after node n has used its table entry for d to forward message `id`. */
  ghost function Extended(s: State, n: Addr, d: Addr, id: nat): (r: seq<seq<Hop>>)
    requires n in s.nodes && d in s.nodes[n].table
    ensures |r| == |s.trails|
  {
    if id < |s.trails| then s.trails[id := s.trails[id] + [Rank(s, n, d)]] else s.trails
  }

  /** The entry of n for d, with the step at which it was adopted. */
  ghost function Rank(s: State, n: Addr, d: Addr): Hop
    requires n in s.nodes && d in s.nodes[n].table
  {
    Hop(n, s.nodes[n].table[d].counter, if (n, d) in s.adopted then s.adopted[(n, d)] else 0)
  }

  /** A run is a sequence of steps, each enabled in the state that the previous ones lead to. */
  ghost predicate IsRun(cfg: Config, s: State, run: seq<Step>)
    decreases run
  {
    run == [] || (Enabled(cfg, s, run[0]) && IsRun(cfg, Apply(cfg, s, run[0]), run[1..]))
  }

  ghost function After(cfg: Config, s: State, run: seq<Step>): State
    requires IsRun(cfg, s, run)
    decreases run
  {
    if run == [] then s else After(cfg, Apply(cfg, s, run[0]), run[1..])
  }

  lemma {:induction false} RunAppend(cfg: Config, s: State, run: seq<Step>, step: Step)
    requires IsRun(cfg, s, run) && Enabled(cfg, After(cfg, s, run), step)
    ensures IsRun(cfg, s, run + [step])
    ensures After(cfg, s, run + [step]) == Apply(cfg, After(cfg, s, run), step)
    decreases run
  {
    if run == [] {
      assert run + [step] == [step] && [step][1..] == [];
    } else {
      RunAppend(cfg, Apply(cfg, s, run[0]), run[1..], step);
      assert (run + [step])[1..] == run[1..] + [step];
    }
  }

  lemma RunPrepend(cfg: Config, s: State, step: Step, rest: seq<Step>)
    requires Enabled(cfg, s, step) && IsRun(cfg, Apply(cfg, s, step), rest)
    ensures IsRun(cfg, s, [step] + rest)
    ensures After(cfg, s, [step] + rest) == After(cfg, Apply(cfg, s, step), rest)
  {
    assert ([step] + rest)[1..] == rest;
  }

  ghost predicate LosesNothing(run: seq<Step>) {
    forall i :: 0 <= i < |run| ==> !run[i].LoseQueued? && !run[i].LoseOnWire?
  }

  /** State t is reached from s by a run that loses nothing. */
  ghost predicate Reaches(cfg: Config, s: State, t: State) {
    exists run :: IsRun(cfg, s, run) && LosesNothing(run) && After(cfg, s, run) == t
  }

  lemma ReachesNext(cfg: Config, s: State, t: State, step: Step)
    requires Reaches(cfg, s, t) && Enabled(cfg, t, step) && !step.LoseQueued? && !step.LoseOnWire?
    ensures Reaches(cfg, s, Apply(cfg, t, step))
  {
    var run :| IsRun(cfg, s, run) && LosesNothing(run) && After(cfg, s, run) == t;
    RunAppend(cfg, s, run, step);
    assert LosesNothing(run + [step]);
  }

  /** The steps of one beacon handler, taken with nothing in between. */
  ghost function WholeHandler(cfg: Config, s: State, p: Packet): State
    requires p.content.Beacon? && p.to in s.nodes && p.to in cfg.peers
  {
    var s1 := ApplyBeacon(cfg, s, p);
    var s2 := if p.dst != cfg.broadcast then ApplyRelay(cfg, s1, RelayJob(p.to, p.dst, p.content)) else s1;
    if p.content.origin !in s.nodes[p.to].table then ApplyRespond(cfg, s2, RespondJob(p.to, p.from, p.src)) else s2
  }

  /** They do what the handler does: the table is updated, everything it sends is queued and no job
      of it is left. */
  lemma HandlerIsItsSteps(cfg: Config, s: State, p: Packet)
    requires Enabled(cfg, s, DeliverBeacon(p))
    ensures var n, t, s' := p.to, s.nodes[p.to].table, WholeHandler(cfg, s, p);
      && s'.nodes == s.nodes[n := s.nodes[n].(table := Updated(t, p.from, p.content.origin, p.content.counter))]
      && s'.outbox == s.outbox + BeaconSends(n, cfg.peers[n], cfg.broadcast, t, s.nodes[n].ourBeacon, p)
      && s'.wire == s.wire - multiset{p}
      && s'.jobs == s.jobs
  {
    HandlerUpdates(cfg, s, p);
    HandlerLeavesNoJob(cfg, s, p);
    HandlerQueues(cfg, s, p);
  }

  /** Packet by packet: what they queue is the rebroadcast of a broadcast beacon that is new, the relay
      of a targeted one by the table as it is then, and our own beacon on first contact. */
  lemma HandlerSends(cfg: Config, s: State, p: Packet, q: Packet)
    requires Enabled(cfg, s, DeliverBeacon(p))
    ensures var n, d, c := p.to, p.content.origin, p.content.counter;
      var t, t' := s.nodes[n].table, WholeHandler(cfg, s, p).nodes[n].table;
      var newer := d !in t || c > t[d].counter;
      && t' == (if newer then t[d := PeerState(p.from, c)] else t)
      && WholeHandler(cfg, s, p).outbox[q] == s.outbox[q]
        + (if newer && p.dst == cfg.broadcast && q.to in cfg.peers[n] && q.to != p.from
              && q == Packet(n, q.to, n, cfg.broadcast, p.content) then 1 else 0)
        + (if p.dst != cfg.broadcast && p.dst in t' && q == Packet(n, t'[p.dst].next, n, p.dst, p.content) then 1 else 0)
        + (if d !in t && q == Packet(n, p.from, n, p.src, Beacon(n, s.nodes[n].ourBeacon)) then 1 else 0)
  {
    HandlerUpdates(cfg, s, p);
    HandlerQueues(cfg, s, p);
    SendsOnBeacon(p.to, cfg.peers[p.to], cfg.broadcast, s.nodes[p.to].table, s.nodes[p.to].ourBeacon, p, q);
  }

  lemma HandlerUpdates(cfg: Config, s: State, p: Packet)
    requires Enabled(cfg, s, DeliverBeacon(p))
    ensures var n, t, s' := p.to, s.nodes[p.to].table, WholeHandler(cfg, s, p);
      && s'.nodes == s.nodes[n := s.nodes[n].(table := Updated(t, p.from, p.content.origin, p.content.counter))]
      && s'.wire == s.wire - multiset{p}
  {
    var s1 := ApplyBeacon(cfg, s, p);
    var s2 := if p.dst != cfg.broadcast then ApplyRelay(cfg, s1, RelayJob(p.to, p.dst, p.content)) else s1;
    assert s2.nodes == s1.nodes && s2.wire == s1.wire;
    assert WholeHandler(cfg, s, p).nodes == s2.nodes && WholeHandler(cfg, s, p).wire == s2.wire;
  }

  lemma HandlerLeavesNoJob(cfg: Config, s: State, p: Packet)
    requires Enabled(cfg, s, DeliverBeacon(p))
    ensures WholeHandler(cfg, s, p).jobs == s.jobs
  {
    Cancel(s.jobs, RelayJob(p.to, p.dst, p.content), RespondJob(p.to, p.from, p.src));
  }

  lemma Cancel<T>(s: multiset<T>, a: T, b: T)
    ensures s + multiset{a} + multiset{b} - multiset{a} - multiset{b} == s
    ensures s + multiset{} + multiset{b} - multiset{b} == s
    ensures s + multiset{a} + multiset{} - multiset{a} == s
    ensures s + multiset{} + multiset{} == s
  {}

  lemma HandlerQueues(cfg: Config, s: State, p: Packet)
    requires Enabled(cfg, s, DeliverBeacon(p))
    ensures WholeHandler(cfg, s, p).outbox ==
      s.outbox + BeaconSends(p.to, cfg.peers[p.to], cfg.broadcast, s.nodes[p.to].table, s.nodes[p.to].ourBeacon, p)
  {
    var t := s.nodes[p.to].table;
    var t' := Updated(t, p.from, p.content.origin, p.content.counter);
    var s1 := ApplyBeacon(cfg, s, p);
    assert s1.nodes[p.to] == s.nodes[p.to].(table := t');
    var flood := if Adopts(t, p.content.origin, p.content.counter) && p.dst == cfg.broadcast
      then BroadcastCopies(p.to, cfg.peers[p.to], cfg.broadcast, p.from, p.content) else multiset{};
    var relay := if p.dst != cfg.broadcast then RelayCopies(p.to, t', p.dst, p.content) else multiset{};
    var reply := if p.content.origin !in t
      then multiset{Packet(p.to, p.from, p.to, p.src, Beacon(p.to, s.nodes[p.to].ourBeacon))} else multiset{};
    var s2 := if p.dst != cfg.broadcast then ApplyRelay(cfg, s1, RelayJob(p.to, p.dst, p.content)) else s1;
    Unit(s.outbox);
    assert s1.outbox == s.outbox + flood;
    Unit(s1.outbox);
    assert s2.outbox == s1.outbox + relay && s2.nodes == s1.nodes;
    Unit(s2.outbox);
    assert WholeHandler(cfg, s, p).outbox == s2.outbox + reply;
    Regroup(s.outbox, flood, relay, reply);
  }

  lemma Unit<T>(a: multiset<T>)
    ensures a + multiset{} == a
  {}

  lemma Regroup<T>(a: multiset<T>, b: multiset<T>, c: multiset<T>, d: multiset<T>)
    ensures a + b + c + d == a + (b + c + d)
  {}
}
