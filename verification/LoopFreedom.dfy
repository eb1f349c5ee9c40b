/** Forwarding along the tables of a beaconnet network never loops and never gets stuck,
    in every state of every run. */
module LoopFreedom {
  import opened Routing
  import opened Mesh

  // ----- The invariant

  ghost predicate Knows(s: State, n: Addr, d: Addr) {
    n in s.nodes && d in s.nodes[n].table
  }

  ghost function Entry(s: State, n: Addr, d: Addr): PeerState
    requires Knows(s, n, d)
  {
    s.nodes[n].table[d]
  }

  /** The order on table entries: a higher counter, or the same counter adopted earlier. */
  ghost predicate Above(a: Hop, b: Hop) {
    a.counter > b.counter || (a.counter == b.counter && a.stamp < b.stamp)
  }

  /** Node p may speak for the beacon (d, c): it is d, or has adopted a beacon of d at least as new. */
  ghost predicate Supports(s: State, p: Addr, d: Addr, c: nat) {
    p == d || (Knows(s, p, d) && Entry(s, p, d).counter >= c)
  }

  /** Tables name nodes of the graph, next hops are peers, and adoption times are recorded. */
  ghost predicate TablesOk(cfg: Config, s: State) {
    && s.nodes.Keys == cfg.peers.Keys
    && |s.trails| == |s.tells|
    && (forall n, d :: Knows(s, n, d) ==> EntryOk(cfg, s, n, d))
  }

  ghost predicate EntryOk(cfg: Config, s: State, n: Addr, d: Addr)
    requires Knows(s, n, d)
  {
    && n in cfg.peers && d in cfg.peers
    && Entry(s, n, d).next in cfg.peers[n]
    && (n, d) in s.adopted
    && s.adopted[(n, d)] < s.steps
  }

  ghost predicate BeaconOk(cfg: Config, s: State, p: Packet) {
    p.content.Beacon? ==>
      && p.from in cfg.peers && p.to in cfg.peers[p.from] && p.src == p.from
      && p.content.origin in cfg.peers
      && Supports(s, p.from, p.content.origin, p.content.counter)
  }

  ghost predicate JobOk(cfg: Config, s: State, j: Job) {
    && j.node in cfg.peers
    && match j
       case RelayJob(n, dst, beacon) =>
         && dst != cfg.broadcast
         && beacon.Beacon?
         && beacon.origin in cfg.peers
         && Supports(s, n, beacon.origin, beacon.counter)
       case RespondJob(n, prev, src) => prev in cfg.peers[n] && src in cfg.peers
  }

  ghost predicate BeaconsOk(cfg: Config, s: State) {
    && (forall p :: p in s.outbox ==> BeaconOk(cfg, s, p))
    && (forall p :: p in s.wire ==> BeaconOk(cfg, s, p))
    && (forall j :: j in s.jobs ==> JobOk(cfg, s, j))
  }

  /** The next hop for d is d itself or a node whose own entry for d is strictly above ours. */
  ghost predicate NextAbove(s: State, n: Addr, d: Addr)
    requires Knows(s, n, d)
  {
    var p := Entry(s, n, d).next;
    p == d || (Knows(s, p, d) && Above(Rank(s, p, d), Rank(s, n, d)))
  }

  ghost predicate Climbs(s: State) {
    forall n, d {:trigger NextAbove(s, n, d)} :: Knows(s, n, d) && n != d ==> NextAbove(s, n, d)
  }

  ghost predicate TableInv(cfg: Config, s: State) {
    TablesOk(cfg, s) && BeaconsOk(cfg, s) && Climbs(s)
  }

  // ----- Tables only improve

  /** Entries are never dropped, and change only for a strictly higher counter. */
  ghost predicate Improves(s: State, s': State) {
    forall n, d :: Knows(s, n, d) ==>
      && Knows(s', n, d)
      && ((Entry(s', n, d) == Entry(s, n, d) && Rank(s', n, d) == Rank(s, n, d))
          || Entry(s', n, d).counter > Entry(s, n, d).counter)
  }

  lemma BeaconKept(cfg: Config, s: State, s': State, p: Packet)
    requires Improves(s, s') && BeaconOk(cfg, s, p)
    ensures BeaconOk(cfg, s', p)
  {}

  lemma JobKept(cfg: Config, s: State, s': State, j: Job)
    requires Improves(s, s') && JobOk(cfg, s, j)
    ensures JobOk(cfg, s', j)
  {}

  lemma BeaconsKept(cfg: Config, s: State, s': State)
    requires Improves(s, s') && BeaconsOk(cfg, s)
    requires forall p :: p in s'.outbox ==> p in s.outbox || p in s.wire || BeaconOk(cfg, s', p)
    requires forall p :: p in s'.wire ==> p in s.wire || p in s.outbox
    requires forall j :: j in s'.jobs ==> j in s.jobs || JobOk(cfg, s', j)
    ensures BeaconsOk(cfg, s')
  {
    forall p | p in s.outbox || p in s.wire ensures BeaconOk(cfg, s', p) { BeaconKept(cfg, s, s', p); }
    forall j | j in s.jobs ensures JobOk(cfg, s', j) { JobKept(cfg, s, s', j); }
  }

  // ----- Every step keeps the invariant

  lemma BeaconImproves(cfg: Config, s: State, p: Packet)
    requires TableInv(cfg, s) && Enabled(cfg, s, DeliverBeacon(p))
    ensures Improves(s, ApplyBeacon(cfg, s, p))
  {}

  /** The adopted entry points at a neighbour that supports it, so it takes its place below
      that neighbour; every other entry stays where it was or moves up. */
  lemma BeaconClimbs(cfg: Config, s: State, p: Packet)
    requires TableInv(cfg, s) && Enabled(cfg, s, DeliverBeacon(p))
    ensures Climbs(ApplyBeacon(cfg, s, p))
  {
    var s' := ApplyBeacon(cfg, s, p);
    var m, d := p.to, p.content.origin;
    BeaconImproves(cfg, s, p);
    assert BeaconOk(cfg, s, p);
    forall n, e | Knows(s', n, e) && n != e ensures NextAbove(s', n, e) {
      if n == m && e == d && Adopts(s.nodes[m].table, d, p.content.counter) {
        assert p.from == d || (Knows(s, p.from, d) && s.adopted[(p.from, d)] < s.steps);
      } else {
        assert Knows(s, n, e) && Entry(s', n, e) == Entry(s, n, e);
        assert NextAbove(s, n, e);
      }
    }
  }

  lemma BeaconTablesOk(cfg: Config, s: State, p: Packet)
    requires ValidConfig(cfg) && TableInv(cfg, s) && Enabled(cfg, s, DeliverBeacon(p))
    ensures TablesOk(cfg, ApplyBeacon(cfg, s, p))
  {
    var s' := ApplyBeacon(cfg, s, p);
    assert s'.nodes.Keys == s.nodes.Keys;
    forall n, d | Knows(s', n, d) ensures EntryOk(cfg, s', n, d) {
      assert n in s.nodes;
      BeaconEntryOk(cfg, s, p, n, d);
    }
  }

  lemma BeaconEntryOk(cfg: Config, s: State, p: Packet, n: Addr, d: Addr)
    requires ValidConfig(cfg) && TableInv(cfg, s) && Enabled(cfg, s, DeliverBeacon(p)) && n in s.nodes
    requires Knows(ApplyBeacon(cfg, s, p), n, d)
    ensures EntryOk(cfg, ApplyBeacon(cfg, s, p), n, d)
  {
    assert BeaconOk(cfg, s, p);
    assert Knows(s, n, d) ==> EntryOk(cfg, s, n, d);
  }

  lemma BeaconBeaconsOk(cfg: Config, s: State, p: Packet)
    requires ValidConfig(cfg) && TableInv(cfg, s) && Enabled(cfg, s, DeliverBeacon(p))
    ensures BeaconsOk(cfg, ApplyBeacon(cfg, s, p))
  {
    var s' := ApplyBeacon(cfg, s, p);
    assert BeaconOk(cfg, s, p);
    BeaconImproves(cfg, s, p);
    assert Supports(s', p.to, p.content.origin, p.content.counter);
    BeaconsKept(cfg, s, s');
  }

  lemma HeartbeatKeeps(cfg: Config, s: State, n: Addr, now: nat)
    requires TableInv(cfg, s) && Enabled(cfg, s, Heartbeat(n, now))
    ensures TableInv(cfg, ApplyHeartbeat(cfg, s, n, now)) && Improves(s, ApplyHeartbeat(cfg, s, n, now))
  {
    var s' := ApplyHeartbeat(cfg, s, n, now);
    SameTables(cfg, s, s');
    forall p | p in s'.outbox && p !in s.outbox ensures BeaconOk(cfg, s', p) {
      assert p in BroadcastCopies(n, cfg.peers[n], cfg.broadcast, n, Beacon(n, now));
    }
    BeaconsKept(cfg, s, s');
  }

  /** A step that leaves the tables alone keeps everything said about tables only. */
  lemma SameTables(cfg: Config, s: State, s': State)
    requires TablesOk(cfg, s) && Climbs(s)
    requires s'.nodes.Keys == s.nodes.Keys && s'.adopted == s.adopted && s'.steps >= s.steps
    requires |s'.trails| == |s'.tells|
    requires forall n :: n in s.nodes ==> s'.nodes[n].table == s.nodes[n].table
    ensures TablesOk(cfg, s') && Climbs(s') && Improves(s, s')
  {
    assert forall n, d :: Knows(s', n, d) <==> Knows(s, n, d);
    forall n, d | Knows(s', n, d) && n != d ensures NextAbove(s', n, d) {
      assert NextAbove(s, n, d);
    }
  }

  lemma RelayKeeps(cfg: Config, s: State, j: Job)
    requires TableInv(cfg, s) && Enabled(cfg, s, Relay(j))
    ensures TableInv(cfg, ApplyRelay(cfg, s, j)) && Improves(s, ApplyRelay(cfg, s, j))
  {
    var s' := ApplyRelay(cfg, s, j);
    SameTables(cfg, s, s');
    assert JobOk(cfg, s, j);
    assert Knows(s, j.node, j.dst) ==> Entry(s, j.node, j.dst).next in cfg.peers[j.node];
    BeaconsKept(cfg, s, s');
  }

  lemma RespondKeeps(cfg: Config, s: State, j: Job)
    requires TableInv(cfg, s) && Enabled(cfg, s, Respond(j))
    ensures TableInv(cfg, ApplyRespond(cfg, s, j)) && Improves(s, ApplyRespond(cfg, s, j))
  {
    var s' := ApplyRespond(cfg, s, j);
    SameTables(cfg, s, s');
    assert JobOk(cfg, s, j);
    BeaconsKept(cfg, s, s');
  }

  /** What a step that handles no beacon does to tables and beacons: nothing but move or lose them. */
  ghost predicate Quiet(s: State, s': State) {
    && s'.nodes == s.nodes && s'.adopted == s.adopted && s'.emitted == s.emitted && s'.steps == s.steps + 1
    && |s'.trails| == |s'.tells|
    && (forall p :: p in s'.outbox ==> p in s.outbox || p.content.Data?)
    && (forall p :: p in s'.wire ==> p in s.wire || p in s.outbox)
    && (forall j :: j in s'.jobs ==> j in s.jobs)
  }

  predicate HandlesNoBeacon(step: Step) {
    !step.Heartbeat? && !step.DeliverBeacon? && !step.Relay? && !step.Respond?
  }

  lemma QuietStep(cfg: Config, s: State, step: Step)
    requires Enabled(cfg, s, step) && HandlesNoBeacon(step)
    ensures Quiet(s, Apply(cfg, s, step))
  {
    match step {
      case DeliverData(p) => QuietData(cfg, s, p);
      case AttemptTell(id) => QuietAttempt(cfg, s, id);
      case _ =>
    }
  }

  lemma QuietData(cfg: Config, s: State, p: Packet)
    requires Enabled(cfg, s, DeliverData(p))
    ensures Quiet(s, ApplyData(cfg, s, p))
  {}

  lemma QuietAttempt(cfg: Config, s: State, id: nat)
    requires Enabled(cfg, s, AttemptTell(id))
    ensures Quiet(s, ApplyAttempt(cfg, s, id))
  {}

  lemma QuietKeeps(cfg: Config, s: State, s': State)
    requires TableInv(cfg, s) && Quiet(s, s')
    ensures TableInv(cfg, s') && Improves(s, s')
  {
    SameTables(cfg, s, s');
    BeaconsKept(cfg, s, s');
  }

  lemma StepKeeps(cfg: Config, s: State, step: Step)
    requires ValidConfig(cfg) && TableInv(cfg, s) && Enabled(cfg, s, step)
    ensures TableInv(cfg, Apply(cfg, s, step)) && Improves(s, Apply(cfg, s, step))
  {
    match step {
      case Heartbeat(n, now) => HeartbeatKeeps(cfg, s, n, now);
      case DeliverBeacon(p) =>
        BeaconTablesOk(cfg, s, p);
        BeaconBeaconsOk(cfg, s, p);
        BeaconClimbs(cfg, s, p);
        BeaconImproves(cfg, s, p);
      case Relay(j) => RelayKeeps(cfg, s, j);
      case Respond(j) => RespondKeeps(cfg, s, j);
      case _ =>
        QuietStep(cfg, s, step);
        QuietKeeps(cfg, s, Apply(cfg, s, step));
    }
  }

  // ----- Runs

  lemma InitHolds(cfg: Config, s: State)
    requires Init(cfg, s)
    ensures TableInv(cfg, s)
  {}

  lemma ImprovesTransitive(a: State, b: State, c: State)
    requires Improves(a, b) && Improves(b, c)
    ensures Improves(a, c)
  {}

  lemma {:induction false} RunKeeps(cfg: Config, s: State, run: seq<Step>)
    requires ValidConfig(cfg) && TableInv(cfg, s) && IsRun(cfg, s, run)
    ensures TableInv(cfg, After(cfg, s, run)) && Improves(s, After(cfg, s, run))
    decreases run
  {
    if run != [] {
      StepKeeps(cfg, s, run[0]);
      RunKeeps(cfg, Apply(cfg, s, run[0]), run[1..]);
      ImprovesTransitive(s, Apply(cfg, s, run[0]), After(cfg, s, run));
    }
  }

  // ----- Forwarding in one state

  ghost predicate Distinct(path: seq<Addr>) {
    forall i, j :: 0 <= i < j < |path| ==> path[i] != path[j]
  }

  /** Node n hands a data message for d to m. */
  ghost predicate Forwards(cfg: Config, s: State, n: Addr, d: Addr, m: Addr) {
    n in s.nodes && n in cfg.peers &&
    var hop := RouteData(n, cfg.peers[n], s.nodes[n].table, d);
    hop == Direct(m) || hop == ByTable(m)
  }

  /** The way a message for d takes from node to node, up to the node that keeps it. */
  ghost predicate IsRoute(cfg: Config, s: State, d: Addr, path: seq<Addr>) {
    && path != []
    && (forall i :: 0 <= i < |path| - 1 ==> Forwards(cfg, s, path[i], d, path[i + 1]))
    && path[|path| - 1] == d
  }

  ghost predicate CanForward(cfg: Config, s: State, n: Addr, d: Addr) {
    n in cfg.peers && d in cfg.peers && (n == d || d in cfg.peers[n] || Knows(s, n, d))
  }

  /** The nodes whose entry for d is above the one of n. */
  ghost function HigherNodes(s: State, n: Addr, d: Addr): set<Addr>
    requires Knows(s, n, d)
  {
    set m | m in s.nodes && Knows(s, m, d) && Above(Rank(s, m, d), Rank(s, n, d))
  }

  lemma {:induction false} BuildRoute(cfg: Config, s: State, n: Addr, d: Addr) returns (path: seq<Addr>)
    requires ValidConfig(cfg) && TableInv(cfg, s)
    requires n in cfg.peers && n != d && Knows(s, n, d)
    ensures IsRoute(cfg, s, d, path) && path[0] == n && Distinct(path)
    ensures forall i :: 0 <= i < |path| ==> path[i] in cfg.peers
    ensures forall i :: 1 <= i < |path| ==> path[i] == d || path[i] in HigherNodes(s, n, d)
    decreases |HigherNodes(s, n, d)|
  {
    assert NextAbove(s, n, d);
    var p := Entry(s, n, d).next;
    if d in cfg.peers[n] || p == d {
      path := [n, d];
    } else {
      assert p in HigherNodes(s, n, d) && p !in HigherNodes(s, p, d);
      assert HigherNodes(s, p, d) < HigherNodes(s, n, d);
      SubsetSmaller(HigherNodes(s, p, d), HigherNodes(s, n, d));
      var rest := BuildRoute(cfg, s, p, d);
      path := [n] + rest;
      assert n !in HigherNodes(s, n, d);
      forall i | 0 <= i < |path| - 1 ensures Forwards(cfg, s, path[i], d, path[i + 1]) {
        if i > 0 { assert Forwards(cfg, s, rest[i - 1], d, rest[i]); }
      }
    }
  }

  lemma SubsetSmaller<T>(a: set<T>, b: set<T>)
    requires a < b
    ensures |a| < |b|
  {
    assert b == a + (b - a);
    assert |b| == |a| + |b - a|;
  }

  lemma {:induction false} DistinctFits(path: seq<Addr>, nodes: set<Addr>)
    requires Distinct(path)
    requires forall i :: 0 <= i < |path| ==> path[i] in nodes
    ensures |path| <= |nodes|
    decreases |path|
  {
    if path != [] {
      var last := path[|path| - 1];
      DistinctFits(path[..|path| - 1], nodes - {last});
    }
  }

  /** In every reachable state, a node that has an entry or a link for d forwards to d along a
      route that visits no node twice, so with fewer hops than there are nodes. */
  lemma ForwardingReaches(cfg: Config, s0: State, run: seq<Step>, n: Addr, d: Addr)
    requires ValidConfig(cfg) && Init(cfg, s0) && IsRun(cfg, s0, run)
    requires CanForward(cfg, After(cfg, s0, run), n, d)
    ensures exists path :: IsRoute(cfg, After(cfg, s0, run), d, path) && path[0] == n
                        && Distinct(path) && |path| - 1 < |cfg.peers.Keys|
  {
    var s := After(cfg, s0, run);
    InitHolds(cfg, s0);
    RunKeeps(cfg, s0, run);
    var path := [n];
    if n != d && Knows(s, n, d) {
      path := BuildRoute(cfg, s, n, d);
    } else if n != d {
      path := [n, d];
    }
    DistinctFits(path, cfg.peers.Keys);
    assert IsRoute(cfg, s, d, path) && path[0] == n;
  }
}
