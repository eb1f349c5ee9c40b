/** How far a beacon is flooded. */
module Coverage {
  import opened Routing
  import opened Mesh
  import opened LoopFreedom
  import opened Flooding

  ghost predicate InTransit(s: State, p: Packet) {
    p in s.outbox || p in s.wire
  }

  /** A beacon of d with counter at least c. */
  ghost predicate IsCopy(p: Packet, d: Addr, c: nat) {
    p.content.Beacon? && p.content.origin == d && p.content.counter >= c
  }

  /** One that is broadcast. */
  ghost predicate Floods(cfg: Config, p: Packet, d: Addr, c: nat) {
    IsCopy(p, d, c) && p.dst == cfg.broadcast
  }

  /** One that is not. */
  ghost predicate Targets(cfg: Config, p: Packet, d: Addr, c: nat) {
    IsCopy(p, d, c) && p.dst != cfg.broadcast
  }

  ghost predicate Covered(s: State, d: Addr, c: nat, n: Addr) {
    (n == d && Beaconed(s, d, c)) || HasNewer(s, n, d, c)
  }

  /** A copy is on its way from n to m. */
  ghost predicate OnLink(cfg: Config, s: State, d: Addr, c: nat, n: Addr, m: Addr) {
    exists p :: InTransit(s, p) && Floods(cfg, p, d, c) && p.from == n && p.to == m
  }

  /** Copies come from covered nodes, and every peer of a covered node outside `silent` is covered or
      has a copy on its way from that node. */
  ghost predicate FrontOk(cfg: Config, s: State, d: Addr, c: nat, silent: set<Addr>) {
    && (forall p :: InTransit(s, p) && Floods(cfg, p, d, c) ==> Covered(s, d, c, p.from))
    && (forall n, m :: IsLink(cfg, n, m) && Covered(s, d, c, n) && n !in silent ==>
          Covered(s, d, c, m) || OnLink(cfg, s, d, c, n, m))
  }

  /** No broadcast copy is lost. */
  ghost predicate Keeps(cfg: Config, step: Step, d: Addr, c: nat) {
    match step
    case LoseQueued(p) => !Floods(cfg, p, d, c)
    case LoseOnWire(p) => !Floods(cfg, p, d, c)
    case _ => true
  }

  ghost predicate KeepsFlood(cfg: Config, run: seq<Step>, d: Addr, c: nat) {
    forall i :: 0 <= i < |run| ==> Keeps(cfg, run[i], d, c)
  }

  /** A step makes a node silent when a targeted copy is the first it gets; a node that broadcasts,
      as origin or on adopting a newer broadcast copy, is silent no more. */
  ghost function SilentNext(cfg: Config, s: State, step: Step, d: Addr, c: nat, silent: set<Addr>): set<Addr>
    requires Enabled(cfg, s, step)
  {
    match step
    case Heartbeat(n, now) =>
      if n == d && now >= c && BeaconDue(s.nodes[n].lastBeacon, now, cfg.period) then silent - {n} else silent
    case DeliverBeacon(p) =>
      if Targets(cfg, p, d, c) && !Covered(s, d, c, p.to) then silent + {p.to}
      else if Floods(cfg, p, d, c) && Adopts(s.nodes[p.to].table, d, p.content.counter) then silent - {p.to}
      else silent
    case _ => silent
  }

  /** The nodes that are silent after a run. */
  ghost function SilentAfter(cfg: Config, s: State, run: seq<Step>, d: Addr, c: nat, silent: set<Addr>): set<Addr>
    requires IsRun(cfg, s, run)
    decreases run
  {
    if run == [] then silent
    else SilentAfter(cfg, Apply(cfg, s, run[0]), run[1..], d, c, SilentNext(cfg, s, run[0], d, c, silent))
  }

  lemma OnLinkKept(cfg: Config, s: State, s': State, d: Addr, c: nat, n: Addr, m: Addr)
    requires OnLink(cfg, s, d, c, n, m)
    requires forall p :: InTransit(s, p) && Floods(cfg, p, d, c) && p.from == n && p.to == m ==> InTransit(s', p)
    ensures OnLink(cfg, s', d, c, n, m)
  {}

  /** A step that covers nobody new and keeps all copies in transit, adding none. */
  lemma IdleKeepsFront(cfg: Config, s: State, s': State, d: Addr, c: nat, silent: set<Addr>)
    requires FrontOk(cfg, s, d, c, silent)
    requires forall n :: Covered(s', d, c, n) <==> Covered(s, d, c, n)
    requires forall p :: Floods(cfg, p, d, c) ==> (InTransit(s', p) <==> InTransit(s, p))
    ensures FrontOk(cfg, s', d, c, silent)
  {
    forall n, m | IsLink(cfg, n, m) && Covered(s', d, c, n) && n !in silent
      ensures Covered(s', d, c, m) || OnLink(cfg, s', d, c, n, m)
    {
      if !Covered(s, d, c, m) { OnLinkKept(cfg, s, s', d, c, n, m); }
    }
  }

  /** Steps other than heartbeats and beacon deliveries change neither tables nor broadcast copies. */
  lemma OtherIdle(cfg: Config, s: State, step: Step, d: Addr, c: nat)
    requires ValidConfig(cfg) && TableInv(cfg, s) && Enabled(cfg, s, step) && Keeps(cfg, step, d, c)
    requires !step.Heartbeat? && !step.DeliverBeacon?
    ensures var s' := Apply(cfg, s, step);
      && s'.nodes == s.nodes && s'.emitted == s.emitted
      && (forall p :: Floods(cfg, p, d, c) ==> (InTransit(s', p) <==> InTransit(s, p)))
  {
    OtherFrame(cfg, s, step);
    forall p | Floods(cfg, p, d, c) ensures InTransit(Apply(cfg, s, step), p) <==> InTransit(s, p) {
      OtherMovesNone(cfg, s, step, p);
    }
  }

  lemma OtherMovesNone(cfg: Config, s: State, step: Step, q: Packet)
    requires ValidConfig(cfg) && TableInv(cfg, s) && Enabled(cfg, s, step)
    requires !step.Heartbeat? && !step.DeliverBeacon? && !Loses(step, q)
    requires q.content.Beacon? && q.dst == cfg.broadcast
    ensures InTransit(Apply(cfg, s, step), q) <==> InTransit(s, q)
  {
    OtherSendsNone(cfg, s, step, q);
    CopiesInTransit(s, q);
    CopiesInTransit(Apply(cfg, s, step), q);
  }

  lemma CopiesInTransit(s: State, q: Packet)
    ensures InTransit(s, q) <==> Copies(s, q) > 0
  {}

  /** Node x, and nobody else, may become covered; copies are added by x and removed on links to x. */
  ghost predicate Advances(cfg: Config, s: State, s': State, d: Addr, c: nat, x: Addr) {
    && Covered(s', d, c, x)
    && (forall n :: n != x ==> (Covered(s', d, c, n) <==> Covered(s, d, c, n)))
    && (forall p :: Floods(cfg, p, d, c) && InTransit(s', p) ==> InTransit(s, p) || p.from == x)
    && (forall p :: Floods(cfg, p, d, c) && InTransit(s, p) ==> InTransit(s', p) || p.to == x)
  }

  lemma AdvanceKeepsFront(cfg: Config, s: State, s': State, d: Addr, c: nat, x: Addr, silent: set<Addr>, silent': set<Addr>)
    requires FrontOk(cfg, s, d, c, silent) && Advances(cfg, s, s', d, c, x) && silent - {x} <= silent'
    requires x !in silent' ==> forall m :: IsLink(cfg, x, m) ==> Covered(s', d, c, m) || OnLink(cfg, s', d, c, x, m)
    ensures FrontOk(cfg, s', d, c, silent')
  {
    forall n, m | IsLink(cfg, n, m) && Covered(s', d, c, n) && n !in silent'
      ensures Covered(s', d, c, m) || OnLink(cfg, s', d, c, n, m)
    {
      if n != x && m != x && !Covered(s, d, c, m) { OnLinkKept(cfg, s, s', d, c, n, m); }
    }
  }

  lemma HeartbeatIdle(cfg: Config, s: State, n: Addr, now: nat, d: Addr, c: nat)
    requires ValidConfig(cfg) && Enabled(cfg, s, Heartbeat(n, now))
    requires n != d || now < c || !BeaconDue(s.nodes[n].lastBeacon, now, cfg.period)
    ensures var s' := ApplyHeartbeat(cfg, s, n, now);
      && (forall m :: Covered(s', d, c, m) <==> Covered(s, d, c, m))
      && (forall p :: Floods(cfg, p, d, c) ==> (InTransit(s', p) <==> InTransit(s, p)))
  {
    var s' := ApplyHeartbeat(cfg, s, n, now);
    forall m ensures Covered(s', d, c, m) <==> Covered(s, d, c, m) {
      assert HasNewer(s', m, d, c) <==> HasNewer(s, m, d, c);
    }
    HeartbeatMoves(cfg, s, n, now);
  }

  lemma HeartbeatAdvances(cfg: Config, s: State, now: nat, d: Addr, c: nat)
    requires Enabled(cfg, s, Heartbeat(d, now)) && now >= c && BeaconDue(s.nodes[d].lastBeacon, now, cfg.period)
    ensures Advances(cfg, s, ApplyHeartbeat(cfg, s, d, now), d, c, d)
  {
    HeartbeatCovers(cfg, s, now, d, c);
    HeartbeatMoves(cfg, s, d, now);
  }

  lemma HeartbeatCovers(cfg: Config, s: State, now: nat, d: Addr, c: nat)
    requires Enabled(cfg, s, Heartbeat(d, now)) && now >= c && BeaconDue(s.nodes[d].lastBeacon, now, cfg.period)
    ensures var s' := ApplyHeartbeat(cfg, s, d, now);
      Covered(s', d, c, d) && forall n :: n != d ==> (Covered(s', d, c, n) <==> Covered(s, d, c, n))
  {}

  lemma HeartbeatMoves(cfg: Config, s: State, d: Addr, now: nat)
    requires Enabled(cfg, s, Heartbeat(d, now))
    ensures var s' := ApplyHeartbeat(cfg, s, d, now);
      && (forall q :: InTransit(s', q) ==> InTransit(s, q) || q.from == d)
      && (forall q :: InTransit(s, q) ==> InTransit(s', q))
  {}

  lemma HeartbeatKeepsFront(cfg: Config, s: State, n: Addr, now: nat, d: Addr, c: nat, silent: set<Addr>)
    requires ValidConfig(cfg) && Enabled(cfg, s, Heartbeat(n, now)) && FrontOk(cfg, s, d, c, silent)
    ensures FrontOk(cfg, ApplyHeartbeat(cfg, s, n, now), d, c, SilentNext(cfg, s, Heartbeat(n, now), d, c, silent))
  {
    var s' := ApplyHeartbeat(cfg, s, n, now);
    if n != d || now < c || !BeaconDue(s.nodes[n].lastBeacon, now, cfg.period) {
      HeartbeatIdle(cfg, s, n, now, d, c);
      IdleKeepsFront(cfg, s, s', d, c, silent);
    } else {
      HeartbeatAdvances(cfg, s, now, d, c);
      forall m | IsLink(cfg, d, m) ensures Covered(s', d, c, m) || OnLink(cfg, s', d, c, d, m) {
        if m != d { OriginServes(cfg, s, now, d, c, m); }
      }
      AdvanceKeepsFront(cfg, s, s', d, c, d, silent, silent - {d});
    }
  }

  lemma OriginServes(cfg: Config, s: State, now: nat, d: Addr, c: nat, m: Addr)
    requires Enabled(cfg, s, Heartbeat(d, now)) && now >= c && BeaconDue(s.nodes[d].lastBeacon, now, cfg.period)
    requires IsLink(cfg, d, m) && m != d
    ensures OnLink(cfg, ApplyHeartbeat(cfg, s, d, now), d, c, d, m)
  {
    var p := Packet(d, m, d, cfg.broadcast, Beacon(d, now));
    assert p in BroadcastCopies(d, cfg.peers[d], cfg.broadcast, d, Beacon(d, now));
    assert InTransit(ApplyHeartbeat(cfg, s, d, now), p) && Floods(cfg, p, d, c);
  }

  /** A beacon that is no copy covers nobody, and neither does a targeted copy at a covered node. */
  lemma BeaconCoversNone(cfg: Config, s: State, p: Packet, d: Addr, c: nat)
    requires Enabled(cfg, s, DeliverBeacon(p))
    requires IsCopy(p, d, c) ==> Covered(s, d, c, p.to)
    ensures forall m :: Covered(ApplyBeacon(cfg, s, p), d, c, m) <==> Covered(s, d, c, m)
  {
    var s' := ApplyBeacon(cfg, s, p);
    forall m ensures Covered(s', d, c, m) <==> Covered(s, d, c, m) {
      assert m in s.nodes ==> s'.nodes[m].lastBeacon == s.nodes[m].lastBeacon;
      assert m != p.to || !IsCopy(p, d, c) ==> (HasNewer(s', m, d, c) <==> HasNewer(s, m, d, c));
      assert HasNewer(s, m, d, c) ==> HasNewer(s', m, d, c);
    }
  }

  lemma BeaconMovesNone(cfg: Config, s: State, p: Packet, d: Addr, c: nat)
    requires Enabled(cfg, s, DeliverBeacon(p)) && !Floods(cfg, p, d, c)
    ensures forall q :: Floods(cfg, q, d, c) ==> (InTransit(ApplyBeacon(cfg, s, p), q) <==> InTransit(s, q))
  {
    var s' := ApplyBeacon(cfg, s, p);
    forall q | Floods(cfg, q, d, c) ensures InTransit(s', q) <==> InTransit(s, q) {
      assert q != p && q in s'.wire <==> q in s.wire;
      assert q in s'.outbox <==> q in s.outbox;
    }
  }

  lemma BeaconAdvances(cfg: Config, s: State, p: Packet, d: Addr, c: nat)
    requires Enabled(cfg, s, DeliverBeacon(p)) && IsCopy(p, d, c)
    ensures Advances(cfg, s, ApplyBeacon(cfg, s, p), d, c, p.to)
  {
    BeaconCovers(cfg, s, p, d, c);
    BeaconMoves(cfg, s, p);
  }

  lemma BeaconCovers(cfg: Config, s: State, p: Packet, d: Addr, c: nat)
    requires Enabled(cfg, s, DeliverBeacon(p)) && IsCopy(p, d, c)
    ensures var s' := ApplyBeacon(cfg, s, p);
      Covered(s', d, c, p.to) && forall n :: n != p.to ==> (Covered(s', d, c, n) <==> Covered(s, d, c, n))
  {
    var s' := ApplyBeacon(cfg, s, p);
    assert forall n :: n != p.to && n in s.nodes ==> s'.nodes[n] == s.nodes[n];
    assert Knows(s', p.to, d) && Entry(s', p.to, d).counter >= p.content.counter;
  }

  lemma BeaconMoves(cfg: Config, s: State, p: Packet)
    requires Enabled(cfg, s, DeliverBeacon(p))
    ensures var s' := ApplyBeacon(cfg, s, p);
      && (forall q :: InTransit(s', q) ==> InTransit(s, q) || q.from == p.to)
      && (forall q :: InTransit(s, q) ==> InTransit(s', q) || q.to == p.to)
  {}

  /** The receiver of a broadcast copy becomes covered, and passes the beacon to every peer but the
      one it came from, which is covered already. */
  lemma FloodKeepsFront(cfg: Config, s: State, p: Packet, d: Addr, c: nat, silent: set<Addr>)
    requires Enabled(cfg, s, DeliverBeacon(p)) && FrontOk(cfg, s, d, c, silent) && Floods(cfg, p, d, c)
    ensures FrontOk(cfg, ApplyBeacon(cfg, s, p), d, c, SilentNext(cfg, s, DeliverBeacon(p), d, c, silent))
  {
    var s', n := ApplyBeacon(cfg, s, p), p.to;
    var silent' := SilentNext(cfg, s, DeliverBeacon(p), d, c, silent);
    BeaconAdvances(cfg, s, p, d, c);
    assert InTransit(s, p) && Covered(s, d, c, p.from);
    if n !in silent' {
      forall m | IsLink(cfg, n, m) ensures Covered(s', d, c, m) || OnLink(cfg, s', d, c, n, m) {
        if m != n && !Covered(s, d, c, m) { ReceiverServes(cfg, s, p, d, c, m, silent); }
      }
    }
    AdvanceKeepsFront(cfg, s, s', d, c, n, silent, silent');
  }

  /** The receiver of a targeted copy is silent if it was not covered. */
  lemma BeaconKeepsFront(cfg: Config, s: State, p: Packet, d: Addr, c: nat, silent: set<Addr>)
    requires Enabled(cfg, s, DeliverBeacon(p)) && FrontOk(cfg, s, d, c, silent) && !Floods(cfg, p, d, c)
    ensures FrontOk(cfg, ApplyBeacon(cfg, s, p), d, c, SilentNext(cfg, s, DeliverBeacon(p), d, c, silent))
  {
    var s' := ApplyBeacon(cfg, s, p);
    if Targets(cfg, p, d, c) && !Covered(s, d, c, p.to) {
      BeaconAdvances(cfg, s, p, d, c);
      AdvanceKeepsFront(cfg, s, s', d, c, p.to, silent, silent + {p.to});
    } else {
      BeaconCoversNone(cfg, s, p, d, c);
      BeaconMovesNone(cfg, s, p, d, c);
      IdleKeepsFront(cfg, s, s', d, c, silent);
    }
  }

  lemma ReceiverServes(cfg: Config, s: State, p: Packet, d: Addr, c: nat, m: Addr, silent: set<Addr>)
    requires Enabled(cfg, s, DeliverBeacon(p)) && FrontOk(cfg, s, d, c, silent) && Floods(cfg, p, d, c)
    requires Adopts(s.nodes[p.to].table, d, p.content.counter) || p.to !in silent
    requires IsLink(cfg, p.to, m) && m != p.to && !Covered(s, d, c, m)
    ensures OnLink(cfg, ApplyBeacon(cfg, s, p), d, c, p.to, m)
  {
    var s', n := ApplyBeacon(cfg, s, p), p.to;
    assert InTransit(s, p) && Covered(s, d, c, p.from);
    if Adopts(s.nodes[n].table, d, p.content.counter) {
      var q := Packet(n, m, n, cfg.broadcast, p.content);
      assert q in BroadcastCopies(n, cfg.peers[n], cfg.broadcast, p.from, p.content);
      assert InTransit(s', q) && Floods(cfg, q, d, c);
    } else {
      assert Covered(s, d, c, n) && OnLink(cfg, s, d, c, n, m);
      OnLinkKept(cfg, s, s', d, c, n, m);
    }
  }

  lemma StepKeepsFront(cfg: Config, s: State, step: Step, d: Addr, c: nat, silent: set<Addr>)
    requires ValidConfig(cfg) && TableInv(cfg, s) && FrontOk(cfg, s, d, c, silent)
    requires Enabled(cfg, s, step) && Keeps(cfg, step, d, c)
    ensures FrontOk(cfg, Apply(cfg, s, step), d, c, SilentNext(cfg, s, step, d, c, silent))
  {
    match step {
      case Heartbeat(n, now) => HeartbeatKeepsFront(cfg, s, n, now, d, c, silent);
      case DeliverBeacon(p) =>
        if Floods(cfg, p, d, c) { FloodKeepsFront(cfg, s, p, d, c, silent); } else { BeaconKeepsFront(cfg, s, p, d, c, silent); }
      case _ => OtherKeepsFront(cfg, s, step, d, c, silent);
    }
  }

  lemma OtherKeepsFront(cfg: Config, s: State, step: Step, d: Addr, c: nat, silent: set<Addr>)
    requires ValidConfig(cfg) && TableInv(cfg, s) && FrontOk(cfg, s, d, c, silent)
    requires Enabled(cfg, s, step) && Keeps(cfg, step, d, c) && !step.Heartbeat? && !step.DeliverBeacon?
    ensures FrontOk(cfg, Apply(cfg, s, step), d, c, silent)
  {
    OtherIdle(cfg, s, step, d, c);
    IdleKeepsFront(cfg, s, Apply(cfg, s, step), d, c, silent);
  }

  lemma {:induction false} RunKeepsFront(cfg: Config, s: State, run: seq<Step>, d: Addr, c: nat, silent: set<Addr>)
    requires ValidConfig(cfg) && TableInv(cfg, s) && FrontOk(cfg, s, d, c, silent) && IsRun(cfg, s, run)
    requires KeepsFlood(cfg, run, d, c)
    ensures FrontOk(cfg, After(cfg, s, run), d, c, SilentAfter(cfg, s, run, d, c, silent))
    decreases run
  {
    if run != [] {
      StepKeeps(cfg, s, run[0]);
      StepKeepsFront(cfg, s, run[0], d, c, silent);
      RunKeepsFront(cfg, Apply(cfg, s, run[0]), run[1..], d, c, SilentNext(cfg, s, run[0], d, c, silent));
    }
  }

  /** Consecutive nodes of a path are peers. */
  ghost predicate IsPath(cfg: Config, path: seq<Addr>) {
    path != [] && forall i :: 0 <= i < |path| - 1 ==> IsLink(cfg, path[i], path[i + 1])
  }

  ghost predicate Connected(cfg: Config, d: Addr, n: Addr) {
    exists path :: IsPath(cfg, path) && path[0] == d && path[|path| - 1] == n
  }

  ghost predicate NoneInTransit(cfg: Config, s: State, d: Addr, c: nat) {
    forall p :: InTransit(s, p) ==> !Floods(cfg, p, d, c)
  }

  /** Silence is harmless if the peers of silent nodes are covered by others. */
  ghost predicate SilenceHarmless(cfg: Config, s: State, d: Addr, c: nat, silent: set<Addr>) {
    forall n, m :: n in silent && Connected(cfg, d, n) && IsLink(cfg, n, m) ==> Covered(s, d, c, m)
  }

  lemma PathPrefix(cfg: Config, path: seq<Addr>, i: nat)
    requires IsPath(cfg, path) && i < |path|
    ensures Connected(cfg, path[0], path[i])
  {
    var p := path[..i + 1];
    assert IsPath(cfg, p) && p[0] == path[0] && p[|p| - 1] == path[i];
  }

  lemma LinkConnects(cfg: Config, d: Addr, n: Addr, m: Addr)
    requires Connected(cfg, d, n) && IsLink(cfg, n, m)
    ensures Connected(cfg, d, m)
  {
    var path :| IsPath(cfg, path) && path[0] == d && path[|path| - 1] == n;
    var longer := path + [m];
    forall i | 0 <= i < |longer| - 1 ensures IsLink(cfg, longer[i], longer[i + 1]) {
      if i < |path| - 1 { assert IsLink(cfg, path[i], path[i + 1]); }
    }
    assert IsPath(cfg, longer) && longer[0] == d && longer[|longer| - 1] == m;
  }

  lemma {:induction false} CoverSpreads(cfg: Config, s: State, d: Addr, c: nat, path: seq<Addr>, i: nat, silent: set<Addr>)
    requires FrontOk(cfg, s, d, c, silent) && SilenceHarmless(cfg, s, d, c, silent)
    requires IsPath(cfg, path) && path[0] == d && Covered(s, d, c, d) && NoneInTransit(cfg, s, d, c)
    requires i < |path|
    ensures Covered(s, d, c, path[i])
  {
    if i > 0 {
      CoverSpreads(cfg, s, d, c, path, i - 1, silent);
      PathPrefix(cfg, path, i - 1);
      assert IsLink(cfg, path[i - 1], path[i]);
    }
  }

  /** In a run that loses no broadcast copy of a beacon of d with counter at least c, once d has
      beaconed c and no broadcast copy is in transit any more: all nodes connected to d have heard
      of it exactly if the peers of the silent ones have. */
  lemma CoverageExact(cfg: Config, s0: State, run: seq<Step>, d: Addr, c: nat)
    requires ValidConfig(cfg) && Init(cfg, s0) && IsRun(cfg, s0, run) && KeepsFlood(cfg, run, d, c)
    requires Beaconed(After(cfg, s0, run), d, c) && NoneInTransit(cfg, After(cfg, s0, run), d, c)
    ensures (forall n :: Connected(cfg, d, n) ==> n == d || HasNewer(After(cfg, s0, run), n, d, c))
       <==> SilenceHarmless(cfg, After(cfg, s0, run), d, c, SilentAfter(cfg, s0, run, d, c, {}))
  {
    var s, silent := After(cfg, s0, run), SilentAfter(cfg, s0, run, d, c, {});
    InitHolds(cfg, s0);
    RunKeepsFront(cfg, s0, run, d, c, {});
    if SilenceHarmless(cfg, s, d, c, silent) {
      forall n | Connected(cfg, d, n) ensures Covered(s, d, c, n) {
        var path :| IsPath(cfg, path) && path[0] == d && path[|path| - 1] == n;
        CoverSpreads(cfg, s, d, c, path, |path| - 1, silent);
      }
    } else {
      var n, m :| n in silent && Connected(cfg, d, n) && IsLink(cfg, n, m) && !Covered(s, d, c, m);
      LinkConnects(cfg, d, n, m);
    }
  }

  /** Along the run, targeted copies reach only nodes that are covered already. */
  ghost predicate TargetsCovered(cfg: Config, s: State, run: seq<Step>, d: Addr, c: nat)
    requires IsRun(cfg, s, run)
    decreases run
  {
    run != [] ==>
      && (run[0].DeliverBeacon? && Targets(cfg, run[0].packet, d, c) ==> Covered(s, d, c, run[0].packet.to))
      && TargetsCovered(cfg, Apply(cfg, s, run[0]), run[1..], d, c)
  }

  lemma {:induction false} NobodySilent(cfg: Config, s: State, run: seq<Step>, d: Addr, c: nat)
    requires IsRun(cfg, s, run) && TargetsCovered(cfg, s, run, d, c)
    ensures SilentAfter(cfg, s, run, d, c, {}) == {}
    decreases run
  {
    if run != [] {
      NobodySilent(cfg, Apply(cfg, s, run[0]), run[1..], d, c);
      assert SilentNext(cfg, s, run[0], d, c, {}) == {};
    }
  }

  /** In particular they all have if no targeted copy reached a node that was not covered yet. */
  lemma FloodCovers(cfg: Config, s0: State, run: seq<Step>, d: Addr, c: nat, n: Addr)
    requires ValidConfig(cfg) && Init(cfg, s0) && IsRun(cfg, s0, run) && KeepsFlood(cfg, run, d, c)
    requires TargetsCovered(cfg, s0, run, d, c)
    requires Beaconed(After(cfg, s0, run), d, c) && NoneInTransit(cfg, After(cfg, s0, run), d, c)
    requires Connected(cfg, d, n)
    ensures n == d || HasNewer(After(cfg, s0, run), n, d, c)
  {
    NobodySilent(cfg, s0, run, d, c);
    CoverageExact(cfg, s0, run, d, c);
  }

  // ----- Who hears of a beacon

  ghost predicate EmitsExactly(s: State, d: Addr, k: nat, n: Addr, m: Addr) {
    (n, m) in Emitted(s, d, k)
  }

  /** Node n has sent m a broadcast copy of a beacon of d with counter at least c. */
  ghost predicate Emits(s: State, d: Addr, c: nat, n: Addr, m: Addr) {
    exists k :: k >= c && EmitsExactly(s, d, k, n, m)
  }

  lemma SameEmission(s: State, s': State, d: Addr, c: nat)
    requires s'.emitted == s.emitted
    ensures forall n, m :: Emits(s', d, c, n, m) <==> Emits(s, d, c, n, m)
  {
    assert forall k, n, m :: EmitsExactly(s', d, k, n, m) <==> EmitsExactly(s, d, k, n, m);
  }

  ghost predicate SomeoneEmits(s: State, d: Addr, c: nat, m: Addr) {
    exists n :: Emits(s, d, c, n, m)
  }

  /** Broadcast copies in transit have been sent; what was sent has arrived or is in transit; and
      entries come from what was sent or from targeted copies, which reached the nodes in `told`. */
  ghost predicate HeardOk(cfg: Config, s: State, d: Addr, c: nat, told: set<Addr>) {
    && (forall p :: InTransit(s, p) && Floods(cfg, p, d, c) ==> Emits(s, d, c, p.from, p.to))
    && (forall n, m :: Emits(s, d, c, n, m) ==> HasNewer(s, m, d, c) || OnLink(cfg, s, d, c, n, m))
    && (forall n :: HasNewer(s, n, d, c) ==> n in told || SomeoneEmits(s, d, c, n))
    && (forall n :: n in told ==> HasNewer(s, n, d, c))
  }

  /** The nodes to which a run delivers a targeted copy. */
  ghost function Told(cfg: Config, run: seq<Step>, d: Addr, c: nat): set<Addr> {
    set i | 0 <= i < |run| && run[i].DeliverBeacon? && Targets(cfg, run[i].packet, d, c) :: run[i].packet.to
  }

  /** Nothing that HeardOk speaks of changes. */
  lemma SameHeard(cfg: Config, s: State, s': State, d: Addr, c: nat, told: set<Addr>)
    requires HeardOk(cfg, s, d, c, told)
    requires forall n :: HasNewer(s', n, d, c) <==> HasNewer(s, n, d, c)
    requires forall n, m :: Emits(s', d, c, n, m) <==> Emits(s, d, c, n, m)
    requires forall p :: Floods(cfg, p, d, c) ==> (InTransit(s', p) <==> InTransit(s, p))
    ensures HeardOk(cfg, s', d, c, told)
  {
    forall n, m | Emits(s', d, c, n, m) ensures HasNewer(s', m, d, c) || OnLink(cfg, s', d, c, n, m) {
      if !HasNewer(s, m, d, c) { OnLinkKept(cfg, s, s', d, c, n, m); }
    }
    forall n | HasNewer(s', n, d, c) ensures n in told || SomeoneEmits(s', d, c, n) {
      if n !in told {
        var m :| Emits(s, d, c, m, n);
        assert Emits(s', d, c, m, n);
      }
    }
  }

  /** Node x may get an entry, from a targeted or a broadcast copy, and may broadcast. */
  ghost predicate Spreads(cfg: Config, s: State, s': State, d: Addr, c: nat, x: Addr) {
    && (forall n :: HasNewer(s, n, d, c) ==> HasNewer(s', n, d, c))
    && (forall n :: HasNewer(s', n, d, c) ==> HasNewer(s, n, d, c) || n == x)
    && (forall n, m :: Emits(s, d, c, n, m) ==> Emits(s', d, c, n, m))
    && (forall n, m :: Emits(s', d, c, n, m) ==> Emits(s, d, c, n, m) || OnLink(cfg, s', d, c, n, m))
    && (forall p :: Floods(cfg, p, d, c) && InTransit(s', p) ==> InTransit(s, p) || Emits(s', d, c, p.from, p.to))
    && (forall p :: Floods(cfg, p, d, c) && InTransit(s, p) ==> InTransit(s', p) || (p.to == x && HasNewer(s', x, d, c)))
  }

  lemma SpreadKeeps(cfg: Config, s: State, s': State, d: Addr, c: nat, x: Addr, told: set<Addr>, told': set<Addr>)
    requires HeardOk(cfg, s, d, c, told) && Spreads(cfg, s, s', d, c, x)
    requires told <= told' <= told + {x} && (x in told' && x !in told ==> HasNewer(s', x, d, c))
    requires HasNewer(s', x, d, c) ==> HasNewer(s, x, d, c) || x in told' || SomeoneEmits(s', d, c, x)
    ensures HeardOk(cfg, s', d, c, told')
  {
    forall n, m | Emits(s', d, c, n, m) ensures HasNewer(s', m, d, c) || OnLink(cfg, s', d, c, n, m) {
      if Emits(s, d, c, n, m) && !HasNewer(s', m, d, c) { OnLinkKept(cfg, s, s', d, c, n, m); }
    }
    forall n | HasNewer(s', n, d, c) ensures n in told' || SomeoneEmits(s', d, c, n) {
      if HasNewer(s, n, d, c) && n !in told {
        var m :| Emits(s, d, c, m, n);
        assert Emits(s', d, c, m, n);
      }
    }
  }

  /** From s to s', node x broadcasts the beacon (o, k) to all peers but `exclude`. */
  ghost predicate Broadcasts(cfg: Config, s: State, s': State, x: Addr, exclude: Addr, o: Addr, k: nat) {
    && x in cfg.peers
    && s'.emitted == s.emitted[(o, k) := Emitted(s, o, k) + Links(cfg, x, exclude)]
    && s'.outbox == s.outbox + BroadcastCopies(x, cfg.peers[x], cfg.broadcast, exclude, Beacon(o, k))
  }

  lemma BroadcastEmits(cfg: Config, s: State, s': State, x: Addr, exclude: Addr, o: Addr, k: nat, d: Addr, c: nat, n: Addr, m: Addr)
    requires Broadcasts(cfg, s, s', x, exclude, o, k)
    ensures Emits(s, d, c, n, m) ==> Emits(s', d, c, n, m)
    ensures Emits(s', d, c, n, m) ==> Emits(s, d, c, n, m) || OnLink(cfg, s', d, c, n, m)
  {
    if Emits(s, d, c, n, m) {
      var i :| i >= c && EmitsExactly(s, d, i, n, m);
      assert EmitsExactly(s', d, i, n, m);
    } else if Emits(s', d, c, n, m) {
      var i :| i >= c && EmitsExactly(s', d, i, n, m);
      assert !EmitsExactly(s, d, i, n, m);
      BroadcastOnLink(cfg, s, s', x, exclude, o, k, d, i, n, m);
      assert Floods(cfg, Copy(cfg, n, m, o, k), d, c);
    }
  }

  lemma BroadcastOnLink(cfg: Config, s: State, s': State, x: Addr, exclude: Addr, o: Addr, k: nat, d: Addr, i: nat, n: Addr, m: Addr)
    requires Broadcasts(cfg, s, s', x, exclude, o, k)
    requires EmitsExactly(s', d, i, n, m) && !EmitsExactly(s, d, i, n, m)
    ensures i == k && d == o && InTransit(s', Copy(cfg, n, m, o, k))
  {
    assert i == k && d == o;
    assert (n, m) in Links(cfg, x, exclude);
    assert Copy(cfg, n, m, o, k) in BroadcastCopies(x, cfg.peers[x], cfg.broadcast, exclude, Beacon(o, k));
  }

  lemma BroadcastSent(cfg: Config, s: State, s': State, x: Addr, exclude: Addr, o: Addr, k: nat, d: Addr, c: nat, q: Packet)
    requires Broadcasts(cfg, s, s', x, exclude, o, k) && q in s'.outbox && q !in s.outbox && Floods(cfg, q, d, c)
    ensures Emits(s', d, c, q.from, q.to)
  {
    assert q in BroadcastCopies(x, cfg.peers[x], cfg.broadcast, exclude, Beacon(o, k));
    assert (q.from, q.to) in Links(cfg, x, exclude);
    assert EmitsExactly(s', o, k, q.from, q.to);
  }

  lemma HeartbeatKeepsHeard(cfg: Config, s: State, n: Addr, now: nat, d: Addr, c: nat, told: set<Addr>)
    requires Enabled(cfg, s, Heartbeat(n, now)) && HeardOk(cfg, s, d, c, told)
    ensures HeardOk(cfg, ApplyHeartbeat(cfg, s, n, now), d, c, told)
  {
    var s' := ApplyHeartbeat(cfg, s, n, now);
    HeartbeatSameTables(cfg, s, n, now, d, c);
    if BeaconDue(s.nodes[n].lastBeacon, now, cfg.period) {
      assert Broadcasts(cfg, s, s', n, n, n, now) && s'.wire == s.wire;
      BroadcastSpreads(cfg, s, s', n, n, n, now, d, c);
      SpreadKeeps(cfg, s, s', d, c, n, told, told);
    } else {
      SameEmission(s, s', d, c);
      SameHeard(cfg, s, s', d, c, told);
    }
  }

  lemma HeartbeatSameTables(cfg: Config, s: State, n: Addr, now: nat, d: Addr, c: nat)
    requires Enabled(cfg, s, Heartbeat(n, now))
    ensures forall m :: HasNewer(ApplyHeartbeat(cfg, s, n, now), m, d, c) <==> HasNewer(s, m, d, c)
  {
    var s' := ApplyHeartbeat(cfg, s, n, now);
    assert forall m :: m in s.nodes ==> s'.nodes[m].table == s.nodes[m].table;
  }

  lemma BroadcastSpreads(cfg: Config, s: State, s': State, x: Addr, exclude: Addr, o: Addr, k: nat, d: Addr, c: nat)
    requires Broadcasts(cfg, s, s', x, exclude, o, k) && s'.wire == s.wire
    requires forall m :: HasNewer(s', m, d, c) <==> HasNewer(s, m, d, c)
    ensures Spreads(cfg, s, s', d, c, x)
  {
    forall n, m
      ensures Emits(s, d, c, n, m) ==> Emits(s', d, c, n, m)
      ensures Emits(s', d, c, n, m) ==> Emits(s, d, c, n, m) || OnLink(cfg, s', d, c, n, m)
    {
      BroadcastEmits(cfg, s, s', x, exclude, o, k, d, c, n, m);
    }
    forall p | Floods(cfg, p, d, c) && InTransit(s', p) && !InTransit(s, p) ensures Emits(s', d, c, p.from, p.to) {
      BroadcastSent(cfg, s, s', x, exclude, o, k, d, c, p);
    }
  }

  lemma BeaconNewer(cfg: Config, s: State, p: Packet, d: Addr, c: nat)
    requires Enabled(cfg, s, DeliverBeacon(p))
    ensures var s' := ApplyBeacon(cfg, s, p);
      && (forall n :: HasNewer(s, n, d, c) ==> HasNewer(s', n, d, c))
      && (forall n :: HasNewer(s', n, d, c) ==> HasNewer(s, n, d, c) || (n == p.to && IsCopy(p, d, c)))
      && (IsCopy(p, d, c) ==> HasNewer(s', p.to, d, c))
  {}

  lemma BeaconSpreads(cfg: Config, s: State, p: Packet, d: Addr, c: nat)
    requires Enabled(cfg, s, DeliverBeacon(p))
    ensures Spreads(cfg, s, ApplyBeacon(cfg, s, p), d, c, p.to)
  {
    var s' := ApplyBeacon(cfg, s, p);
    var o, k := p.content.origin, p.content.counter;
    BeaconNewer(cfg, s, p, d, c);
    BeaconEmission(cfg, s, p, d, c);
    forall q | Floods(cfg, q, d, c) && InTransit(s', q) && !InTransit(s, q) ensures Emits(s', d, c, q.from, q.to) {
      assert q in s'.outbox;
      BroadcastSent(cfg, s, s', p.to, p.from, o, k, d, c, q);
    }
    forall q | Floods(cfg, q, d, c) && InTransit(s, q) && q != p ensures InTransit(s', q) {
      assert s.wire[q] == s'.wire[q];
    }
  }

  lemma BeaconEmission(cfg: Config, s: State, p: Packet, d: Addr, c: nat)
    requires Enabled(cfg, s, DeliverBeacon(p))
    ensures var s' := ApplyBeacon(cfg, s, p);
      && (forall n, m :: Emits(s, d, c, n, m) ==> Emits(s', d, c, n, m))
      && (forall n, m :: Emits(s', d, c, n, m) ==> Emits(s, d, c, n, m) || OnLink(cfg, s', d, c, n, m))
  {
    var s' := ApplyBeacon(cfg, s, p);
    var o, k := p.content.origin, p.content.counter;
    if Adopts(s.nodes[p.to].table, o, k) && p.dst == cfg.broadcast {
      assert Broadcasts(cfg, s, s', p.to, p.from, o, k);
      forall n, m
        ensures Emits(s, d, c, n, m) ==> Emits(s', d, c, n, m)
        ensures Emits(s', d, c, n, m) ==> Emits(s, d, c, n, m) || OnLink(cfg, s', d, c, n, m)
      {
        BroadcastEmits(cfg, s, s', p.to, p.from, o, k, d, c, n, m);
      }
    } else {
      SameEmission(s, s', d, c);
    }
  }

  lemma BeaconKeepsHeard(cfg: Config, s: State, p: Packet, d: Addr, c: nat, told: set<Addr>)
    requires Enabled(cfg, s, DeliverBeacon(p)) && HeardOk(cfg, s, d, c, told)
    ensures HeardOk(cfg, ApplyBeacon(cfg, s, p), d, c, told + if Targets(cfg, p, d, c) then {p.to} else {})
  {
    var s' := ApplyBeacon(cfg, s, p);
    BeaconSpreads(cfg, s, p, d, c);
    BeaconNewer(cfg, s, p, d, c);
    if Floods(cfg, p, d, c) {
      assert InTransit(s, p) && Emits(s, d, c, p.from, p.to);
      assert Emits(s', d, c, p.from, p.to);
    }
    SpreadKeeps(cfg, s, s', d, c, p.to, told, told + if Targets(cfg, p, d, c) then {p.to} else {});
  }

  lemma OtherKeepsHeard(cfg: Config, s: State, step: Step, d: Addr, c: nat, told: set<Addr>)
    requires ValidConfig(cfg) && TableInv(cfg, s) && Enabled(cfg, s, step) && Keeps(cfg, step, d, c)
    requires !step.Heartbeat? && !step.DeliverBeacon? && HeardOk(cfg, s, d, c, told)
    ensures HeardOk(cfg, Apply(cfg, s, step), d, c, told)
  {
    OtherIdle(cfg, s, step, d, c);
    SameEmission(s, Apply(cfg, s, step), d, c);
    SameHeard(cfg, s, Apply(cfg, s, step), d, c, told);
  }

  lemma StepKeepsHeard(cfg: Config, s: State, step: Step, d: Addr, c: nat, told: set<Addr>)
    requires ValidConfig(cfg) && TableInv(cfg, s) && HeardOk(cfg, s, d, c, told)
    requires Enabled(cfg, s, step) && Keeps(cfg, step, d, c)
    ensures HeardOk(cfg, Apply(cfg, s, step), d, c, told + Told(cfg, [step], d, c))
  {
    assert [step][0] == step;
    match step {
      case Heartbeat(n, now) => HeartbeatKeepsHeard(cfg, s, n, now, d, c, told);
      case DeliverBeacon(p) => BeaconKeepsHeard(cfg, s, p, d, c, told);
      case _ => OtherKeepsHeard(cfg, s, step, d, c, told);
    }
    ToldOnce(cfg, step, d, c);
    assert told + {} == told;
  }

  lemma ToldOnce(cfg: Config, step: Step, d: Addr, c: nat)
    ensures Told(cfg, [step], d, c)
         == if step.DeliverBeacon? && Targets(cfg, step.packet, d, c) then {step.packet.to} else {}
  {
    assert [step][0] == step;
  }

  lemma ToldSplit(cfg: Config, run: seq<Step>, d: Addr, c: nat)
    requires run != []
    ensures Told(cfg, run, d, c) == Told(cfg, [run[0]], d, c) + Told(cfg, run[1..], d, c)
  {
    ToldOnce(cfg, run[0], d, c);
    forall x | x in Told(cfg, run, d, c) ensures x in Told(cfg, [run[0]], d, c) + Told(cfg, run[1..], d, c) {
      var i :| 0 <= i < |run| && run[i].DeliverBeacon? && Targets(cfg, run[i].packet, d, c) && run[i].packet.to == x;
      if i > 0 { assert run[1..][i - 1] == run[i]; }
    }
    forall x | x in Told(cfg, run[1..], d, c) ensures x in Told(cfg, run, d, c) {
      var i :| 0 <= i < |run| - 1 && run[1..][i].DeliverBeacon? && Targets(cfg, run[1..][i].packet, d, c) && run[1..][i].packet.to == x;
      assert run[i + 1] == run[1..][i];
    }
  }

  lemma Regrouped<T>(a: set<T>, b: set<T>, c: set<T>)
    ensures a + b + c == a + (b + c)
  {}

  lemma {:induction false} RunKeepsHeard(cfg: Config, s: State, run: seq<Step>, d: Addr, c: nat, told: set<Addr>)
    requires ValidConfig(cfg) && TableInv(cfg, s) && HeardOk(cfg, s, d, c, told) && IsRun(cfg, s, run)
    requires KeepsFlood(cfg, run, d, c)
    ensures HeardOk(cfg, After(cfg, s, run), d, c, told + Told(cfg, run, d, c))
    decreases run
  {
    if run == [] {
      assert told + Told(cfg, run, d, c) == told;
    } else {
      var first := Told(cfg, [run[0]], d, c);
      StepKeeps(cfg, s, run[0]);
      StepKeepsHeard(cfg, s, run[0], d, c, told);
      RunKeepsHeard(cfg, Apply(cfg, s, run[0]), run[1..], d, c, told + first);
      ToldSplit(cfg, run, d, c);
      Regrouped(told, first, Told(cfg, run[1..], d, c));
    }
  }

  /** In such a run, once no broadcast copy is in transit, a node has an entry for d with counter at
      least c exactly if a peer broadcast such a beacon to it or a targeted one was delivered to it. */
  lemma HeardExactly(cfg: Config, s0: State, run: seq<Step>, d: Addr, c: nat, n: Addr)
    requires ValidConfig(cfg) && Init(cfg, s0) && IsRun(cfg, s0, run) && KeepsFlood(cfg, run, d, c)
    requires NoneInTransit(cfg, After(cfg, s0, run), d, c)
    ensures HasNewer(After(cfg, s0, run), n, d, c)
       <==> SomeoneEmits(After(cfg, s0, run), d, c, n) || n in Told(cfg, run, d, c)
  {
    InitHolds(cfg, s0);
    RunKeepsHeard(cfg, s0, run, d, c, {});
  }
}
