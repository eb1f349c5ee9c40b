/** Data messages on their way while the tables change under them: they climb the order on
    table entries at every hop, are never stuck, and arrive unaltered at most once. */
module InFlight {
  import opened Bits
  import opened Routing
  import opened Mesh
  import opened LoopFreedom

  ghost predicate Flying(s: State, p: Packet) {
    p.content.Data? && Copies(s, p) > 0
  }

  ghost function Id(p: Packet): nat
    requires p.content.Data?
  {
    p.content.letter.id
  }

  // ----- Trails

  /** The entry a hop used is still there, or was replaced by one with a higher counter. */
  ghost predicate Passed(s: State, h: Hop, d: Addr) {
    && Knows(s, h.node, d)
    && (Rank(s, h.node, d) == h || Entry(s, h.node, d).counter > h.counter)
  }

  /** Every hop used an entry above all earlier ones, and a node that was visited before had
      adopted a strictly newer beacon in between. */
  ghost predicate Ascends(trail: seq<Hop>) {
    && (forall i, j :: 0 <= i < j < |trail| ==> Above(trail[j], trail[i]))
    && (forall i, j :: 0 <= i < j < |trail| && trail[i].node == trail[j].node ==> trail[j].counter > trail[i].counter)
  }

  ghost predicate TrailOk(s: State, trail: seq<Hop>, d: Addr) {
    Ascends(trail) && (forall i :: 0 <= i < |trail| ==> Passed(s, trail[i], d))
  }

  ghost predicate TrailsOk(s: State) {
    && |s.trails| == |s.tells|
    && (forall id :: 0 <= id < |s.tells| ==> TrailOk(s, s.trails[id], s.tells[id].dst))
    && (forall id :: 0 <= id < |s.tells| && s.tells[id].status != Sent ==> s.trails[id] == [])
  }

  // ----- Packets and deliveries

  /** Node m will deliver a message for d, or pass it to d itself, or has an entry for d above
      every entry the message has used so far. */
  ghost predicate Onward(cfg: Config, s: State, m: Addr, d: Addr, trail: seq<Hop>) {
    && m in cfg.peers && d in cfg.peers
    && (m == d || d in cfg.peers[m]
        || (Knows(s, m, d) && trail != [] && Above(Rank(s, m, d), trail[|trail| - 1])))
  }

  /** A message in flight is the one its Tell asked for. */
  ghost predicate PacketOk(cfg: Config, s: State, p: Packet)
    requires p.content.Data? && |s.trails| == |s.tells|
  {
    && Id(p) < |s.tells|
    && s.tells[Id(p)] == Tell(p.src, p.dst, p.content.letter.text, Sent)
    && Onward(cfg, s, p.to, p.dst, s.trails[Id(p)])
  }

  ghost predicate FlightOk(cfg: Config, s: State)
    requires |s.trails| == |s.tells|
  {
    && (forall p :: Flying(s, p) ==> Copies(s, p) == 1 && PacketOk(cfg, s, p))
    && (forall p, q :: Flying(s, p) && Flying(s, q) && Id(p) == Id(q) ==> p == q)
  }

  ghost predicate MatchesTell(s: State, r: Delivery) {
    r.letter.id < |s.tells| && s.tells[r.letter.id] == Tell(r.src, r.at, r.letter.text, Sent)
  }

  ghost predicate DeliveredOk(s: State) {
    && (forall i :: 0 <= i < |s.delivered| ==> MatchesTell(s, s.delivered[i]))
    && (forall i, j :: 0 <= i < j < |s.delivered| ==> s.delivered[i].letter.id != s.delivered[j].letter.id)
    && (forall i, p :: 0 <= i < |s.delivered| && Flying(s, p) ==> s.delivered[i].letter.id != Id(p))
  }

  ghost predicate DataInv(cfg: Config, s: State) {
    TrailsOk(s) && FlightOk(cfg, s) && DeliveredOk(s)
  }

  // ----- Steps that touch no data message

  ghost predicate SameData(s: State, s': State) {
    && s'.tells == s.tells && s'.trails == s.trails && s'.delivered == s.delivered
    && (forall p: Packet :: p.content.Data? ==> Copies(s', p) <= Copies(s, p))
  }

  lemma TrailKept(s: State, s': State, trail: seq<Hop>, d: Addr)
    requires Improves(s, s') && TrailOk(s, trail, d)
    ensures TrailOk(s', trail, d)
  {
    forall i | 0 <= i < |trail| ensures Passed(s', trail[i], d) {
      assert Passed(s, trail[i], d);
    }
  }

  lemma OnwardKept(cfg: Config, s: State, s': State, m: Addr, d: Addr, trail: seq<Hop>)
    requires Improves(s, s') && Onward(cfg, s, m, d, trail)
    ensures Onward(cfg, s', m, d, trail)
  {}

  lemma TrailsKept(s: State, s': State)
    requires TrailsOk(s) && Improves(s, s') && s'.tells == s.tells && s'.trails == s.trails
    ensures TrailsOk(s')
  {
    forall id | 0 <= id < |s.tells| ensures TrailOk(s', s'.trails[id], s'.tells[id].dst) {
      TrailKept(s, s', s.trails[id], s.tells[id].dst);
    }
  }

  lemma SameDataKeeps(cfg: Config, s: State, s': State)
    requires DataInv(cfg, s) && Improves(s, s') && SameData(s, s')
    ensures DataInv(cfg, s')
  {
    TrailsKept(s, s');
    forall p | Flying(s', p) ensures Copies(s', p) == 1 && PacketOk(cfg, s', p) {
      assert Flying(s, p);
      OnwardKept(cfg, s, s', p.to, p.dst, s.trails[Id(p)]);
    }
  }

  lemma HeartbeatSameData(cfg: Config, s: State, n: Addr, now: nat)
    requires Enabled(cfg, s, Heartbeat(n, now))
    ensures SameData(s, ApplyHeartbeat(cfg, s, n, now))
  {}

  lemma BeaconSameData(cfg: Config, s: State, p: Packet)
    requires Enabled(cfg, s, DeliverBeacon(p))
    ensures SameData(s, ApplyBeacon(cfg, s, p))
  {}

  lemma BeaconStepSameData(cfg: Config, s: State, step: Step)
    requires BeaconsOk(cfg, s) && Enabled(cfg, s, step) && !HandlesNoBeacon(step)
    ensures SameData(s, Apply(cfg, s, step))
  {
    match step {
      case Heartbeat(n, now) => HeartbeatSameData(cfg, s, n, now);
      case DeliverBeacon(p) => BeaconSameData(cfg, s, p);
      case Relay(j) => assert JobOk(cfg, s, j);
      case Respond(j) =>
    }
  }

  lemma LinkStepSameData(cfg: Config, s: State, step: Step)
    requires Enabled(cfg, s, step) && (step.Transmit? || step.LoseQueued? || step.LoseOnWire?)
    ensures SameData(s, Apply(cfg, s, step))
  {}

  // ----- Data messages

  /** A message in flight is never at a node that cannot forward it. */
  lemma NeverStuck(cfg: Config, s: State, p: Packet)
    requires DataInv(cfg, s) && TableInv(cfg, s) && Flying(s, p)
    ensures p.to in s.nodes && p.to in cfg.peers
    ensures RouteData(p.to, cfg.peers[p.to], s.nodes[p.to].table, p.dst) != Unknown
  {
    assert PacketOk(cfg, s, p);
  }

  lemma ExtendedOk(s: State, trail: seq<Hop>, n: Addr, d: Addr)
    requires Knows(s, n, d) && TrailOk(s, trail, d)
    requires trail == [] || Above(Rank(s, n, d), trail[|trail| - 1])
    ensures TrailOk(s, trail + [Rank(s, n, d)], d)
  {
    var t := trail + [Rank(s, n, d)];
    forall i, j | 0 <= i < j < |t|
      ensures Above(t[j], t[i]) && (t[i].node == t[j].node ==> t[j].counter > t[i].counter)
    {
      if j == |trail| {
        assert i == |trail| - 1 || Above(trail[|trail| - 1], trail[i]);
        assert Passed(s, trail[i], d);
      }
    }
  }

  /** The next hop of a table entry can take the message on. */
  lemma NextOnward(cfg: Config, s: State, n: Addr, d: Addr, trail: seq<Hop>)
    requires ValidConfig(cfg) && TableInv(cfg, s) && Knows(s, n, d)
    ensures Onward(cfg, s, Entry(s, n, d).next, d, trail + [Rank(s, n, d)])
  {
    if n != d {
      assert NextAbove(s, n, d);
    }
  }

  lemma DataTrailsKept(cfg: Config, s: State, p: Packet)
    requires TableInv(cfg, s) && DataInv(cfg, s) && Enabled(cfg, s, DeliverData(p))
    ensures TrailsOk(ApplyData(cfg, s, p))
  {
    var s', n, id := ApplyData(cfg, s, p), p.to, Id(p);
    assert Flying(s, p) && PacketOk(cfg, s, p);
    forall k | 0 <= k < |s'.tells| ensures TrailOk(s', s'.trails[k], s'.tells[k].dst) {
      assert TrailOk(s, s.trails[k], s.tells[k].dst);
      if s'.trails[k] != s.trails[k] {
        assert k == id;
        ExtendedOk(s, s.trails[id], n, p.dst);
        TrailKept(s, s', s.trails[id] + [Rank(s, n, p.dst)], p.dst);
      } else {
        TrailKept(s, s', s.trails[k], s.tells[k].dst);
      }
    }
  }

  /** Message p is replaced by q, which carries the same letter; nothing else moves. */
  ghost predicate Replaces(s: State, s': State, p: Packet, q: Packet) {
    && Flying(s, p) && q.content == p.content
    && (forall r: Packet :: r.content.Data? ==>
          Copies(s', r) == Copies(s, r) - (if r == p then 1 else 0) + (if r == q then 1 else 0))
  }

  lemma ReplaceKeepsFlight(cfg: Config, s: State, s': State, p: Packet, q: Packet)
    requires TrailsOk(s) && FlightOk(cfg, s) && Improves(s, s') && Replaces(s, s', p, q)
    requires q == p.(from := q.from, to := q.to)
    requires s'.tells == s.tells && |s'.trails| == |s.trails|
    requires forall k :: 0 <= k < |s.trails| && k != Id(p) ==> s'.trails[k] == s.trails[k]
    requires PacketOk(cfg, s, p) && Onward(cfg, s', q.to, q.dst, s'.trails[Id(p)])
    ensures FlightOk(cfg, s')
  {
    forall r | Flying(s', r) ensures Copies(s', r) == 1 && PacketOk(cfg, s', r) {
      if r == q {
        assert Flying(s, q) ==> q == p;
      } else {
        assert Flying(s, r) && PacketOk(cfg, s, r);
        assert Id(r) != Id(p);
        OnwardKept(cfg, s, s', r.to, r.dst, s.trails[Id(r)]);
      }
    }
  }

  lemma ReplaceKeepsDelivered(s: State, s': State, p: Packet, q: Packet)
    requires DeliveredOk(s) && Replaces(s, s', p, q) && s'.tells == s.tells && s'.delivered == s.delivered
    ensures DeliveredOk(s')
  {
    assert forall r :: Flying(s', r) ==> r == q || Flying(s, r);
    assert forall i :: 0 <= i < |s.delivered| ==> MatchesTell(s, s.delivered[i]);
  }

  lemma ForwardReplaces(cfg: Config, s: State, p: Packet, hop: Decision)
    requires Enabled(cfg, s, DeliverData(p))
    requires hop == RouteData(p.to, cfg.peers[p.to], s.nodes[p.to].table, p.dst) && (hop.Direct? || hop.ByTable?)
    ensures Replaces(s, ApplyData(cfg, s, p), p, p.(from := p.to, to := hop.to))
  {}

  lemma QuietImproves(cfg: Config, s: State, step: Step)
    requires Enabled(cfg, s, step) && HandlesNoBeacon(step)
    ensures Improves(s, Apply(cfg, s, step))
  {
    QuietStep(cfg, s, step);
  }

  lemma ForwardKeeps(cfg: Config, s: State, p: Packet)
    requires ValidConfig(cfg) && TableInv(cfg, s) && DataInv(cfg, s) && Enabled(cfg, s, DeliverData(p))
    requires !RouteData(p.to, cfg.peers[p.to], s.nodes[p.to].table, p.dst).Local?
    ensures FlightOk(cfg, ApplyData(cfg, s, p)) && DeliveredOk(ApplyData(cfg, s, p))
  {
    var s', n, id := ApplyData(cfg, s, p), p.to, Id(p);
    var hop := RouteData(n, cfg.peers[n], s.nodes[n].table, p.dst);
    QuietImproves(cfg, s, DeliverData(p));
    assert Flying(s, p) && PacketOk(cfg, s, p);
    NeverStuck(cfg, s, p);
    var q := p.(from := n, to := hop.to);
    ForwardReplaces(cfg, s, p, hop);
    if hop.ByTable? {
      NextOnward(cfg, s, n, p.dst, s.trails[id]);
      OnwardKept(cfg, s, s', q.to, q.dst, s'.trails[id]);
    }
    ReplaceKeepsFlight(cfg, s, s', p, q);
    ReplaceKeepsDelivered(s, s', p, q);
  }

  /** Message p is gone and has been delivered. */
  ghost predicate Arrives(s: State, s': State, p: Packet) {
    && Flying(s, p)
    && s'.tells == s.tells && s'.trails == s.trails
    && s'.delivered == s.delivered + [Delivery(p.dst, p.src, p.content.letter)]
    && (forall r: Packet :: r.content.Data? ==> Copies(s', r) == Copies(s, r) - (if r == p then 1 else 0))
  }

  lemma LocalArrives(cfg: Config, s: State, p: Packet)
    requires Enabled(cfg, s, DeliverData(p))
    requires RouteData(p.to, cfg.peers[p.to], s.nodes[p.to].table, p.dst).Local?
    ensures Arrives(s, ApplyData(cfg, s, p), p)
  {}

  lemma ArriveKeeps(cfg: Config, s: State, s': State, p: Packet)
    requires DataInv(cfg, s) && Improves(s, s') && Arrives(s, s', p)
    ensures FlightOk(cfg, s') && DeliveredOk(s')
  {
    assert PacketOk(cfg, s, p);
    forall r | Flying(s', r) ensures Copies(s', r) == 1 && PacketOk(cfg, s', r) && Id(r) != Id(p) {
      assert Flying(s, r) && r != p;
      OnwardKept(cfg, s, s', r.to, r.dst, s.trails[Id(r)]);
    }
    assert forall i :: 0 <= i < |s.delivered| ==> MatchesTell(s, s.delivered[i]);
  }

  lemma DataKeeps(cfg: Config, s: State, p: Packet)
    requires ValidConfig(cfg) && TableInv(cfg, s) && DataInv(cfg, s) && Enabled(cfg, s, DeliverData(p))
    ensures DataInv(cfg, ApplyData(cfg, s, p))
  {
    DataTrailsKept(cfg, s, p);
    if RouteData(p.to, cfg.peers[p.to], s.nodes[p.to].table, p.dst).Local? {
      QuietImproves(cfg, s, DeliverData(p));
      LocalArrives(cfg, s, p);
      ArriveKeeps(cfg, s, ApplyData(cfg, s, p), p);
    } else {
      ForwardKeeps(cfg, s, p);
    }
  }

  // ----- Tells

  lemma StartTellKeeps(cfg: Config, s: State, n: Addr, dst: Addr, text: seq<uint8>)
    requires DataInv(cfg, s) && Enabled(cfg, s, StartTell(n, dst, text))
    ensures DataInv(cfg, Apply(cfg, s, StartTell(n, dst, text)))
  {
    var s' := Apply(cfg, s, StartTell(n, dst, text));
    assert Improves(s, s');
    forall id | 0 <= id < |s'.tells| ensures TrailOk(s', s'.trails[id], s'.tells[id].dst) {
      if id < |s.tells| { TrailKept(s, s', s.trails[id], s.tells[id].dst); }
    }
    forall p | Flying(s', p) ensures Copies(s', p) == 1 && PacketOk(cfg, s', p) {
      assert Flying(s, p) && PacketOk(cfg, s, p);
      OnwardKept(cfg, s, s', p.to, p.dst, s.trails[Id(p)]);
    }
    assert forall i :: 0 <= i < |s.delivered| ==> MatchesTell(s, s.delivered[i]);
  }

  /** Changing the fate of a Tell that is still being tried touches no message in flight and
      no delivery, since those all belong to Tells that were sent. */
  lemma AbandonTellKeeps(cfg: Config, s: State, id: nat)
    requires DataInv(cfg, s) && Enabled(cfg, s, AbandonTell(id))
    ensures DataInv(cfg, Apply(cfg, s, AbandonTell(id)))
  {
    var s' := Apply(cfg, s, AbandonTell(id));
    assert Improves(s, s');
    forall k | 0 <= k < |s'.tells| ensures TrailOk(s', s'.trails[k], s'.tells[k].dst) {
      TrailKept(s, s', s.trails[k], s.tells[k].dst);
    }
    forall p | Flying(s', p) ensures Copies(s', p) == 1 && PacketOk(cfg, s', p) {
      assert Flying(s, p) && PacketOk(cfg, s, p);
      OnwardKept(cfg, s, s', p.to, p.dst, s.trails[Id(p)]);
    }
    assert forall i :: 0 <= i < |s.delivered| ==> MatchesTell(s, s.delivered[i]);
  }

  lemma AttemptTrailsKept(cfg: Config, s: State, id: nat)
    requires TrailsOk(s) && Enabled(cfg, s, AttemptTell(id))
    ensures TrailsOk(ApplyAttempt(cfg, s, id))
  {
    var s' := ApplyAttempt(cfg, s, id);
    var Tell(n, dst, _, _) := s.tells[id];
    QuietImproves(cfg, s, AttemptTell(id));
    forall k | 0 <= k < |s'.tells| ensures TrailOk(s', s'.trails[k], s'.tells[k].dst) {
      if s'.trails[k] != s.trails[k] {
        ExtendedOk(s, [], n, dst);
        TrailKept(s, s', [] + [Rank(s, n, dst)], dst);
        assert s'.trails[k] == [] + [Rank(s, n, dst)];
      } else {
        TrailKept(s, s', s.trails[k], s.tells[k].dst);
      }
    }
  }

  /** Tell `id` puts its one message q into the network. */
  ghost predicate Launches(s: State, s': State, id: nat, q: Packet) {
    && id < |s.tells| && s.tells[id].status == Trying
    && q.content == Data(Letter(id, s.tells[id].text)) && q.src == s.tells[id].src && q.dst == s.tells[id].dst
    && s'.tells == s.tells[id := s.tells[id].(status := Sent)]
    && |s'.trails| == |s.trails| && (forall k :: 0 <= k < |s.trails| && k != id ==> s'.trails[k] == s.trails[k])
    && s'.delivered == s.delivered
    && (forall r: Packet :: r.content.Data? ==> Copies(s', r) == Copies(s, r) + (if r == q then 1 else 0))
  }

  lemma AttemptLaunches(cfg: Config, s: State, id: nat, hop: Decision)
    requires Enabled(cfg, s, AttemptTell(id))
    requires hop == RouteAbove(cfg.peers[s.tells[id].src], s.nodes[s.tells[id].src].table, s.tells[id].dst)
    requires !hop.Unknown?
    ensures Launches(s, ApplyAttempt(cfg, s, id), id,
                     Packet(s.tells[id].src, hop.to, s.tells[id].src, s.tells[id].dst, Data(Letter(id, s.tells[id].text))))
  {}

  lemma LaunchKeeps(cfg: Config, s: State, s': State, id: nat, q: Packet)
    requires DataInv(cfg, s) && Improves(s, s') && Launches(s, s', id, q)
    requires Onward(cfg, s', q.to, q.dst, s'.trails[id])
    ensures FlightOk(cfg, s') && DeliveredOk(s')
  {
    forall r | Flying(s', r) ensures Copies(s', r) == 1 && PacketOk(cfg, s', r) && (r != q ==> Id(r) != id) {
      if Flying(s, r) {
        assert PacketOk(cfg, s, r) && Id(r) != id;
        OnwardKept(cfg, s, s', r.to, r.dst, s.trails[Id(r)]);
      }
    }
    assert forall i :: 0 <= i < |s.delivered| ==> MatchesTell(s, s.delivered[i]);
  }

  lemma AttemptOnward(cfg: Config, s: State, id: nat, hop: Decision)
    requires ValidConfig(cfg) && TableInv(cfg, s) && TrailsOk(s) && Enabled(cfg, s, AttemptTell(id))
    requires hop == RouteAbove(cfg.peers[s.tells[id].src], s.nodes[s.tells[id].src].table, s.tells[id].dst)
    requires !hop.Unknown?
    ensures var s' := ApplyAttempt(cfg, s, id); Onward(cfg, s', hop.to, s.tells[id].dst, s'.trails[id])
  {
    var s' := ApplyAttempt(cfg, s, id);
    var Tell(n, dst, _, _) := s.tells[id];
    QuietImproves(cfg, s, AttemptTell(id));
    if hop.ByTable? {
      NextOnward(cfg, s, n, dst, s.trails[id]);
      OnwardKept(cfg, s, s', hop.to, dst, s'.trails[id]);
    }
  }

  lemma AttemptKeeps(cfg: Config, s: State, id: nat)
    requires ValidConfig(cfg) && TableInv(cfg, s) && DataInv(cfg, s) && Enabled(cfg, s, AttemptTell(id))
    ensures DataInv(cfg, ApplyAttempt(cfg, s, id))
  {
    var s' := ApplyAttempt(cfg, s, id);
    var Tell(n, dst, text, _) := s.tells[id];
    var hop := RouteAbove(cfg.peers[n], s.nodes[n].table, dst);
    QuietImproves(cfg, s, AttemptTell(id));
    AttemptTrailsKept(cfg, s, id);
    if hop.Unknown? {
      SameDataKeeps(cfg, s, s');
    } else {
      AttemptLaunches(cfg, s, id, hop);
      AttemptOnward(cfg, s, id, hop);
      LaunchKeeps(cfg, s, s', id, Packet(n, hop.to, n, dst, Data(Letter(id, text))));
    }
  }

  // ----- Runs

  lemma DataStepKeeps(cfg: Config, s: State, step: Step)
    requires ValidConfig(cfg) && TableInv(cfg, s) && DataInv(cfg, s) && Enabled(cfg, s, step)
    ensures DataInv(cfg, Apply(cfg, s, step))
  {
    match step {
      case DeliverData(p) => DataKeeps(cfg, s, p);
      case StartTell(n, dst, text) => StartTellKeeps(cfg, s, n, dst, text);
      case AttemptTell(id) => AttemptKeeps(cfg, s, id);
      case AbandonTell(id) => AbandonTellKeeps(cfg, s, id);
      case _ =>
        StepKeeps(cfg, s, step);
        if HandlesNoBeacon(step) { LinkStepSameData(cfg, s, step); } else { BeaconStepSameData(cfg, s, step); }
        SameDataKeeps(cfg, s, Apply(cfg, s, step));
    }
  }

  lemma {:induction false} DataRunKeeps(cfg: Config, s: State, run: seq<Step>)
    requires ValidConfig(cfg) && TableInv(cfg, s) && DataInv(cfg, s) && IsRun(cfg, s, run)
    ensures TableInv(cfg, After(cfg, s, run)) && DataInv(cfg, After(cfg, s, run))
    decreases run
  {
    if run != [] {
      StepKeeps(cfg, s, run[0]);
      DataStepKeeps(cfg, s, run[0]);
      DataRunKeeps(cfg, Apply(cfg, s, run[0]), run[1..]);
    }
  }

  lemma ReachableOk(cfg: Config, s0: State, run: seq<Step>)
    requires ValidConfig(cfg) && Init(cfg, s0) && IsRun(cfg, s0, run)
    ensures TableInv(cfg, After(cfg, s0, run)) && DataInv(cfg, After(cfg, s0, run))
  {
    InitHolds(cfg, s0);
    DataRunKeeps(cfg, s0, run);
  }

  /** Along every run, each message has used table entries that strictly climb for its
      destination, and came back to a node only after that node had adopted a strictly newer
      beacon of the destination. */
  lemma MessagesClimb(cfg: Config, s0: State, run: seq<Step>, id: nat)
    requires ValidConfig(cfg) && Init(cfg, s0) && IsRun(cfg, s0, run)
    ensures var s := After(cfg, s0, run);
      |s.trails| == |s.tells| && (id < |s.tells| ==> Ascends(s.trails[id]))
  {
    ReachableOk(cfg, s0, run);
    var s := After(cfg, s0, run);
    assert id < |s.tells| ==> TrailOk(s, s.trails[id], s.tells[id].dst);
  }

  ghost function CountersOf(trail: seq<Hop>): set<nat> {
    set i | 0 <= i < |trail| :: trail[i].counter
  }

  /** Where the hops with the last counter of a trail begin. */
  lemma LastRound(trail: seq<Hop>) returns (j: nat)
    requires Ascends(trail) && trail != []
    ensures j < |trail|
    ensures forall i :: j <= i < |trail| ==> trail[i].counter == trail[|trail| - 1].counter
    ensures forall i :: 0 <= i < j ==> trail[i].counter < trail[|trail| - 1].counter
  {
    j := |trail| - 1;
    while j > 0 && trail[j - 1].counter == trail[|trail| - 1].counter
      invariant j < |trail|
      invariant forall i :: j <= i < |trail| ==> trail[i].counter == trail[|trail| - 1].counter
    {
      j := j - 1;
    }
    forall i | 0 <= i < j ensures trail[i].counter < trail[|trail| - 1].counter {
      assert Above(trail[|trail| - 1], trail[j - 1]);
      if i < j - 1 { assert Above(trail[j - 1], trail[i]); }
    }
  }

  /** Hops with one counter are at different nodes. */
  lemma RoundFits(trail: seq<Hop>, j: nat, nodes: set<Addr>)
    requires Ascends(trail) && j <= |trail|
    requires forall i :: 0 <= i < |trail| ==> trail[i].node in nodes
    requires forall i :: j <= i < |trail| ==> trail[i].counter == trail[|trail| - 1].counter
    ensures |trail| - j <= |nodes|
  {
    DistinctFits(seq(|trail| - j, i requires 0 <= i < |trail| - j => trail[j + i].node), nodes);
  }

  lemma OneMoreRound(n: nat, a: nat, b: nat, x: nat, y: nat)
    requires a + 1 <= b && x <= n * a && y <= n
    ensures x + y <= n * b
  {
    assert n * (a + 1) <= n * b;
  }

  lemma {:induction false} TrailFits(trail: seq<Hop>, nodes: set<Addr>)
    requires Ascends(trail)
    requires forall i :: 0 <= i < |trail| ==> trail[i].node in nodes
    ensures |trail| <= |nodes| * |CountersOf(trail)|
    decreases |trail|
  {
    if trail != [] {
      var j := LastRound(trail);
      RoundFits(trail, j, nodes);
      TrailFits(trail[..j], nodes);
      FewerCounters(trail, j);
      OneMoreRound(|nodes|, |CountersOf(trail[..j])|, |CountersOf(trail)|, j, |trail| - j);
    }
  }

  lemma FewerCounters(trail: seq<Hop>, j: nat)
    requires j < |trail| && forall i :: 0 <= i < j ==> trail[i].counter < trail[|trail| - 1].counter
    ensures |CountersOf(trail[..j])| + 1 <= |CountersOf(trail)|
  {
    var before, all := CountersOf(trail[..j]), CountersOf(trail);
    assert forall i :: 0 <= i < j ==> trail[..j][i] == trail[i];
    assert trail[|trail| - 1].counter in all && trail[|trail| - 1].counter !in before;
    assert before < all;
    SubsetSmaller(before, all);
  }

  /** However the tables change, a message uses at most as many table entries as there are nodes for
      every distinct counter of its destination that it meets on its way. */
  lemma HopsBounded(cfg: Config, s0: State, run: seq<Step>, id: nat)
    requires ValidConfig(cfg) && Init(cfg, s0) && IsRun(cfg, s0, run) && id < |After(cfg, s0, run).trails|
    ensures var trail := After(cfg, s0, run).trails[id];
      |trail| <= |cfg.peers.Keys| * |CountersOf(trail)|
  {
    var s := After(cfg, s0, run);
    ReachableOk(cfg, s0, run);
    assert TrailOk(s, s.trails[id], s.tells[id].dst);
    forall i | 0 <= i < |s.trails[id]| ensures s.trails[id][i].node in cfg.peers.Keys {
      assert Passed(s, s.trails[id][i], s.tells[id].dst);
    }
    TrailFits(s.trails[id], cfg.peers.Keys);
  }

  /** The "cannot forward" error is never reached, whatever happens to the tables while a
      message is in flight. */
  lemma ForwardingNeverFails(cfg: Config, s0: State, run: seq<Step>, p: Packet)
    requires ValidConfig(cfg) && Init(cfg, s0) && IsRun(cfg, s0, run)
    requires p in After(cfg, s0, run).wire && p.content.Data?
    ensures var s := After(cfg, s0, run);
      && p.to in s.nodes && p.to in cfg.peers
      && (p.to == p.dst || p.dst in cfg.peers[p.to] || p.dst in s.nodes[p.to].table)
      && RouteData(p.to, cfg.peers[p.to], s.nodes[p.to].table, p.dst) != Unknown
  {
    ReachableOk(cfg, s0, run);
    assert Flying(After(cfg, s0, run), p);
    NeverStuck(cfg, After(cfg, s0, run), p);
  }

  /** Over links that may lose but not duplicate: what reaches the application at d from src is
      what some Tell of src to d asked for, no two deliveries belong to the same Tell, and a
      Tell, however often it is retried, has at most one message in flight and none once delivered. */
  lemma AtMostOnce(cfg: Config, s0: State, run: seq<Step>)
    requires ValidConfig(cfg) && Init(cfg, s0) && IsRun(cfg, s0, run)
    ensures var s := After(cfg, s0, run);
      && (forall i :: 0 <= i < |s.delivered| ==> MatchesTell(s, s.delivered[i]))
      && (forall i, j :: 0 <= i < j < |s.delivered| ==> s.delivered[i].letter.id != s.delivered[j].letter.id)
      && (forall p, q :: Flying(s, p) && Flying(s, q) && Id(p) == Id(q) ==> p == q && Copies(s, p) == 1)
      && (forall i, p :: 0 <= i < |s.delivered| && Flying(s, p) ==> s.delivered[i].letter.id != Id(p))
  {
    ReachableOk(cfg, s0, run);
  }

  /** Once a Tell has put its message into the network it stays sent, so that no run that follows
      tries it again, even if the message is lost. */
  lemma {:induction false} TellSendsOnce(cfg: Config, s: State, run: seq<Step>, id: nat)
    requires IsRun(cfg, s, run) && id < |s.tells| && s.tells[id].status == Sent
    ensures var t := After(cfg, s, run);
      id < |t.tells| && t.tells[id] == s.tells[id] && !Enabled(cfg, t, AttemptTell(id))
    decreases run
  {
    if run != [] {
      TellSendsOnce(cfg, Apply(cfg, s, run[0]), run[1..], id);
    }
  }
}
