/** What routers do get done: heartbeats beacon, targeted beacons are passed on, and a message for a
    destination that its source knows goes out, moves on at every hop and can always be delivered. */
module Progress {
  import opened Bits
  import opened Routing
  import opened Mesh
  import opened LoopFreedom
  import opened InFlight
  import opened Flooding

  /** Some run from a state where all routers have just been reset ends in s. */
  ghost predicate Reachable(cfg: Config, s: State) {
    ValidConfig(cfg) && exists s0, run :: Init(cfg, s0) && IsRun(cfg, s0, run) && After(cfg, s0, run) == s
  }

  lemma ReachableInv(cfg: Config, s: State)
    requires Reachable(cfg, s)
    ensures TableInv(cfg, s) && DataInv(cfg, s)
  {
    var s0, run :| Init(cfg, s0) && IsRun(cfg, s0, run) && After(cfg, s0, run) == s;
    ReachableOk(cfg, s0, run);
  }

  // ----- Beacons

  /** In every reachable state a heartbeat at a time that is not in the past can happen.  If the period
      has passed since the last beacon, or there was none, the router then has beaconed with that
      time and one copy for every peer is queued; otherwise nothing is sent. */
  lemma HeartbeatBeacons(cfg: Config, s: State, d: Addr, now: nat)
    requires Reachable(cfg, s) && d in s.nodes && now >= s.nodes[d].now
    ensures d in cfg.peers && Enabled(cfg, s, Heartbeat(d, now))
    ensures var s', last := Apply(cfg, s, Heartbeat(d, now)), s.nodes[d].lastBeacon;
      if last.None? || now >= last.value + cfg.period then
        && Beaconed(s', d, now) && s'.nodes[d].ourBeacon == now && s'.wire == s.wire
        && forall q :: s'.outbox[q] == s.outbox[q] + IsBeaconCopy(cfg, d, now, q)
      else
        s'.outbox == s.outbox && s'.wire == s.wire && s'.nodes == s.nodes[d := s.nodes[d].(now := now)]
  {
    ReachableInv(cfg, s);
    HeartbeatEffect(cfg, s, d, now);
  }

  lemma HeartbeatEffect(cfg: Config, s: State, d: Addr, now: nat)
    requires d in s.nodes && d in cfg.peers
    ensures var s', last := ApplyHeartbeat(cfg, s, d, now), s.nodes[d].lastBeacon;
      if last.None? || now >= last.value + cfg.period then
        && Beaconed(s', d, now) && s'.nodes[d].ourBeacon == now && s'.wire == s.wire
        && forall q :: s'.outbox[q] == s.outbox[q] + IsBeaconCopy(cfg, d, now, q)
      else
        s'.outbox == s.outbox && s'.wire == s.wire && s'.nodes == s.nodes[d := s.nodes[d].(now := now)]
  {
    forall q {
      CopiesOfBroadcast(d, cfg.peers[d], cfg.broadcast, d, Beacon(d, now), q);
    }
  }

  ghost function IsBeaconCopy(cfg: Config, d: Addr, now: nat, q: Packet): nat
    requires d in cfg.peers
  {
    if q.to in cfg.peers[d] && q.to != d && q == Packet(d, q.to, d, cfg.broadcast, Beacon(d, now)) then 1 else 0
  }

  /** A next hop for d from n: a peer of n that is d, or whose entry for d is strictly better. */
  ghost predicate GoodNext(cfg: Config, s: State, n: Addr, d: Addr, next: Addr) {
    && n in cfg.peers && next in cfg.peers[n]
    && (next == d || n == d || (Knows(s, n, d) && Knows(s, next, d) && Above(Rank(s, next, d), Rank(s, n, d))))
  }

  lemma EntryIsGood(cfg: Config, s: State, n: Addr, d: Addr)
    requires TableInv(cfg, s) && Knows(s, n, d)
    ensures GoodNext(cfg, s, n, d, Entry(s, n, d).next)
  {
    assert EntryOk(cfg, s, n, d);
    if n != d { assert NextAbove(s, n, d); }
  }

  /** A targeted beacon at a node that knows its destination is passed on, once and unaltered, to a
      peer that is the destination or has a strictly better entry; at a node that does not, it ends. */
  lemma RelayGoesOn(cfg: Config, s: State, j: Job)
    requires Reachable(cfg, s) && j.RelayJob? && j in s.jobs
    ensures Enabled(cfg, s, Relay(j))
    ensures var s' := Apply(cfg, s, Relay(j));
      if Knows(s, j.node, j.dst) then
        exists next :: (
          GoodNext(cfg, s, j.node, j.dst, next)
          && s'.outbox == s.outbox + multiset{Packet(j.node, next, j.node, j.dst, j.beacon)})
      else
        s'.outbox == s.outbox
  {
    ReachableInv(cfg, s);
    assert JobOk(cfg, s, j);
    if Knows(s, j.node, j.dst) {
      EntryIsGood(cfg, s, j.node, j.dst);
    } else {
      assert s.outbox + multiset{} == s.outbox;
    }
  }

  // ----- Data

  /** A try of a Tell whose source has a link or an entry for the destination sends its message, to a
      peer that is the destination or has a strictly better entry; any other try changes nothing. */
  lemma TellGoesOut(cfg: Config, s: State, id: nat)
    requires Reachable(cfg, s) && Enabled(cfg, s, AttemptTell(id))
    ensures var Tell(n, d, text, _) := s.tells[id];
      var s' := Apply(cfg, s, AttemptTell(id));
      if d in cfg.peers[n] || Knows(s, n, d) then
        && s'.tells == s.tells[id := Tell(n, d, text, Sent)]
        && exists next :: Sends(cfg, s, s', n, next, Packet(n, next, n, d, Data(Letter(id, text))))
      else
        s'.tells == s.tells && s'.outbox == s.outbox
  {
    ReachableInv(cfg, s);
    AttemptSends(cfg, s, id);
  }

  /** Node n queues p, and nothing else, for a good next hop. */
  ghost predicate Sends(cfg: Config, s: State, s': State, n: Addr, next: Addr, p: Packet) {
    && GoodNext(cfg, s, n, p.dst, next) && (p.dst in cfg.peers[n] ==> next == p.dst)
    && s'.outbox == s.outbox + multiset{p}
  }

  lemma AttemptSends(cfg: Config, s: State, id: nat)
    requires TableInv(cfg, s) && Enabled(cfg, s, AttemptTell(id))
    ensures var Tell(n, d, text, _) := s.tells[id];
      var s' := Apply(cfg, s, AttemptTell(id));
      d in cfg.peers[n] || Knows(s, n, d) ==>
        exists next :: Sends(cfg, s, s', n, next, Packet(n, next, n, d, Data(Letter(id, text))))
  {
    var Tell(n, d, text, _) := s.tells[id];
    var s' := Apply(cfg, s, AttemptTell(id));
    if d in cfg.peers[n] {
      assert Sends(cfg, s, s', n, d, Packet(n, d, n, d, Data(Letter(id, text))));
    } else if Knows(s, n, d) {
      EntryIsGood(cfg, s, n, d);
      var next := Entry(s, n, d).next;
      assert Sends(cfg, s, s', n, next, Packet(n, next, n, d, Data(Letter(id, text))));
    }
  }

  /** A data message that arrives is delivered at its destination, and passed on unaltered anywhere
      else, to a peer that is the destination or has a strictly better entry. */
  lemma DataGoesOn(cfg: Config, s: State, p: Packet)
    requires Reachable(cfg, s) && p in s.wire && p.content.Data?
    ensures Enabled(cfg, s, DeliverData(p))
    ensures var s' := Apply(cfg, s, DeliverData(p));
      && s'.wire == s.wire - multiset{p}
      && if p.to == p.dst then
           s'.delivered == s.delivered + [Delivery(p.dst, p.src, p.content.letter)] && s'.outbox == s.outbox
         else
           && s'.delivered == s.delivered
           && exists next :: Sends(cfg, s, s', p.to, next, Packet(p.to, next, p.src, p.dst, p.content))
  {
    ReachableInv(cfg, s);
    assert Flying(s, p);
    NeverStuck(cfg, s, p);
    DataSends(cfg, s, p);
  }

  lemma DataSends(cfg: Config, s: State, p: Packet)
    requires TableInv(cfg, s) && Enabled(cfg, s, DeliverData(p))
    requires p.to == p.dst || p.dst in cfg.peers[p.to] || Knows(s, p.to, p.dst)
    ensures var s' := Apply(cfg, s, DeliverData(p));
      p.to != p.dst ==>
        && s'.delivered == s.delivered
        && exists next :: Sends(cfg, s, s', p.to, next, Packet(p.to, next, p.src, p.dst, p.content))
  {
    var s', n := Apply(cfg, s, DeliverData(p)), p.to;
    if p.to != p.dst {
      if p.dst in cfg.peers[n] {
        assert Sends(cfg, s, s', n, p.dst, Packet(n, p.dst, p.src, p.dst, p.content));
      } else {
        EntryIsGood(cfg, s, n, p.dst);
        var next := Entry(s, n, p.dst).next;
        assert Sends(cfg, s, s', n, next, Packet(n, next, p.src, p.dst, p.content));
      }
    }
  }

  /** The trail of a message records every table entry it uses, with the time the entry was adopted,
      and nothing else. */
  lemma TrailsRecord(cfg: Config, s: State, p: Packet)
    requires Reachable(cfg, s) && p in s.wire && p.content.Data?
    ensures Enabled(cfg, s, DeliverData(p)) && p.content.letter.id < |s.trails|
    ensures p.to != p.dst && p.dst !in cfg.peers[p.to] ==> Knows(s, p.to, p.dst) && (p.to, p.dst) in s.adopted
    ensures var s', n, d, id := Apply(cfg, s, DeliverData(p)), p.to, p.dst, p.content.letter.id;
      s'.trails ==
        if n == d || d in cfg.peers[n] then s.trails
        else s.trails[id := s.trails[id] + [Hop(n, s.nodes[n].table[d].counter, s.adopted[(n, d)])]]
  {
    ReachableInv(cfg, s);
    assert Flying(s, p) && PacketOk(cfg, s, p);
    NeverStuck(cfg, s, p);
    DataRecords(cfg, s, p);
  }

  lemma DataRecords(cfg: Config, s: State, p: Packet)
    requires TableInv(cfg, s) && Enabled(cfg, s, DeliverData(p)) && p.content.letter.id < |s.trails|
    requires p.to == p.dst || p.dst in cfg.peers[p.to] || Knows(s, p.to, p.dst)
    ensures Knows(s, p.to, p.dst) ==> (p.to, p.dst) in s.adopted
    ensures var s', n, d, id := ApplyData(cfg, s, p), p.to, p.dst, p.content.letter.id;
      s'.trails ==
        if n == d || d in cfg.peers[n] then s.trails
        else s.trails[id := s.trails[id] + [Hop(n, s.nodes[n].table[d].counter, s.adopted[(n, d)])]]
  {
    assert Knows(s, p.to, p.dst) ==> EntryOk(cfg, s, p.to, p.dst);
  }

  lemma FirstEntryRecorded(cfg: Config, s: State, id: nat)
    requires Reachable(cfg, s) && Enabled(cfg, s, AttemptTell(id))
    ensures var s', n, d := Apply(cfg, s, AttemptTell(id)), s.tells[id].src, s.tells[id].dst;
      if d in cfg.peers[n] || !Knows(s, n, d) then s'.trails == s.trails
      else (n, d) in s.adopted && s'.trails == s.trails[id := [Hop(n, s.nodes[n].table[d].counter, s.adopted[(n, d)])]]
  {
    ReachableInv(cfg, s);
    AttemptRecords(cfg, s, id);
  }

  lemma AttemptRecords(cfg: Config, s: State, id: nat)
    requires TableInv(cfg, s) && Enabled(cfg, s, AttemptTell(id)) && s.trails[id] == []
    ensures var s', n, d := ApplyAttempt(cfg, s, id), s.tells[id].src, s.tells[id].dst;
      if d in cfg.peers[n] || !Knows(s, n, d) then s'.trails == s.trails
      else (n, d) in s.adopted && s'.trails == s.trails[id := [Hop(n, s.nodes[n].table[d].counter, s.adopted[(n, d)])]]
  {
    var n, d := s.tells[id].src, s.tells[id].dst;
    if d !in cfg.peers[n] && Knows(s, n, d) {
      assert EntryOk(cfg, s, n, d);
      assert s.trails[id] + [Rank(s, n, d)] == [Rank(s, n, d)];
    }
  }

  // ----- Delivery

  /** How far a message at n is from its destination at most. */
  ghost function Distance(cfg: Config, s: State, n: Addr, d: Addr): nat {
    if n == d then 0
    else if n in cfg.peers && d in cfg.peers[n] then 1
    else if Knows(s, n, d) then 2 + |HigherNodes(s, n, d)|
    else 0
  }

  /** Along a good next hop it comes nearer, and can go on. */
  lemma NextIsNearer(cfg: Config, s: State, n: Addr, d: Addr, next: Addr)
    requires ValidConfig(cfg) && TableInv(cfg, s) && d in cfg.peers && n != d
    requires GoodNext(cfg, s, n, d, next) && (d in cfg.peers[n] ==> next == d)
    ensures CanForward(cfg, s, next, d) && Distance(cfg, s, next, d) < Distance(cfg, s, n, d)
  {
    if next != d {
      assert next in HigherNodes(s, n, d) && next !in HigherNodes(s, next, d);
      assert HigherNodes(s, next, d) < HigherNodes(s, n, d);
      SubsetSmaller(HigherNodes(s, next, d), HigherNodes(s, n, d));
    }
  }

  /** Data steps leave the tables alone, so distances stay. */
  lemma SameDistance(cfg: Config, s: State, s': State, n: Addr, d: Addr)
    requires s'.nodes == s.nodes && s'.adopted == s.adopted
    ensures Distance(cfg, s', n, d) == Distance(cfg, s, n, d)
    ensures CanForward(cfg, s', n, d) <==> CanForward(cfg, s, n, d)
  {
    if Knows(s, n, d) { assert HigherNodes(s', n, d) == HigherNodes(s, n, d); }
  }

  /** A run that loses nothing and delivers, of all messages, exactly this one. */
  ghost predicate Delivers(cfg: Config, s: State, run: seq<Step>, r: Delivery) {
    IsRun(cfg, s, run) && LosesNothing(run) && After(cfg, s, run).delivered == s.delivered + [r]
  }

  lemma DeliversAfter(cfg: Config, s: State, step: Step, run: seq<Step>, r: Delivery)
    requires Enabled(cfg, s, step) && !step.LoseQueued? && !step.LoseOnWire?
    requires Delivers(cfg, Apply(cfg, s, step), run, r) && Apply(cfg, s, step).delivered == s.delivered
    ensures Delivers(cfg, s, [step] + run, r)
  {
    RunPrepend(cfg, s, step, run);
  }

  lemma {:induction false} Travel(cfg: Config, s: State, p: Packet) returns (run: seq<Step>)
    requires ValidConfig(cfg) && TableInv(cfg, s) && p in s.wire && p.content.Data?
    requires CanForward(cfg, s, p.to, p.dst)
    ensures Delivers(cfg, s, run, Delivery(p.dst, p.src, p.content.letter))
    decreases Distance(cfg, s, p.to, p.dst), 0
  {
    var step := DeliverData(p);
    var s1 := Apply(cfg, s, step);
    if p.to == p.dst {
      run := [step] + [];
      RunPrepend(cfg, s, step, []);
    } else {
      StepKeeps(cfg, s, step);
      QuietStep(cfg, s, step);
      DataSends(cfg, s, p);
      var next :| Sends(cfg, s, s1, p.to, next, Packet(p.to, next, p.src, p.dst, p.content));
      var q := Packet(p.to, next, p.src, p.dst, p.content);
      NextIsNearer(cfg, s, p.to, p.dst, next);
      SameDistance(cfg, s, s1, next, p.dst);
      run := HandOver(cfg, s1, q);
      DeliversAfter(cfg, s, step, run, Delivery(p.dst, p.src, p.content.letter));
      run := [step] + run;
    }
  }

  /** The same from the outbox. */
  lemma {:induction false} HandOver(cfg: Config, s: State, q: Packet) returns (run: seq<Step>)
    requires ValidConfig(cfg) && TableInv(cfg, s) && q in s.outbox && q.content.Data?
    requires CanForward(cfg, s, q.to, q.dst)
    ensures Delivers(cfg, s, run, Delivery(q.dst, q.src, q.content.letter))
    decreases Distance(cfg, s, q.to, q.dst), 1
  {
    var step := Transmit(q);
    var s1 := Apply(cfg, s, step);
    StepKeeps(cfg, s, step);
    SameDistance(cfg, s, s1, q.to, q.dst);
    run := Travel(cfg, s1, q);
    DeliversAfter(cfg, s, step, run, Delivery(q.dst, q.src, q.content.letter));
    run := [step] + run;
  }

  lemma TellDelivers(cfg: Config, s: State, id: nat) returns (run: seq<Step>)
    requires ValidConfig(cfg) && TableInv(cfg, s) && Enabled(cfg, s, AttemptTell(id))
    requires s.tells[id].src != s.tells[id].dst && CanForward(cfg, s, s.tells[id].src, s.tells[id].dst)
    ensures Delivers(cfg, s, run, Delivery(s.tells[id].dst, s.tells[id].src, Letter(id, s.tells[id].text)))
  {
    var Tell(n, d, text, _) := s.tells[id];
    var step := AttemptTell(id);
    var s1 := Apply(cfg, s, step);
    StepKeeps(cfg, s, step);
    QuietStep(cfg, s, step);
    AttemptSends(cfg, s, id);
    var next :| Sends(cfg, s, s1, n, next, Packet(n, next, n, d, Data(Letter(id, text))));
    NextIsNearer(cfg, s, n, d, next);
    SameDistance(cfg, s, s1, next, d);
    run := HandOver(cfg, s1, Packet(n, next, n, d, Data(Letter(id, text))));
    DeliversAfter(cfg, s, step, run, Delivery(d, n, Letter(id, text)));
    run := [step] + run;
  }

  /** In every reachable state, a message to another node that its source has a link or an entry for
      can be delivered: some run that loses nothing hands it, unaltered, to its destination. */
  lemma MessageGetsThrough(cfg: Config, s: State, n: Addr, d: Addr, text: seq<uint8>)
    requires Reachable(cfg, s) && n != d && CanForward(cfg, s, n, d)
    ensures exists run :: Delivers(cfg, s, run, Delivery(d, n, Letter(|s.tells|, text)))
  {
    ReachableInv(cfg, s);
    var step := StartTell(n, d, text);
    var s1 := Apply(cfg, s, step);
    StepKeeps(cfg, s, step);
    SameDistance(cfg, s, s1, n, d);
    assert s1.tells[|s.tells|] == Tell(n, d, text, Trying);
    var run := TellDelivers(cfg, s1, |s.tells|);
    DeliversAfter(cfg, s, step, run, Delivery(d, n, Letter(|s.tells|, text)));
  }
}
