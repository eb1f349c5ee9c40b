/** DNS256: paths, the basic server and the resolver that follows redirects (src/dns256). */
module Dns {
  import opened Wrappers

  type Path = seq<string>

  // ----- Paths

  method HasPrefix(x: Path, p: Path) returns (r: bool)
    ensures r <==> p <= x
  {
    for i := 0 to |p|
      invariant i <= |x| && p[..i] == x[..i]
    {
      if i >= |x| {
        return false;
      }
      if p[i] != x[i] {
        assert x[..i + 1][i] != p[..i + 1][i];
        return false;
      }
      assert p[..i + 1] == p[..i] + [p[i]] && x[..i + 1] == x[..i] + [x[i]];
    }
    assert p[..|p|] == p;
    r := true;
  }

  function TrimPrefix(x: Path, prefix: Path): Path {
    if prefix <= x then x[|prefix|..] else x
  }

  function Concat<T>(parts: seq<seq<T>>): seq<T> {
    if parts == [] then [] else Concat(parts[..|parts| - 1]) + parts[|parts| - 1]
  }

  // ----- Servers

  /** The fields of a redirect record; either may fail to parse. */
  datatype Record = Record(path: Option<Path>, target: Option<nat>, data: string)

  datatype Claim = Claim(record: Record, ttl: nat)

  datatype Response = Response(isRedirect: bool, claims: seq<Claim>)

  datatype Redirect = Redirect(path: Path, target: nat)

  function ToRecord(r: Redirect): Record {
    Record(Some(r.path), Some(r.target), "")
  }

  /** A query filter. */
  type Filter = Record -> bool

  datatype BasicHandler = BasicHandler(redirects: seq<Redirect>, records: seq<Record>, ttl: nat)

  const DEFAULT_TTL: nat := 300

  function ClaimTTL(h: BasicHandler): nat {
    if h.ttl <= 0 then DEFAULT_TTL else h.ttl
  }

  /** The first redirect that applies to a path. */
  function FirstRedirect(redirects: seq<Redirect>, path: Path): Option<Redirect> {
    if redirects == [] then None
    else if redirects[0].path <= path then Some(redirects[0])
    else FirstRedirect(redirects[1..], path)
  }

  function Matching(records: seq<Record>, filter: Filter, ttl: nat): seq<Claim> {
    if records == [] then []
    else Matching(records[..|records| - 1], filter, ttl)
         + (if filter(records[|records| - 1]) then [Claim(records[|records| - 1], ttl)] else [])
  }

  /** For every record the claims it gives: one, with the TTL, if it passes the filter. */
  ghost function Matches(records: seq<Record>, filter: Filter, ttl: nat): seq<seq<Claim>> {
    seq(|records|, k requires 0 <= k < |records| => if filter(records[k]) then [Claim(records[k], ttl)] else [])
  }

  lemma {:induction false} MatchingJoins(records: seq<Record>, filter: Filter, ttl: nat)
    ensures Matching(records, filter, ttl) == Concat(Matches(records, filter, ttl))
  {
    if records != [] {
      var init := records[..|records| - 1];
      MatchingJoins(init, filter, ttl);
      assert Matches(records, filter, ttl)[..|init|] == Matches(init, filter, ttl);
    }
  }

  /** One redirect if any applies, else the records that pass the filter. */
  function Answer(h: BasicHandler, path: Path, filter: Filter): Response {
    var red := FirstRedirect(h.redirects, path);
    if red.Some? then Response(true, [Claim(ToRecord(red.value), ClaimTTL(h))])
    else Response(false, Matching(h.records, filter, ClaimTTL(h)))
  }

  /** Redirect i is the first whose path is a prefix of the path asked for. */
  ghost predicate FirstApplies(redirects: seq<Redirect>, path: Path, i: nat) {
    && i < |redirects| && redirects[i].path <= path
    && forall j :: 0 <= j < i ==> !(redirects[j].path <= path)
  }

  lemma {:induction false} FirstRedirectIs(redirects: seq<Redirect>, path: Path) returns (i: nat)
    ensures var r := FirstRedirect(redirects, path);
      if i < |redirects| then FirstApplies(redirects, path, i) && r == Some(redirects[i])
      else r == None && forall j :: 0 <= j < |redirects| ==> !(redirects[j].path <= path)
  {
    i := 0;
    if redirects != [] && !(redirects[0].path <= path) {
      i := FirstRedirectIs(redirects[1..], path);
      i := i + 1;
    }
  }

  lemma AnswerExplained(h: BasicHandler, path: Path, filter: Filter)
    ensures forall i: nat :: FirstApplies(h.redirects, path, i) ==>
      var r := h.redirects[i];
      Answer(h, path, filter) == Response(true, [Claim(Record(Some(r.path), Some(r.target), ""), if h.ttl == 0 then 300 else h.ttl)])
    ensures (forall i :: 0 <= i < |h.redirects| ==> !(h.redirects[i].path <= path)) ==>
      var res := Answer(h, path, filter);
      !res.isRedirect && res.claims == Concat(Matches(h.records, filter, if h.ttl == 0 then 300 else h.ttl))
  {
    var first := FirstRedirectIs(h.redirects, path);
    MatchingJoins(h.records, filter, ClaimTTL(h));
    forall i: nat | FirstApplies(h.redirects, path, i) ensures i == first {}
  }

  method Handle(h: BasicHandler, path: Path, filter: Filter) returns (res: Response)
    ensures res == Answer(h, path, filter)
    ensures forall i: nat :: FirstApplies(h.redirects, path, i) ==>
      var r := h.redirects[i];
      res == Response(true, [Claim(Record(Some(r.path), Some(r.target), ""), if h.ttl == 0 then 300 else h.ttl)])
    ensures (forall i :: 0 <= i < |h.redirects| ==> !(h.redirects[i].path <= path)) ==>
      !res.isRedirect && res.claims == Concat(Matches(h.records, filter, if h.ttl == 0 then 300 else h.ttl))
  {
    AnswerExplained(h, path, filter);
    var ttl := h.ttl;
    if ttl <= 0 {
      ttl := 300;
    }
    for i := 0 to |h.redirects|
      invariant FirstRedirect(h.redirects, path) == FirstRedirect(h.redirects[i..], path)
    {
      var applies := HasPrefix(path, h.redirects[i].path);
      if applies {
        return Response(true, [Claim(ToRecord(h.redirects[i]), ttl)]);
      }
      assert h.redirects[i..][1..] == h.redirects[i + 1..];
    }
    var claims := [];
    for i := 0 to |h.records|
      invariant claims == Matching(h.records[..i], filter, ttl)
    {
      if filter(h.records[i]) {
        claims := claims + [Claim(h.records[i], ttl)];
      }
      assert h.records[..i + 1][..i] == h.records[..i];
    }
    assert h.records[..|h.records|] == h.records;
    res := Response(false, claims);
  }

  // ----- The resolver

  /** An authority for a path, by the server it asks. */
  datatype Authority = Authority(path: Path, server: nat)

  /** What a lookup at a server yields: an error or a response.  The first argument is the number
      of the lookup, so that a server may answer differently each time. */
  type Lookups = (nat, nat, Path) -> Option<Response>

  /** The parser of redirect records into servers; it may fail. */
  type MakeLookup = Record -> Option<nat>

  /** What a resolution works with: the servers, the record parser, the query and the hop limit. */
  datatype Env = Env(lookups: Lookups, mk: MakeLookup, path: Path, maxHops: int)

  datatype Outcome =
    | Resolved(claims: seq<Claim>)
    | NoAuthority
    | MaxHopsExceeded
    | LookupFailed
    | BadRecord
    | InvalidRedirect

  /** A request on the wire: whom was asked, as an authority for what, and for which path. */
  datatype Visit = Visit(authority: Authority, sent: Path)

  datatype Redirects = Follow(next: seq<Authority>) | Refuse(outcome: Outcome)

  /** The authorities that the claims of a redirect add to the stack, or the error they end in. */
  function FollowClaims(mk: MakeLookup, target: Authority, sent: Path, claims: seq<Claim>): Redirects {
    if claims == [] then Follow([])
    else if claims[0].record.path.None? then Refuse(BadRecord)
    else if !(claims[0].record.path.value <= sent) then Refuse(InvalidRedirect)
    else
      var rest := FollowClaims(mk, target, sent, claims[1..]);
      if rest.Refuse? then rest
      else Follow((if mk(claims[0].record).Some?
                   then [Authority(target.path + claims[0].record.path.value, mk(claims[0].record).value)]
                   else []) + rest.next)
  }

  /** Claim k is the first whose path does not parse or is not a prefix of the path sent. */
  ghost predicate FirstBad(sent: Path, claims: seq<Claim>, k: nat) {
    && k < |claims|
    && (claims[k].record.path.None? || !(claims[k].record.path.value <= sent))
    && AllGood(sent, claims[..k])
  }

  ghost predicate AllGood(sent: Path, claims: seq<Claim>) {
    forall k :: 0 <= k < |claims| ==> claims[k].record.path.Some? && claims[k].record.path.value <= sent
  }

  /** For every claim the authorities it leads to: one, with the path of the claim after that of the
      target, if its record parses. */
  ghost function LeadsTo(mk: MakeLookup, target: Authority, sent: Path, claims: seq<Claim>): seq<seq<Authority>>
    requires AllGood(sent, claims)
  {
    seq(|claims|, k requires 0 <= k < |claims| =>
      if mk(claims[k].record).Some? then [Authority(target.path + claims[k].record.path.value, mk(claims[k].record).value)] else [])
  }

  lemma {:induction false} FollowJoins(mk: MakeLookup, target: Authority, sent: Path, claims: seq<Claim>)
    requires AllGood(sent, claims)
    ensures FollowClaims(mk, target, sent, claims) == Follow(Concat(LeadsTo(mk, target, sent, claims)))
    decreases |claims|
  {
    if claims != [] {
      var init, last := claims[..|claims| - 1], claims[|claims| - 1];
      FollowJoins(mk, target, sent, init);
      FollowLast(mk, target, sent, init, last);
      assert claims == init + [last];
      assert LeadsTo(mk, target, sent, claims)[..|init|] == LeadsTo(mk, target, sent, init);
    }
  }

  lemma {:induction false} FollowLast(mk: MakeLookup, target: Authority, sent: Path, claims: seq<Claim>, c: Claim)
    requires FollowClaims(mk, target, sent, claims).Follow? && c.record.path.Some? && c.record.path.value <= sent
    ensures FollowClaims(mk, target, sent, claims + [c]) ==
      Follow(FollowClaims(mk, target, sent, claims).next +
             if mk(c.record).Some? then [Authority(target.path + c.record.path.value, mk(c.record).value)] else [])
  {
    assert [c][0] == c;
    if claims == [] {
      assert claims + [c] == [c] && [c][1..] == [];
      assert FollowClaims(mk, target, sent, []) == Follow([]);
    } else {
      assert (claims + [c])[1..] == claims[1..] + [c];
      FollowLast(mk, target, sent, claims[1..], c);
    }
  }

  lemma {:induction false} RefusedAtFirstBad(mk: MakeLookup, target: Authority, sent: Path, claims: seq<Claim>, k: nat)
    requires FirstBad(sent, claims, k)
    ensures FollowClaims(mk, target, sent, claims) ==
      Refuse(if claims[k].record.path.None? then BadRecord else InvalidRedirect)
  {
    assert k > 0 ==> claims[..k][0] == claims[0];
    if k > 0 {
      assert claims[1..][..k - 1] == claims[..k][1..];
      RefusedAtFirstBad(mk, target, sent, claims[1..], k - 1);
    }
  }

  /** Claims that are all acceptable lead to one authority for each whose record parses, in order; else
      the first that is not decides the error. */
  lemma FollowExplained(mk: MakeLookup, target: Authority, sent: Path, claims: seq<Claim>)
    ensures AllGood(sent, claims) ==>
      FollowClaims(mk, target, sent, claims) == Follow(Concat(LeadsTo(mk, target, sent, claims)))
    ensures forall k: nat :: FirstBad(sent, claims, k) ==>
      FollowClaims(mk, target, sent, claims) == Refuse(if claims[k].record.path.None? then BadRecord else InvalidRedirect)
  {
    if AllGood(sent, claims) { FollowJoins(mk, target, sent, claims); }
    forall k: nat | FirstBad(sent, claims, k)
      ensures FollowClaims(mk, target, sent, claims) == Refuse(if claims[k].record.path.None? then BadRecord else InvalidRedirect)
    {
      RefusedAtFirstBad(mk, target, sent, claims, k);
    }
  }

  lemma {:induction false} GoodOrFirstBad(sent: Path, claims: seq<Claim>) returns (k: nat)
    ensures k <= |claims| && AllGood(sent, claims[..k]) && (k < |claims| ==> FirstBad(sent, claims, k))
  {
    k := 0;
    while k < |claims| && claims[k].record.path.Some? && claims[k].record.path.value <= sent
      invariant k <= |claims| && AllGood(sent, claims[..k])
    {
      assert claims[..k + 1] == claims[..k] + [claims[k]];
      k := k + 1;
    }
  }

  function Request(e: Env, target: Authority): Visit {
    Visit(target, TrimPrefix(e.path, target.path))
  }

  datatype Turn = Stop(outcome: Outcome) | Continue(next: seq<Authority>)

  /** Lookup number i, at `target`: the end of the resolution, or the authorities to go on with. */
  function LookupAt(e: Env, target: Authority, i: nat): Turn {
    var sent := Request(e, target).sent;
    var res := e.lookups(i, target.server, sent);
    if res.None? then Stop(LookupFailed)
    else if !res.value.isRedirect then Stop(Resolved(res.value.claims))
    else
      match FollowClaims(e.mk, target, sent, res.value.claims)
      case Refuse(outcome) => Stop(outcome)
      case Follow(next) => Continue(next)
  }

  /** Resolution from a stack of authorities after the requests in `done`: the outcome, and all
      requests made in the end. */
  function ResolveFrom(e: Env, done: seq<Visit>, stack: seq<Authority>): (Outcome, seq<Visit>)
    decreases e.maxHops - |done|
  {
    if stack == [] then (NoAuthority, done)
    else if |done| >= e.maxHops then (MaxHopsExceeded, done)
    else
      var target := stack[|stack| - 1];
      match LookupAt(e, target, |done|)
      case Stop(outcome) => (outcome, done + [Request(e, target)])
      case Continue(next) => ResolveFrom(e, done + [Request(e, target)], stack[..|stack| - 1] + next)
  }

  /** The loop over the claims of a redirect: pushes authorities until a claim is refused. */
  method PushClaims(mk: MakeLookup, target: Authority, sent: Path, claims: seq<Claim>, stack: seq<Authority>)
    returns (sources: seq<Authority>, err: Option<Outcome>)
    ensures match FollowClaims(mk, target, sent, claims)
      case Refuse(outcome) => err == Some(outcome)
      case Follow(next) => err == None && sources == stack + next
  {
    ghost var follow := FollowClaims(mk, target, sent, claims);
    sources, err := stack, None;
    assert claims[0..] == claims;
    for k := 0 to |claims|
      invariant var rest := FollowClaims(mk, target, sent, claims[k..]);
        if rest.Refuse? then follow == rest else follow.Follow? && stack + follow.next == sources + rest.next
    {
      var c := claims[k];
      assert claims[k..][0] == c && claims[k..][1..] == claims[k + 1..];
      if c.record.path.None? {
        return sources, Some(BadRecord);
      }
      var prefix := c.record.path.value;
      var fits := HasPrefix(sent, prefix);
      if !fits {
        return sources, Some(InvalidRedirect);
      }
      var server := mk(c.record);
      if server.Some? {
        sources := sources + [Authority(target.path + prefix, server.value)];
      }
    }
  }

  // ----- What a resolution is

  /** The top of the stack is asked for what remains of the query path after its own path, or for all
      of it if that is not a prefix. */
  ghost predicate Asks(e: Env, stack: seq<Authority>, v: Visit) {
    && stack != [] && v.authority == stack[|stack| - 1]
    && if v.authority.path <= e.path then e.path == v.authority.path + v.sent else v.sent == e.path
  }

  ghost function Answered(e: Env, i: nat, v: Visit): Option<Response> {
    e.lookups(i, v.authority.server, v.sent)
  }

  /** Lookup i answers with a redirect whose claims replace the top of the stack. */
  ghost predicate GoesOn(e: Env, i: nat, v: Visit, stack: seq<Authority>, next: seq<Authority>) {
    var res := Answered(e, i, v);
    && stack != [] && res.Some? && res.value.isRedirect && AllGood(v.sent, res.value.claims)
    && next == stack[..|stack| - 1] + Concat(LeadsTo(e.mk, v.authority, v.sent, res.value.claims))
  }

  /** Lookup i ends the resolution: with the claims it answers, because it fails, or because of the
      first of its claims that is not acceptable. */
  ghost predicate Concludes(e: Env, i: nat, v: Visit, outcome: Outcome) {
    var res := Answered(e, i, v);
    match outcome
    case Resolved(claims) => res == Some(Response(false, claims))
    case LookupFailed => res == None
    case BadRecord => res.Some? && res.value.isRedirect && RefusedFor(v.sent, res.value.claims, true)
    case InvalidRedirect => res.Some? && res.value.isRedirect && RefusedFor(v.sent, res.value.claims, false)
    case _ => false
  }

  ghost predicate RefusedFor(sent: Path, claims: seq<Claim>, unparsed: bool) {
    exists k: nat :: FirstBad(sent, claims, k) && claims[k].record.path.None? == unparsed
  }

  /** The visits, numbered from `first` on, and the stacks before them lead to the outcome.  There is
      one stack more than visits if the resolution ends without a last word of a lookup. */
  ghost predicate Trace(e: Env, first: nat, visits: seq<Visit>, stacks: seq<seq<Authority>>, outcome: Outcome) {
    && |visits| <= |stacks| <= |visits| + 1 && stacks != []
    && (visits != [] ==> first + |visits| <= e.maxHops)
    && (forall i :: 0 <= i < |visits| ==> Asks(e, stacks[i], visits[i]))
    && (forall i :: 0 <= i < |stacks| - 1 ==> GoesOn(e, first + i, visits[i], stacks[i], stacks[i + 1]))
    && if |stacks| == |visits| then Concludes(e, first + |visits| - 1, visits[|visits| - 1], outcome)
       else if stacks[|visits|] == [] then outcome == NoAuthority
       else outcome == MaxHopsExceeded && first + |visits| >= e.maxHops
  }

  lemma TurnTraced(e: Env, stack: seq<Authority>, i: nat)
    requires stack != []
    ensures var v := Request(e, stack[|stack| - 1]);
      && Asks(e, stack, v)
      && match LookupAt(e, v.authority, i)
         case Stop(outcome) => Concludes(e, i, v, outcome)
         case Continue(next) => GoesOn(e, i, v, stack, stack[..|stack| - 1] + next)
  {
    var v := Request(e, stack[|stack| - 1]);
    var res := Answered(e, i, v);
    if res.Some? && res.value.isRedirect {
      var claims := res.value.claims;
      var k := GoodOrFirstBad(v.sent, claims);
      if k < |claims| {
        RefusedAtFirstBad(e.mk, v.authority, v.sent, claims, k);
      } else {
        assert claims[..k] == claims;
        FollowJoins(e.mk, v.authority, v.sent, claims);
      }
    }
  }

  lemma TraceCons(e: Env, first: nat, v: Visit, stack: seq<Authority>, visits: seq<Visit>, stacks: seq<seq<Authority>>, outcome: Outcome)
    requires Trace(e, first + 1, visits, stacks, outcome) && first < e.maxHops
    requires Asks(e, stack, v) && GoesOn(e, first, v, stack, stacks[0])
    ensures Trace(e, first, [v] + visits, [stack] + stacks, outcome)
  {
    var vs, ss := [v] + visits, [stack] + stacks;
    forall i | 0 <= i < |vs| ensures Asks(e, ss[i], vs[i]) {
      if i > 0 { assert Asks(e, stacks[i - 1], visits[i - 1]); }
    }
    forall i | 0 <= i < |ss| - 1 ensures GoesOn(e, first + i, vs[i], ss[i], ss[i + 1]) {
      if i > 0 { assert GoesOn(e, first + 1 + (i - 1), visits[i - 1], stacks[i - 1], stacks[i]); }
    }
  }

  lemma {:induction false} ResolveTraced(e: Env, done: seq<Visit>, stack: seq<Authority>)
    returns (visits: seq<Visit>, stacks: seq<seq<Authority>>)
    ensures var (outcome, all) := ResolveFrom(e, done, stack);
      all == done + visits && Trace(e, |done|, visits, stacks, outcome) && stacks[0] == stack
    decreases e.maxHops - |done|
  {
    visits, stacks := [], [stack];
    if stack != [] && |done| < e.maxHops {
      var v := Request(e, stack[|stack| - 1]);
      TurnTraced(e, stack, |done|);
      var turn := LookupAt(e, v.authority, |done|);
      if turn.Stop? {
        visits := [v];
        TraceEnd(e, |done|, v, stack, turn.outcome);
      } else {
        var vs, ss := ResolveTraced(e, done + [v], stack[..|stack| - 1] + turn.next);
        TraceCons(e, |done|, v, stack, vs, ss, ResolveFrom(e, done, stack).0);
        Associative(done, [v], vs);
        visits, stacks := [v] + vs, [stack] + ss;
      }
    }
  }

  lemma TraceEnd(e: Env, first: nat, v: Visit, stack: seq<Authority>, outcome: Outcome)
    requires first < e.maxHops && Asks(e, stack, v) && Concludes(e, first, v, outcome)
    ensures Trace(e, first, [v], [stack], outcome)
  {}

  /** Every resolution is such a sequence of lookups and stacks, from the roots on: each lookup before
      the last redirects, and the outcome is what the last one says, or that authorities or hops ran out. */
  lemma OutcomeExplained(e: Env, roots: seq<Authority>) returns (stacks: seq<seq<Authority>>)
    ensures Trace(e, 0, ResolveFrom(e, [], roots).1, stacks, ResolveFrom(e, [], roots).0) && stacks[0] == roots
  {
    var visits;
    visits, stacks := ResolveTraced(e, [], roots);
    assert [] + visits == visits;
  }

  lemma TraceExplained(e: Env, visits: seq<Visit>, stacks: seq<seq<Authority>>, outcome: Outcome)
    requires Trace(e, 0, visits, stacks, outcome)
    ensures outcome.Resolved? || outcome.LookupFailed? ==> visits != []
    ensures visits != [] ==>
      var n, v := |visits| - 1, visits[|visits| - 1];
      && (outcome.Resolved? ==> e.lookups(n, v.authority.server, v.sent) == Some(Response(false, outcome.claims)))
      && (outcome.LookupFailed? <==> e.lookups(n, v.authority.server, v.sent) == None)
    ensures forall i :: 0 <= i < |visits| - 1 ==>
      e.lookups(i, visits[i].authority.server, visits[i].sent).Some?
      && e.lookups(i, visits[i].authority.server, visits[i].sent).value.isRedirect
  {
    forall i | 0 <= i < |visits| - 1
      ensures e.lookups(i, visits[i].authority.server, visits[i].sent).Some?
           && e.lookups(i, visits[i].authority.server, visits[i].sent).value.isRedirect
    {
      assert GoesOn(e, 0 + i, visits[i], stacks[i], stacks[i + 1]);
    }
    if visits != [] && |stacks| > |visits| {
      var n := |visits| - 1;
      assert GoesOn(e, 0 + n, visits[n], stacks[n], stacks[n + 1]);
    }
  }

  method Resolve(roots: seq<Authority>, e: Env) returns (outcome: Outcome, visits: seq<Visit>)
    ensures (outcome, visits) == ResolveFrom(e, [], roots)
    ensures exists stacks :: Trace(e, 0, visits, stacks, outcome) && stacks[0] == roots
    ensures outcome.Resolved? || outcome.LookupFailed? ==> visits != []
    ensures visits != [] ==>
      var n, v := |visits| - 1, visits[|visits| - 1];
      && (outcome.Resolved? ==> e.lookups(n, v.authority.server, v.sent) == Some(Response(false, outcome.claims)))
      && (outcome.LookupFailed? <==> e.lookups(n, v.authority.server, v.sent) == None)
    ensures forall i :: 0 <= i < |visits| - 1 ==>
      e.lookups(i, visits[i].authority.server, visits[i].sent).Some?
      && e.lookups(i, visits[i].authority.server, visits[i].sent).value.isRedirect
  {
    ghost var stacks := OutcomeExplained(e, roots);
    TraceExplained(e, ResolveFrom(e, [], roots).1, stacks, ResolveFrom(e, [], roots).0);
    var sources := roots;
    var i := 0;
    visits := [];
    while |sources| > 0
      invariant i == |visits|
      invariant ResolveFrom(e, [], roots) == ResolveFrom(e, visits, sources)
      decreases e.maxHops - i
    {
      if i >= e.maxHops {
        return MaxHopsExceeded, visits;
      }
      var target := sources[|sources| - 1];
      var below := sources[..|sources| - 1];
      var sent := TrimPrefix(e.path, target.path);
      visits := visits + [Visit(target, sent)];
      var res := e.lookups(i, target.server, sent);
      if res.None? {
        return LookupFailed, visits;
      }
      if !res.value.isRedirect {
        return Resolved(res.value.claims), visits;
      }
      var pushed, err := PushClaims(e.mk, target, sent, res.value.claims, below);
      if err.Some? {
        return err.value, visits;
      }
      sources := pushed;
      i := i + 1;
    }
    outcome := NoAuthority;
  }

  // ----- What every resolution keeps

  /** At most maxHops lookups are made. */
  lemma {:induction false} HopBound(e: Env, done: seq<Visit>, stack: seq<Authority>)
    requires |done| <= e.maxHops
    ensures |ResolveFrom(e, done, stack).1| <= e.maxHops
    decreases e.maxHops - |done|
  {
    if stack != [] && |done| < e.maxHops {
      var target := stack[|stack| - 1];
      var turn := LookupAt(e, target, |done|);
      if turn.Continue? { HopBound(e, done + [Request(e, target)], stack[..|stack| - 1] + turn.next); }
    }
  }

  ghost predicate AllPrefixes(stack: seq<Authority>, path: Path) {
    forall k :: 0 <= k < |stack| ==> stack[k].path <= path
  }

  lemma {:induction false} FollowedArePrefixes(mk: MakeLookup, target: Authority, path: Path, claims: seq<Claim>)
    requires target.path <= path
    ensures var f := FollowClaims(mk, target, path[|target.path|..], claims); f.Follow? ==> AllPrefixes(f.next, path)
  {
    if claims != [] {
      FollowedArePrefixes(mk, target, path, claims[1..]);
    }
  }

  ghost predicate AllSplit(visits: seq<Visit>, path: Path) {
    forall v :: v in visits ==> v.authority.path + v.sent == path
  }

  /** If the paths of all authorities at hand are prefixes of the query path, then in every request
      from there on the path of the authority followed by the path sent is the query path. */
  lemma {:induction false} PathSplits(e: Env, done: seq<Visit>, stack: seq<Authority>)
    requires AllPrefixes(stack, e.path) && AllSplit(done, e.path)
    ensures AllSplit(ResolveFrom(e, done, stack).1, e.path)
    decreases e.maxHops - |done|
  {
    if stack != [] && |done| < e.maxHops {
      var target := stack[|stack| - 1];
      var turn := LookupAt(e, target, |done|);
      if turn.Continue? {
        FollowedArePrefixes(e.mk, target, e.path, e.lookups(|done|, target.server, Request(e, target).sent).value.claims);
        PathSplits(e, done + [Request(e, target)], stack[..|stack| - 1] + turn.next);
      }
    }
  }

  // ----- Chains of redirects

  ghost predicate ClaimLeads(mk: MakeLookup, from: Authority, prefix: Path, next: Authority, c: Claim) {
    c.record.path == Some(prefix) && next.path == from.path + prefix && mk(c.record) == Some(next.server)
  }

  /** Visit i gave a redirect that names `prefix` and leads to `next`. */
  ghost predicate IsRedirect(e: Env, visits: seq<Visit>, i: nat, prefix: Path, next: Authority) {
    i < |visits| &&
    var Visit(from, sent) := visits[i];
    var res := e.lookups(i, from.server, sent);
    && res.Some? && res.value.isRedirect && prefix <= sent
    && exists c :: c in res.value.claims && ClaimLeads(e.mk, from, prefix, next, c)
  }

  /** `a` is reached from `root` by redirects of visited authorities that name `prefixes` in turn. */
  ghost predicate Chain(e: Env, visits: seq<Visit>, a: Authority, root: Authority, prefixes: seq<Path>)
    decreases |prefixes|
  {
    if prefixes == [] then a == root
    else exists i: nat ::
      && IsRedirect(e, visits, i, prefixes[|prefixes| - 1], a)
      && Chain(e, visits, visits[i].authority, root, prefixes[..|prefixes| - 1])
  }

  ghost predicate Reached(e: Env, roots: seq<Authority>, visits: seq<Visit>, a: Authority) {
    exists root, prefixes :: root in roots && Chain(e, visits, a, root, prefixes)
  }

  lemma JoinLast(start: Path, ps: seq<Path>)
    requires ps != []
    ensures start + Concat(ps[..|ps| - 1]) + ps[|ps| - 1] == start + Concat(ps)
  {
    Associative(start, Concat(ps[..|ps| - 1]), ps[|ps| - 1]);
  }

  lemma Associative<T>(a: seq<T>, b: seq<T>, c: seq<T>)
    ensures a + b + c == a + (b + c)
  {}

  /** The prefixes along a chain, after the path of the root, make up the path of its end. */
  lemma {:induction false} ChainPath(e: Env, visits: seq<Visit>, a: Authority, root: Authority, prefixes: seq<Path>)
    requires Chain(e, visits, a, root, prefixes)
    ensures a.path == root.path + Concat(prefixes)
    decreases |prefixes|
  {
    if prefixes != [] {
      var init := prefixes[..|prefixes| - 1];
      var from := LastLink(e, visits, a, root, prefixes);
      ChainPath(e, visits, from, root, init);
      JoinLast(root.path, prefixes);
    }
  }

  /** The authority that gave the last redirect of a chain. */
  lemma LastLink(e: Env, visits: seq<Visit>, a: Authority, root: Authority, prefixes: seq<Path>) returns (from: Authority)
    requires prefixes != [] && Chain(e, visits, a, root, prefixes)
    ensures a.path == from.path + prefixes[|prefixes| - 1]
    ensures Chain(e, visits, from, root, prefixes[..|prefixes| - 1])
  {
    var i: nat :| && IsRedirect(e, visits, i, prefixes[|prefixes| - 1], a)
                  && Chain(e, visits, visits[i].authority, root, prefixes[..|prefixes| - 1]);
    from := visits[i].authority;
  }

  lemma {:induction false} ChainKept(e: Env, visits: seq<Visit>, more: seq<Visit>, a: Authority, root: Authority, prefixes: seq<Path>)
    requires Chain(e, visits, a, root, prefixes)
    ensures Chain(e, visits + more, a, root, prefixes)
    decreases |prefixes|
  {
    if prefixes != [] {
      var init, last := prefixes[..|prefixes| - 1], prefixes[|prefixes| - 1];
      var i: nat :| IsRedirect(e, visits, i, last, a) && Chain(e, visits, visits[i].authority, root, init);
      ChainKept(e, visits, more, visits[i].authority, root, init);
      assert IsRedirect(e, visits + more, i, last, a);
    }
  }

  lemma ReachedKept(e: Env, roots: seq<Authority>, visits: seq<Visit>, more: seq<Visit>, a: Authority)
    requires Reached(e, roots, visits, a)
    ensures Reached(e, roots, visits + more, a)
  {
    var root, prefixes :| root in roots && Chain(e, visits, a, root, prefixes);
    ChainKept(e, visits, more, a, root, prefixes);
  }

  lemma RedirectReached(e: Env, roots: seq<Authority>, visits: seq<Visit>, i: nat, prefix: Path, next: Authority)
    requires IsRedirect(e, visits, i, prefix, next)
    requires Reached(e, roots, visits, visits[i].authority)
    ensures Reached(e, roots, visits, next)
  {
    var root, prefixes :| root in roots && Chain(e, visits, visits[i].authority, root, prefixes);
    assert (prefixes + [prefix])[..|prefixes|] == prefixes;
    assert Chain(e, visits, next, root, prefixes + [prefix]);
  }

  /** What the claims push is what they redirect to. */
  lemma {:induction false} FollowedAreRedirects(mk: MakeLookup, target: Authority, sent: Path, claims: seq<Claim>, a: Authority)
    returns (c: Claim, prefix: Path)
    requires FollowClaims(mk, target, sent, claims).Follow? && a in FollowClaims(mk, target, sent, claims).next
    ensures c in claims && prefix <= sent && ClaimLeads(mk, target, prefix, a, c)
  {
    var rest := FollowClaims(mk, target, sent, claims[1..]);
    if a in rest.next {
      c, prefix := FollowedAreRedirects(mk, target, sent, claims[1..], a);
    } else {
      c, prefix := claims[0], claims[0].record.path.value;
    }
  }

  /** What a lookup at a reached authority redirects to is reached. */
  lemma StepReached(e: Env, roots: seq<Authority>, visits: seq<Visit>, target: Authority, a: Authority)
    requires Reached(e, roots, visits, target)
    requires LookupAt(e, target, |visits|).Continue? && a in LookupAt(e, target, |visits|).next
    ensures Reached(e, roots, visits + [Request(e, target)], a)
  {
    var sent := Request(e, target).sent;
    var claims := e.lookups(|visits|, target.server, sent).value.claims;
    ReachedKept(e, roots, visits, [Request(e, target)], target);
    var c, prefix := FollowedAreRedirects(e.mk, target, sent, claims, a);
    assert IsRedirect(e, visits + [Request(e, target)], |visits|, prefix, a);
    RedirectReached(e, roots, visits + [Request(e, target)], |visits|, prefix, a);
  }

  ghost predicate AllReached(e: Env, roots: seq<Authority>, visits: seq<Visit>, stack: seq<Authority>) {
    && (forall v :: v in visits ==> Reached(e, roots, visits, v.authority))
    && (forall a :: a in stack ==> Reached(e, roots, visits, a))
  }

  lemma TurnReached(e: Env, roots: seq<Authority>, visits: seq<Visit>, stack: seq<Authority>)
    requires stack != [] && AllReached(e, roots, visits, stack)
    ensures var target := stack[|stack| - 1];
      var turn := LookupAt(e, target, |visits|);
      AllReached(e, roots, visits + [Request(e, target)],
                 stack[..|stack| - 1] + if turn.Continue? then turn.next else [])
  {
    var target := stack[|stack| - 1];
    var turn, visit := LookupAt(e, target, |visits|), Request(e, target);
    forall v | v in visits + [visit] ensures Reached(e, roots, visits + [visit], v.authority) {
      ReachedKept(e, roots, visits, [visit], v.authority);
    }
    forall a | a in stack ensures Reached(e, roots, visits + [visit], a) {
      ReachedKept(e, roots, visits, [visit], a);
    }
    if turn.Continue? {
      forall a | a in turn.next ensures Reached(e, roots, visits + [visit], a) {
        StepReached(e, roots, visits, target, a);
      }
    }
  }

  /** Every authority that is asked is a root or reached from one by a chain of redirects. */
  lemma {:induction false} VisitsReached(e: Env, roots: seq<Authority>, done: seq<Visit>, stack: seq<Authority>)
    requires AllReached(e, roots, done, stack)
    ensures AllReached(e, roots, ResolveFrom(e, done, stack).1, [])
    decreases e.maxHops - |done|
  {
    if stack != [] && |done| < e.maxHops {
      var target := stack[|stack| - 1];
      var turn := LookupAt(e, target, |done|);
      TurnReached(e, roots, done, stack);
      if turn.Continue? {
        VisitsReached(e, roots, done + [Request(e, target)], stack[..|stack| - 1] + turn.next);
      }
    }
  }

  /** The path of `a` is that of a root followed by the prefixes of a chain of redirects to it. */
  ghost predicate Spelled(e: Env, roots: seq<Authority>, visits: seq<Visit>, a: Authority) {
    exists root, prefixes ::
      root in roots && Chain(e, visits, a, root, prefixes) && a.path == root.path + Concat(prefixes)
  }

  lemma ReachedSpelled(e: Env, roots: seq<Authority>, visits: seq<Visit>, a: Authority)
    requires Reached(e, roots, visits, a)
    ensures Spelled(e, roots, visits, a)
  {
    var root, prefixes :| root in roots && Chain(e, visits, a, root, prefixes);
    ChainPath(e, visits, a, root, prefixes);
  }

  lemma RootsReached(e: Env, roots: seq<Authority>)
    ensures AllReached(e, roots, [], roots)
  {
    forall a | a in roots ensures Reached(e, roots, [], a) { assert Chain(e, [], a, a, []); }
  }

  /** From the roots on: every request goes to an authority whose path is spelled by a chain of
      redirects from a root, there are at most maxHops of them, and if the root paths are prefixes
      of the query path then each request splits the query path. */
  lemma ResolverInvariant(e: Env, roots: seq<Authority>)
    ensures var visits := ResolveFrom(e, [], roots).1;
      && |visits| <= (if e.maxHops < 0 then 0 else e.maxHops)
      && (forall v :: v in visits ==> Spelled(e, roots, visits, v.authority))
      && (AllPrefixes(roots, e.path) ==> AllSplit(visits, e.path))
  {
    var visits := ResolveFrom(e, [], roots).1;
    if e.maxHops >= 0 { HopBound(e, [], roots); }
    if AllPrefixes(roots, e.path) { PathSplits(e, [], roots); }
    RootsReached(e, roots);
    VisitsReached(e, roots, [], roots);
    forall v | v in visits ensures Spelled(e, roots, visits, v.authority) {
      ReachedSpelled(e, roots, visits, v.authority);
    }
  }
}
