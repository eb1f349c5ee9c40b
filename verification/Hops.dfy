/** How many lookups DNS256 resolution needs against basic servers, and when no number is enough. */
module Hops {
  import opened Wrappers
  import opened Dns

  /** All servers are basic handlers that answer every request. */
  ghost predicate Served(e: Env, handlers: nat -> BasicHandler, filter: Filter) {
    forall i: nat, s: nat, p: Path :: e.lookups(i, s, p) == Some(Answer(handlers(s), p, filter))
  }

  /** A world of basic servers, with the parser of their redirects. */
  datatype World = World(handlers: nat -> BasicHandler, mk: MakeLookup)

  /** Where the first empty redirect of server s leads, if it has one and it parses. */
  ghost function EmptyNext(w: World, s: nat): Option<nat> {
    var r := FirstRedirect(w.handlers(s).redirects, []);
    if r.None? then None else w.mk(ToRecord(r.value))
  }

  /** Following first empty redirects from s ends after at most `bound` of them. */
  ghost predicate ChainEnds(w: World, s: nat, bound: nat)
    decreases bound
  {
    EmptyNext(w, s).None? || (bound > 0 && ChainEnds(w, EmptyNext(w, s).value, bound - 1))
  }

  ghost predicate ChainsEnd(w: World, bound: nat) {
    forall s :: ChainEnds(w, s, bound)
  }

  /** The length of the chain from s, as far as `bound`. */
  ghost function ChainLength(w: World, s: nat, bound: nat): (n: nat)
    ensures n <= bound
    decreases bound
  {
    if EmptyNext(w, s).None? || bound == 0 then 0 else 1 + ChainLength(w, EmptyNext(w, s).value, bound - 1)
  }

  lemma {:induction false} LengthUnique(w: World, s: nat, b: nat, c: nat)
    requires ChainEnds(w, s, b) && ChainEnds(w, s, c)
    ensures ChainLength(w, s, b) == ChainLength(w, s, c)
    decreases b
  {
    if EmptyNext(w, s).Some? { LengthUnique(w, EmptyNext(w, s).value, b - 1, c - 1); }
  }

  // ----- One lookup

  lemma {:induction false} FirstRedirectApplies(redirects: seq<Redirect>, path: Path)
    ensures var r := FirstRedirect(redirects, path);
      r.Some? ==> r.value in redirects && r.value.path <= path
  {
    if redirects != [] && !(redirects[0].path <= path) {
      FirstRedirectApplies(redirects[1..], path);
    }
  }

  /** An empty redirect that applies to some path is the one that applies to the empty path. */
  lemma {:induction false} EmptyIsFirst(redirects: seq<Redirect>, path: Path)
    ensures var r := FirstRedirect(redirects, path);
      r.Some? && r.value.path == [] ==> FirstRedirect(redirects, []) == r
  {
    if redirects != [] && !(redirects[0].path <= path) {
      EmptyIsFirst(redirects[1..], path);
    }
  }

  ghost function LedTo(w: World, a: Authority, r: Redirect): seq<Authority> {
    var server := w.mk(ToRecord(r));
    if server.None? then [] else [Authority(a.path + r.path, server.value)]
  }

  /** A basic handler ends the resolution with its records, or leads where its redirect says. */
  lemma BasicTurn(e: Env, w: World, filter: Filter, a: Authority, i: nat)
    requires Served(e, w.handlers, filter) && e.mk == w.mk
    ensures var red := FirstRedirect(w.handlers(a.server).redirects, Request(e, a).sent);
      match LookupAt(e, a, i)
      case Stop(outcome) => red.None? && outcome.Resolved?
      case Continue(next) => red.Some? && next == LedTo(w, a, red.value)
  {
    var sent, h := Request(e, a).sent, w.handlers(a.server);
    FirstRedirectApplies(h.redirects, sent);
    var red := FirstRedirect(h.redirects, sent);
    if red.Some? {
      var claim := Claim(ToRecord(red.value), ClaimTTL(h));
      assert e.lookups(i, a.server, sent).value.claims == [claim];
      assert [claim][1..] == [];
      assert FollowClaims(e.mk, a, sent, []) == Follow([]);
    }
  }

  // ----- Enough hops

  /** The path of a is a prefix of the query path, or the query path is empty. */
  ghost predicate Fits(path: Path, a: Authority) {
    a.path <= path || path == []
  }

  ghost predicate AllFit(path: Path, stack: seq<Authority>) {
    forall k :: 0 <= k < |stack| ==> Fits(path, stack[k])
  }

  ghost function Remaining(path: Path, a: Authority): nat {
    |TrimPrefix(path, a.path)|
  }

  /** More lookups that authority a can lead to: for every element of the path that remains a chain
      of empty redirects and one that is not, and the rest of the chain it is in. */
  ghost function Cost(path: Path, w: World, bound: nat, a: Authority): nat {
    Remaining(path, a) * (bound + 1) + ChainLength(w, a.server, bound)
  }

  lemma LessRemaining(r: nat, r': nat, bound: nat, n: nat)
    requires r' < r && n <= bound
    ensures r' * (bound + 1) + n < r * (bound + 1)
  {
    assert (r' + 1) * (bound + 1) <= r * (bound + 1);
  }

  lemma Trimmed(path: Path, a: Authority, prefix: Path)
    requires Fits(path, a) && prefix <= TrimPrefix(path, a.path)
    ensures var b := Authority(a.path + prefix, a.server);
      Fits(path, b) && Remaining(path, b) == Remaining(path, a) - |prefix|
  {}

  /** A lookup ends the resolution with claims, or goes on with at most one authority of less cost. */
  ghost predicate Lowers(e: Env, cost: Authority -> nat, a: Authority, i: nat) {
    match LookupAt(e, a, i)
    case Stop(outcome) => outcome.Resolved?
    case Continue(next) => next == [] || (|next| == 1 && Fits(e.path, next[0]) && cost(next[0]) < cost(a))
  }

  lemma TurnCosts(e: Env, w: World, filter: Filter, bound: nat, a: Authority, i: nat)
    requires Served(e, w.handlers, filter) && e.mk == w.mk && ChainsEnd(w, bound) && Fits(e.path, a)
    ensures Lowers(e, x => Cost(e.path, w, bound, x), a, i)
  {
    var sent, redirects := Request(e, a).sent, w.handlers(a.server).redirects;
    BasicTurn(e, w, filter, a, i);
    FirstRedirectApplies(redirects, sent);
    EmptyIsFirst(redirects, sent);
    var turn := LookupAt(e, a, i);
    if turn.Continue? && turn.next != [] {
      var b, p := turn.next[0], FirstRedirect(redirects, sent).value.path;
      Trimmed(e.path, a, p);
      assert Fits(e.path, b) && Remaining(e.path, b) == Remaining(e.path, a) - |p|;
      if p == [] {
        assert ChainEnds(w, a.server, bound) && ChainEnds(w, b.server, bound);
        assert EmptyNext(w, a.server) == Some(b.server);
        LengthUnique(w, b.server, bound, bound - 1);
      } else {
        LessRemaining(Remaining(e.path, a), Remaining(e.path, b), bound, ChainLength(w, b.server, bound));
      }
    }
  }

  ghost function TotalCost(cost: Authority -> nat, stack: seq<Authority>): nat {
    if stack == [] then 0 else TotalCost(cost, stack[..|stack| - 1]) + cost(stack[|stack| - 1]) + 1
  }

  ghost predicate Ends(outcome: Outcome) {
    outcome.Resolved? || outcome == NoAuthority
  }

  /** Where every lookup lowers the cost, as many hops as the stack costs suffice. */
  lemma {:induction false} CostSuffices(e: Env, cost: Authority -> nat, done: seq<Visit>, stack: seq<Authority>)
    requires forall a, i: nat :: Fits(e.path, a) ==> Lowers(e, cost, a, i)
    requires AllFit(e.path, stack) && e.maxHops - |done| >= TotalCost(cost, stack)
    ensures var (outcome, visits) := ResolveFrom(e, done, stack);
      Ends(outcome) && |visits| - |done| <= TotalCost(cost, stack)
    decreases TotalCost(cost, stack)
  {
    if stack != [] {
      var below, a := stack[..|stack| - 1], stack[|stack| - 1];
      assert Fits(e.path, a) && Lowers(e, cost, a, |done|);
      var turn := LookupAt(e, a, |done|);
      if turn.Continue? {
        NextCosts(e.path, cost, below, a, turn.next);
        CostSuffices(e, cost, done + [Request(e, a)], below + turn.next);
      }
    }
  }

  lemma NextCosts(path: Path, cost: Authority -> nat, below: seq<Authority>, a: Authority, next: seq<Authority>)
    requires AllFit(path, below)
    requires next == [] || (|next| == 1 && Fits(path, next[0]) && cost(next[0]) < cost(a))
    ensures AllFit(path, below + next)
    ensures TotalCost(cost, below + next) < TotalCost(cost, below) + cost(a) + 1
  {
    if next == [] {
      assert below + next == below;
    } else {
      assert (below + next)[..|below + next| - 1] == below;
    }
  }

  /** The hop budget of a stack: for every authority, `bound` and one lookups for every element of the
      query path after its own path, and once more. */
  ghost function Budget(path: Path, bound: nat, stack: seq<Authority>): nat {
    if stack == [] then 0
    else Budget(path, bound, stack[..|stack| - 1]) + (Remaining(path, stack[|stack| - 1]) + 1) * (bound + 1)
  }

  lemma {:induction false} BudgetCovers(path: Path, w: World, bound: nat, stack: seq<Authority>)
    ensures TotalCost(x => Cost(path, w, bound, x), stack) <= Budget(path, bound, stack)
  {
    if stack != [] {
      BudgetCovers(path, w, bound, stack[..|stack| - 1]);
      var a := stack[|stack| - 1];
      LessRemaining(Remaining(path, a) + 1, Remaining(path, a), bound, ChainLength(w, a.server, bound));
    }
  }

  /** Where chains of empty redirects have at most `bound` links, resolution from any roots whose
      paths are prefixes of the query path ends within the budget of the roots, with claims or
      without an authority to ask. */
  lemma BasicResolves(e: Env, w: World, filter: Filter, bound: nat, roots: seq<Authority>)
    requires Served(e, w.handlers, filter) && e.mk == w.mk && ChainsEnd(w, bound) && AllFit(e.path, roots)
    requires e.maxHops >= Budget(e.path, bound, roots)
    ensures var (outcome, visits) := ResolveFrom(e, [], roots);
      Ends(outcome) && |visits| <= Budget(e.path, bound, roots)
  {
    var cost := x => Cost(e.path, w, bound, x);
    forall a, i: nat | Fits(e.path, a) ensures Lowers(e, cost, a, i) { TurnCosts(e, w, filter, bound, a, i); }
    BudgetCovers(e.path, w, bound, roots);
    CostSuffices(e, cost, [], roots);
  }

  // ----- Not enough hops

  /** A query with nothing left of its path follows the chain of empty redirects, and ends if and
      only if the chain has fewer links than there are hops left. */
  lemma {:induction false} EmptyChain(e: Env, w: World, filter: Filter, done: seq<Visit>, a: Authority)
    requires Served(e, w.handlers, filter) && e.mk == w.mk && Request(e, a).sent == [] && |done| < e.maxHops
    ensures var outcome := ResolveFrom(e, done, [a]).0;
      && (Ends(outcome) <==> ChainEnds(w, a.server, e.maxHops - |done| - 1))
      && (!Ends(outcome) ==> outcome == MaxHopsExceeded)
    decreases e.maxHops - |done|
  {
    EmptyTurn(e, w, filter, a, |done|);
    SingleTurn(e, done, a);
    if EmptyNext(w, a.server).Some? && |done| + 1 < e.maxHops {
      EmptyChain(e, w, filter, done + [Request(e, a)], Authority(a.path, EmptyNext(w, a.server).value));
    }
  }

  lemma SingleTurn(e: Env, done: seq<Visit>, a: Authority)
    requires |done| < e.maxHops
    ensures ResolveFrom(e, done, [a]) ==
      match LookupAt(e, a, |done|)
      case Stop(outcome) => (outcome, done + [Request(e, a)])
      case Continue(next) => ResolveFrom(e, done + [Request(e, a)], next)
  {
    var turn := LookupAt(e, a, |done|);
    if turn.Continue? { assert [a][..0] + turn.next == turn.next; }
  }

  lemma EmptyTurn(e: Env, w: World, filter: Filter, a: Authority, i: nat)
    requires Served(e, w.handlers, filter) && e.mk == w.mk && Request(e, a).sent == []
    ensures match LookupAt(e, a, i)
      case Stop(outcome) => outcome.Resolved? && EmptyNext(w, a.server) == None
      case Continue(next) => next == if EmptyNext(w, a.server).None? then [] else [Authority(a.path, EmptyNext(w, a.server).value)]
  {
    BasicTurn(e, w, filter, a, i);
    FirstRedirectApplies(w.handlers(a.server).redirects, []);
    assert a.path + [] == a.path;
  }

  ghost function BasicEnv(w: World, filter: Filter, path: Path, maxHops: int): Env {
    Env((i: nat, s: nat, p: Path) => Some(Answer(w.handlers(s), p, filter)), w.mk, path, maxHops)
  }

  ghost function OutcomeOf(w: World, filter: Filter, path: Path, maxHops: int, roots: seq<Authority>): Outcome {
    ResolveFrom(BasicEnv(w, filter, path, maxHops), [], roots).0
  }

  /** The empty query at server s ends exactly if the chain of empty redirects from s has fewer
      links than there are hops; otherwise all hops are used up. */
  lemma EmptyQueryExact(w: World, filter: Filter, maxHops: int, s: nat)
    ensures var outcome := OutcomeOf(w, filter, [], maxHops, [Authority([], s)]);
      && (Ends(outcome) <==> maxHops > 0 && ChainEnds(w, s, maxHops - 1))
      && (!Ends(outcome) ==> outcome == MaxHopsExceeded)
  {
    if maxHops > 0 { EmptyChain(BasicEnv(w, filter, [], maxHops), w, filter, [], Authority([], s)); }
  }

  /** Resolution from fitting roots always ends within the budget for chains of `bound` links. */
  ghost predicate EndsWithin(w: World, bound: nat) {
    forall filter: Filter, path: Path, maxHops: int, roots: seq<Authority> ::
      AllFit(path, roots) && maxHops >= Budget(path, bound, roots) ==> Ends(OutcomeOf(w, filter, path, maxHops, roots))
  }

  /** It does exactly if no chain of empty redirects has more than `bound` links. */
  lemma BudgetExact(w: World, bound: nat)
    ensures EndsWithin(w, bound) <==> ChainsEnd(w, bound)
  {
    if ChainsEnd(w, bound) {
      forall filter: Filter, path: Path, maxHops: int, roots: seq<Authority>
        | AllFit(path, roots) && maxHops >= Budget(path, bound, roots)
        ensures Ends(OutcomeOf(w, filter, path, maxHops, roots))
      {
        BasicResolves(BasicEnv(w, filter, path, maxHops), w, filter, bound, roots);
      }
    }
    if EndsWithin(w, bound) {
      forall s ensures ChainEnds(w, s, bound) {
        BudgetIsNeeded(w, bound, s);
      }
    }
  }

  lemma BudgetIsNeeded(w: World, bound: nat, s: nat)
    requires EndsWithin(w, bound)
    ensures ChainEnds(w, s, bound)
  {
    var filter: Filter := (r: Record) => true;
    var roots := [Authority([], s)];
    assert Budget([], bound, roots) == bound + 1 by {
      assert roots[..0] == [] && Remaining([], roots[0]) == 0;
    }
    assert AllFit([], roots) && Ends(OutcomeOf(w, filter, [], bound + 1, roots));
    EmptyQueryExact(w, filter, bound + 1, s);
  }

  // ----- Which chains end

  /** The server after k empty redirects from s. */
  ghost function Jump(w: World, s: nat, k: nat): Option<nat>
    decreases k
  {
    if k == 0 then Some(s)
    else if EmptyNext(w, s).None? then None
    else Jump(w, EmptyNext(w, s).value, k - 1)
  }

  /** Empty redirects lead from t to s, in at least one step. */
  ghost predicate LeadsTo(w: World, t: nat, s: nat) {
    exists k: nat :: k > 0 && Jump(w, t, k) == Some(s)
  }

  /** Empty redirects lead from s back to s. */
  ghost predicate OnCycle(w: World, s: nat) {
    LeadsTo(w, s, s)
  }

  lemma {:induction false} ChainEndsAfter(w: World, s: nat, k: nat, bound: nat)
    requires ChainEnds(w, s, bound) && Jump(w, s, k).Some?
    ensures k <= bound && ChainEnds(w, Jump(w, s, k).value, bound - k)
    decreases k
  {
    if k > 0 { ChainEndsAfter(w, EmptyNext(w, s).value, k - 1, bound - 1); }
  }

  lemma {:induction false} CycleNeverEnds(w: World, s: nat, bound: nat)
    requires OnCycle(w, s)
    ensures !ChainEnds(w, s, bound)
    decreases bound
  {
    if ChainEnds(w, s, bound) {
      var k: nat :| k > 0 && Jump(w, s, k) == Some(s);
      ChainEndsAfter(w, s, k, bound);
      CycleNeverEnds(w, s, bound - k);
    }
  }

  lemma {:induction false} JumpNext(w: World, s: nat, k: nat)
    requires Jump(w, s, k).Some? && EmptyNext(w, Jump(w, s, k).value).Some?
    ensures Jump(w, s, k + 1) == EmptyNext(w, Jump(w, s, k).value)
    decreases k
  {
    if k == 0 {
      assert Jump(w, s, 1) == Jump(w, EmptyNext(w, s).value, 0);
    } else {
      JumpNext(w, EmptyNext(w, s).value, k - 1);
    }
  }

  lemma LeadsOn(w: World, t: nat, s: nat)
    requires (t == s || LeadsTo(w, t, s)) && EmptyNext(w, s).Some?
    ensures LeadsTo(w, t, EmptyNext(w, s).value)
  {
    var k: nat :| Jump(w, t, k) == Some(s) by { assert Jump(w, t, 0) == Some(t); }
    JumpNext(w, t, k);
    assert k + 1 > 0;
  }

  lemma OneLess(servers: set<nat>, seen: set<nat>, s: nat)
    requires s in servers && s !in seen
    ensures |servers - (seen + {s})| == |servers - seen| - 1
  {
    assert servers - seen == (servers - (seen + {s})) + {s};
  }

  /** Among finitely many servers a chain that does not end comes to a cycle. */
  lemma {:induction false} LongChainCycles(w: World, servers: set<nat>, seen: set<nat>, s: nat)
    requires forall t :: t in servers && EmptyNext(w, t).Some? ==> EmptyNext(w, t).value in servers
    requires s in servers && seen <= servers && !ChainEnds(w, s, |servers - seen|)
    requires forall t :: t in seen ==> LeadsTo(w, t, s)
    ensures exists t :: t in servers && OnCycle(w, t)
    decreases |servers - seen|
  {
    if s !in seen {
      var next := EmptyNext(w, s).value;
      forall t | t in seen + {s} ensures LeadsTo(w, t, next) { LeadsOn(w, t, s); }
      OneLess(servers, seen, s);
      LongChainCycles(w, servers, seen + {s}, next);
    }
  }

  /** All redirects stay among some servers. */
  ghost predicate Closed(w: World, servers: set<nat>) {
    forall t :: EmptyNext(w, t).Some? ==> t in servers && EmptyNext(w, t).value in servers
  }

  /** With finitely many servers that redirect, resolution from fitting roots ends, with as many hops
      as the budget for chains of that many links, exactly if empty redirects form no cycle. */
  lemma AcyclicExact(w: World, servers: set<nat>)
    requires Closed(w, servers)
    ensures EndsWithin(w, |servers|) <==> forall t :: !OnCycle(w, t)
  {
    BudgetExact(w, |servers|);
    if ChainsEnd(w, |servers|) {
      forall t ensures !OnCycle(w, t) {
        if OnCycle(w, t) { CycleNeverEnds(w, t, |servers|); }
      }
    } else {
      var s :| !ChainEnds(w, s, |servers|);
      assert servers - {} == servers;
      LongChainCycles(w, servers, {}, s);
    }
  }

  // ----- Which roots are safe

  /** A root whose path is not a prefix of the query path can use up all hops: the whole query path
      is sent again and again. */
  lemma {:induction false} ForeignRootLoops(e: Env, w: World, filter: Filter, done: seq<Visit>, a: Authority)
    requires Served(e, w.handlers, filter) && e.mk == w.mk
    requires !(a.path <= e.path)
    requires w.handlers(a.server).redirects == [Redirect(e.path, a.server)] && w.mk(ToRecord(Redirect(e.path, a.server))) == Some(a.server)
    ensures ResolveFrom(e, done, [a]).0 == MaxHopsExceeded
    decreases e.maxHops - |done|
  {
    if |done| < e.maxHops {
      var b := Authority(a.path + e.path, a.server);
      BasicTurn(e, w, filter, a, |done|);
      assert FirstRedirect(w.handlers(a.server).redirects, e.path) == Some(Redirect(e.path, a.server));
      assert LookupAt(e, a, |done|) == Continue([b]);
      assert [a][..0] + [b] == [b];
      ForeignRootLoops(e, w, filter, done + [Request(e, a)], b);
    }
  }

  /** Whatever basic servers there are, as long as their chains of empty redirects have at most
      `bound` links, resolution from the root ends within its hops. */
  ghost predicate AlwaysEnds(path: Path, maxHops: int, root: Authority, bound: nat) {
    forall w: World, filter: Filter :: ChainsEnd(w, bound) ==> Ends(OutcomeOf(w, filter, path, maxHops, [root]))
  }

  /** With enough hops, a root is safe against all such servers exactly if its path is a prefix of
      the query path or the query path is empty. */
  lemma SafeRoots(path: Path, maxHops: int, root: Authority, bound: nat)
    requires maxHops >= (|path| + 1) * (bound + 1)
    ensures AlwaysEnds(path, maxHops, root, bound) <==> root.path <= path || path == []
  {
    if root.path <= path || path == [] {
      RootBudget(path, root, bound);
      forall w: World, filter: Filter | ChainsEnd(w, bound) ensures Ends(OutcomeOf(w, filter, path, maxHops, [root])) {
        BasicResolves(BasicEnv(w, filter, path, maxHops), w, filter, bound, [root]);
      }
    } else {
      UnsafeRoot(path, maxHops, root, bound);
    }
  }

  lemma RootBudget(path: Path, root: Authority, bound: nat)
    ensures Budget(path, bound, [root]) <= (|path| + 1) * (bound + 1)
  {
    assert [root][..0] == [];
    assert Budget(path, bound, []) == 0;
    assert Remaining(path, root) <= |path|;
  }

  lemma UnsafeRoot(path: Path, maxHops: int, root: Authority, bound: nat)
    requires !(root.path <= path) && path != []
    ensures !AlwaysEnds(path, maxHops, root, bound)
  {
    var handlers := (s: nat) => BasicHandler([Redirect(path, s)], [], 0);
    var w, filter := World(handlers, (r: Record) => r.target), (r: Record) => true;
    forall s ensures ChainEnds(w, s, bound) {
      assert FirstRedirect(w.handlers(s).redirects, []) == None;
    }
    ForeignRootLoops(BasicEnv(w, filter, path, maxHops), w, filter, [], root);
    assert ChainsEnd(w, bound) && !Ends(OutcomeOf(w, filter, path, maxHops, [root]));
  }
}
