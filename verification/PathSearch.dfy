/** The bounded caller-path search: a reverse depth-first walk inside the
    corridor, with per-path exclusion, a dead-node memo and four reasons to
    stop early. */
module PathSearch {
  import opened GraphTypes
  import opened PathSpec
  import Corridor

  datatype StopReason = PathLimit | DepthLimit | WorkBudget | HubPruned

  /** What a branch reports to its caller: it recorded a path, or something
      that depends on the search state kept it from being exhausted. */
  datatype Flags = Flags(found: bool, blocked: bool) {
    function Or(o: Flags): Flags {
      Flags(found || o.found, blocked || o.blocked)
    }

    predicate Neither() {
      !found && !blocked
    }
  }

  // ---- What the search state means.

  predicate LimitHit(p: Problem, found: nat) {
    p.limits.maxPaths != 0 && found >= p.limits.maxPaths
  }

  predicate WorkSpent(p: Problem, expansions: nat) {
    p.limits.maxWork != 0 && expansions >= p.limits.maxWork
  }

  /** The enumerations that the stop reasons so far still speak for: paths that
      avoid hubs while no hub was met, longer paths while no branch was cut at
      the depth bound. */
  ghost predicate Licensed(p: Problem, live: set<Id>, stops: set<StopReason>, sc: Scope) {
    && sc.live == live
    && (sc.prune || HubPruned !in stops)
    && (sc.depth == p.limits.maxDepth || (sc.depth > p.limits.maxDepth && DepthLimit !in stops))
  }

  ghost predicate MemoSound(p: Problem, live: set<Id>, stops: set<StopReason>, deadAt: map<Id, nat>) {
    forall sc, n :: Licensed(p, live, stops, sc) && n in deadAt ==> NoWalk(p, sc, n, deadAt[n])
  }

  /** `got` is all of `want`, or the search was halted and it is a first part. */
  ghost predicate Matches(got: seq<seq<EdgeRef>>, want: seq<seq<EdgeRef>>, halted: bool) {
    got == want || (halted && got <= want)
  }

  /** Every admitted caller is dead one level up. */
  ghost predicate CallersDead(p: Problem, sc: Scope, callers: seq<EdgeRef>, d: nat) {
    forall e :: e in callers && p.admits(e) ==> NoWalk(p, sc, e.caller, d)
  }

  /** Nothing above `node` at depth `d` can add a path in scope. */
  ghost predicate Sealed(p: Problem, sc: Scope, node: Id, d: nat) {
    || d >= sc.depth
    || (sc.prune && d > 0 && p.IsHub(node))
    || CallersDead(p, sc, p.graph.CallersOf(node), d + 1)
  }

  /** The part of the enumeration above the end of `edges`. */
  ghost function Above(p: Problem, sc: Scope, target: Id, edges: seq<EdgeRef>): seq<seq<EdgeRef>> {
    if Open(p, sc, target, edges)
    then PathsVia(p, sc, target, edges, p.graph.CallersOf(EndOf(target, edges)))
    else []
  }

  lemma PathsAre(p: Problem, sc: Scope, target: Id, edges: seq<EdgeRef>)
    requires |edges| <= sc.depth
    ensures Paths(p, sc, target, edges) == Own(sc, target, edges) + Above(p, sc, target, edges)
  {
  }

  // ---- The work of a search.

  /** Every walk that repeats nothing, whatever it ends at. */
  ghost function Anywhere(p: Problem): Scope {
    Scope(set n, e | n in p.graph.callers && e in p.graph.callers[n] :: e.caller, false, p.limits.maxDepth)
  }

  /** How many walks that repeat nothing extend `edges`, itself included. */
  ghost function WalksFrom(p: Problem, target: Id, edges: seq<EdgeRef>): nat {
    1 + |Above(p, Anywhere(p), target, edges)|
  }

  lemma WalksAreListed(p: Problem, target: Id, edges: seq<EdgeRef>, node: Id, e: EdgeRef)
    requires |edges| < p.limits.maxDepth && e in p.graph.CallersOf(node)
    ensures |Paths(p, Anywhere(p), target, edges + [e])| == WalksFrom(p, target, edges + [e])
  {
    hide Above;
    PathsAre(p, Anywhere(p), target, edges + [e]);
    assert EndOf(target, edges + [e]) == e.caller;
    assert e.caller in Anywhere(p).live;
  }

  /** A walk up from `target` over admitted edges that repeats nothing. */
  ghost predicate IsPlainWalk(p: Problem, target: Id, q: seq<EdgeRef>) {
    |q| <= p.limits.maxDepth && forall i :: 0 <= i < |q| ==> StepOk(p, Anywhere(p), target, q, i)
  }

  /** The count is that of the plain walks, the empty one included. */
  lemma WalksAreCounted(p: Problem, target: Id) returns (walks: seq<seq<EdgeRef>>)
    requires p.graph.WellFormed()
    ensures |walks| == WalksFrom(p, target, []) && NoDuplicates(walks)
    ensures forall q :: q in walks <==> IsPlainWalk(p, target, q)
  {
    hide Paths, QueryGraph.WellFormed;
    var sc := Anywhere(p);
    var more := Paths(p, sc, target, []);
    PathsAre(p, sc, target, []);
    PathsNoDuplicates(p, sc, target, []);
    walks := [[]] + more;
    forall q ensures q in walks <==> IsPlainWalk(p, target, q) {
      PathsExact(p, sc, target, q);
      if |q| > 0 && IsPlainWalk(p, target, q) {
        assert StepOk(p, sc, target, q, |q| - 1);
      }
    }
    PathsExact(p, sc, target, []);
  }

  /** Between `before` and `after` each recorded path cost one visit, and no walk
      was visited twice. */
  ghost predicate Spent(before: nat, after: nat, recorded: nat, walks: nat) {
    before + recorded <= after <= before + walks
  }

  lemma NothingSpent(before: nat, walks: nat)
    ensures Spent(before, before, 0, walks)
  {
  }

  lemma BranchWalks(p: Problem, target: Id, edges: seq<EdgeRef>, node: Id, e: EdgeRef, before: nat, after: nat, recorded: nat)
    requires |edges| < p.limits.maxDepth && Admitted(p, node, e) && !Excluded(p.rule, target, edges, e)
    requires Spent(before, after, recorded, WalksFrom(p, target, edges + [e]))
    ensures Spent(before, after, recorded, |Branch(p, Anywhere(p), target, edges, e)|)
  {
    hide Paths, WalksFrom, Anywhere;
    AnywhereDepth(p);
    WalksAreListed(p, target, edges, node, e);
    LiveBranch(p, Anywhere(p), target, edges, e);
  }

  lemma AnywhereDepth(p: Problem)
    ensures Anywhere(p).depth == p.limits.maxDepth && !Anywhere(p).prune
  {
  }

  lemma NextWalks(p: Problem, target: Id, edges: seq<EdgeRef>, callers: seq<EdgeRef>, i: nat,
                  a: nat, b: nat, c: nat, first: nat, second: nat)
    requires |edges| < p.limits.maxDepth && i < |callers| && Anywhere(p).depth == p.limits.maxDepth
    requires Spent(a, b, first, |PathsVia(p, Anywhere(p), target, edges, callers[..i])|)
    requires Spent(b, c, second, |Branch(p, Anywhere(p), target, edges, callers[i])|)
    ensures Spent(a, c, first + second, |PathsVia(p, Anywhere(p), target, edges, callers[..i + 1])|)
  {
    hide PathsVia, Branch, Anywhere;
    ViaNext(p, Anywhere(p), target, edges, callers, i);
  }

  lemma AllWalks(p: Problem, target: Id, edges: seq<EdgeRef>, i: nat, a: nat, b: nat, recorded: nat)
    requires |edges| < p.limits.maxDepth && Anywhere(p).depth == p.limits.maxDepth
    requires i <= |p.graph.CallersOf(EndOf(target, edges))|
    requires Spent(a, b, recorded, |PathsVia(p, Anywhere(p), target, edges, p.graph.CallersOf(EndOf(target, edges))[..i])|)
    ensures Spent(a, b, recorded, |Above(p, Anywhere(p), target, edges)|)
  {
    hide PathsVia;
    ViaPrefix(p, Anywhere(p), target, edges, p.graph.CallersOf(EndOf(target, edges)), i);
  }

  lemma SealedAbove(p: Problem, sc: Scope, target: Id, edges: seq<EdgeRef>)
    requires Sealed(p, sc, EndOf(target, edges), |edges|)
    ensures Above(p, sc, target, edges) == []
  {
    if Open(p, sc, target, edges) {
      var callers := p.graph.CallersOf(EndOf(target, edges));
      ViaAllSkipped(p, sc, target, edges, callers, |callers|);
      assert callers[..|callers|] == callers;
    }
  }

  /** No walk of one edge or more from a live start ends at `t`. */
  ghost predicate Rootless(p: Problem, sc: Scope, t: Id) {
    forall w :: IsWalk(p, sc.prune, false, t, w) && EndOf(t, w) in sc.live && |w| > 0 ==> |w| > sc.depth
  }

  ghost predicate LongWalk(p: Problem, t: Id) {
    exists w :: ReachesFromStart(p, t, w) && |w| > p.limits.maxDepth
  }

  /** The callers the walk would follow from `node` at `depth`. */
  predicate InBudget(p: Problem, corridor: map<Id, nat>, e: EdgeRef, depth: nat) {
    p.admits(e) && e.caller in corridor && corridor[e.caller] + depth + 1 <= p.limits.maxDepth
  }

  ghost predicate NoneInBudget(p: Problem, corridor: map<Id, nat>, callers: seq<EdgeRef>, depth: nat) {
    forall e :: e in callers ==> !InBudget(p, corridor, e, depth)
  }

  lemma MatchesJoin(a: seq<seq<EdgeRef>>, A: seq<seq<EdgeRef>>, b: seq<seq<EdgeRef>>, B: seq<seq<EdgeRef>>,
                    before: bool, after: bool)
    requires Matches(a, A, before) && Matches(b, B, after)
    requires before ==> b == [] && after
    ensures Matches(a + b, A + B, after)
  {
  }

  lemma {:induction false} ViaPrefix(p: Problem, sc: Scope, target: Id, edges: seq<EdgeRef>, callers: seq<EdgeRef>, i: nat)
    requires |edges| < sc.depth && i <= |callers|
    ensures PathsVia(p, sc, target, edges, callers[..i]) <= PathsVia(p, sc, target, edges, callers)
    decreases |callers|
  {
    if i == |callers| {
      assert callers[..i] == callers;
    } else {
      var most := callers[..|callers| - 1];
      ViaPrefix(p, sc, target, edges, most, i);
      assert most[..i] == callers[..i];
    }
  }

  /** The part of the enumeration through one caller edge. */
  ghost function Branch(p: Problem, sc: Scope, target: Id, edges: seq<EdgeRef>, e: EdgeRef): seq<seq<EdgeRef>>
    requires |edges| < sc.depth
  {
    if p.admits(e) && !Excluded(p.rule, target, edges, e) then Paths(p, sc, target, edges + [e]) else []
  }

  lemma ViaNext(p: Problem, sc: Scope, target: Id, edges: seq<EdgeRef>, callers: seq<EdgeRef>, i: nat)
    requires |edges| < sc.depth && i < |callers|
    ensures PathsVia(p, sc, target, edges, callers[..i + 1]) ==
            PathsVia(p, sc, target, edges, callers[..i]) + Branch(p, sc, target, edges, callers[i])
  {
    assert callers[..i + 1][..i] == callers[..i];
  }

  /** A caller that is dead one level up adds no path. */
  lemma LiveBranch(p: Problem, sc: Scope, target: Id, edges: seq<EdgeRef>, e: EdgeRef)
    requires |edges| < sc.depth
    requires p.admits(e) && !Excluded(p.rule, target, edges, e)
    ensures Branch(p, sc, target, edges, e) == Paths(p, sc, target, edges + [e])
  {
  }

  lemma DeadBranch(p: Problem, sc: Scope, target: Id, edges: seq<EdgeRef>, e: EdgeRef)
    requires |edges| < sc.depth
    requires p.admits(e) ==> Excluded(p.rule, target, edges, e) || NoWalk(p, sc, e.caller, |edges| + 1)
    ensures Branch(p, sc, target, edges, e) == []
  {
    if p.admits(e) && !Excluded(p.rule, target, edges, e) {
      NoWalkNoPaths(p, sc, target, edges + [e]);
    }
  }

  lemma {:induction false} ViaAllSkipped(p: Problem, sc: Scope, target: Id, edges: seq<EdgeRef>, callers: seq<EdgeRef>, i: nat)
    requires |edges| < sc.depth && i <= |callers|
    requires CallersDead(p, sc, callers, |edges| + 1)
    ensures PathsVia(p, sc, target, edges, callers[..i]) == []
    decreases i
  {
    if i > 0 {
      ViaAllSkipped(p, sc, target, edges, callers, i - 1);
      assert callers[i - 1] in callers;
      DeadBranch(p, sc, target, edges, callers[i - 1]);
      ViaNext(p, sc, target, edges, callers, i - 1);
    }
  }

  lemma NoCallers(p: Problem, sc: Scope, target: Id, edges: seq<EdgeRef>)
    requires |edges| < sc.depth
    ensures PathsVia(p, sc, target, edges, []) == []
    ensures CallersDead(p, sc, [], |edges| + 1)
  {
  }

  lemma CallersDeadSnoc(p: Problem, sc: Scope, callers: seq<EdgeRef>, i: nat, d: nat)
    requires i < |callers| && CallersDead(p, sc, callers[..i], d)
    requires p.admits(callers[i]) ==> NoWalk(p, sc, callers[i].caller, d)
    ensures CallersDead(p, sc, callers[..i + 1], d)
  {
    assert callers[..i + 1] == callers[..i] + [callers[i]];
  }

  lemma NoWalkFewer(p: Problem, sc: Scope, fewer: set<Id>, n: Id, d: nat)
    requires NoWalk(p, sc, n, d) && fewer <= sc.live
    ensures NoWalk(p, sc.(live := fewer), n, d)
  {
  }

  lemma DeadCallersRootless(p: Problem, sc: Scope, t: Id)
    requires Sealed(p, sc, t, 0)
    ensures Rootless(p, sc, t)
  {
    forall w: seq<EdgeRef> | IsWalk(p, sc.prune, false, t, w) && EndOf(t, w) in sc.live && |w| > 0
      ensures |w| > sc.depth
    {
      assert WalkStep(p, sc.prune, false, t, w, 0);
      var c, rest := w[0].caller, w[1..];
      forall i | 0 <= i < |rest| ensures WalkStep(p, sc.prune, true, c, rest, i) {
        assert WalkStep(p, sc.prune, false, t, w, i + 1);
        assert NodeAt(c, rest, i) == NodeAt(t, w, i + 1);
        assert rest[i] == w[i + 1];
      }
      assert EndOf(c, rest) == EndOf(t, w);
      assert IsWalk(p, sc.prune, true, c, rest);
    }
  }

  /** Entering a dead node into the memo keeps it sound; a start that dies as a
      target stops counting as one. */
  lemma MemoGrows(p: Problem, live: set<Id>, stops: set<StopReason>, deadAt: map<Id, nat>, node: Id, depth: nat, deadAt': map<Id, nat>)
    requires MemoSound(p, live, stops, deadAt)
    requires depth <= p.limits.maxDepth
    requires forall sc :: Licensed(p, live, stops, sc) ==> Sealed(p, sc, node, depth)
    requires deadAt' == deadAt[node := if node in deadAt && deadAt[node] < depth then deadAt[node] else depth]
    ensures MemoSound(p, live - {node}, stops, deadAt')
  {
    forall sc', n | Licensed(p, live - {node}, stops, sc') && n in deadAt'
      ensures NoWalk(p, sc', n, deadAt'[n])
    {
      var sc := sc'.(live := live);
      assert Licensed(p, live, stops, sc);
      assert Sealed(p, sc, node, depth);
      if n in deadAt && deadAt'[n] == deadAt[n] {
        NoWalkFewer(p, sc, live - {node}, n, deadAt[n]);
      } else {
        forall e | Admitted(p, node, e) && depth < sc.depth && !(sc.prune && depth > 0 && p.IsHub(node))
          ensures NoWalk(p, sc', e.caller, depth + 1)
        {
          NoWalkFewer(p, sc, live - {node}, e.caller, depth + 1);
        }
        NoWalkStep(p, sc', node, depth);
      }
    }
  }

  lemma MemoStops(p: Problem, live: set<Id>, stops: set<StopReason>, stops': set<StopReason>, deadAt: map<Id, nat>)
    requires MemoSound(p, live, stops, deadAt) && stops <= stops'
    ensures MemoSound(p, live, stops', deadAt)
  {
    forall sc, n | Licensed(p, live, stops', sc) && n in deadAt ensures NoWalk(p, sc, n, deadAt[n]) {
      assert Licensed(p, live, stops, sc);
    }
  }

  lemma MemoEntry(p: Problem, live: set<Id>, stops: set<StopReason>, deadAt: map<Id, nat>, node: Id, depth: nat)
    requires MemoSound(p, live, stops, deadAt) && node in deadAt && deadAt[node] <= depth
    ensures forall sc :: Licensed(p, live, stops, sc) ==> NoWalk(p, sc, node, depth)
  {
    forall sc | Licensed(p, live, stops, sc) ensures NoWalk(p, sc, node, depth) {
      NoWalkDeeper(p, sc, node, deadAt[node], depth);
    }
  }

  lemma LiveNotDead(p: Problem, live: set<Id>, stops: set<StopReason>, deadAt: map<Id, nat>, n: Id)
    requires MemoSound(p, live, stops, deadAt) && n in deadAt && deadAt[n] <= p.limits.maxDepth
    ensures n !in live
  {
    var sc := Scope(live, true, p.limits.maxDepth);
    assert Licensed(p, live, stops, sc);
    assert IsWalk(p, true, deadAt[n] > 0, n, []);
  }

  /** Where the memo cuts, the plain enumeration finds nothing either. */
  lemma DeadNode(p: Problem, live: set<Id>, stops: set<StopReason>, deadAt: map<Id, nat>, target: Id, edges: seq<EdgeRef>)
    requires MemoSound(p, live, stops, deadAt) && |edges| <= p.limits.maxDepth
    requires EndOf(target, edges) in deadAt && deadAt[EndOf(target, edges)] <= |edges|
    ensures forall sc :: Licensed(p, live, stops, sc) ==> NoWalk(p, sc, EndOf(target, edges), |edges|)
    ensures forall sc :: Licensed(p, live, stops, sc) ==> Paths(p, sc, target, edges) == []
  {
    MemoEntry(p, live, stops, deadAt, EndOf(target, edges), |edges|);
    forall sc | Licensed(p, live, stops, sc) ensures Paths(p, sc, target, edges) == [] {
      NoWalkNoPaths(p, sc, target, edges);
    }
  }

  lemma DeadPaths(p: Problem, live: set<Id>, stops: set<StopReason>, deadAt: map<Id, nat>, target: Id, edges: seq<EdgeRef>, halted: bool)
    requires MemoSound(p, live, stops, deadAt) && |edges| <= p.limits.maxDepth
    requires EndOf(target, edges) in deadAt && deadAt[EndOf(target, edges)] <= |edges|
    ensures NoWalkOk(p, live, stops, EndOf(target, edges), |edges|) && PathsOk(p, live, stops, target, edges, [], halted)
  {
    hide MemoSound, NoWalk, Paths;
    DeadNode(p, live, stops, deadAt, target, edges);
  }

  lemma NoCorridorCallersSealed(p: Problem, corridor: map<Id, nat>, sc: Scope, node: Id, d: nat)
    requires CorridorSound(p, corridor) && sc.live <= p.starts
    requires forall e :: e in p.graph.CallersOf(node) && p.admits(e) ==> e.caller !in corridor
    ensures Sealed(p, sc, node, d)
  {
    forall e | e in p.graph.CallersOf(node) && p.admits(e) ensures NoWalk(p, sc, e.caller, d + 1) {
      OutsideCorridor(p, corridor, sc, e.caller, d + 1);
    }
  }

  lemma NoCallersSealed(p: Problem, corridor: map<Id, nat>, live: set<Id>, stops: set<StopReason>, node: Id, d: nat)
    requires CorridorSound(p, corridor) && live <= p.starts
    requires forall e :: e in p.graph.CallersOf(node) && p.admits(e) ==> e.caller !in corridor
    ensures SealedOk(p, live, stops, node, d)
  {
    hide CorridorSound, Sealed;
    forall sc | Licensed(p, live, stops, sc) ensures Sealed(p, sc, node, d) {
      NoCorridorCallersSealed(p, corridor, sc, node, d);
    }
  }

  lemma HubSealed(p: Problem, live: set<Id>, stops: set<StopReason>, node: Id, d: nat)
    requires p.IsHub(node) && d > 0 && HubPruned in stops
    ensures SealedOk(p, live, stops, node, d)
  {
    hide CallersDead;
  }

  lemma BoundSealed(p: Problem, corridor: map<Id, nat>, live: set<Id>, stops: set<StopReason>, node: Id, d: nat, cut: bool)
    requires CorridorSound(p, corridor) && live <= p.starts && d >= p.limits.maxDepth && (cut ==> DepthLimit in stops)
    requires cut || forall e :: e in p.graph.CallersOf(node) && p.admits(e) ==> e.caller !in corridor
    ensures SealedOk(p, live, stops, node, d)
  {
    hide CorridorSound, CallersDead;
    if !cut {
      NoCallersSealed(p, corridor, live, stops, node, d);
    }
  }

  lemma HaltedAbove(p: Problem, live: set<Id>, stops: set<StopReason>, target: Id, edges: seq<EdgeRef>)
    ensures AboveOk(p, live, stops, target, edges, [], true)
  {
    hide Above;
  }

  lemma StartInCorridor(p: Problem, corridor: map<Id, nat>, t: Id)
    requires CorridorSound(p, corridor)
    ensures t in p.starts ==> t in corridor && corridor[t] == 0
  {
    if t in p.starts {
      assert ReachesFromStart(p, t, []);
    }
  }

  lemma EmptyStack(p: Problem, t: Id)
    ensures IsWalk(p, false, false, t, []) && OnPath(t, []) == {t} && KeysOf([]) == {}
  {
  }

  /** Above a rootless target the corridor offers nothing within the bound. */
  lemma NoCallerInBudget(p: Problem, corridor: map<Id, nat>, t: Id)
    requires CorridorTight(p, corridor)
    requires Rootless(p, Scope(p.starts, false, p.limits.maxDepth), t)
    ensures NoneInBudget(p, corridor, p.graph.CallersOf(t), 0)
  {
    forall e | e in p.graph.CallersOf(t) && InBudget(p, corridor, e, 0) ensures false {
      assert ReachedIn(p, e.caller, corridor[e.caller]);
      var w :| ReachesFromStart(p, e.caller, w) && |w| == corridor[e.caller];
      assert WalkStep(p, false, false, t, [e], 0);
      JoinWalks(p, t, [e], w);
    }
  }

  // ---- What the calls of the walk promise, for every enumeration that the stops
  // ---- so far still speak for.

  ghost predicate PathsOk(p: Problem, live: set<Id>, stops: set<StopReason>, target: Id, edges: seq<EdgeRef>, got: seq<seq<EdgeRef>>, halted: bool) {
    |edges| <= p.limits.maxDepth && forall sc :: Licensed(p, live, stops, sc) ==> Matches(got, Paths(p, sc, target, edges), halted)
  }

  ghost predicate AboveOk(p: Problem, live: set<Id>, stops: set<StopReason>, target: Id, edges: seq<EdgeRef>, got: seq<seq<EdgeRef>>, halted: bool) {
    forall sc :: Licensed(p, live, stops, sc) ==> Matches(got, Above(p, sc, target, edges), halted)
  }

  ghost predicate ViaOk(p: Problem, live: set<Id>, stops: set<StopReason>, target: Id, edges: seq<EdgeRef>, callers: seq<EdgeRef>, i: nat,
                        got: seq<seq<EdgeRef>>, halted: bool)
  {
    && |edges| < p.limits.maxDepth && i <= |callers|
    && forall sc :: Licensed(p, live, stops, sc) ==> Matches(got, PathsVia(p, sc, target, edges, callers[..i]), halted)
  }

  ghost predicate BranchOk(p: Problem, live: set<Id>, stops: set<StopReason>, target: Id, edges: seq<EdgeRef>, e: EdgeRef,
                           got: seq<seq<EdgeRef>>, halted: bool)
  {
    && |edges| < p.limits.maxDepth
    && forall sc :: Licensed(p, live, stops, sc) ==> Matches(got, Branch(p, sc, target, edges, e), halted)
  }

  ghost predicate SealedOk(p: Problem, live: set<Id>, stops: set<StopReason>, node: Id, d: nat) {
    forall sc :: Licensed(p, live, stops, sc) ==> Sealed(p, sc, node, d)
  }

  ghost predicate DeadOk(p: Problem, live: set<Id>, stops: set<StopReason>, callers: seq<EdgeRef>, i: nat, d: nat) {
    i <= |callers| && forall sc :: Licensed(p, live, stops, sc) ==> CallersDead(p, sc, callers[..i], d)
  }

  ghost predicate NoWalkOk(p: Problem, live: set<Id>, stops: set<StopReason>, node: Id, d: nat) {
    forall sc :: Licensed(p, live, stops, sc) ==> NoWalk(p, sc, node, d)
  }

  ghost predicate RootlessOk(p: Problem, live: set<Id>, stops: set<StopReason>, node: Id) {
    forall sc :: Licensed(p, live, stops, sc) ==> Rootless(p, sc, node)
  }

  lemma FewerLicensed(p: Problem, live: set<Id>, stops: set<StopReason>, stops': set<StopReason>, sc: Scope)
    requires stops <= stops' && Licensed(p, live, stops', sc)
    ensures Licensed(p, live, stops, sc)
  {
  }

  lemma NothingVia(p: Problem, live: set<Id>, stops: set<StopReason>, target: Id, edges: seq<EdgeRef>, callers: seq<EdgeRef>, halted: bool)
    requires |edges| < p.limits.maxDepth
    ensures ViaOk(p, live, stops, target, edges, callers, 0, [], halted) && DeadOk(p, live, stops, callers, 0, |edges| + 1)
  {
    hide PathsVia, CallersDead;
    assert callers[..0] == [];
    forall sc | Licensed(p, live, stops, sc)
      ensures Matches([], PathsVia(p, sc, target, edges, callers[..0]), halted) && CallersDead(p, sc, callers[..0], |edges| + 1)
    {
      NoCallers(p, sc, target, edges);
    }
  }

  /** One more caller. */
  lemma MoreVia(p: Problem, live: set<Id>, stops: set<StopReason>, stops': set<StopReason>, target: Id, edges: seq<EdgeRef>, callers: seq<EdgeRef>, i: nat,
                via: seq<seq<EdgeRef>>, next: seq<seq<EdgeRef>>, before: bool, after: bool)
    requires ViaOk(p, live, stops, target, edges, callers, i, via, before) && i < |callers| && stops <= stops'
    requires BranchOk(p, live, stops', target, edges, callers[i], next, after) && (before ==> next == [] && after)
    ensures ViaOk(p, live, stops', target, edges, callers, i + 1, via + next, after)
  {
    hide PathsVia, Branch, Matches;
    forall sc | Licensed(p, live, stops', sc) ensures Matches(via + next, PathsVia(p, sc, target, edges, callers[..i + 1]), after) {
      FewerLicensed(p, live, stops, stops', sc);
      ViaNext(p, sc, target, edges, callers, i);
      MatchesJoin(via, PathsVia(p, sc, target, edges, callers[..i]), next, Branch(p, sc, target, edges, callers[i]), before, after);
    }
  }

  lemma MoreDead(p: Problem, live: set<Id>, stops: set<StopReason>, stops': set<StopReason>, callers: seq<EdgeRef>, i: nat, d: nat)
    requires DeadOk(p, live, stops, callers, i, d) && i < |callers| && stops <= stops'
    requires p.admits(callers[i]) ==> NoWalkOk(p, live, stops', callers[i].caller, d)
    ensures DeadOk(p, live, stops', callers, i + 1, d)
  {
    hide CallersDead, NoWalk;
    forall sc | Licensed(p, live, stops', sc) ensures CallersDead(p, sc, callers[..i + 1], d) {
      FewerLicensed(p, live, stops, stops', sc);
      CallersDeadSnoc(p, sc, callers, i, d);
    }
  }

  /** All callers, or a first part of them when the walk was halted. */
  lemma ViaIsAbove(p: Problem, live: set<Id>, stops: set<StopReason>, target: Id, edges: seq<EdgeRef>, i: nat, via: seq<seq<EdgeRef>>, before: bool, after: bool)
    requires var callers := p.graph.CallersOf(EndOf(target, edges));
             ViaOk(p, live, stops, target, edges, callers, i, via, before) && (before ==> after) && (i < |callers| ==> after)
    requires !(p.IsHub(EndOf(target, edges)) && |edges| > 0)
    ensures AboveOk(p, live, stops, target, edges, via, after)
  {
    hide PathsVia;
    var callers := p.graph.CallersOf(EndOf(target, edges));
    assert i == |callers| ==> callers[..i] == callers;
    forall sc | Licensed(p, live, stops, sc) ensures Matches(via, Above(p, sc, target, edges), after) {
      ViaPrefix(p, sc, target, edges, callers, i);
    }
  }

  lemma DeadIsSealed(p: Problem, live: set<Id>, stops: set<StopReason>, node: Id, d: nat)
    requires var callers := p.graph.CallersOf(node); DeadOk(p, live, stops, callers, |callers|, d + 1)
    ensures SealedOk(p, live, stops, node, d)
  {
    hide CallersDead;
    var callers := p.graph.CallersOf(node);
    assert callers[..|callers|] == callers;
  }

  lemma SealedIsAbove(p: Problem, live: set<Id>, stops: set<StopReason>, target: Id, edges: seq<EdgeRef>, halted: bool)
    requires SealedOk(p, live, stops, EndOf(target, edges), |edges|)
    ensures AboveOk(p, live, stops, target, edges, [], halted)
  {
    hide Above, Sealed;
    forall sc | Licensed(p, live, stops, sc) ensures Matches([], Above(p, sc, target, edges), halted) {
      SealedAbove(p, sc, target, edges);
    }
  }

  /** What was recorded at a node, then what is above it. */
  lemma OwnThenAbove(p: Problem, live: set<Id>, stops: set<StopReason>, target: Id, edges: seq<EdgeRef>, own: seq<seq<EdgeRef>>, via: seq<seq<EdgeRef>>, halted: bool)
    requires |edges| <= p.limits.maxDepth && AboveOk(p, live, stops, target, edges, via, halted)
    requires own == if EndOf(target, edges) in live && |edges| > 0 then [edges] else []
    ensures PathsOk(p, live, stops, target, edges, own + via, halted)
  {
    hide Above, Paths;
    forall sc | Licensed(p, live, stops, sc) ensures Matches(own + via, Paths(p, sc, target, edges), halted) {
      PathsAre(p, sc, target, edges);
      MatchesJoin(own, Own(sc, target, edges), via, Above(p, sc, target, edges), false, halted);
    }
  }

  lemma PathsIsBranch(p: Problem, live: set<Id>, stops: set<StopReason>, target: Id, edges: seq<EdgeRef>, e: EdgeRef, got: seq<seq<EdgeRef>>, halted: bool)
    requires |edges| < p.limits.maxDepth && PathsOk(p, live, stops, target, edges + [e], got, halted)
    requires p.admits(e) && !Excluded(p.rule, target, edges, e)
    ensures BranchOk(p, live, stops, target, edges, e, got, halted)
  {
    hide Paths, Branch;
    forall sc | Licensed(p, live, stops, sc) ensures Matches(got, Branch(p, sc, target, edges, e), halted) {
      LiveBranch(p, sc, target, edges, e);
    }
  }

  /** A halted walk adds nothing and that is all right. */
  lemma NothingMore(p: Problem, live: set<Id>, stops: set<StopReason>, target: Id, edges: seq<EdgeRef>)
    requires |edges| <= p.limits.maxDepth
    ensures PathsOk(p, live, stops, target, edges, [], true)
  {
    hide Paths;
  }

  // ---- What the path limit leaves behind.

  /** Something was not looked at when the walk broke off after recording `q`: a
      caller above its end, or a caller after the one that `q` takes from its
      node `d` or later. */
  ghost predicate Unexplored(p: Problem, target: Id, q: seq<EdgeRef>, d: nat) {
    || (|q| < p.limits.maxDepth && exists e, w :: Admitted(p, EndOf(target, q), e) && ReachesFromStart(p, e.caller, w))
    || (exists j :: d <= j < |q| && NotLast(p.graph.CallersOf(NodeAt(target, q, j)), q[j]))
  }

  ghost predicate NotLast(callers: seq<EdgeRef>, e: EdgeRef) {
    exists i :: 0 <= i && i + 1 < |callers| && callers[i] == e
  }

  /** The last of the recorded paths was not the last candidate. */
  ghost predicate LeftBehind(p: Problem, target: Id, got: seq<seq<EdgeRef>>, d: nat) {
    got != [] && Unexplored(p, target, got[|got| - 1], d)
  }

  ghost predicate AllExtend(edges: seq<EdgeRef>, got: seq<seq<EdgeRef>>) {
    forall i :: 0 <= i < |got| ==> edges <= got[i]
  }

  lemma LeftAbove(p: Problem, target: Id, node: Id, q: seq<EdgeRef>, corridor: map<Id, nat>, d: nat)
    requires CorridorTight(p, corridor) && node == EndOf(target, q) && |q| < p.limits.maxDepth
    requires exists e :: e in p.graph.CallersOf(node) && p.admits(e) && e.caller in corridor
    ensures Unexplored(p, target, q, d)
  {
    var e :| e in p.graph.CallersOf(node) && p.admits(e) && e.caller in corridor;
    assert ReachedIn(p, e.caller, corridor[e.caller]);
    var w :| ReachesFromStart(p, e.caller, w) && |w| == corridor[e.caller];
    assert Admitted(p, EndOf(target, q), e);
  }

  lemma LeftBeside(p: Problem, target: Id, edges: seq<EdgeRef>, callers: seq<EdgeRef>, i: nat, got: seq<seq<EdgeRef>>)
    requires callers == p.graph.CallersOf(EndOf(target, edges)) && i + 1 < |callers| && got != [] && AllExtend(edges + [callers[i]], got)
    ensures LeftBehind(p, target, got, |edges|)
  {
    var q, j := got[|got| - 1], |edges|;
    assert q[..j] == (edges + [callers[i]])[..j] == edges && q[j] == (edges + [callers[i]])[j];
    assert NodeAt(target, q, j) == EndOf(target, edges);
    assert NotLast(p.graph.CallersOf(NodeAt(target, q, j)), q[j]);
  }

  lemma LeftLater(p: Problem, target: Id, first: seq<seq<EdgeRef>>, got: seq<seq<EdgeRef>>, d: nat)
    requires LeftBehind(p, target, got, d)
    ensures LeftBehind(p, target, first + got, d)
  {
    hide Unexplored;
  }

  lemma NoneExtend(edges: seq<EdgeRef>)
    ensures AllExtend(edges, [])
  {
  }

  lemma LeftDeeper(p: Problem, target: Id, first: seq<seq<EdgeRef>>, got: seq<seq<EdgeRef>>, d: nat)
    requires LeftBehind(p, target, got, d + 1)
    ensures LeftBehind(p, target, first + got, d)
  {
    hide NotLast, ReachesFromStart, Admitted;
  }

  lemma ExtendMore(edges: seq<EdgeRef>, e: EdgeRef, via: seq<seq<EdgeRef>>, next: seq<seq<EdgeRef>>)
    requires AllExtend(edges, via) && AllExtend(edges + [e], next)
    ensures AllExtend(edges, via + next)
  {
    forall i | 0 <= i < |next| ensures edges <= next[i] {
      assert next[i][..|edges|] == (edges + [e])[..|edges|] == edges;
    }
  }

  /** A hub that was skipped lies above a target. */
  ghost predicate AboveTarget(p: Problem, target: Id, hub: Id) {
    exists w :: IsWalk(p, false, false, target, w) && 0 < |w| <= p.limits.maxDepth && EndOf(target, w) == hub
  }

  // ---- The walk.

  class Search {
    const p: Problem
    const corridor: map<Id, nat>

    // currentPath[0] is the target; currentEdges[i] calls currentPath[i].
    var currentPath: seq<Id>
    var currentEdges: seq<EdgeRef>
    var onPath: set<Id>
    var onPathEdges: set<Triple>
    var deadAt: map<Id, nat>
    var found: seq<seq<EdgeRef>>
    var hubs: map<Id, nat>
    var stops: set<StopReason>
    var expansions: nat
    var truncated: bool

    /** The target of the walk under way. */
    ghost var target: Id
    /** The starts the memo has not written off. */
    ghost var live: set<Id>

    constructor (p: Problem, corridor: map<Id, nat>)
      requires p.limits.maxDepth >= 1
      requires CorridorSound(p, corridor) && CorridorTight(p, corridor)
      ensures this.p == p && this.corridor == corridor
      ensures Inv() && live == p.starts && deadAt == map[]
      ensures Rest() && found == [] && stops == {} && hubs == map[] && expansions == 0 && !truncated
    {
      this.p, this.corridor := p, corridor;
      currentPath, currentEdges, onPath, onPathEdges := [], [], {}, {};
      deadAt, found, hubs, stops, expansions, truncated := map[], [], map[], {}, 0, false;
      live := p.starts;
    }

    /** Nothing is on the stack. */
    ghost predicate Rest()
      reads this
    {
      currentPath == [] && currentEdges == [] && onPathEdges == {} && (p.rule.SimpleNodes? ==> onPath == {})
    }

    ghost predicate Halted()
      reads this
    {
      || (LimitHit(p, |found|) && truncated)
      || (WorkSpent(p, expansions) && WorkBudget in stops)
    }

    /** What holds whenever no branch is half explored. */
    ghost predicate Inv()
      reads this
    {
      && p.limits.maxDepth >= 1
      && CorridorSound(p, corridor) && CorridorTight(p, corridor)
      && live <= p.starts
      && (forall z :: z in p.starts - live ==> z in deadAt && deadAt[z] == 0)
      && MemoSound(p, live, stops, deadAt)
      && (truncated ==> LimitHit(p, |found|))
      && (WorkBudget in stops ==> WorkSpent(p, expansions)) && (p.limits.maxWork != 0 ==> expansions <= p.limits.maxWork)
      && (p.limits.maxPaths != 0 ==> |found| <= p.limits.maxPaths)
      && (forall h :: h in hubs ==> p.IsHub(h) && hubs[h] == p.graph.InDegree(h))
      && (HubPruned in stops <==> hubs != map[])
      && PathLimit !in stops
    }

    /** The stack leads from the target to `node`; `node` itself is pushed
        exactly when `pushed`. */
    ghost predicate Stack(node: Id, depth: nat, pushed: bool)
      reads this
    {
      && depth == |currentEdges| <= p.limits.maxDepth
      && node == EndOf(target, currentEdges)
      && IsWalk(p, false, false, target, currentEdges)
      && |currentPath| == depth + (if pushed then 1 else 0)
      && (forall i :: 0 <= i < |currentPath| ==> currentPath[i] == NodeAt(target, currentEdges, i))
      && (p.rule.SimpleNodes? ==>
           && onPath + {node} == OnPath(target, currentEdges)
           && (node in onPath <==> pushed)
           && onPathEdges == {})
      && (p.rule.SimpleEdges? ==> onPathEdges == KeysOf(currentEdges))
    }

    /** The stack is as it was, and nothing settled before is taken back. */
    twostate predicate Kept()
      reads this
    {
      && currentEdges == old(currentEdges) && currentPath == old(currentPath) && target == old(target)
      && (p.rule.SimpleNodes? ==> onPath == old(onPath))
      && onPathEdges == old(onPathEdges)
      && old(stops) <= stops
      && old(expansions) <= expansions
      && (old(truncated) ==> truncated)
      && (DepthLimit in stops ==> DepthLimit in old(stops) || LongWalk(p, target))
      && (forall h :: h in hubs ==> h in old(hubs) || AboveTarget(p, target, h))
    }

    method HasCorridorCaller(node: Id) returns (r: bool)
      ensures r <==> exists e :: e in p.graph.CallersOf(node) && p.admits(e) && e.caller in corridor
    {
      var callers := p.graph.CallersOf(node);
      for i := 0 to |callers|
        invariant forall e :: e in callers[..i] ==> !(p.admits(e) && e.caller in corridor)
      {
        if p.admits(callers[i]) && callers[i].caller in corridor {
          return true;
        }
        assert callers[..i + 1] == callers[..i] + [callers[i]];
      }
      assert callers[..|callers|] == callers;
      return false;
    }

    lemma CutIsLongWalk(node: Id, depth: nat, e: EdgeRef)
      requires CorridorTight(p, corridor)
      requires IsWalk(p, false, false, target, currentEdges) && |currentEdges| == depth
      requires node == EndOf(target, currentEdges)
      requires Admitted(p, node, e) && e.caller in corridor
      requires corridor[e.caller] + depth + 1 > p.limits.maxDepth
      ensures LongWalk(p, target)
    {
      assert ReachedIn(p, e.caller, corridor[e.caller]);
      var w :| ReachesFromStart(p, e.caller, w) && |w| == corridor[e.caller];
      assert WalkStep(p, false, false, node, [e], 0);
      assert IsWalk(p, false, false, node, [e]);
      JoinWalks(p, target, currentEdges, [e]);
      JoinWalks(p, target, currentEdges + [e], w);
      assert ReachesFromStart(p, target, currentEdges + [e] + w);
    }

    /** Explore the ancestry of `node`, which lies `depth` edges above the
        target.  `added` is what the call appends to `found`. */
    method Dfs(node: Id, depth: nat) returns (flags: Flags, ghost added: seq<seq<EdgeRef>>)
      requires Inv() && Stack(node, depth, false)
      modifies this
      decreases p.limits.maxDepth - depth, 4, 0
      ensures Inv() && Stack(node, depth, false) && Kept()
      ensures found == old(found) + added && AllExtend(currentEdges, added)
      ensures Spent(old(expansions), expansions, |added|, WalksFrom(p, target, currentEdges))
      ensures old(Halted()) ==> added == [] && Halted()
      ensures PathsOk(p, old(live), stops, target, currentEdges, added, Halted())
      ensures flags.Neither() && depth > 0 ==> NoWalkOk(p, live, stops, node, depth)
      ensures live == old(live) || (depth == 0 && live == old(live) - {node})
      ensures node in old(live) && node !in live ==> RootlessOk(p, old(live), stops, node)
      ensures depth == 0 && node in old(live) && !Halted() &&
                NoneInBudget(p, corridor, p.graph.CallersOf(node), 0)
              ==> node !in live
      ensures truncated ==> LimitHit(p, |found|)
      ensures truncated && !old(truncated) ==> LimitHit(p, |old(found)|) || LeftBehind(p, target, added, depth)
    {
      hide QueryGraph.WellFormed, Problem.AdmitsByTriple, CorridorSound, CorridorTight, NoWalkOk, MemoSound, PathsOk, SealedOk, RootlessOk;
      hide Above, IsWalk, LongWalk, Anywhere, AboveTarget, LeftBehind;
      added := [];
      NothingMore(p, live, stops, target, currentEdges);
      if LimitHit(p, |found|) {
        truncated := true;
        return Flags(false, true), [];
      }
      if WorkSpent(p, expansions) {
        NoteBudget(node, depth);
        NothingMore(p, live, stops, target, currentEdges);
        return Flags(false, true), [];
      }
      Visit(node, depth);
      if node in deadAt && depth >= deadAt[node] {
        DeadPaths(p, live, stops, deadAt, target, currentEdges, Halted());
        LiveNotDead(p, live, stops, deadAt, node);
        return Flags(false, false), [];
      }
      flags, added := Explore(node, depth);
      if flags.Neither() {
        Remember(node, depth);
      }
    }

    method Push(node: Id, depth: nat)
      requires Inv() && Stack(node, depth, false)
      modifies this`currentPath, this`onPath
      ensures Inv() && Stack(node, depth, true)
      ensures currentPath == old(currentPath) + [node] && onPath == old(onPath) + {node}
    {
      hide QueryGraph.WellFormed, Problem.AdmitsByTriple, CorridorSound, CorridorTight, MemoSound, IsWalk;
      currentPath := currentPath + [node];
      onPath := onPath + {node};
    }

    method Pop(node: Id, depth: nat)
      requires Inv() && Stack(node, depth, true)
      modifies this`currentPath, this`onPath
      ensures Inv() && Stack(node, depth, false)
      ensures currentPath == old(currentPath)[..depth] && onPath == old(onPath) - {node}
    {
      hide QueryGraph.WellFormed, Problem.AdmitsByTriple, CorridorSound, CorridorTight, MemoSound, IsWalk;
      currentPath := currentPath[..|currentPath| - 1];
      onPath := onPath - {node};
    }

    /** Push `node`, record it when it is a start, go on above it, pop it. */
    method Explore(node: Id, depth: nat) returns (flags: Flags, ghost added: seq<seq<EdgeRef>>)
      requires Inv() && Stack(node, depth, false)
      requires !LimitHit(p, |found|) && WorkBudget !in stops
      requires node in deadAt ==> depth < deadAt[node]
      modifies this
      decreases p.limits.maxDepth - depth, 3, 0
      ensures Inv() && Stack(node, depth, false) && Kept()
      ensures live == old(live)
      ensures found == old(found) + added && AllExtend(currentEdges, added)
      ensures old(expansions) + |added| <= expansions + 1 && expansions + 1 <= old(expansions) + WalksFrom(p, target, currentEdges)
      ensures PathsOk(p, live, stops, target, currentEdges, added, Halted())
      ensures flags.Neither() ==> SealedOk(p, live, stops, node, depth)
      ensures flags.Neither() && node in live ==> depth == 0
      ensures depth == 0 && !Halted() &&
                NoneInBudget(p, corridor, p.graph.CallersOf(node), 0)
              ==> flags.Neither()
      ensures truncated && !old(truncated) ==> LeftBehind(p, target, added, depth)
    {
      hide QueryGraph.WellFormed, Problem.AdmitsByTriple, CorridorSound, CorridorTight, MemoSound, PathsOk, SealedOk, AboveOk;
      hide Above, IsWalk, LongWalk, Anywhere, AboveTarget, Unexplored;
      Push(node, depth);
      flags, added := Flags(false, false), [];
      if node in p.starts && depth > 0 {
        found := found + [currentEdges];
        flags, added := Flags(true, false), [currentEdges];
      }
      var more: Flags;
      ghost var via: seq<seq<EdgeRef>>;
      more, via := Ascend(node, depth);
      flags := flags.Or(more);
      Pop(node, depth);
      OwnThenAbove(p, live, stops, target, currentEdges, added, via, Halted());
      added := added + via;
    }

    /** Enter a node whose ancestry was exhausted into the memo. */
    method Remember(node: Id, depth: nat)
      requires Inv() && depth <= p.limits.maxDepth
      requires node in live ==> depth == 0
      requires SealedOk(p, live, stops, node, depth)
      modifies this`deadAt, this`live
      ensures Inv() && live == old(live) - {node}
      ensures node in deadAt && deadAt[node] <= depth
      ensures NoWalkOk(p, live, stops, node, depth)
      ensures node in old(live) ==> RootlessOk(p, old(live), stops, node)
    {
      hide QueryGraph.WellFormed, Problem.AdmitsByTriple, CorridorSound, CorridorTight, NoWalk, MemoSound, Sealed, Rootless;
      if node in live {
        forall sc | Licensed(p, live, stops, sc) ensures Rootless(p, sc, node) {
          DeadCallersRootless(p, sc, node);
        }
      }
      var deadAt' := deadAt[node := if node in deadAt && deadAt[node] < depth then deadAt[node] else depth];
      MemoGrows(p, live, stops, deadAt, node, depth, deadAt');
      deadAt := deadAt';
      live := live - {node};
      MemoEntry(p, live, stops, deadAt, node, depth);
    }

    /** What happens above `node` once it is on the stack: pruned as a hub, cut
        at the depth bound or the path limit, or expanded. */
    method Ascend(node: Id, depth: nat) returns (flags: Flags, ghost via: seq<seq<EdgeRef>>)
      requires Inv() && Stack(node, depth, true) && !truncated && WorkBudget !in stops
      modifies this
      decreases p.limits.maxDepth - depth, 2, 0
      ensures Inv() && Stack(node, depth, true) && Kept()
      ensures live == old(live)
      ensures found == old(found) + via && AllExtend(currentEdges, via)
      ensures Spent(old(expansions), expansions, |via|, |Above(p, Anywhere(p), target, currentEdges)|)
      ensures AboveOk(p, live, stops, target, currentEdges, via, Halted())
      ensures flags.Neither() ==> SealedOk(p, live, stops, node, depth)
      ensures depth == 0 && !LimitHit(p, |old(found)|) && !Halted() &&
                NoneInBudget(p, corridor, p.graph.CallersOf(node), 0)
              ==> flags.Neither()
      ensures truncated ==> if LimitHit(p, |old(found)|) then via == [] && Unexplored(p, target, currentEdges, depth) else LeftBehind(p, target, via, depth)
    {
      hide QueryGraph.WellFormed, Problem.AdmitsByTriple, CorridorSound, CorridorTight, MemoSound, AboveOk, SealedOk;
      hide Above, IsWalk, LongWalk, Anywhere, AboveTarget, Unexplored;
      flags, via := Flags(false, false), [];
      if p.IsHub(node) && depth > 0 {
        MemoStops(p, live, stops, stops + {HubPruned}, deadAt);
        HubAbove(node, depth);
        hubs := hubs[node := p.graph.InDegree(node)];
        stops := stops + {HubPruned};
        HubSealed(p, live, stops, node, depth);
        SealedIsAbove(p, live, stops, target, currentEdges, Halted());
      } else if depth >= p.limits.maxDepth {
        var cut := HasCorridorCaller(node);
        if cut {
          CutAtBound(node, depth);
          MemoStops(p, live, stops, stops + {DepthLimit}, deadAt);
          stops := stops + {DepthLimit};
        }
        BoundSealed(p, corridor, live, stops, node, depth, cut);
        SealedIsAbove(p, live, stops, target, currentEdges, Halted());
      } else if LimitHit(p, |found|) {
        var cut := HasCorridorCaller(node);
        if cut {
          LeftAbove(p, target, node, currentEdges, corridor, depth);
          truncated := true;
          HaltedAbove(p, live, stops, target, currentEdges);
        } else {
          NoCallersSealed(p, corridor, live, stops, node, depth);
          SealedIsAbove(p, live, stops, target, currentEdges, Halted());
        }
        flags := Flags(false, true);
      } else {
        flags, via := Expand(node, depth);
      }
    }

    lemma HubAbove(node: Id, depth: nat)
      requires Stack(node, depth, true) && depth > 0
      ensures AboveTarget(p, target, node)
    {
    }

    lemma CutAtBound(node: Id, depth: nat)
      requires CorridorTight(p, corridor) && depth >= p.limits.maxDepth
      requires IsWalk(p, false, false, target, currentEdges) && |currentEdges| == depth
      requires node == EndOf(target, currentEdges)
      requires exists e :: e in p.graph.CallersOf(node) && p.admits(e) && e.caller in corridor
      ensures LongWalk(p, target)
    {
      var e :| e in p.graph.CallersOf(node) && p.admits(e) && e.caller in corridor;
      CutIsLongWalk(node, depth, e);
    }

    /** A start reaches the caller, but only by a longer walk. */
    method NoteDepth(node: Id, depth: nat, e: EdgeRef)
      requires Inv() && Stack(node, depth, true) && Admitted(p, node, e) && e.caller in corridor
      requires corridor[e.caller] + depth + 1 > p.limits.maxDepth
      modifies this`stops
      ensures Inv() && Stack(node, depth, true) && stops == old(stops) + {DepthLimit} && LongWalk(p, target)
    {
      hide CorridorSound, CorridorTight, MemoSound, LongWalk, IsWalk;
      CutIsLongWalk(node, depth, e);
      MemoStops(p, live, stops, stops + {DepthLimit}, deadAt);
      stops := stops + {DepthLimit};
    }

    lemma ExclusionTest(node: Id, depth: nat, e: EdgeRef)
      requires Stack(node, depth, true)
      ensures (if p.rule.SimpleNodes? then e.caller in onPath else e.Key() in onPathEdges) <==> Excluded(p.rule, target, currentEdges, e)
    {
      EndOnPath(target, currentEdges);
    }

    method NoteBudget(node: Id, depth: nat)
      requires Inv() && Stack(node, depth, false) && WorkSpent(p, expansions)
      modifies this`stops
      ensures Inv() && Stack(node, depth, false) && stops == old(stops) + {WorkBudget}
    {
      hide CorridorSound, CorridorTight, MemoSound, IsWalk;
      MemoStops(p, live, stops, stops + {WorkBudget}, deadAt);
      stops := stops + {WorkBudget};
    }

    /** One more visit. */
    method Visit(node: Id, depth: nat)
      requires Inv() && Stack(node, depth, false) && !WorkSpent(p, expansions)
      modifies this`expansions
      ensures Inv() && Stack(node, depth, false) && expansions == old(expansions) + 1
      ensures WorkBudget !in stops
    {
      hide CorridorSound, CorridorTight, MemoSound, IsWalk;
      expansions := expansions + 1;
    }

    lemma StackEnd(node: Id, depth: nat)
      requires Stack(node, depth, true)
      ensures |currentEdges| == depth && EndOf(target, currentEdges) == node
    {
    }

    method Truncate(node: Id, depth: nat)
      requires Inv() && Stack(node, depth, true) && LimitHit(p, |found|)
      modifies this`truncated
      ensures Inv() && Stack(node, depth, true) && truncated
    {
      truncated := true;
    }

    /** Follow the callers of `node` in order. */
    method Expand(node: Id, depth: nat) returns (flags: Flags, ghost via: seq<seq<EdgeRef>>)
      requires Inv() && Stack(node, depth, true) && !truncated && WorkBudget !in stops
      requires depth < p.limits.maxDepth && !(p.IsHub(node) && depth > 0) && !LimitHit(p, |found|)
      modifies this
      decreases p.limits.maxDepth - depth, 1, 0
      ensures Inv() && Stack(node, depth, true) && Kept()
      ensures live == old(live)
      ensures found == old(found) + via && AllExtend(currentEdges, via)
      ensures Spent(old(expansions), expansions, |via|, |Above(p, Anywhere(p), target, currentEdges)|)
      ensures AboveOk(p, live, stops, target, currentEdges, via, Halted())
      ensures flags.Neither() ==> SealedOk(p, live, stops, node, depth)
      ensures NoneInBudget(p, corridor, p.graph.CallersOf(node), depth) ==> flags.Neither()
      ensures truncated ==> LeftBehind(p, target, via, depth)
    {
      hide QueryGraph.WellFormed, Problem.AdmitsByTriple, CorridorSound, CorridorTight, MemoSound, ViaOk, DeadOk, AboveOk, SealedOk;
      hide Above, LongWalk, IsWalk, Anywhere, Spent, AboveTarget, LeftBehind, AllExtend, PathsVia, NoneInBudget, Search.Inv, Search.Stack;
      flags, via := Flags(false, false), [];
      AnywhereDepth(p);
      StackEnd(node, depth);
      var callers := p.graph.CallersOf(node);
      var i := 0;
      NothingVia(p, live, stops, target, currentEdges, callers, Halted());
      NothingSpent(expansions, |PathsVia(p, Anywhere(p), target, currentEdges, callers[..0])|);
      NoneExtend(currentEdges);
      ghost var seen := Halted();
      while i < |callers|
        invariant 0 <= i <= |callers|
        invariant Inv() && Stack(node, depth, true) && Kept() && !LimitHit(p, |found|) && !truncated
        invariant live == old(live) && found == old(found) + via && AllExtend(currentEdges, via)
        invariant Spent(old(expansions), expansions, |via|, |PathsVia(p, Anywhere(p), target, currentEdges, callers[..i])|)
        invariant seen == Halted() && ViaOk(p, live, stops, target, currentEdges, callers, i, via, seen)
        invariant flags.Neither() ==> DeadOk(p, live, stops, callers, i, depth + 1)
        invariant NoneInBudget(p, corridor, callers, depth) ==> flags.Neither() && via == []
      {
        ghost var next;
        flags, next := ExpandOne(node, depth, callers, i, flags, via, old(expansions));
        seen := Halted();
        via := via + next;
        i := i + 1;
        if LimitHit(p, |found|) {
          flags := Flags(flags.found, true);
          if i < |callers| {
            Truncate(node, depth);
          }
          break;
        }
      }
      AllWalks(p, target, currentEdges, i, old(expansions), expansions, |via|);
      ViaIsAbove(p, live, stops, target, currentEdges, i, via, seen, Halted());
      if flags.Neither() {
        DeadIsSealed(p, live, stops, node, depth);
      }
    }

    /** One caller of `node`, after `via` from those before it. */
    method ExpandOne(node: Id, depth: nat, callers: seq<EdgeRef>, i: nat, flags0: Flags, ghost via: seq<seq<EdgeRef>>, ghost base: nat)
      returns (flags: Flags, ghost next: seq<seq<EdgeRef>>)
      requires Inv() && Stack(node, depth, true) && !LimitHit(p, |found|) && !truncated
      requires depth < p.limits.maxDepth && callers == p.graph.CallersOf(node) && i < |callers|
      requires ViaOk(p, live, stops, target, currentEdges, callers, i, via, Halted()) && AllExtend(currentEdges, via)
      requires Anywhere(p).depth == p.limits.maxDepth
      requires Spent(base, expansions, |via|, |PathsVia(p, Anywhere(p), target, currentEdges, callers[..i])|)
      requires flags0.Neither() ==> DeadOk(p, live, stops, callers, i, depth + 1)
      modifies this
      decreases p.limits.maxDepth - depth, 0, 1
      ensures Inv() && Stack(node, depth, true) && Kept() && live == old(live)
      ensures found == old(found) + next && AllExtend(currentEdges, via + next)
      ensures Spent(base, expansions, |via + next|, |PathsVia(p, Anywhere(p), target, currentEdges, callers[..i + 1])|)
      ensures ViaOk(p, live, stops, target, currentEdges, callers, i + 1, via + next, Halted())
      ensures flags.Neither() ==> DeadOk(p, live, stops, callers, i + 1, depth + 1)
      ensures NoneInBudget(p, corridor, callers, depth) && flags0.Neither() ==> flags.Neither() && next == []
      ensures truncated ==> LimitHit(p, |found|)
      ensures truncated || (LimitHit(p, |found|) && i + 1 < |callers|) ==> LeftBehind(p, target, via + next, depth)
    {
      hide QueryGraph.WellFormed, Problem.AdmitsByTriple, CorridorSound, CorridorTight, MemoSound, ViaOk, BranchOk, DeadOk, NoWalkOk;
      hide LongWalk, IsWalk, Excluded, Anywhere, Spent, AboveTarget, LeftBehind, AllExtend, PathsVia, Branch, Search.Inv, Search.Stack;
      StackEnd(node, depth);
      ghost var seen, stops0, spent0 := Halted(), stops, expansions;
      var more: Flags;
      more, next := Follow(node, depth, callers[i]);
      MoreVia(p, live, stops0, stops, target, currentEdges, callers, i, via, next, seen, Halted());
      flags := flags0.Or(more);
      if flags.Neither() {
        MoreDead(p, live, stops0, stops, callers, i, depth + 1);
      }
      NextWalks(p, target, currentEdges, callers, i, base, spent0, expansions, |via|, |next|);
      ExtendMore(currentEdges, callers[i], via, next);
      if truncated {
        LeftDeeper(p, target, via, next, depth);
      } else if LimitHit(p, |found|) && i + 1 < |callers| {
        LeftBeside(p, target, currentEdges, callers, i, next);
        LeftLater(p, target, via, next, depth);
      }
    }

    /** Follow one caller edge of `node`, if the corridor and the exclusion let it. */
    method Follow(node: Id, depth: nat, e: EdgeRef) returns (flags: Flags, ghost more: seq<seq<EdgeRef>>)
      requires Inv() && Stack(node, depth, true) && !LimitHit(p, |found|) && !truncated
      requires depth < p.limits.maxDepth && e in p.graph.CallersOf(node)
      modifies this
      decreases p.limits.maxDepth - depth, 0, 0
      ensures Inv() && Stack(node, depth, true) && Kept()
      ensures live == old(live)
      ensures found == old(found) + more && AllExtend(currentEdges + [e], more)
      ensures Spent(old(expansions), expansions, |more|, |Branch(p, Anywhere(p), target, currentEdges, e)|)
      ensures old(Halted()) ==> more == [] && Halted()
      ensures BranchOk(p, live, stops, target, currentEdges, e, more, Halted())
      ensures flags.Neither() && p.admits(e) ==> NoWalkOk(p, live, stops, e.caller, depth + 1)
      ensures !InBudget(p, corridor, e, depth) ==> flags.Neither() && more == []
      ensures truncated ==> LimitHit(p, |found|) && LeftBehind(p, target, more, depth + 1)
    {
      hide QueryGraph.WellFormed, Problem.AdmitsByTriple, CorridorSound, CorridorTight, MemoSound, BranchOk, NoWalkOk, PathsOk, RootlessOk;
      hide LongWalk, Branch, Anywhere, Spent, WalksFrom, AboveTarget, LeftBehind, AllExtend, Excluded, IsWalk, Search.Inv, Search.Stack;
      flags, more := Flags(false, false), [];
      AnywhereDepth(p);
      StackEnd(node, depth);
      NoneExtend(currentEdges + [e]);
      NothingSpent(expansions, |Branch(p, Anywhere(p), target, currentEdges, e)|);
      if !p.admits(e) {
        DeadBranches(node, depth, e);
        return;
      }
      if e.caller !in corridor {
        DeadBranches(node, depth, e);
        return;
      }
      if corridor[e.caller] + depth + 1 > p.limits.maxDepth {
        NoteDepth(node, depth, e);
        DeadBranches(node, depth, e);
        return;
      }
      ExclusionTest(node, depth, e);
      var excluded := if p.rule.SimpleNodes? then e.caller in onPath else e.Key() in onPathEdges;
      if excluded {
        DeadBranches(node, depth, e);
        return Flags(false, true), [];
      }
      Enter(node, depth, e);
      flags, more := Dfs(e.caller, depth + 1);
      Leave(node, depth, e);
      BranchWalks(p, target, currentEdges, node, e, old(expansions), expansions, |more|);
      PathsIsBranch(p, live, stops, target, currentEdges, e, more, Halted());
    }

    lemma DeadBranches(node: Id, depth: nat, e: EdgeRef)
      requires Inv() && Stack(node, depth, true) && depth < p.limits.maxDepth
      ensures !p.admits(e) || e.caller !in corridor || Excluded(p.rule, target, currentEdges, e) ||
                (corridor[e.caller] + depth + 1 > p.limits.maxDepth && DepthLimit in stops) ==>
              BranchOk(p, live, stops, target, currentEdges, e, [], Halted())
      ensures p.admits(e) && (e.caller !in corridor ||
                (corridor[e.caller] + depth + 1 > p.limits.maxDepth && DepthLimit in stops)) ==>
              NoWalkOk(p, live, stops, e.caller, depth + 1)
    {
      hide CorridorSound, NoWalk, IsWalk, Paths;
      forall sc | Licensed(p, live, stops, sc) && p.admits(e) && (e.caller !in corridor ||
                (corridor[e.caller] + depth + 1 > p.limits.maxDepth && DepthLimit in stops))
        ensures NoWalk(p, sc, e.caller, depth + 1)
      {
        OutsideCorridor(p, corridor, sc, e.caller, depth + 1);
      }
      if !p.admits(e) || e.caller !in corridor || Excluded(p.rule, target, currentEdges, e) ||
                (corridor[e.caller] + depth + 1 > p.limits.maxDepth && DepthLimit in stops)
      {
        forall sc | Licensed(p, live, stops, sc) ensures Branch(p, sc, target, currentEdges, e) == [] {
          DeadBranch(p, sc, target, currentEdges, e);
        }
      }
    }

    method Enter(node: Id, depth: nat, e: EdgeRef)
      requires Inv() && Stack(node, depth, true) && depth < p.limits.maxDepth
      requires Admitted(p, node, e) && !Excluded(p.rule, target, currentEdges, e)
      modifies this`currentEdges, this`onPathEdges
      ensures Inv() && Stack(e.caller, depth + 1, false)
      ensures currentEdges == old(currentEdges) + [e]
      ensures onPathEdges == if p.rule.SimpleEdges? then old(onPathEdges) + {e.Key()} else old(onPathEdges)
    {
      hide QueryGraph.WellFormed, Problem.AdmitsByTriple, CorridorSound, CorridorTight, MemoSound, OnPath, KeysOf;
      OnPathSnoc(target, currentEdges, e);
      EndOnPath(target, currentEdges);
      assert WalkStep(p, false, false, node, [e], 0);
      JoinWalks(p, target, currentEdges, [e]);
      if p.rule.SimpleEdges? {
        onPathEdges := onPathEdges + {e.Key()};
      }
      currentEdges := currentEdges + [e];
      assert forall i {:trigger NodeAt(target, currentEdges, i)} :: 0 <= i <= depth ==>
          NodeAt(target, currentEdges, i) == NodeAt(target, old(currentEdges), i);
    }

    method Leave(node: Id, depth: nat, e: EdgeRef)
      requires Inv() && Stack(e.caller, depth + 1, false)
      requires currentEdges[depth] == e && node == EndOf(target, currentEdges[..depth])
      requires !Excluded(p.rule, target, currentEdges[..depth], e)
      modifies this`currentEdges, this`onPathEdges
      ensures Inv() && Stack(node, depth, true)
      ensures currentEdges == old(currentEdges)[..depth]
      ensures onPathEdges == if p.rule.SimpleEdges? then old(onPathEdges) - {e.Key()} else old(onPathEdges)
    {
      hide QueryGraph.WellFormed, Problem.AdmitsByTriple, CorridorSound, CorridorTight, MemoSound, OnPath, KeysOf;
      var shorter := currentEdges[..|currentEdges| - 1];
      OnPathSnoc(target, shorter, e);
      EndOnPath(target, shorter);
      assert currentEdges == shorter + [e];
      WalkPrefix(p, target, currentEdges, depth);
      assert forall i {:trigger NodeAt(target, shorter, i)} :: 0 <= i <= depth ==>
          NodeAt(target, shorter, i) == NodeAt(target, currentEdges, i);
      currentEdges := shorter;
      if p.rule.SimpleEdges? {
        onPathEdges := onPathEdges - {e.Key()};
      }
    }

    /** Search one target: nothing to do outside the corridor or beyond the
        depth bound, otherwise the walk from it. */
    method SearchTarget(t: Id) returns (ghost added: seq<seq<EdgeRef>>)
      requires Inv() && Rest()
      modifies this
      ensures Inv() && Rest()
      ensures old(stops) <= stops
      ensures DepthLimit in stops ==> DepthLimit in old(stops) || LongWalk(p, t)
      ensures found == old(found) + added && Spent(old(expansions), expansions, |added|, WalksFrom(p, t, []))
      ensures old(Halted()) ==> added == [] && Halted()
      ensures forall sc :: Licensed(p, old(live), stops, sc) ==> Matches(added, Paths(p, sc, t, []), Halted())
      ensures live == old(live) || live == old(live) - {t}
      ensures t in old(live) && t !in live ==>
                forall sc :: Licensed(p, old(live), stops, sc) ==> Rootless(p, sc, t)
      ensures t in old(live) && !Halted() && Rootless(p, Scope(p.starts, false, p.limits.maxDepth), t)
              ==> t !in live
      ensures truncated && !old(truncated) ==> LimitHit(p, |old(found)|) || LeftBehind(p, t, added, 0)
      ensures forall h :: h in hubs ==> h in old(hubs) || AboveTarget(p, t, h)
    {
      hide QueryGraph.WellFormed, Problem.AdmitsByTriple, MemoSound, Paths, PathsVia, NoWalk, IsWalk, Anywhere, WalksFrom, LeftBehind, AboveTarget;
      added := [];
      if t !in corridor {
        forall sc | Licensed(p, live, stops, sc) ensures Paths(p, sc, t, []) == [] {
          OutsideCorridor(p, corridor, sc, t, 0);
          NoWalkNoPaths(p, sc, t, []);
        }
        StartInCorridor(p, corridor, t);
        return;
      }
      if corridor[t] > p.limits.maxDepth {
        MemoStops(p, live, stops, stops + {DepthLimit}, deadAt);
        stops := stops + {DepthLimit};
        assert ReachedIn(p, t, corridor[t]);
        forall sc | Licensed(p, live, stops, sc) ensures Paths(p, sc, t, []) == [] {
          OutsideCorridor(p, corridor, sc, t, 0);
          NoWalkNoPaths(p, sc, t, []);
        }
        StartInCorridor(p, corridor, t);
        return;
      }
      target := t;
      EmptyStack(p, t);
      if Rootless(p, Scope(p.starts, false, p.limits.maxDepth), t) {
        NoCallerInBudget(p, corridor, t);
      }
      var flags: Flags;
      flags, added := Dfs(t, 0);
    }
  }
}
