/** The search over all targets of a name: what its answer lists, when the
    answer is every call path, and the one case in which it is not. */
module CallerPaths {
  import opened GraphTypes
  import opened PathSpec
  import opened PathSearch
  import Corridor

  /** Hard cap on the path length in edges. */
  const DEPTH_CAP: nat := 1000

  function CappedDepth(requested: nat): nat {
    if requested == 0 || requested > DEPTH_CAP then DEPTH_CAP else requested
  }

  datatype SearchResult = SearchResult(
    paths: seq<seq<EdgeRef>>, skippedHubs: map<Id, nat>, stops: set<StopReason>,
    expansions: nat, targetKnown: bool, startKnown: bool)
  {
    /** A search ran and was cut at most at the depth bound. */
    predicate Complete() {
      targetKnown && startKnown && PathLimit !in stops && WorkBudget !in stops && HubPruned !in stops
    }

    predicate Exhaustive() {
      Complete() && stops == {}
    }
  }

  // ---- Call paths, in the direction of the call.

  /** `hops` is a call path of at most `depth` edges from a start to `target`
      on which nothing repeats that the rule forbids. */
  ghost predicate IsCallPath(p: Problem, depth: nat, target: Id, hops: seq<EdgeRef>) {
    && 1 <= |hops| <= depth
    && hops[0].caller in p.starts
    && hops[|hops| - 1].callee == target
    && (forall i :: 0 <= i < |hops| ==> Admitted(p, hops[i].callee, hops[i]))
    && (forall i :: 0 < i < |hops| ==> Joined(hops, i))
    && (p.rule.SimpleNodes? ==>
         && (forall i, j :: 0 <= i < j < |hops| ==> hops[i].caller != hops[j].caller)
         && (forall i :: 0 <= i < |hops| ==> hops[i].caller != target))
    && (p.rule.SimpleEdges? ==> forall i, j :: 0 <= i < j < |hops| ==> hops[i].Key() != hops[j].Key())
  }

  /** Hop `i` starts where the hop before it ends. */
  ghost predicate Joined(hops: seq<EdgeRef>, i: nat)
    requires 0 < i < |hops|
  {
    hops[i - 1].callee == hops[i].caller
  }

  function Reversed(q: seq<EdgeRef>): (r: seq<EdgeRef>)
    ensures |r| == |q|
    ensures forall i :: 0 <= i < |q| ==> r[i] == q[|q| - 1 - i]
  {
    seq(|q|, i requires 0 <= i < |q| => q[|q| - 1 - i])
  }

  lemma ReversedTwice(q: seq<EdgeRef>)
    ensures Reversed(Reversed(q)) == q
  {
  }

  lemma StepFacts(p: Problem, sc: Scope, target: Id, q: seq<EdgeRef>, i: nat)
    requires p.graph.WellFormed() && i < |q| && StepOk(p, sc, target, q, i)
    ensures Admitted(p, q[i].callee, q[i]) && q[i].callee == NodeAt(target, q, i)
    ensures p.rule.SimpleNodes? ==> q[i].caller != target
    ensures forall j :: 0 <= j < i ==>
              && (p.rule.SimpleNodes? ==> q[j].caller != q[i].caller)
              && (p.rule.SimpleEdges? ==> q[j].Key() != q[i].Key())
  {
    forall j | 0 <= j < i
      ensures p.rule.SimpleNodes? ==> q[j].caller != q[i].caller
      ensures p.rule.SimpleEdges? ==> q[j].Key() != q[i].Key()
    {
      assert q[j] == q[..i][j];
      assert q[j] in q[..i];
    }
  }

  lemma ReversePathIsCallPath(p: Problem, depth: nat, target: Id, q: seq<EdgeRef>)
    requires p.graph.WellFormed()
    requires IsReversePath(p, Scope(p.starts, false, depth), target, q)
    ensures IsCallPath(p, depth, target, Reversed(q))
  {
    hide QueryGraph.WellFormed, StepOk, Excluded, Admitted;
    var sc := Scope(p.starts, false, depth);
    var hops, n := Reversed(q), |q|;
    forall i | 0 <= i < n ensures Admitted(p, hops[i].callee, hops[i]) {
      assert StepOk(p, sc, target, q, n - 1 - i);
      StepFacts(p, sc, target, q, n - 1 - i);
    }
    forall i | 0 < i < n ensures Joined(hops, i) {
      assert StepOk(p, sc, target, q, n - i);
      StepFacts(p, sc, target, q, n - i);
    }
    forall i, j | 0 <= i < j < n
      ensures p.rule.SimpleNodes? ==> hops[i].caller != hops[j].caller
      ensures p.rule.SimpleEdges? ==> hops[i].Key() != hops[j].Key()
    {
      assert StepOk(p, sc, target, q, n - 1 - i);
      StepFacts(p, sc, target, q, n - 1 - i);
    }
    forall i | 0 <= i < n ensures p.rule.SimpleNodes? ==> hops[i].caller != target {
      assert StepOk(p, sc, target, q, n - 1 - i);
      StepFacts(p, sc, target, q, n - 1 - i);
    }
    assert StepOk(p, sc, target, q, 0);
    StepFacts(p, sc, target, q, 0);
  }

  lemma CallPathIsReversePath(p: Problem, depth: nat, target: Id, hops: seq<EdgeRef>)
    requires IsCallPath(p, depth, target, hops)
    ensures IsReversePath(p, Scope(p.starts, false, depth), target, Reversed(hops))
  {
    var sc := Scope(p.starts, false, depth);
    var q, n := Reversed(hops), |hops|;
    forall i | 0 <= i < n ensures StepOk(p, sc, target, q, i) {
      assert q[i] == hops[n - 1 - i];
      if i > 0 {
        assert q[i - 1] == hops[n - i];
        assert Joined(hops, n - i);
      }
      assert NodeAt(target, q, i) == q[i].callee;
      forall e | e in q[..i]
        ensures p.rule.SimpleNodes? ==> e.caller != q[i].caller
        ensures p.rule.SimpleEdges? ==> e.Key() != q[i].Key()
      {
        var j :| 0 <= j < i && e == q[j];
        assert q[j] == hops[n - 1 - j];
      }
    }
    assert EndOf(target, q) == hops[0].caller;
  }

  // ---- All targets.

  /** The enumerations the stop reasons still speak for. */
  ghost predicate Covered(p: Problem, stops: set<StopReason>, prune: bool, depth: nat) {
    && (prune || HubPruned !in stops)
    && (depth == p.limits.maxDepth || (depth > p.limits.maxDepth && DepthLimit !in stops))
  }

  /** The paths to each target in turn, target `i` with the starts `lives[i]`. */
  ghost function Listing(p: Problem, prune: bool, depth: nat, targets: seq<Id>, lives: seq<set<Id>>): seq<seq<EdgeRef>>
    requires |targets| <= |lives|
  {
    if targets == [] then [] else
      var k := |targets| - 1;
      Listing(p, prune, depth, targets[..k], lives) + Paths(p, Scope(lives[k], prune, depth), targets[k], [])
  }

  ghost function Everything(p: Problem, prune: bool, depth: nat, targets: seq<Id>): seq<seq<EdgeRef>> {
    Listing(p, prune, depth, targets, seq(|targets|, _ => p.starts))
  }

  /** `a` is a target and a start, nothing above it leads to a start, and it
      reaches the target `b`, which is searched later. */
  ghost predicate Shadows(p: Problem, prune: bool, depth: nat, a: Id, b: Id) {
    && a in p.starts
    && Rootless(p, Scope(p.starts, prune, depth), a)
    && Reaches(p, prune, depth, a, b)
  }

  ghost predicate Reaches(p: Problem, prune: bool, depth: nat, a: Id, b: Id) {
    exists w :: IsWalk(p, prune, false, b, w) && EndOf(b, w) == a && |w| <= depth
  }

  ghost predicate Shadowed(p: Problem, prune: bool, depth: nat, targets: seq<Id>) {
    exists i, j :: 0 <= i < j < |targets| && Shadows(p, prune, depth, targets[i], targets[j])
  }

  // ---- Which starts matter.

  lemma {:induction false} PathsSameLive(p: Problem, sc: Scope, live: set<Id>, target: Id, edges: seq<EdgeRef>)
    requires |edges| <= sc.depth && live <= sc.live
    requires forall q :: q in Paths(p, sc, target, edges) ==> EndOf(target, q) in live
    ensures Paths(p, sc.(live := live), target, edges) == Paths(p, sc, target, edges)
    decreases sc.depth - |edges|, 1, 0
  {
    var own := Own(sc, target, edges);
    assert own != [] ==> own[0] in Paths(p, sc, target, edges);
    if Open(p, sc, target, edges) {
      PathsViaSameLive(p, sc, live, target, edges, p.graph.CallersOf(EndOf(target, edges)));
    }
  }

  lemma {:induction false} PathsViaSameLive(p: Problem, sc: Scope, live: set<Id>, target: Id, edges: seq<EdgeRef>,
                                            callers: seq<EdgeRef>)
    requires |edges| < sc.depth && live <= sc.live
    requires forall q :: q in PathsVia(p, sc, target, edges, callers) ==> EndOf(target, q) in live
    ensures PathsVia(p, sc.(live := live), target, edges, callers) == PathsVia(p, sc, target, edges, callers)
    decreases sc.depth - |edges|, 0, |callers|
  {
    if callers != [] {
      var e := callers[|callers| - 1];
      PathsViaSameLive(p, sc, live, target, edges, callers[..|callers| - 1]);
      if p.admits(e) && !Excluded(p.rule, target, edges, e) {
        PathsSameLive(p, sc, live, target, edges + [e]);
      }
    }
  }

  /** Starts that do not reach a target within the depth do not matter to it. */
  lemma IrrelevantStarts(p: Problem, prune: bool, depth: nat, live: set<Id>, target: Id)
    requires live <= p.starts
    requires forall z :: z in p.starts - live ==> !Reaches(p, prune, depth, z, target)
    ensures Paths(p, Scope(live, prune, depth), target, []) == Paths(p, Scope(p.starts, prune, depth), target, [])
  {
    var sc := Scope(p.starts, prune, depth);
    forall q | q in Paths(p, sc, target, []) ensures EndOf(target, q) in live {
      PathsSound(p, sc, target, [], q);
      ExtensionWalk(p, sc, target, [], q, false);
      assert q[0..] == q;
      assert EndOf(target, q) !in live ==> Reaches(p, prune, depth, EndOf(target, q), target);
    }
    PathsSameLive(p, sc, live, target, []);
  }

  // ---- A walk contains a path.

  ghost predicate DistinctNodes(n: Id, w: seq<EdgeRef>) {
    forall i, j :: 0 <= i < j <= |w| ==> NodeAt(n, w, i) != NodeAt(n, w, j)
  }

  lemma WalkSuffix(p: Problem, n: Id, w: seq<EdgeRef>, k: nat)
    requires IsWalk(p, false, false, n, w) && k <= |w|
    ensures IsWalk(p, false, false, NodeAt(n, w, k), w[k..])
    ensures EndOf(NodeAt(n, w, k), w[k..]) == EndOf(n, w)
  {
    var m := NodeAt(n, w, k);
    forall i | 0 <= i < |w| - k ensures WalkStep(p, false, false, m, w[k..], i) {
      assert WalkStep(p, false, false, n, w, k + i);
      assert NodeAt(m, w[k..], i) == NodeAt(n, w, k + i);
    }
  }

  lemma {:induction false} Shorten(p: Problem, n: Id, w: seq<EdgeRef>) returns (q: seq<EdgeRef>)
    requires IsWalk(p, false, false, n, w)
    ensures IsWalk(p, false, false, n, q) && EndOf(n, q) == EndOf(n, w)
    ensures |q| <= |w| && DistinctNodes(n, q)
    decreases |w|
  {
    if DistinctNodes(n, w) {
      q := w;
    } else {
      var i, j :| 0 <= i < j <= |w| && NodeAt(n, w, i) == NodeAt(n, w, j);
      WalkPrefix(p, n, w, i);
      WalkSuffix(p, n, w, j);
      assert EndOf(n, w[..i]) == NodeAt(n, w, i);
      JoinWalks(p, n, w[..i], w[j..]);
      q := Shorten(p, n, w[..i] + w[j..]);
    }
  }

  lemma DistinctStep(p: Problem, sc: Scope, n: Id, q: seq<EdgeRef>, i: nat)
    requires !sc.prune && IsWalk(p, false, false, n, q) && DistinctNodes(n, q) && i < |q|
    ensures StepOk(p, sc, n, q, i)
  {
    assert WalkStep(p, false, false, n, q, i);
    assert NodeAt(n, q, i + 1) == q[i].caller;
    assert NodeAt(n, q, 0) == n;
    forall e | e in q[..i] ensures e.caller != q[i].caller {
      var k :| 0 <= k < i && e == q[k];
      assert NodeAt(n, q, k + 1) == e.caller;
    }
  }

  /** A start that reaches `b` begins a path to it. */
  lemma ReachingStartHasPath(p: Problem, depth: nat, a: Id, b: Id) returns (q: seq<EdgeRef>)
    requires a in p.starts && a != b && Reaches(p, false, depth, a, b)
    ensures q in Paths(p, Scope(p.starts, false, depth), b, []) && EndOf(b, q) == a
  {
    var sc := Scope(p.starts, false, depth);
    var w :| IsWalk(p, false, false, b, w) && EndOf(b, w) == a && |w| <= depth;
    q := Shorten(p, b, w);
    forall i | 0 <= i < |q| ensures StepOk(p, sc, b, q, i) {
      DistinctStep(p, sc, b, q, i);
    }
    PathsCovers(p, sc, b, [], q);
  }

  // ---- Listings.

  /** `q` is one of the paths listed for target `k`. */
  ghost predicate InBlock(p: Problem, prune: bool, depth: nat, targets: seq<Id>, lives: seq<set<Id>>, k: nat, q: seq<EdgeRef>)
    requires k < |targets| <= |lives|
  {
    q in Paths(p, Scope(lives[k], prune, depth), targets[k], [])
  }

  lemma {:induction false} ListingMember(p: Problem, prune: bool, depth: nat, targets: seq<Id>, lives: seq<set<Id>>, q: seq<EdgeRef>)
    requires |targets| <= |lives|
    ensures q in Listing(p, prune, depth, targets, lives) <==>
            exists k :: 0 <= k < |targets| && InBlock(p, prune, depth, targets, lives, k, q)
    decreases |targets|
  {
    hide Paths;
    if targets != [] {
      var k := |targets| - 1;
      var most := targets[..k];
      ListingMember(p, prune, depth, most, lives, q);
      if q in Listing(p, prune, depth, most, lives) {
        var i :| 0 <= i < k && InBlock(p, prune, depth, most, lives, i, q);
        assert InBlock(p, prune, depth, targets, lives, i, q);
      } else if q in Listing(p, prune, depth, targets, lives) {
        assert InBlock(p, prune, depth, targets, lives, k, q);
      }
      if i :| 0 <= i < |targets| && InBlock(p, prune, depth, targets, lives, i, q) {
        assert i < k ==> InBlock(p, prune, depth, most, lives, i, q);
      }
    }
  }

  lemma {:induction false} ListingOfPrefix(p: Problem, prune: bool, depth: nat, targets: seq<Id>, a: seq<set<Id>>, b: seq<set<Id>>)
    requires |targets| <= |a| && |targets| <= |b|
    requires forall i :: 0 <= i < |targets| ==> a[i] == b[i]
    ensures Listing(p, prune, depth, targets, a) == Listing(p, prune, depth, targets, b)
    decreases |targets|
  {
    if targets != [] {
      ListingOfPrefix(p, prune, depth, targets[..|targets| - 1], a, b);
    }
  }

  lemma {:induction false} ListingNoDuplicates(p: Problem, prune: bool, depth: nat, targets: seq<Id>, lives: seq<set<Id>>)
    requires p.graph.WellFormed() && NoDuplicates(targets) && |targets| <= |lives|
    ensures NoDuplicates(Listing(p, prune, depth, targets, lives))
    decreases |targets|
  {
    hide Paths, QueryGraph.WellFormed;
    if targets != [] {
      var k := |targets| - 1;
      var a := Listing(p, prune, depth, targets[..k], lives);
      var b := Paths(p, Scope(lives[k], prune, depth), targets[k], []);
      ListingNoDuplicates(p, prune, depth, targets[..k], lives);
      PathsNoDuplicates(p, Scope(lives[k], prune, depth), targets[k], []);
      forall i, j | 0 <= i < |a| && 0 <= j < |b| ensures a[i] != b[j] {
        ListingMember(p, prune, depth, targets[..k], lives, a[i]);
        var m :| 0 <= m < k && InBlock(p, prune, depth, targets[..k], lives, m, a[i]);
        PathTarget(p, Scope(lives[m], prune, depth), targets[m], a[i]);
        PathTarget(p, Scope(lives[k], prune, depth), targets[k], b[j]);
      }
    }
  }

  /** A path names its target: the first edge of the reverse path calls it. */
  lemma PathTarget(p: Problem, sc: Scope, target: Id, q: seq<EdgeRef>)
    requires p.graph.WellFormed() && q in Paths(p, sc, target, [])
    ensures |q| > 0 && q[0].callee == target && EndOf(target, q) in sc.live
    ensures IsReversePath(p, sc, target, q)
  {
    PathsSound(p, sc, target, [], q);
    assert StepOk(p, sc, target, q, 0);
  }

  // ---- What the search has established after some of the targets.

  /** A written-off start cannot matter to the targets from `i` on. */
  ghost predicate Harmless(p: Problem, prune: bool, depth: nat, targets: seq<Id>, i: nat, live: set<Id>) {
    forall z, j :: z in p.starts && z !in live && i <= j < |targets| ==> !Reaches(p, prune, depth, z, targets[j])
  }

  ghost predicate Faithful(p: Problem, prune: bool, depth: nat, targets: seq<Id>, i: nat, lives: seq<set<Id>>)
    requires i <= |targets| && i <= |lives|
  {
    Listing(p, prune, depth, targets[..i], lives) == Everything(p, prune, depth, targets[..i])
  }

  /** The rootless start targets among the first `i` have been written off. */
  ghost predicate WrittenOff(p: Problem, targets: seq<Id>, i: nat, lives: seq<set<Id>>, live: set<Id>)
    requires i <= |targets| && i <= |lives|
  {
    forall k :: 0 <= k < i && targets[k] in p.starts && RootlessStart(p, targets[k]) ==>
      targets[k] !in live && forall j :: k < j < i ==> targets[k] !in lives[j]
  }

  ghost predicate RootlessStart(p: Problem, t: Id) {
    Rootless(p, Scope(p.starts, false, p.limits.maxDepth), t)
  }

  lemma ListingNext(p: Problem, prune: bool, depth: nat, targets: seq<Id>, i: nat, lives: seq<set<Id>>, live: set<Id>)
    requires i < |targets| && |lives| == i
    ensures Listing(p, prune, depth, targets[..i + 1], lives + [live]) ==
            Listing(p, prune, depth, targets[..i], lives) + Paths(p, Scope(live, prune, depth), targets[i], [])
  {
    assert targets[..i + 1][..i] == targets[..i];
    ListingOfPrefix(p, prune, depth, targets[..i], lives, lives + [live]);
  }

  lemma EverythingNext(p: Problem, prune: bool, depth: nat, targets: seq<Id>, i: nat)
    requires i < |targets|
    ensures Everything(p, prune, depth, targets[..i + 1]) ==
            Everything(p, prune, depth, targets[..i]) + Paths(p, Scope(p.starts, prune, depth), targets[i], [])
  {
    var lives := seq(i, _ => p.starts);
    assert lives + [p.starts] == seq(i + 1, _ => p.starts);
    ListingNext(p, prune, depth, targets, i, lives, p.starts);
    assert |targets[..i]| == i && |targets[..i + 1]| == i + 1;
  }

  lemma FaithfulNext(p: Problem, prune: bool, depth: nat, targets: seq<Id>, i: nat, lives: seq<set<Id>>, live: set<Id>)
    requires i < |targets| && |lives| == i && live <= p.starts
    requires Faithful(p, prune, depth, targets, i, lives) && Harmless(p, prune, depth, targets, i, live)
    ensures Faithful(p, prune, depth, targets, i + 1, lives + [live])
  {
    hide Paths, Reaches;
    ListingNext(p, prune, depth, targets, i, lives, live);
    EverythingNext(p, prune, depth, targets, i);
    IrrelevantStarts(p, prune, depth, live, targets[i]);
  }

  lemma HarmlessNext(p: Problem, prune: bool, depth: nat, targets: seq<Id>, i: nat, live: set<Id>, live': set<Id>)
    requires i < |targets| && live <= p.starts && !Shadowed(p, prune, depth, targets)
    requires Harmless(p, prune, depth, targets, i, live)
    requires live' == live || live' == live - {targets[i]}
    requires targets[i] in live && targets[i] !in live' ==> Rootless(p, Scope(live, prune, depth), targets[i])
    ensures Harmless(p, prune, depth, targets, i + 1, live')
  {
    var t := targets[i];
    if t in live && t !in live' {
      forall w: seq<EdgeRef> | IsWalk(p, prune, false, t, w) && EndOf(t, w) in p.starts && |w| > 0 ensures |w| > depth {
        if EndOf(t, w) !in live {
          assert !Reaches(p, prune, depth, EndOf(t, w), targets[i]);
        }
      }
      assert Rootless(p, Scope(p.starts, prune, depth), t);
      forall j | i + 1 <= j < |targets| ensures !Reaches(p, prune, depth, t, targets[j]) {
        assert !Shadows(p, prune, depth, targets[i], targets[j]);
      }
    }
  }

  /** If a start was written off and reaches a later target, a path is missing. */
  lemma MissingPath(p: Problem, targets: seq<Id>, lives: seq<set<Id>>, i: nat, j: nat)
    requires p.graph.WellFormed() && NoDuplicates(targets) && |lives| == |targets|
    requires 0 <= i < j < |targets| && targets[i] !in lives[j]
    requires Shadows(p, false, p.limits.maxDepth, targets[i], targets[j])
    ensures exists q :: q in Everything(p, false, p.limits.maxDepth, targets) &&
                        q !in Listing(p, false, p.limits.maxDepth, targets, lives)
  {
    hide Paths, QueryGraph.WellFormed;
    var d := p.limits.maxDepth;
    var all := seq(|targets|, _ => p.starts);
    var q := ReachingStartHasPath(p, d, targets[i], targets[j]);
    assert InBlock(p, false, d, targets, all, j, q);
    ListingMember(p, false, d, targets, all, q);
    ListingMember(p, false, d, targets, lives, q);
    PathTarget(p, Scope(p.starts, false, d), targets[j], q);
    if k :| 0 <= k < |targets| && InBlock(p, false, d, targets, lives, k, q) {
      PathTarget(p, Scope(lives[k], false, d), targets[k], q);
    }
  }

  /** All of the above, for every enumeration still covered. */
  ghost predicate Progress(p: Problem, targets: seq<Id>, i: nat, lives: seq<set<Id>>, live: set<Id>,
                           stops: set<StopReason>, found: seq<seq<EdgeRef>>, halted: bool)
    requires i <= |targets| && i <= |lives|
  {
    && (forall prune, depth :: Covered(p, stops, prune, depth) ==>
          Matches(found, Listing(p, prune, depth, targets[..i], lives), halted))
    && (forall prune, depth :: Covered(p, stops, prune, depth) && !Shadowed(p, prune, depth, targets) ==>
          && Faithful(p, prune, depth, targets, i, lives)
          && Harmless(p, prune, depth, targets, i, live))
    && (!halted ==> WrittenOff(p, targets, i, lives, live))
    && (forall z :: z in p.starts && z !in live ==> z in targets[..i])
  }

  lemma ProgressStart(p: Problem, targets: seq<Id>, halted: bool)
    ensures Progress(p, targets, 0, [], p.starts, {}, [], halted)
  {
    assert targets[..0] == [];
  }

  lemma ProgressNext(p: Problem, targets: seq<Id>, i: nat, lives: seq<set<Id>>, live: set<Id>, live': set<Id>,
                     stops: set<StopReason>, stops': set<StopReason>,
                     found: seq<seq<EdgeRef>>, added: seq<seq<EdgeRef>>, halted: bool, halted': bool)
    requires i < |targets| && |lives| == i && NoDuplicates(targets)
    requires live <= p.starts && stops <= stops'
    requires Progress(p, targets, i, lives, live, stops, found, halted)
    requires halted ==> added == [] && halted'
    requires forall sc :: Licensed(p, live, stops', sc) ==> Matches(added, Paths(p, sc, targets[i], []), halted')
    requires live' == live || live' == live - {targets[i]}
    requires targets[i] in live && targets[i] !in live' ==>
               forall sc :: Licensed(p, live, stops', sc) ==> Rootless(p, sc, targets[i])
    requires targets[i] in live && !halted' && RootlessStart(p, targets[i]) ==> targets[i] !in live'
    ensures Progress(p, targets, i + 1, lives + [live], live', stops', found + added, halted')
  {
    hide Paths, Rootless, Reaches, Listing, Faithful, Harmless, Shadowed;
    forall prune, depth | Covered(p, stops', prune, depth)
      ensures Matches(found + added, Listing(p, prune, depth, targets[..i + 1], lives + [live]), halted')
      ensures !Shadowed(p, prune, depth, targets) ==>
                && Faithful(p, prune, depth, targets, i + 1, lives + [live])
                && Harmless(p, prune, depth, targets, i + 1, live')
    {
      assert Covered(p, stops, prune, depth);
      var sc := Scope(live, prune, depth);
      assert Licensed(p, live, stops', sc);
      ListingNext(p, prune, depth, targets, i, lives, live);
      MatchesJoin(found, Listing(p, prune, depth, targets[..i], lives), added, Paths(p, sc, targets[i], []), halted, halted');
      if !Shadowed(p, prune, depth, targets) {
        FaithfulNext(p, prune, depth, targets, i, lives, live);
        HarmlessNext(p, prune, depth, targets, i, live, live');
      }
    }
    assert targets[..i + 1] == targets[..i] + [targets[i]];
    if !halted' {
      WrittenOffNext(p, targets, i, lives, live, live');
    }
  }

  lemma WrittenOffNext(p: Problem, targets: seq<Id>, i: nat, lives: seq<set<Id>>, live: set<Id>, live': set<Id>)
    requires i < |targets| && |lives| == i && NoDuplicates(targets)
    requires WrittenOff(p, targets, i, lives, live)
    requires forall z :: z in p.starts && z !in live ==> z in targets[..i]
    requires live' == live || live' == live - {targets[i]}
    requires targets[i] in live && RootlessStart(p, targets[i]) ==> targets[i] !in live'
    ensures WrittenOff(p, targets, i + 1, lives + [live], live')
  {
    hide Rootless;
    forall k | 0 <= k < i + 1 && targets[k] in p.starts && RootlessStart(p, targets[k])
      ensures targets[k] !in live' && forall j :: k < j < i + 1 ==> targets[k] !in (lives + [live])[j]
    {
      if k == i {
        assert targets[i] !in targets[..i];
      }
    }
  }

  lemma {:induction false} ProgressRest(p: Problem, targets: seq<Id>, i: nat, lives: seq<set<Id>>,
                                        stops: set<StopReason>, found: seq<seq<EdgeRef>>) returns (all: seq<set<Id>>)
    requires i <= |targets| && |lives| == i
    requires forall k :: 0 <= k < i ==> lives[k] <= p.starts
    requires forall prune, depth :: Covered(p, stops, prune, depth) ==>
               found <= Listing(p, prune, depth, targets[..i], lives)
    requires forall prune, depth :: Covered(p, stops, prune, depth) && !Shadowed(p, prune, depth, targets) ==>
               Faithful(p, prune, depth, targets, i, lives)
    ensures |all| == |targets| && forall k :: 0 <= k < |all| ==> all[k] <= p.starts
    ensures forall prune, depth :: Covered(p, stops, prune, depth) ==>
              found <= Listing(p, prune, depth, targets[..|targets|], all)
    ensures forall prune, depth :: Covered(p, stops, prune, depth) && !Shadowed(p, prune, depth, targets) ==>
              Faithful(p, prune, depth, targets, |targets|, all)
    decreases |targets| - i
  {
    if i == |targets| {
      all := lives;
    } else {
      forall prune, depth | Covered(p, stops, prune, depth)
        ensures found <= Listing(p, prune, depth, targets[..i + 1], lives + [p.starts])
        ensures !Shadowed(p, prune, depth, targets) ==> Faithful(p, prune, depth, targets, i + 1, lives + [p.starts])
      {
        ListingNext(p, prune, depth, targets, i, lives, p.starts);
        EverythingNext(p, prune, depth, targets, i);
      }
      all := ProgressRest(p, targets, i + 1, lives + [p.starts], stops, found);
    }
  }

  /** All walks from all targets that repeat nothing. */
  ghost function WorkOf(p: Problem, targets: seq<Id>): nat {
    if targets == [] then 0 else WorkOf(p, targets[..|targets| - 1]) + WalksFrom(p, targets[|targets| - 1], [])
  }

  lemma WorkNext(p: Problem, targets: seq<Id>, i: nat)
    requires i < |targets|
    ensures WorkOf(p, targets[..i + 1]) == WorkOf(p, targets[..i]) + WalksFrom(p, targets[i], [])
  {
    assert targets[..i + 1][..i] == targets[..i];
  }

  lemma {:induction false} WorkPrefix(p: Problem, targets: seq<Id>, i: nat)
    requires i <= |targets|
    ensures WorkOf(p, targets[..i]) <= WorkOf(p, targets)
    decreases |targets| - i
  {
    hide WalksFrom;
    if i == |targets| {
      assert targets[..i] == targets;
    } else {
      WorkNext(p, targets, i);
      WorkPrefix(p, targets, i + 1);
    }
  }

  ghost predicate HubAboveOne(p: Problem, targets: seq<Id>, h: Id) {
    exists t :: t in targets && AboveTarget(p, t, h)
  }

  lemma HubAboveThis(p: Problem, targets: seq<Id>, i: nat, h: Id)
    requires i < |targets|
    ensures AboveTarget(p, targets[i], h) ==> HubAboveOne(p, targets, h)
  {
    hide AboveTarget;
    assert targets[i] in targets;
  }

  /** `q` was found for target number `k`. */
  ghost predicate FoundAt(targets: seq<Id>, k: nat, q: seq<EdgeRef>) {
    k < |targets| && q != [] && q[0].callee == targets[k]
  }

  ghost predicate FoundBefore(targets: seq<Id>, n: nat, q: seq<EdgeRef>) {
    exists k: nat :: k < n && FoundAt(targets, k, q)
  }

  ghost predicate FoundFor(p: Problem, targets: seq<Id>, n: nat, found: seq<seq<EdgeRef>>) {
    forall i :: 0 <= i < |found| ==> FoundBefore(targets, n, found[i])
  }

  /** The search broke off: after the last path another target or an unexplored
      branch remained. */
  ghost predicate CutShort(p: Problem, targets: seq<Id>, found: seq<seq<EdgeRef>>) {
    && found != []
    && exists k: nat :: FoundAt(targets, k, found[|found| - 1]) && (k + 1 < |targets| || Unexplored(p, targets[k], found[|found| - 1], 0))
  }

  lemma MoreTargets(p: Problem, targets: seq<Id>, i: nat, found: seq<seq<EdgeRef>>)
    requires FoundFor(p, targets, i, found) && i < |targets| && LimitHit(p, |found|)
    ensures CutShort(p, targets, found)
  {
    hide Unexplored;
    assert FoundBefore(targets, i, found[|found| - 1]);
    var k: nat :| k < i && FoundAt(targets, k, found[|found| - 1]);
  }

  lemma FirstHop(p: Problem, sc: Scope, t: Id, q: seq<EdgeRef>)
    requires p.graph.WellFormed() && q in Paths(p, sc, t, [])
    ensures q != [] && q[0].callee == t
  {
    hide Paths;
    PathsExact(p, sc, t, q);
    assert StepOk(p, sc, t, q, 0);
  }

  lemma NextFound(p: Problem, targets: seq<Id>, i: nat, found: seq<seq<EdgeRef>>, added: seq<seq<EdgeRef>>, stops: set<StopReason>, live: set<Id>,
                  halted: bool, cut: bool)
    requires p.graph.WellFormed() && i < |targets| && FoundFor(p, targets, i, found)
    requires forall sc :: Licensed(p, live, stops, sc) ==> Matches(added, Paths(p, sc, targets[i], []), halted)
    requires cut ==> LeftBehind(p, targets[i], added, 0)
    ensures FoundFor(p, targets, i + 1, found + added) && (cut ==> CutShort(p, targets, found + added))
  {
    hide QueryGraph.WellFormed, Paths, Unexplored;
    var sc := Scope(live, true, p.limits.maxDepth);
    assert Licensed(p, live, stops, sc);
    forall j | 0 <= j < |added| ensures FoundAt(targets, i, added[j]) {
      assert added[j] == Paths(p, sc, targets[i], [])[j];
      FirstHop(p, sc, targets[i], added[j]);
    }
    var all := found + added;
    forall j | 0 <= j < |all| ensures FoundBefore(targets, i + 1, all[j]) {
      if j < |found| {
        assert FoundBefore(targets, i, found[j]);
        var k: nat :| k < i && FoundAt(targets, k, found[j]);
        assert FoundAt(targets, k, all[j]);
      } else {
        assert FoundAt(targets, i, all[j]);
      }
    }
    if cut {
      assert all[|all| - 1] == added[|added| - 1];
    }
  }

  lemma NothingFound(p: Problem, targets: seq<Id>)
    ensures FoundFor(p, targets, 0, [])
  {
  }

  /** No path limit, no hubs, and a budget for more than the given work. */
  predicate Unlimited(l: Limits, work: nat) {
    l.maxPaths == 0 && l.maxFanIn == 0 && (l.maxWork == 0 || l.maxWork > work)
  }

  /** Corridor, then the targets in order. */
  method SearchAll(p: Problem, targets: seq<Id>)
    returns (found: seq<seq<EdgeRef>>, hubs: map<Id, nat>, stops: set<StopReason>, expansions: nat, truncated: bool,
             ghost lives: seq<set<Id>>, ghost halted: bool)
    requires p.graph.WellFormed() && p.AdmitsByTriple() && p.limits.maxDepth >= 1
    requires NoDuplicates(targets)
    ensures |lives| == |targets| && forall k :: 0 <= k < |lives| ==> lives[k] <= p.starts
    ensures halted <==> truncated || WorkBudget in stops
    ensures (truncated ==> LimitHit(p, |found|)) && (WorkBudget in stops ==> WorkSpent(p, expansions))
    ensures PathLimit !in stops && (p.limits.maxWork != 0 ==> expansions <= p.limits.maxWork)
    ensures Spent(0, expansions, |found|, WorkOf(p, targets))
    ensures p.limits.maxPaths != 0 ==> |found| <= p.limits.maxPaths
    ensures forall h :: h in hubs ==> p.IsHub(h) && hubs[h] == p.graph.InDegree(h)
    ensures HubPruned in stops <==> hubs != map[]
    ensures forall h :: h in hubs ==> HubAboveOne(p, targets, h)
    ensures truncated ==> CutShort(p, targets, found)
    ensures DepthLimit in stops ==> exists t :: t in targets && LongWalk(p, t)
    ensures forall prune, depth :: Covered(p, stops, prune, depth) ==>
              Matches(found, Listing(p, prune, depth, targets, lives), halted)
    ensures forall prune, depth :: Covered(p, stops, prune, depth) && !Shadowed(p, prune, depth, targets) ==>
              Listing(p, prune, depth, targets, lives) == Everything(p, prune, depth, targets)
    ensures !halted ==> WrittenOff(p, targets, |targets|, lives, {})
  {
    hide QueryGraph.WellFormed, Problem.AdmitsByTriple, Paths, Rootless, LongWalk, MemoSound, CorridorSound, CorridorTight;
    hide Faithful, Harmless, Listing, Shadowed, WalksFrom, HubAboveOne, AboveTarget, CutShort, FoundFor, LeftBehind;
    var corridor := Corridor.BuildCorridor(p);
    var s := new Search(p, corridor);
    lives := [];
    var i := 0;
    ProgressStart(p, targets, s.Halted());
    NothingFound(p, targets);
    while i < |targets|
      invariant 0 <= i <= |targets| && |lives| == i
      invariant s.p == p && s.corridor == corridor && s.Inv() && s.Rest()
      invariant fresh(s)
      invariant forall k :: 0 <= k < i ==> lives[k] <= p.starts
      invariant Progress(p, targets, i, lives, s.live, s.stops, s.found, s.Halted())
      invariant DepthLimit in s.stops ==> exists t :: t in targets && LongWalk(p, t)
      invariant Spent(0, s.expansions, |s.found|, WorkOf(p, targets[..i]))
      invariant forall h :: h in s.hubs ==> HubAboveOne(p, targets, h)
      invariant FoundFor(p, targets, i, s.found) && (s.truncated ==> CutShort(p, targets, s.found))
    {
      if LimitHit(p, |s.found|) {
        MoreTargets(p, targets, i, s.found);
        s.truncated := true;
        break;
      }
      ghost var live0, stops0, found0, halted0 := s.live, s.stops, s.found, s.Halted();
      ghost var added := s.SearchTarget(targets[i]);
      assert targets[i] in targets;
      ProgressNext(p, targets, i, lives, live0, s.live, stops0, s.stops, found0, added, halted0, s.Halted());
      WorkNext(p, targets, i);
      NextFound(p, targets, i, found0, added, s.stops, live0, s.Halted(), s.truncated);
      forall h | h in s.hubs ensures HubAboveOne(p, targets, h) {
        HubAboveThis(p, targets, i, h);
      }
      lives := lives + [live0];
      i := i + 1;
    }
    WorkPrefix(p, targets, i);
    halted := s.Halted();
    assert targets[..|targets|] == targets;
    if i == |targets| {
      WholeFaithful(p, targets, lives, s.stops);
    } else {
      lives := ProgressRest(p, targets, i, lives, s.stops, s.found);
      WholeFaithful(p, targets, lives, s.stops);
    }
    return s.found, s.hubs, s.stops, s.expansions, s.truncated, lives, halted;
  }

  lemma WholeFaithful(p: Problem, targets: seq<Id>, lives: seq<set<Id>>, stops: set<StopReason>)
    requires |lives| == |targets|
    requires forall prune, depth :: Covered(p, stops, prune, depth) && !Shadowed(p, prune, depth, targets) ==>
               Faithful(p, prune, depth, targets, |targets|, lives)
    ensures forall prune, depth :: Covered(p, stops, prune, depth) && !Shadowed(p, prune, depth, targets) ==>
              Listing(p, prune, depth, targets, lives) == Everything(p, prune, depth, targets)
  {
    assert targets[..|targets|] == targets;
  }

  // ---- The query.

  /** The problem the search really solves: the depth is capped. */
  function Bounded(p: Problem): Problem {
    p.(limits := p.limits.(maxDepth := CappedDepth(p.limits.maxDepth)))
  }

  /** Nothing is missing from `paths`. */
  ghost predicate AllCallPaths(p: Problem, depth: nat, targets: seq<Id>, paths: seq<seq<EdgeRef>>) {
    forall t, hops :: t in targets && IsCallPath(p, depth, t, hops) ==> hops in paths
  }

  ghost predicate ReversalOf(paths: seq<seq<EdgeRef>>, found: seq<seq<EdgeRef>>) {
    |paths| == |found| && forall i :: 0 <= i < |paths| ==> paths[i] == Reversed(found[i])
  }

  lemma EverythingMember(p: Problem, depth: nat, targets: seq<Id>, q: seq<EdgeRef>)
    ensures q in Everything(p, false, depth, targets) <==>
            exists t :: t in targets && IsReversePath(p, Scope(p.starts, false, depth), t, q)
  {
    hide Paths, IsReversePath;
    var all := seq(|targets|, _ => p.starts);
    ListingMember(p, false, depth, targets, all, q);
    if k :| 0 <= k < |targets| && InBlock(p, false, depth, targets, all, k, q) {
      PathsExact(p, Scope(p.starts, false, depth), targets[k], q);
      assert targets[k] in targets;
    }
    if t :| t in targets && IsReversePath(p, Scope(p.starts, false, depth), t, q) {
      var k :| 0 <= k < |targets| && targets[k] == t;
      PathsExact(p, Scope(p.starts, false, depth), t, q);
      assert InBlock(p, false, depth, targets, all, k, q);
    }
  }

  /** A result that reverses the plain listing misses nothing. */
  lemma ListingIsAll(p: Problem, depth: nat, targets: seq<Id>, found: seq<seq<EdgeRef>>, paths: seq<seq<EdgeRef>>)
    requires ReversalOf(paths, found)
    requires forall q :: q in Everything(p, false, depth, targets) ==> q in found
    ensures AllCallPaths(p, depth, targets, paths)
  {
    hide Listing, Paths, IsReversePath, IsCallPath;
    forall t, hops | t in targets && IsCallPath(p, depth, t, hops) ensures hops in paths {
      CallPathIsReversePath(p, depth, t, hops);
      EverythingMember(p, depth, targets, Reversed(hops));
      var i :| 0 <= i < |found| && found[i] == Reversed(hops);
      ReversedTwice(hops);
      assert paths[i] == hops;
    }
  }

  /** A listed path that was not found is a call path the result misses. */
  lemma MissingIsNotAll(p: Problem, depth: nat, targets: seq<Id>, found: seq<seq<EdgeRef>>, paths: seq<seq<EdgeRef>>, q: seq<EdgeRef>)
    requires p.graph.WellFormed() && ReversalOf(paths, found)
    requires q in Everything(p, false, depth, targets) && q !in found
    ensures !AllCallPaths(p, depth, targets, paths)
  {
    hide Listing, Paths, IsReversePath, IsCallPath, QueryGraph.WellFormed;
    EverythingMember(p, depth, targets, q);
    var t :| t in targets && IsReversePath(p, Scope(p.starts, false, depth), t, q);
    ReversePathIsCallPath(p, depth, t, q);
    if Reversed(q) in paths {
      var i :| 0 <= i < |paths| && paths[i] == Reversed(q);
      ReversedTwice(q);
      ReversedTwice(found[i]);
    }
  }

  lemma CompleteExactly(p: Problem, targets: seq<Id>, lives: seq<set<Id>>, found: seq<seq<EdgeRef>>, paths: seq<seq<EdgeRef>>)
    requires p.graph.WellFormed() && NoDuplicates(targets) && |lives| == |targets|
    requires ReversalOf(paths, found)
    requires found == Listing(p, false, p.limits.maxDepth, targets, lives)
    requires !Shadowed(p, false, p.limits.maxDepth, targets) ==> found == Everything(p, false, p.limits.maxDepth, targets)
    requires WrittenOff(p, targets, |targets|, lives, {})
    ensures AllCallPaths(p, p.limits.maxDepth, targets, paths) <==> !Shadowed(p, false, p.limits.maxDepth, targets)
  {
    hide Listing, Paths, Rootless, Reaches, QueryGraph.WellFormed, AllCallPaths;
    var d := p.limits.maxDepth;
    if Shadowed(p, false, d, targets) {
      var i, j :| 0 <= i < j < |targets| && Shadows(p, false, d, targets[i], targets[j]);
      MissingPath(p, targets, lives, i, j);
      var q :| q in Everything(p, false, d, targets) && q !in Listing(p, false, d, targets, lives);
      MissingIsNotAll(p, d, targets, found, paths, q);
    } else {
      ListingIsAll(p, d, targets, found, paths);
    }
  }

  /** Whatever stopped the search, what it lists are call paths. */
  lemma ListedIsCallPath(p: Problem, targets: seq<Id>, lives: seq<set<Id>>, q: seq<EdgeRef>)
    requires p.graph.WellFormed() && |lives| == |targets|
    requires forall k :: 0 <= k < |lives| ==> lives[k] <= p.starts
    requires q in Listing(p, true, p.limits.maxDepth, targets, lives)
    ensures IsPathToOneOf(p, targets, Reversed(q))
  {
    hide Listing, Paths, QueryGraph.WellFormed, IsCallPath, IsReversePath;
    var d := p.limits.maxDepth;
    ListingMember(p, true, d, targets, lives, q);
    var k :| 0 <= k < |targets| && InBlock(p, true, d, targets, lives, k, q);
    PathTarget(p, Scope(lives[k], true, d), targets[k], q);
    WiderScope(p, Scope(lives[k], true, d), targets[k], q);
    ReversePathIsCallPath(p, d, targets[k], q);
    assert targets[k] in targets;
  }

  lemma ReversalNoDuplicates(paths: seq<seq<EdgeRef>>, found: seq<seq<EdgeRef>>)
    requires ReversalOf(paths, found) && NoDuplicates(found)
    ensures NoDuplicates(paths)
  {
    forall i, j | 0 <= i < j < |paths| ensures paths[i] != paths[j] {
      ReversedTwice(found[i]);
      ReversedTwice(found[j]);
    }
  }

  lemma PrefixMember(a: seq<seq<EdgeRef>>, b: seq<seq<EdgeRef>>, i: nat)
    requires a <= b && i < |a|
    ensures a[i] in b
  {
    assert a[i] == b[i];
  }

  lemma PrefixNoDuplicates(a: seq<seq<EdgeRef>>, b: seq<seq<EdgeRef>>)
    requires a <= b && NoDuplicates(b)
    ensures NoDuplicates(a)
  {
    forall i, j | 0 <= i < j < |a| ensures a[i] != a[j] {
      assert a[i] == b[i] && a[j] == b[j];
    }
  }

  lemma FoundAreCallPaths(p: Problem, targets: seq<Id>, lives: seq<set<Id>>, found: seq<seq<EdgeRef>>, paths: seq<seq<EdgeRef>>)
    requires p.graph.WellFormed() && NoDuplicates(targets) && |lives| == |targets|
    requires forall k :: 0 <= k < |lives| ==> lives[k] <= p.starts
    requires ReversalOf(paths, found)
    requires found <= Listing(p, true, p.limits.maxDepth, targets, lives)
    ensures forall i :: 0 <= i < |paths| ==> IsPathToOneOf(p, targets, paths[i])
    ensures NoDuplicates(paths)
  {
    hide Listing, QueryGraph.WellFormed, IsPathToOneOf, NoDuplicates, Reversed;
    var all := Listing(p, true, p.limits.maxDepth, targets, lives);
    forall i | 0 <= i < |paths| ensures IsPathToOneOf(p, targets, paths[i]) {
      PrefixMember(found, all, i);
      ListedIsCallPath(p, targets, lives, found[i]);
    }
    ListingNoDuplicates(p, true, p.limits.maxDepth, targets, lives);
    PrefixNoDuplicates(found, all);
    ReversalNoDuplicates(paths, found);
  }

  ghost predicate IsPathToOneOf(p: Problem, targets: seq<Id>, hops: seq<EdgeRef>) {
    exists t :: t in targets && IsCallPath(p, p.limits.maxDepth, t, hops)
  }

  lemma WiderScope(p: Problem, sc: Scope, target: Id, q: seq<EdgeRef>)
    requires IsReversePath(p, sc, target, q) && sc.live <= p.starts
    ensures IsReversePath(p, Scope(p.starts, false, sc.depth), target, q)
  {
    forall i | 0 <= i < |q| ensures StepOk(p, Scope(p.starts, false, sc.depth), target, q, i) {
      assert StepOk(p, sc, target, q, i);
    }
  }

  /** Whatever stopped it: only call paths, each once, within the limits. */
  ghost predicate OnlyCallPaths(p: Problem, targets: seq<Id>, r: SearchResult) {
    && (forall i :: 0 <= i < |r.paths| ==> IsPathToOneOf(p, targets, r.paths[i])) && NoDuplicates(r.paths)
    && (p.limits.maxPaths != 0 ==> |r.paths| <= p.limits.maxPaths)
  }

  /** No stop without its reason. */
  ghost predicate StopsExplained(p: Problem, targets: seq<Id>, r: SearchResult) {
    && (PathLimit in r.stops ==> |r.paths| == p.limits.maxPaths != 0)
    && (PathLimit in r.stops ==> exists found :: ReversalOf(r.paths, found) && CutShort(p, targets, found))
    && (WorkBudget in r.stops ==> r.expansions == p.limits.maxWork != 0)
    && (HubPruned in r.stops <==> r.skippedHubs != map[])
    && (forall h :: h in r.skippedHubs ==> p.IsHub(h) && r.skippedHubs[h] == p.graph.InDegree(h) && HubAboveOne(p, targets, h))
    && (DepthLimit in r.stops ==> exists t :: t in targets && LongWalk(p, t))
  }

  /** The work: a visit for each path, none of a walk twice, and never more than
      the budget.  Limits that are off or not reached do not stop the search. */
  ghost predicate WorkCounted(p: Problem, targets: seq<Id>, r: SearchResult) {
    && |r.paths| <= r.expansions <= WorkOf(p, targets)
    && (p.limits.maxWork != 0 ==> r.expansions <= p.limits.maxWork)
    && (r.targetKnown && r.startKnown && Unlimited(p.limits, WorkOf(p, targets)) ==> r.Complete())
  }

  /** The enumeration around hubs, or the first part of it when cut short. */
  ghost predicate AroundHubs(p: Problem, targets: seq<Id>, r: SearchResult) {
    r.targetKnown && r.startKnown && !Shadowed(p, true, p.limits.maxDepth, targets) ==>
      exists all :: ReversalOf(all, Everything(p, true, p.limits.maxDepth, targets)) && r.paths <= all &&
        (PathLimit !in r.stops && WorkBudget !in r.stops ==> r.paths == all)
  }

  /** Complete: every call path within the depth, exactly when no start target
      shadows a later target.  Exhaustive: every call path of any length. */
  ghost predicate NothingMissing(p: Problem, targets: seq<Id>, r: SearchResult) {
    && (r.Complete() ==> (AllCallPaths(p, p.limits.maxDepth, targets, r.paths) <==> !Shadowed(p, false, p.limits.maxDepth, targets)))
    && (r.Exhaustive() ==> forall depth :: depth >= p.limits.maxDepth && !Shadowed(p, false, depth, targets) ==> AllCallPaths(p, depth, targets, r.paths))
  }

  ghost predicate IsAnswer(p0: Problem, targets: seq<Id>, r: SearchResult) {
    var p := Bounded(p0);
    && r.targetKnown == (targets != []) && r.startKnown == (p.starts != {})
    && (!r.targetKnown || !r.startKnown ==> r.paths == [] && r.stops == {} && r.expansions == 0)
    && OnlyCallPaths(p, targets, r) && StopsExplained(p, targets, r) && WorkCounted(p, targets, r)
    && AroundHubs(p, targets, r) && NothingMissing(p, targets, r)
  }

  /** Call paths from any start to any target, with the facts about how the
      enumeration ended. */
  method FindCallerPaths(p0: Problem, targets: seq<Id>) returns (r: SearchResult)
    requires p0.graph.WellFormed() && p0.AdmitsByTriple()
    requires NoDuplicates(targets)
    ensures IsAnswer(p0, targets, r)
  {
    hide QueryGraph.WellFormed, Paths, Listing, Rootless, LongWalk, Shadowed, AllCallPaths, IsPathToOneOf, HubAboveOne, CutShort;
    var p := Bounded(p0);
    if targets == [] || p.starts == {} {
      return SearchResult([], map[], {}, 0, targets != [], p.starts != {});
    }
    SameAdmission(p0);
    var found, hubs, stops, expansions, truncated;
    ghost var lives, halted;
    found, hubs, stops, expansions, truncated, lives, halted := SearchAll(p, targets);
    var paths := ReverseAll(found);
    r := SearchResult(paths, hubs, if truncated then stops + {PathLimit} else stops, expansions, true, true);
    ghost var d := p.limits.maxDepth;
    assert Covered(p, stops, true, d);
    FoundAreCallPaths(p, targets, lives, found, paths);
    if !Shadowed(p, true, d, targets) {
      ghost var all := seq(|Everything(p, true, d, targets)|, i requires 0 <= i < |Everything(p, true, d, targets)| => Reversed(Everything(p, true, d, targets)[i]));
      assert ReversalOf(all, Everything(p, true, d, targets)) && r.paths <= all;
    }
    if r.Complete() {
      assert Covered(p, stops, false, d);
      CompleteExactly(p, targets, lives, found, paths);
    }
    if r.Exhaustive() {
      forall depth | depth >= d && !Shadowed(p, false, depth, targets) ensures AllCallPaths(p, depth, targets, r.paths) {
        assert Covered(p, stops, false, depth);
        ListingIsAll(p, depth, targets, found, paths);
      }
    }
  }

  lemma SameAdmission(p: Problem)
    requires p.AdmitsByTriple()
    ensures Bounded(p).AdmitsByTriple()
  {
  }

  method ReverseAll(found: seq<seq<EdgeRef>>) returns (paths: seq<seq<EdgeRef>>)
    ensures ReversalOf(paths, found)
  {
    paths := [];
    for i := 0 to |found|
      invariant ReversalOf(paths, found[..i])
    {
      paths := paths + [Reversed(found[i])];
    }
    assert found[..|found|] == found;
  }

  /** One target, or no target among the starts: nothing is shadowed. */
  lemma NothingShadowed(p: Problem, prune: bool, depth: nat, targets: seq<Id>)
    requires |targets| <= 1 || forall t :: t in targets ==> t !in p.starts
    ensures !Shadowed(p, prune, depth, targets)
  {
    forall i, j | 0 <= i < j < |targets| ensures !Shadows(p, prune, depth, targets[i], targets[j]) {
      if |targets| > 1 {
        assert targets[i] in targets;
      }
    }
  }
}
