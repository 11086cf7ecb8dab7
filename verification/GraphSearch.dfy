/** The path search over a live call graph: its three queries tabulated, in
    canonical order, and the answer stated over the stored edges. */
module GraphSearch {
  import opened GraphTypes
  import opened Interner
  import opened Rel = Relations
  import opened CallQueries
  import opened CanonicalOrder
  import opened PathSpec
  import opened PathSearch
  import opened CallerPaths
  import RT = RefTable
  import CG = CallGraph

  /** The table shows exactly the calls of the stored edges, both ways. */
  ghost predicate ShowsCalls(q: QueryGraph, edges: seq<CG.StoredEdge>, overrides: map<Id, seq<Id>>, returned: map<Id, set<Id>>) {
    && (forall t: Triple :: t in TriplesOf(q.CallersOf(t.callee)) <==> Calls(edges, overrides, returned, t))
    && (forall t: Triple :: t in TriplesOf(q.CalleesOf(t.caller)) <==> Calls(edges, overrides, returned, t))
  }

  /** Every function a call can start from or lead to. */
  function Ends(edges: seq<CG.StoredEdge>, overrides: map<Id, seq<Id>>, returned: map<Id, set<Id>>): set<Id> {
    (set se | se in edges :: se.key.caller) + (set se | se in edges :: se.key.callee)
    + (set a, b | a in overrides && b in overrides[a] :: b) + (set f, r | f in returned && r in returned[f] :: r)
  }

  lemma ReachEnd(rel: map<Id, seq<Id>>, a: Id, b: Id)
    requires Reach(rel, a, b) && a != b
    ensures exists c :: c in rel && b in rel[c]
  {
    var p: seq<Id> :| |p| > 0 && p[0] == a && p[|p| - 1] == b && Chain(rel, p);
    assert |p| >= 2 && StepIn(rel, p, |p| - 2);
    assert p[|p| - 2] in rel && b in rel[p[|p| - 2]];
  }

  lemma CallEnds(edges: seq<CG.StoredEdge>, overrides: map<Id, seq<Id>>, returned: map<Id, set<Id>>, t: Triple)
    requires Calls(edges, overrides, returned, t)
    ensures t.caller in Ends(edges, overrides, returned) && t.callee in Ends(edges, overrides, returned)
    ensures exists i :: 0 <= i < |edges| && edges[i].refs > 0 && edges[i].key.caller == t.caller && edges[i].key.site == t.site
  {
    hide Reach;
    var i :| 0 <= i < |edges| && Shows(edges[i], overrides, returned, t);
    assert edges[i] in edges;
    if ViaOverride(edges[i], overrides, t) {
      ReachEnd(overrides, edges[i].key.callee, t.callee);
    }
  }

  lemma CallersSpelled(g: CG.CallGraph, rel: Rel.Relations, r: seq<EdgeRef>)
    requires g.Valid()
    requires forall t :: t in TriplesOf(r) ==> Calls(g.edges, rel.methodOverrides, rel.functionReturns, t)
    ensures AllSpelled(g.strings, r)
  {
    CG.EdgesInRange(|g.strings|, g.edges, g.edgeIndex, g.regs);
    hide RT.IndexOk, RT.CountsMatch, RT.UnitsMatch, CG.LiveAt, CG.InRange, Injective, Calls, Ends;
    forall i | 0 <= i < |r| ensures Spelled(g.strings, r[i]) {
      assert r[i] in r;
      assert r[i].Key() in TriplesOf(r);
      CallEnds(g.edges, rel.methodOverrides, rel.functionReturns, r[i].Key());
    }
  }

  /** One node's callers, in canonical order. */
  method SortedCallers(g: CG.CallGraph, rel: Rel.Relations, n: Id) returns (r: seq<EdgeRef>)
    requires g.Valid() && rel.Valid()
    ensures AllSpelled(g.strings, r) && Ascending(Texts(g.strings, r))
    ensures NoDuplicates(r) && forall e :: e in r ==> e.callee == n
    ensures forall t :: t in TriplesOf(r) <==> t.callee == n && Calls(g.edges, rel.methodOverrides, rel.functionReturns, t)
    ensures SortedAnswer(g.strings, g.edges, rel.methodOverrides, rel.functionReturns, n, r)
  {
    hide RT.IndexOk, RT.CountsMatch, RT.UnitsMatch, CG.LiveAt, CG.InRange, Calls, Before, Transposed, ReturnsTransposed, AllSpelled, Ascending, Texts, CG.Adjacent, ReverseAnswer;
    var s := CallerRefsOf(g, rel, n);
    CallersSpelled(g, rel, s);
    r := SortCallers(g.strings, n, s);
    SortedSame(s, r);
  }

  /** The answer of the reverse query, in canonical order. */
  ghost predicate SortedAnswer(strings: seq<string>, edges: seq<CG.StoredEdge>, overrides: map<Id, seq<Id>>, returned: map<Id, set<Id>>, n: Id, r: seq<EdgeRef>) {
    && AllSpelled(strings, r) && Ascending(Texts(strings, r))
    && exists s :: ReverseAnswer(edges, overrides, returned, n, s) && multiset(r) == multiset(s)
  }

  /** Every table entry is the answer of its query, attributes and order included. */
  ghost predicate Answers(strings: seq<string>, edges: seq<CG.StoredEdge>, overrides: map<Id, seq<Id>>, returned: map<Id, set<Id>>,
                          callers: map<Id, seq<EdgeRef>>, callees: map<Id, seq<EdgeRef>>) {
    && (forall n :: n in callers ==> SortedAnswer(strings, edges, overrides, returned, n, callers[n]))
    && (forall n :: n in callees ==> ForwardAnswer(edges, overrides, returned, n, callees[n]))
  }

  lemma NoAnswers(strings: seq<string>, edges: seq<CG.StoredEdge>, overrides: map<Id, seq<Id>>, returned: map<Id, set<Id>>)
    ensures Answers(strings, edges, overrides, returned, map[], map[])
  {
  }

  lemma MoreAnswers(strings: seq<string>, edges: seq<CG.StoredEdge>, overrides: map<Id, seq<Id>>, returned: map<Id, set<Id>>,
                    callers: map<Id, seq<EdgeRef>>, callees: map<Id, seq<EdgeRef>>, n: Id, ins: seq<EdgeRef>, outs: seq<EdgeRef>)
    requires Answers(strings, edges, overrides, returned, callers, callees)
    requires SortedAnswer(strings, edges, overrides, returned, n, ins) && ForwardAnswer(edges, overrides, returned, n, outs)
    ensures Answers(strings, edges, overrides, returned, callers[n := ins], callees[n := outs])
  {
    hide SortedAnswer, ForwardAnswer;
  }

  lemma SortedSame(s: seq<EdgeRef>, r: seq<EdgeRef>)
    requires multiset(r) == multiset(s) && NoDuplicates(s)
    ensures NoDuplicates(r) && (forall e :: e in r <==> e in s) && TriplesOf(r) == TriplesOf(s)
  {
    forall e ensures e in r <==> e in s {
      assert e in r <==> e in multiset(r);
      assert e in s <==> e in multiset(s);
    }
    forall i, j | 0 <= i < j < |r| ensures r[i] != r[j] {
      if r[i] == r[j] {
        var e := r[i];
        assert r == r[..i] + [e] + r[i + 1..j] + [e] + r[j + 1..];
        assert multiset(r)[e] >= 2;
        OnceEach(s, e);
      }
    }
  }

  lemma {:induction false} OnceEach(s: seq<EdgeRef>, e: EdgeRef)
    requires NoDuplicates(s)
    ensures multiset(s)[e] <= 1
  {
    if i :| 0 <= i < |s| && s[i] == e {
      assert s == s[..i] + [e] + s[i + 1..];
      assert e !in s[..i] && e !in s[i + 1..];
      assert multiset(s[..i])[e] == 0 && multiset(s[i + 1..])[e] == 0;
    } else {
      assert e !in s;
    }
  }

  /** The state of the tabulation: done for the nodes not in `left`. */
  ghost predicate Tabulated(callers: map<Id, seq<EdgeRef>>, callees: map<Id, seq<EdgeRef>>, done: set<Id>,
                            edges: seq<CG.StoredEdge>, overrides: map<Id, seq<Id>>, returned: map<Id, set<Id>>) {
    && callers.Keys == done && callees.Keys == done
    && (forall n :: n in done ==> CallersRight(callers[n], n, edges, overrides, returned))
    && (forall n :: n in done ==> CalleesRight(callees[n], n, edges, overrides, returned))
  }

  ghost predicate CallersRight(r: seq<EdgeRef>, n: Id, edges: seq<CG.StoredEdge>, overrides: map<Id, seq<Id>>, returned: map<Id, set<Id>>) {
    && NoDuplicates(r) && (forall e :: e in r ==> e.callee == n)
    && (forall t :: t in TriplesOf(r) <==> t.callee == n && Calls(edges, overrides, returned, t))
  }

  ghost predicate CalleesRight(r: seq<EdgeRef>, n: Id, edges: seq<CG.StoredEdge>, overrides: map<Id, seq<Id>>, returned: map<Id, set<Id>>) {
    && (forall e :: e in r ==> e.caller == n)
    && (forall t :: t in TriplesOf(r) <==> t.caller == n && Calls(edges, overrides, returned, t))
  }

  lemma TabulatedShows(q: QueryGraph, edges: seq<CG.StoredEdge>, overrides: map<Id, seq<Id>>, returned: map<Id, set<Id>>)
    requires Tabulated(q.callers, q.callees, Ends(edges, overrides, returned), edges, overrides, returned)
    ensures ShowsCalls(q, edges, overrides, returned)
  {
    hide Calls, Ends;
    forall t: Triple ensures t in TriplesOf(q.CallersOf(t.callee)) <==> Calls(edges, overrides, returned, t) {
      if Calls(edges, overrides, returned, t) { CallEnds(edges, overrides, returned, t); }
      if t.callee in q.callers {
        assert CallersRight(q.callers[t.callee], t.callee, edges, overrides, returned);
      }
    }
    forall t: Triple ensures t in TriplesOf(q.CalleesOf(t.caller)) <==> Calls(edges, overrides, returned, t) {
      if Calls(edges, overrides, returned, t) { CallEnds(edges, overrides, returned, t); }
      if t.caller in q.callees {
        assert CalleesRight(q.callees[t.caller], t.caller, edges, overrides, returned);
      }
    }
  }

  lemma TabulatedWellFormed(q: QueryGraph, edges: seq<CG.StoredEdge>, overrides: map<Id, seq<Id>>, returned: map<Id, set<Id>>)
    requires Tabulated(q.callers, q.callees, Ends(edges, overrides, returned), edges, overrides, returned)
    ensures q.WellFormed()
  {
    TabulatedShows(q, edges, overrides, returned);
    hide Calls, Ends;
    forall n ensures NoDuplicates(q.CallersOf(n)) && forall e :: e in q.CallersOf(n) ==> e.callee == n {
      assert n in q.callers ==> CallersRight(q.callers[n], n, edges, overrides, returned);
    }
    forall n, e | e in q.CalleesOf(n) ensures e.caller == n {
      assert CalleesRight(q.callees[n], n, edges, overrides, returned);
    }
    forall n, e | e in q.CallersOf(n) ensures e.Key() in TriplesOf(q.CalleesOf(e.caller)) {
      assert e.callee == n && e.Key() in TriplesOf(q.CallersOf(n));
      assert e.Key().caller == e.caller && e.Key().callee == n;
    }
    forall n, e | e in q.CalleesOf(n) ensures e.Key() in TriplesOf(q.CallersOf(e.callee)) {
      assert e.caller == n && e.Key() in TriplesOf(q.CalleesOf(n));
      assert e.Key().caller == n && e.Key().callee == e.callee;
    }
  }

  /** Ask every query of the graph.  The forward and the reverse answers agree. */
  method Tabulate(g: CG.CallGraph, rel: Rel.Relations) returns (q: QueryGraph)
    requires g.Valid() && rel.Valid()
    ensures q.WellFormed()
    ensures ShowsCalls(q, g.edges, rel.methodOverrides, rel.functionReturns)
    ensures forall n :: q.InDegree(n) == |CG.LiveAt(g.edges, |g.edges|, CG.In, n)|
    ensures Answers(g.strings, g.edges, rel.methodOverrides, rel.functionReturns, q.callers, q.callees)
  {
    hide Answers, SortedAnswer, ForwardAnswer;
    hide RT.IndexOk, RT.CountsMatch, RT.UnitsMatch, CG.LiveAt, CG.InRange, Calls, Before, Transposed, ReturnsTransposed, Ends, NoDuplicates, Injective, AllSpelled, Ascending, Texts, TriplesOf, CG.Adjacent, QueryGraph.WellFormed, ShowsCalls;
    var callers: map<Id, seq<EdgeRef>>, callees: map<Id, seq<EdgeRef>> := map[], map[];
    var all := Ends(g.edges, rel.methodOverrides, rel.functionReturns);
    var left := all;
    NoAnswers(g.strings, g.edges, rel.methodOverrides, rel.functionReturns);
    while left != {}
      invariant left <= all && Answers(g.strings, g.edges, rel.methodOverrides, rel.functionReturns, callers, callees)
      invariant Tabulated(callers, callees, all - left, g.edges, rel.methodOverrides, rel.functionReturns)
      decreases left
    {
      var n :| n in left;
      var ins := SortedCallers(g, rel, n);
      var outs := CalleeRefsOf(g, rel, n);
      MoreAnswers(g.strings, g.edges, rel.methodOverrides, rel.functionReturns, callers, callees, n, ins, outs);
      callers, callees := callers[n := ins], callees[n := outs];
      assert all - (left - {n}) == (all - left) + {n};
      left := left - {n};
    }
    var degrees := map n | n in g.inEdges :: |g.inEdges[n]|;
    q := QueryGraph(callers, callees, degrees);
    assert all - {} == all;
    TabulatedWellFormed(q, g.edges, rel.methodOverrides, rel.functionReturns);
    TabulatedShows(q, g.edges, rel.methodOverrides, rel.functionReturns);
    forall n ensures q.InDegree(n) == |CG.LiveAt(g.edges, |g.edges|, CG.In, n)| {
      DegreeOf(g.edges, g.inEdges, n);
    }
  }

  lemma DegreeOf(edges: seq<CG.StoredEdge>, lists: map<Id, seq<nat>>, n: Id)
    requires CG.Adjacent(edges, lists, CG.In)
    ensures (if n in lists then |lists[n]| else 0) == |CG.LiveAt(edges, |edges|, CG.In, n)|
  {
    hide CG.LiveAt;
    assert RT.Bucket(lists, n) == CG.LiveAt(edges, |edges|, CG.In, n);
  }

  /** A chain of calls in the stored graph from a start to a target, on which
      no function repeats. */
  ghost predicate IsCallChain(edges: seq<CG.StoredEdge>, overrides: map<Id, seq<Id>>, returned: map<Id, set<Id>>,
                              starts: set<Id>, target: Id, chain: seq<Triple>) {
    && |chain| > 0 && chain[0].caller in starts && chain[|chain| - 1].callee == target
    && (forall i :: 0 <= i < |chain| ==> Calls(edges, overrides, returned, chain[i]))
    && (forall i :: 0 < i < |chain| ==> Linked(chain, i))
    && (forall i, j :: 0 <= i < j < |chain| ==> chain[i].caller != chain[j].caller)
    && (forall i :: 0 <= i < |chain| ==> chain[i].caller != target)
  }

  ghost predicate Linked(chain: seq<Triple>, i: nat)
    requires 0 < i < |chain|
  {
    chain[i - 1].callee == chain[i].caller
  }

  ghost function ChainOf(hops: seq<EdgeRef>): (r: seq<Triple>)
    ensures |r| == |hops|
  {
    seq(|hops|, i requires 0 <= i < |hops| => hops[i].Key())
  }

  /** The search for simple paths over a graph's own answers. */
  ghost predicate IsQuestion(p: Problem, g: CG.CallGraph, rel: Rel.Relations, starts: set<Id>, limits: Limits)
    reads g, rel
  {
    && p.graph.WellFormed() && p.starts == starts && p.rule == SimpleNodes && p.limits == limits && (forall e :: p.admits(e))
    && ShowsCalls(p.graph, g.edges, rel.methodOverrides, rel.functionReturns)
    && Answers(g.strings, g.edges, rel.methodOverrides, rel.functionReturns, p.graph.callers, p.graph.callees)
    && forall n :: p.graph.InDegree(n) == |CG.LiveAt(g.edges, |g.edges|, CG.In, n)|
  }

  /** The unfiltered search for simple paths to one function. */
  method FindSimplePaths(g: CG.CallGraph, rel: Rel.Relations, target: Id, starts: set<Id>, limits: Limits) returns (r: SearchResult)
    requires g.Valid() && rel.Valid()
    // The answer of the search over the queries of the graph, without a filter.
    ensures exists p: Problem :: IsQuestion(p, g, rel, starts, limits) && IsAnswer(p, [target], r)
    // What it lists are call chains of the stored graph.
    ensures forall i :: 0 <= i < |r.paths| ==>
              IsCallChain(g.edges, rel.methodOverrides, rel.functionReturns, starts, target, ChainOf(r.paths[i]))
    // Unstopped, it lists every one of them, whatever its length.
    ensures r.Exhaustive() ==> forall chain ::
              IsCallChain(g.edges, rel.methodOverrides, rel.functionReturns, starts, target, chain) ==>
              exists hops :: hops in r.paths && ChainOf(hops) == chain
    ensures r.Complete() ==> forall chain ::
              IsCallChain(g.edges, rel.methodOverrides, rel.functionReturns, starts, target, chain) && |chain| <= CappedDepth(limits.maxDepth) ==>
              exists hops :: hops in r.paths && ChainOf(hops) == chain
  {
    hide RT.IndexOk, RT.CountsMatch, RT.UnitsMatch, CG.LiveAt, CG.InRange, Calls, Transposed, ReturnsTransposed, NoDuplicates, Injective, QueryGraph.WellFormed, IsCallChain, ShowsCalls, Answers, IsCallPath, AllCallPaths, Shadowed, LongWalk, Everything, CG.Adjacent;
    var q := Tabulate(g, rel);
    var p := Problem(q, _ => true, starts, SimpleNodes, limits);
    OneTarget(target);
    r := FindCallerPaths(p, [target]);
    assert IsQuestion(p, g, rel, starts, limits) && IsAnswer(p, [target], r);
    ghost var b := Bounded(p);
    forall i | 0 <= i < |r.paths|
      ensures IsCallChain(g.edges, rel.methodOverrides, rel.functionReturns, starts, target, ChainOf(r.paths[i]))
    {
      PathIsChain(q, g.edges, rel.methodOverrides, rel.functionReturns, b, b.limits.maxDepth, target, r.paths[i]);
    }
    forall chain | IsCallChain(g.edges, rel.methodOverrides, rel.functionReturns, starts, target, chain)
      && (r.Exhaustive() || (r.Complete() && |chain| <= b.limits.maxDepth))
      ensures exists hops :: hops in r.paths && ChainOf(hops) == chain
    {
      var depth := if |chain| > b.limits.maxDepth then |chain| else b.limits.maxDepth;
      NothingShadowed(b, false, depth, [target]);
      assert AllCallPaths(b, depth, [target], r.paths);
      var hops := ChainIsPath(q, g.edges, rel.methodOverrides, rel.functionReturns, b, depth, target, chain);
      Listed(b, depth, target, r.paths, hops);
    }
  }

  lemma OneTarget(t: Id)
    ensures NoDuplicates([t])
  {
  }

  lemma Listed(p: Problem, depth: nat, target: Id, paths: seq<seq<EdgeRef>>, hops: seq<EdgeRef>)
    requires AllCallPaths(p, depth, [target], paths) && IsCallPath(p, depth, target, hops)
    ensures hops in paths
  {
    hide IsCallPath;
    assert target in [target];
  }

  lemma HopIsCall(q: QueryGraph, edges: seq<CG.StoredEdge>, overrides: map<Id, seq<Id>>, returned: map<Id, set<Id>>, p: Problem, e: EdgeRef)
    requires ShowsCalls(q, edges, overrides, returned) && p.graph == q && Admitted(p, e.callee, e)
    ensures Calls(edges, overrides, returned, e.Key())
  {
    hide Calls;
    assert e.Key() in TriplesOf(q.CallersOf(e.Key().callee));
  }

  lemma PathIsChain(q: QueryGraph, edges: seq<CG.StoredEdge>, overrides: map<Id, seq<Id>>, returned: map<Id, set<Id>>,
                    p: Problem, depth: nat, target: Id, hops: seq<EdgeRef>)
    requires ShowsCalls(q, edges, overrides, returned) && p.graph == q && p.rule == SimpleNodes
    requires IsCallPath(p, depth, target, hops)
    ensures IsCallChain(edges, overrides, returned, p.starts, target, ChainOf(hops))
  {
    hide Calls, ShowsCalls, Admitted;
    var chain := ChainOf(hops);
    forall i | 0 <= i < |chain| ensures Calls(edges, overrides, returned, chain[i]) {
      HopIsCall(q, edges, overrides, returned, p, hops[i]);
    }
    forall i | 0 < i < |chain| ensures Linked(chain, i) {
      assert Joined(hops, i);
    }
  }

  /** The edge by which a call is shown to the reverse walk. */
  lemma ShownEdge(q: QueryGraph, edges: seq<CG.StoredEdge>, overrides: map<Id, seq<Id>>, returned: map<Id, set<Id>>, t: Triple)
    returns (e: EdgeRef)
    requires ShowsCalls(q, edges, overrides, returned) && Calls(edges, overrides, returned, t)
    ensures e in q.CallersOf(t.callee) && e.Key() == t
  {
    hide Calls;
    assert t in TriplesOf(q.CallersOf(t.callee));
    e :| e in q.CallersOf(t.callee) && e.Key() == t;
  }

  lemma {:induction false} ShownEdges(q: QueryGraph, edges: seq<CG.StoredEdge>, overrides: map<Id, seq<Id>>, returned: map<Id, set<Id>>, chain: seq<Triple>)
    returns (hops: seq<EdgeRef>)
    requires ShowsCalls(q, edges, overrides, returned)
    requires forall i :: 0 <= i < |chain| ==> Calls(edges, overrides, returned, chain[i])
    ensures |hops| == |chain|
    ensures forall i :: 0 <= i < |chain| ==> hops[i] in q.CallersOf(chain[i].callee) && hops[i].Key() == chain[i]
    decreases |chain|
  {
    hide Calls, ShowsCalls;
    if chain == [] {
      hops := [];
    } else {
      var most := ShownEdges(q, edges, overrides, returned, chain[..|chain| - 1]);
      var e := ShownEdge(q, edges, overrides, returned, chain[|chain| - 1]);
      hops := most + [e];
    }
  }

  lemma ChainIsPath(q: QueryGraph, edges: seq<CG.StoredEdge>, overrides: map<Id, seq<Id>>, returned: map<Id, set<Id>>,
                    p: Problem, depth: nat, target: Id, chain: seq<Triple>) returns (hops: seq<EdgeRef>)
    requires ShowsCalls(q, edges, overrides, returned) && p.graph == q && p.rule == SimpleNodes
    requires forall e :: p.admits(e)
    requires IsCallChain(edges, overrides, returned, p.starts, target, chain) && |chain| <= depth
    ensures IsCallPath(p, depth, target, hops) && ChainOf(hops) == chain
  {
    hide Calls, ShowsCalls;
    hops := ShownEdges(q, edges, overrides, returned, chain);
    forall i | 0 < i < |hops| ensures Joined(hops, i) {
      assert Linked(chain, i);
      assert hops[i - 1].Key() == chain[i - 1] && hops[i].Key() == chain[i];
    }
    forall i | 0 <= i < |hops|
      ensures hops[i].caller == chain[i].caller && hops[i].callee == chain[i].callee
    {
      assert hops[i].Key() == chain[i];
    }
  }

  // ---- The incomplete case, on the smallest graph that shows it.

  /** With a call 1 -> 2, the start 1 and the targets 1 and 2, the first target
      has no caller and is written off at depth 0, so the path 1 -> 2 is lost:
      the search claims to be complete and is not. */
  lemma ShadowExample(e: EdgeRef, limits: Limits)
    requires e.caller == 1 && e.callee == 2 && limits.maxDepth > 0
    ensures var q := QueryGraph(map[2 := [e]], map[1 := [e]], map[2 := 1]);
            var p := Problem(q, _ => true, {1}, SimpleNodes, limits);
            && q.WellFormed() && IsCallPath(p, limits.maxDepth, 2, [e])
            && Shadowed(p, false, limits.maxDepth, [1, 2])
  {
    var q := QueryGraph(map[2 := [e]], map[1 := [e]], map[2 := 1]);
    var p := Problem(q, _ => true, {1}, SimpleNodes, limits);
    assert q.CallersOf(1) == [] && q.CallersOf(2) == [e];
    assert e in [e];
    forall w: seq<EdgeRef> | IsWalk(p, false, false, 1, w) ensures |w| == 0 {
      assert |w| > 0 ==> WalkStep(p, false, false, 1, w, 0);
    }
    assert Rootless(p, Scope(p.starts, false, limits.maxDepth), 1);
    assert WalkStep(p, false, false, 2, [e], 0);
    assert IsWalk(p, false, false, 2, [e]) && EndOf(2, [e]) == 1;
    assert Shadows(p, false, limits.maxDepth, [1, 2][0], [1, 2][1]);
  }

  /** The only call path of that graph is the call. */
  lemma OnlyTheCall(p: Problem, e: EdgeRef, depth: nat, t: Id, hops: seq<EdgeRef>)
    requires e.caller == 1 && e.callee == 2 && p.graph == QueryGraph(map[2 := [e]], map[1 := [e]], map[2 := 1]) && p.rule == SimpleNodes
    requires IsCallPath(p, depth, t, hops)
    ensures hops == [e]
  {
    forall i | 0 <= i < |hops| ensures hops[i] == e {
      assert Admitted(p, hops[i].callee, hops[i]);
    }
  }

  /** End to end: without limits the search of that graph reports a complete
      result and has lost the path. */
  method ShadowRun(e: EdgeRef, maxDepth: nat) returns (r: SearchResult)
    requires e.caller == 1 && e.callee == 2
    ensures r.Complete() && [e] !in r.paths
    ensures var p := Bounded(Problem(QueryGraph(map[2 := [e]], map[1 := [e]], map[2 := 1]), _ => true, {1}, SimpleNodes, Limits(0, maxDepth, 0, 0)));
            IsCallPath(p, p.limits.maxDepth, 2, [e])
  {
    hide IsCallPath, Shadowed, IsPathToOneOf, Everything, LongWalk;
    var q := QueryGraph(map[2 := [e]], map[1 := [e]], map[2 := 1]);
    var p := Problem(q, _ => true, {1}, SimpleNodes, Limits(0, maxDepth, 0, 0));
    ShadowExample(e, Bounded(p).limits);
    assert Bounded(p) == Problem(q, p.admits, {1}, SimpleNodes, Bounded(p).limits);
    r := FindCallerPaths(p, [1, 2]);
    assert !AllCallPaths(Bounded(p), Bounded(p).limits.maxDepth, [1, 2], r.paths);
    ghost var t, hops :| t in [1, 2] && IsCallPath(Bounded(p), Bounded(p).limits.maxDepth, t, hops) && hops !in r.paths;
    OnlyTheCall(Bounded(p), e, Bounded(p).limits.maxDepth, t, hops);
  }
}
