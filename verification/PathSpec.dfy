/** What a bounded caller-path search should answer: the call paths from a set
    of starts to a target, defined without corridor, memo or limits, and the
    order in which a plain depth-first enumeration lists them. */
module PathSpec {
  import opened GraphTypes

  /** What may repeat along one path. */
  datatype CycleRule = SimpleNodes | SimpleEdges

  /** 0 means "no limit" except for the depth. */
  datatype Limits = Limits(maxPaths: nat, maxDepth: nat, maxFanIn: nat, maxWork: nat)

  datatype Problem = Problem(
    graph: QueryGraph, admits: EdgeRef -> bool, starts: set<Id>,
    rule: CycleRule, limits: Limits)
  {
    predicate IsHub(n: Id) {
      limits.maxFanIn != 0 && graph.InDegree(n) > limits.maxFanIn
    }

    /** The admission predicate looks only at caller, callee and call site, so
        the forward and the reverse view of a hop are admitted together. */
    ghost predicate AdmitsByTriple() {
      forall e: EdgeRef, f: EdgeRef {:trigger admits(e), admits(f)} ::
        e.Key() == f.Key() ==> admits(e) == admits(f)
    }
  }

  /** Which paths an enumeration covers: ends in `live`, at most `depth` edges,
      and, when `prune` is set, none through a hub. */
  datatype Scope = Scope(live: set<Id>, prune: bool, depth: nat)

  // ---- Reverse paths: edge 0 calls the target, edge i+1 calls edge i's caller.

  /** The node reached after `i` edges from `target`. */
  function NodeAt(target: Id, q: seq<EdgeRef>, i: nat): Id
    requires i <= |q|
  {
    if i == 0 then target else q[i - 1].caller
  }

  function EndOf(target: Id, q: seq<EdgeRef>): Id {
    NodeAt(target, q, |q|)
  }

  function OnPath(target: Id, q: seq<EdgeRef>): set<Id> {
    {target} + set e | e in q :: e.caller
  }

  function KeysOf(q: seq<EdgeRef>): set<Triple> {
    set e | e in q :: e.Key()
  }

  /** The per-path exclusion: following `e` would repeat something. */
  predicate Excluded(rule: CycleRule, target: Id, q: seq<EdgeRef>, e: EdgeRef) {
    match rule
    case SimpleNodes => e.caller in OnPath(target, q)
    case SimpleEdges => e.Key() in KeysOf(q)
  }

  /** `e` is an admitted edge into `n`. */
  predicate Admitted(p: Problem, n: Id, e: EdgeRef) {
    e in p.graph.CallersOf(n) && p.admits(e)
  }

  // ---- The plain enumeration.

  function Own(sc: Scope, target: Id, edges: seq<EdgeRef>): seq<seq<EdgeRef>> {
    if EndOf(target, edges) in sc.live && |edges| > 0 then [edges] else []
  }

  /** Whether the enumeration goes on past the end of `edges`. */
  predicate Open(p: Problem, sc: Scope, target: Id, edges: seq<EdgeRef>) {
    |edges| < sc.depth && !(sc.prune && |edges| > 0 && p.IsHub(EndOf(target, edges)))
  }

  /** Every path that extends `edges`, in depth-first order. */
  function Paths(p: Problem, sc: Scope, target: Id, edges: seq<EdgeRef>): seq<seq<EdgeRef>>
    requires |edges| <= sc.depth
    decreases sc.depth - |edges|, 1, 0
  {
    Own(sc, target, edges) +
    if Open(p, sc, target, edges)
    then PathsVia(p, sc, target, edges, p.graph.CallersOf(EndOf(target, edges)))
    else []
  }

  /** Every path that extends `edges` through one of `callers`. */
  function PathsVia(p: Problem, sc: Scope, target: Id, edges: seq<EdgeRef>,
                    callers: seq<EdgeRef>): seq<seq<EdgeRef>>
    requires |edges| < sc.depth
    decreases sc.depth - |edges|, 0, |callers|
  {
    if callers == [] then [] else
      var e := callers[|callers| - 1];
      PathsVia(p, sc, target, edges, callers[..|callers| - 1]) +
      if p.admits(e) && !Excluded(p.rule, target, edges, e)
      then Paths(p, sc, target, edges + [e]) else []
  }

  // ---- An independent description of the same paths.

  /** Step `i` of `q` follows an admitted edge that repeats nothing. */
  ghost predicate StepOk(p: Problem, sc: Scope, target: Id, q: seq<EdgeRef>, i: nat)
    requires i < |q|
  {
    && Admitted(p, NodeAt(target, q, i), q[i])
    && !Excluded(p.rule, target, q[..i], q[i])
    && !(sc.prune && i > 0 && p.IsHub(NodeAt(target, q, i)))
  }

  ghost predicate IsReversePath(p: Problem, sc: Scope, target: Id, q: seq<EdgeRef>) {
    && 1 <= |q| <= sc.depth
    && EndOf(target, q) in sc.live
    && forall i :: 0 <= i < |q| ==> StepOk(p, sc, target, q, i)
  }


  /** `q` extends `edges` by good steps to a live end. */
  ghost predicate IsExtension(p: Problem, sc: Scope, target: Id, edges: seq<EdgeRef>, q: seq<EdgeRef>) {
    && edges <= q
    && 1 <= |q| <= sc.depth
    && EndOf(target, q) in sc.live
    && forall i :: |edges| <= i < |q| ==> StepOk(p, sc, target, q, i)
  }

  lemma {:induction false} PathsSound(p: Problem, sc: Scope, target: Id, edges: seq<EdgeRef>, q: seq<EdgeRef>)
    requires |edges| <= sc.depth
    requires q in Paths(p, sc, target, edges)
    ensures IsExtension(p, sc, target, edges, q)
    decreases sc.depth - |edges|, 1, 0
  {
    if q !in Own(sc, target, edges) {
      PathsViaSound(p, sc, target, edges, p.graph.CallersOf(EndOf(target, edges)), q);
    }
  }

  lemma {:induction false} PathsViaSound(p: Problem, sc: Scope, target: Id, edges: seq<EdgeRef>,
                                         callers: seq<EdgeRef>, q: seq<EdgeRef>)
    requires Open(p, sc, target, edges)
    requires forall e :: e in callers ==> e in p.graph.CallersOf(EndOf(target, edges))
    requires q in PathsVia(p, sc, target, edges, callers)
    ensures |q| > |edges| && q[|edges|] in callers
    ensures IsExtension(p, sc, target, edges, q)
    decreases sc.depth - |edges|, 0, |callers|
  {
    var e := callers[|callers| - 1];
    if q in PathsVia(p, sc, target, edges, callers[..|callers| - 1]) {
      PathsViaSound(p, sc, target, edges, callers[..|callers| - 1], q);
    } else {
      PathsSound(p, sc, target, edges + [e], q);
      var n := |edges|;
      assert q[..n] == (edges + [e])[..n] == edges;
      assert q[n] == (edges + [e])[n] == e;
      assert NodeAt(target, q, n) == EndOf(target, edges);
      assert StepOk(p, sc, target, q, n);
    }
  }

  lemma {:induction false} PathsCovers(p: Problem, sc: Scope, target: Id, edges: seq<EdgeRef>, q: seq<EdgeRef>)
    requires |edges| <= sc.depth
    requires IsExtension(p, sc, target, edges, q)
    ensures q in Paths(p, sc, target, edges)
    decreases sc.depth - |edges|, 1, 0
  {
    if |q| == |edges| {
      assert q == edges;
    } else {
      var n := |edges|;
      assert StepOk(p, sc, target, q, n);
      assert q[..n] == edges;
      assert NodeAt(target, q, n) == EndOf(target, edges);
      PathsViaCovers(p, sc, target, edges, p.graph.CallersOf(EndOf(target, edges)), q);
    }
  }

  lemma {:induction false} PathsViaCovers(p: Problem, sc: Scope, target: Id, edges: seq<EdgeRef>,
                                          callers: seq<EdgeRef>, q: seq<EdgeRef>)
    requires |edges| < sc.depth
    requires IsExtension(p, sc, target, edges, q)
    requires |q| > |edges| && q[|edges|] in callers
    ensures q in PathsVia(p, sc, target, edges, callers)
    decreases sc.depth - |edges|, 0, |callers|
  {
    var e := callers[|callers| - 1];
    var n := |edges|;
    assert StepOk(p, sc, target, q, n);
    assert q[..n] == edges;
    if q[n] == e {
      assert q[..n + 1] == edges + [e];
      PathsCovers(p, sc, target, edges + [e], q);
    } else {
      PathsViaCovers(p, sc, target, edges, callers[..|callers| - 1], q);
    }
  }

  /** The enumeration from `target` lists exactly the reverse paths. */
  lemma PathsExact(p: Problem, sc: Scope, target: Id, q: seq<EdgeRef>)
    ensures q in Paths(p, sc, target, []) <==> IsReversePath(p, sc, target, q)
  {
    if q in Paths(p, sc, target, []) {
      PathsSound(p, sc, target, [], q);
    }
    if IsReversePath(p, sc, target, q) {
      PathsCovers(p, sc, target, [], q);
    }
  }

  lemma {:induction false} PathsNoDuplicates(p: Problem, sc: Scope, target: Id, edges: seq<EdgeRef>)
    requires |edges| <= sc.depth && p.graph.WellFormed()
    ensures NoDuplicates(Paths(p, sc, target, edges))
    decreases sc.depth - |edges|, 1, 0
  {
    if Open(p, sc, target, edges) {
      var callers := p.graph.CallersOf(EndOf(target, edges));
      PathsViaNoDuplicates(p, sc, target, edges, callers);
      var via := PathsVia(p, sc, target, edges, callers);
      forall i | 0 <= i < |via| ensures via[i] != edges {
        PathsViaSound(p, sc, target, edges, callers, via[i]);
      }
    }
  }

  lemma {:induction false} PathsViaNoDuplicates(p: Problem, sc: Scope, target: Id, edges: seq<EdgeRef>,
                                                callers: seq<EdgeRef>)
    requires Open(p, sc, target, edges) && p.graph.WellFormed()
    requires NoDuplicates(callers)
    requires forall e :: e in callers ==> e in p.graph.CallersOf(EndOf(target, edges))
    ensures NoDuplicates(PathsVia(p, sc, target, edges, callers))
    decreases sc.depth - |edges|, 0, |callers|
  {
    if callers != [] {
      var e := callers[|callers| - 1];
      var rest := callers[..|callers| - 1];
      var a := PathsVia(p, sc, target, edges, rest);
      PathsViaNoDuplicates(p, sc, target, edges, rest);
      if p.admits(e) && !Excluded(p.rule, target, edges, e) {
        var b := Paths(p, sc, target, edges + [e]);
        PathsNoDuplicates(p, sc, target, edges + [e]);
        forall i, j | 0 <= i < |a| && 0 <= j < |b| ensures a[i] != b[j] {
          PathsViaSound(p, sc, target, edges, rest, a[i]);
          PathsSound(p, sc, target, edges + [e], b[j]);
          assert b[j][|edges|] == (edges + [e])[|edges|] == e;
        }
      }
    }
  }

  // ---- Walks: like reverse paths, but anything may repeat.

  /** `w` leads up from `n` over admitted edges; with `prune` it leaves no hub
      other than, when `below` is false, `n` itself. */
  ghost predicate IsWalk(p: Problem, prune: bool, below: bool, n: Id, w: seq<EdgeRef>) {
    forall i :: 0 <= i < |w| ==> WalkStep(p, prune, below, n, w, i)
  }

  ghost predicate WalkStep(p: Problem, prune: bool, below: bool, n: Id, w: seq<EdgeRef>, i: nat)
    requires i < |w|
  {
    && Admitted(p, NodeAt(n, w, i), w[i])
    && !(prune && (below || i > 0) && p.IsHub(NodeAt(n, w, i)))
  }

  /** `w` shows that some start reaches `n`. */
  ghost predicate ReachesFromStart(p: Problem, n: Id, w: seq<EdgeRef>) {
    IsWalk(p, false, false, n, w) && EndOf(n, w) in p.starts
  }

  /** From `n` at depth `d`, no live start is within the scope's depth. */
  ghost predicate NoWalk(p: Problem, sc: Scope, n: Id, d: nat) {
    forall w :: IsWalk(p, sc.prune, d > 0, n, w) && EndOf(n, w) in sc.live ==> d + |w| > sc.depth
  }

  /** The part of an extension beyond `edges` is a walk. */
  lemma ExtensionWalk(p: Problem, sc: Scope, target: Id, edges: seq<EdgeRef>, q: seq<EdgeRef>, below: bool)
    requires IsExtension(p, sc, target, edges, q) && below == (|edges| > 0)
    ensures IsWalk(p, sc.prune, below, EndOf(target, edges), q[|edges|..])
    ensures EndOf(EndOf(target, edges), q[|edges|..]) == EndOf(target, q)
  {
    var n, k := EndOf(target, edges), |edges|;
    var w := q[k..];
    forall i | 0 <= i < |w| ensures WalkStep(p, sc.prune, below, n, w, i) {
      assert NodeAt(n, w, i) == NodeAt(target, q, k + i);
      assert StepOk(p, sc, target, q, k + i);
    }
  }

  lemma NoWalkNoPaths(p: Problem, sc: Scope, target: Id, edges: seq<EdgeRef>)
    requires |edges| <= sc.depth
    requires NoWalk(p, sc, EndOf(target, edges), |edges|)
    ensures Paths(p, sc, target, edges) == []
  {
    if Paths(p, sc, target, edges) != [] {
      var q := Paths(p, sc, target, edges)[0];
      PathsSound(p, sc, target, edges, q);
      ExtensionWalk(p, sc, target, edges, q, |edges| > 0);
    }
  }

  /** A node is dead when it is no live start and all its callers are dead. */
  lemma NoWalkStep(p: Problem, sc: Scope, n: Id, d: nat)
    requires n in sc.live ==> d > sc.depth
    requires
      || d >= sc.depth
      || (sc.prune && d > 0 && p.IsHub(n))
      || (forall e | Admitted(p, n, e) :: NoWalk(p, sc, e.caller, d + 1))
    ensures NoWalk(p, sc, n, d)
  {
    forall w: seq<EdgeRef> | IsWalk(p, sc.prune, d > 0, n, w) && EndOf(n, w) in sc.live
      ensures d + |w| > sc.depth
    {
      if w != [] && d < sc.depth {
        assert WalkStep(p, sc.prune, d > 0, n, w, 0);
        var rest := w[1..];
        var c := w[0].caller;
        forall i | 0 <= i < |rest| ensures WalkStep(p, sc.prune, true, c, rest, i) {
          assert WalkStep(p, sc.prune, d > 0, n, w, i + 1);
          assert NodeAt(c, rest, i) == NodeAt(n, w, i + 1);
          assert rest[i] == w[i + 1];
        }
        assert IsWalk(p, sc.prune, true, c, rest);
        assert EndOf(c, rest) == EndOf(n, w);
      }
    }
  }

  lemma NoWalkDeeper(p: Problem, sc: Scope, n: Id, d: nat, d': nat)
    requires NoWalk(p, sc, n, d) && d <= d'
    ensures NoWalk(p, sc, n, d')
  {
    forall w: seq<EdgeRef> | IsWalk(p, sc.prune, d' > 0, n, w) && EndOf(n, w) in sc.live
      ensures d' + |w| > sc.depth
    {
      WeakerWalk(p, sc.prune, d' > 0, sc.prune, d > 0, n, w);
    }
  }

  lemma WeakerWalk(p: Problem, prune: bool, below: bool, prune': bool, below': bool, n: Id, w: seq<EdgeRef>)
    requires IsWalk(p, prune, below, n, w)
    requires (prune' ==> prune) && (below' ==> below)
    ensures IsWalk(p, prune', below', n, w)
  {
    forall i | 0 <= i < |w| ensures WalkStep(p, prune', below', n, w, i) {
      assert WalkStep(p, prune, below, n, w, i);
    }
  }

  // ---- The corridor: fewest edges from any start.

  ghost predicate CorridorSound(p: Problem, corridor: map<Id, nat>) {
    forall n, w :: ReachesFromStart(p, n, w) ==> n in corridor && corridor[n] <= |w|
  }

  ghost predicate CorridorTight(p: Problem, corridor: map<Id, nat>) {
    forall n :: n in corridor ==> ReachedIn(p, n, corridor[n])
  }

  /** Some start reaches `n` in exactly `k` edges. */
  ghost predicate ReachedIn(p: Problem, n: Id, k: nat) {
    exists w :: ReachesFromStart(p, n, w) && |w| == k
  }

  lemma OutsideCorridor(p: Problem, corridor: map<Id, nat>, sc: Scope, n: Id, d: nat)
    requires CorridorSound(p, corridor) && sc.live <= p.starts
    requires n !in corridor || corridor[n] + d > sc.depth
    ensures NoWalk(p, sc, n, d)
  {
    forall w: seq<EdgeRef> | IsWalk(p, sc.prune, d > 0, n, w) && EndOf(n, w) in sc.live
      ensures d + |w| > sc.depth
    {
      WeakerWalk(p, sc.prune, d > 0, false, false, n, w);
      assert ReachesFromStart(p, n, w);
    }
  }

  lemma JoinWalks(p: Problem, target: Id, edges: seq<EdgeRef>, w: seq<EdgeRef>)
    requires IsWalk(p, false, false, target, edges)
    requires IsWalk(p, false, false, EndOf(target, edges), w)
    ensures IsWalk(p, false, false, target, edges + w)
    ensures EndOf(target, edges + w) == EndOf(EndOf(target, edges), w)
  {
    var q := edges + w;
    forall i | 0 <= i < |q| ensures WalkStep(p, false, false, target, q, i) {
      if i < |edges| {
        assert WalkStep(p, false, false, target, edges, i);
        assert NodeAt(target, q, i) == NodeAt(target, edges, i);
      } else {
        assert WalkStep(p, false, false, EndOf(target, edges), w, i - |edges|);
        assert NodeAt(target, q, i) == NodeAt(EndOf(target, edges), w, i - |edges|);
      }
    }
  }

  lemma WalkPrefix(p: Problem, n: Id, w: seq<EdgeRef>, k: nat)
    requires IsWalk(p, false, false, n, w) && k <= |w|
    ensures IsWalk(p, false, false, n, w[..k])
  {
    forall i | 0 <= i < k ensures WalkStep(p, false, false, n, w[..k], i) {
      assert WalkStep(p, false, false, n, w, i);
      assert NodeAt(n, w, i) == NodeAt(n, w[..k], i);
    }
  }

  lemma OnPathSnoc(target: Id, q: seq<EdgeRef>, e: EdgeRef)
    ensures OnPath(target, q + [e]) == OnPath(target, q) + {e.caller}
    ensures KeysOf(q + [e]) == KeysOf(q) + {e.Key()}
  {
    assert forall x :: x in q + [e] <==> x in q || x == e;
    forall x | x in q || x == e ensures x.caller in OnPath(target, q + [e]) && x.Key() in KeysOf(q + [e]) {
      assert x in q + [e];
    }
  }

  lemma EndOnPath(target: Id, q: seq<EdgeRef>)
    ensures EndOf(target, q) in OnPath(target, q)
  {
    if q != [] {
      assert q[|q| - 1] in q;
    }
  }
}
