/** The corridor of the path search: the fewest edges from any start to each
    node a start reaches, by an unbounded breadth-first walk over callee edges. */
module Corridor {
  import opened GraphTypes
  import opened PathSpec

  // ---- Corridor.

  /** Everything the corridor can ever hold. */
  ghost function Universe(p: Problem): set<Id> {
    p.starts + set n, e | n in p.graph.callees && e in p.graph.callees[n] :: e.callee
  }

  /** Admitted callees of `n` are at most one edge further than `n`. */
  ghost predicate Relaxed(p: Problem, m: map<Id, nat>, n: Id, callees: seq<EdgeRef>, far: nat) {
    forall e :: e in callees && p.admits(e) ==> e.callee in m && m[e.callee] <= far
  }

  lemma {:induction false} RelaxedCorridorSound(p: Problem, m: map<Id, nat>, n: Id, w: seq<EdgeRef>)
    requires p.graph.WellFormed() && p.AdmitsByTriple()
    requires forall s :: s in p.starts ==> s in m && m[s] == 0
    requires forall c :: c in m ==> Relaxed(p, m, c, p.graph.CalleesOf(c), m[c] + 1)
    requires ReachesFromStart(p, n, w)
    ensures n in m && m[n] <= |w|
    decreases |w|
  {
    if w != [] {
      var e, rest := w[0], w[1..];
      assert WalkStep(p, false, false, n, w, 0);
      forall i | 0 <= i < |rest| ensures WalkStep(p, false, false, e.caller, rest, i) {
        assert WalkStep(p, false, false, n, w, i + 1);
        assert NodeAt(e.caller, rest, i) == NodeAt(n, w, i + 1);
        assert rest[i] == w[i + 1];
      }
      assert EndOf(e.caller, rest) == EndOf(n, w);
      assert ReachesFromStart(p, e.caller, rest);
      RelaxedCorridorSound(p, m, e.caller, rest);
      assert e.Key() in TriplesOf(p.graph.CalleesOf(e.caller));
      var f :| f in p.graph.CalleesOf(e.caller) && f.Key() == e.Key();
      assert p.admits(f) == p.admits(e);
    }
  }

  lemma TightStep(p: Problem, m: map<Id, nat>, n: Id, f: EdgeRef, k: nat)
    requires p.graph.WellFormed() && p.AdmitsByTriple()
    requires f in p.graph.CalleesOf(n) && p.admits(f)
    requires ReachedIn(p, n, k)
    ensures ReachedIn(p, f.callee, k + 1)
  {
    var w :| ReachesFromStart(p, n, w) && |w| == k;
    assert f.Key() in TriplesOf(p.graph.CallersOf(f.callee));
    var e :| e in p.graph.CallersOf(f.callee) && e.Key() == f.Key();
    assert p.admits(e) == p.admits(f);
    assert WalkStep(p, false, false, f.callee, [e], 0);
    assert IsWalk(p, false, false, f.callee, [e]);
    JoinWalks(p, f.callee, [e], w);
    assert ReachesFromStart(p, f.callee, [e] + w);
  }

  lemma InUniverse(p: Problem, n: Id, e: EdgeRef)
    requires e in p.graph.CalleesOf(n)
    ensures e.callee in Universe(p)
  {
    assert n in p.graph.callees && e in p.graph.callees[n];
  }

  /** The corridor holds the distances up to `dist`, and every node nearer
      than that has had its callees entered. */
  ghost predicate Level(p: Problem, m: map<Id, nat>, dist: nat) {
    && (forall s :: s in p.starts ==> s in m && m[s] == 0)
    && m.Keys <= Universe(p)
    && CorridorTight(p, m)
    && (forall n :: n in m ==> m[n] <= dist)
    && (forall n :: n in m && m[n] < dist ==> Relaxed(p, m, n, p.graph.CalleesOf(n), m[n] + 1))
  }

  /** Breadth-first over admitted callee edges, unbounded. */
  method BuildCorridor(p: Problem) returns (m: map<Id, nat>)
    requires p.graph.WellFormed() && p.AdmitsByTriple()
    ensures CorridorSound(p, m) && CorridorTight(p, m)
  {
    hide QueryGraph.WellFormed, Problem.AdmitsByTriple, Universe, Relaxed, CorridorTight;
    var frontier := ListOf(p.starts);
    m := map s | s in p.starts :: 0;
    var dist := 0;
    StartLevel(p, m);
    while frontier != []
      invariant Level(p, m, dist)
      invariant forall n :: n in frontier <==> n in m && m[n] == dist
      decreases |Universe(p) - m.Keys|, |frontier|
    {
      ghost var before := m;
      m, frontier := ExpandLevel(p, m, frontier, dist);
      dist := dist + 1;
      if frontier == [] {
        assert m.Keys == before.Keys;
      } else {
        CountDrops(Universe(p), before.Keys, m.Keys, frontier[0]);
      }
    }
    ClosedLevelSound(p, m, dist);
  }

  lemma ClosedLevelSound(p: Problem, m: map<Id, nat>, dist: nat)
    requires p.graph.WellFormed() && p.AdmitsByTriple()
    requires Level(p, m, dist) && forall n :: n in m ==> m[n] < dist
    ensures CorridorSound(p, m)
  {
    forall n, w | ReachesFromStart(p, n, w) ensures n in m && m[n] <= |w| {
      RelaxedCorridorSound(p, m, n, w);
    }
  }

  lemma StartLevel(p: Problem, m: map<Id, nat>)
    requires m == map s | s in p.starts :: 0
    ensures Level(p, m, 0)
  {
    forall n | n in m ensures ReachedIn(p, n, 0) {
      assert ReachesFromStart(p, n, []);
    }
  }

  lemma RelaxedGrows(p: Problem, m: map<Id, nat>, m': map<Id, nat>, n: Id, callees: seq<EdgeRef>, far: nat)
    requires Relaxed(p, m, n, callees, far)
    requires forall x :: x in m ==> x in m' && m'[x] == m[x]
    ensures Relaxed(p, m', n, callees, far)
  {
  }

  /** One round: everything one edge past the frontier enters at `dist + 1`. */
  method ExpandLevel(p: Problem, before: map<Id, nat>, frontier: seq<Id>, dist: nat)
    returns (m: map<Id, nat>, next: seq<Id>)
    requires p.graph.WellFormed() && p.AdmitsByTriple()
    requires Level(p, before, dist)
    requires forall n :: n in frontier <==> n in before && before[n] == dist
    ensures Level(p, m, dist + 1)
    ensures before.Keys <= m.Keys
    ensures forall n :: n in next <==> n in m && m[n] == dist + 1
    ensures forall n :: n in next ==> n !in before
    ensures forall n :: n in m && n !in next ==> n in before
  {
    hide QueryGraph.WellFormed, Problem.AdmitsByTriple, Universe, Relaxed, CorridorTight;
    m, next := before, [];
    for i := 0 to |frontier|
      invariant m.Keys <= Universe(p)
      invariant CorridorTight(p, m)
      invariant forall n :: n in before ==> n in m && m[n] == before[n]
      invariant forall n :: n in m && n !in before ==> m[n] == dist + 1
      invariant forall n :: n in next <==> n in m && n !in before
      invariant forall j :: 0 <= j < i ==> Relaxed(p, m, frontier[j], p.graph.CalleesOf(frontier[j]), dist + 1)
    {
      ghost var m0 := m;
      m, next := RelaxNode(p, before, m, next, frontier[i], dist + 1);
      forall j | 0 <= j < i
        ensures Relaxed(p, m, frontier[j], p.graph.CalleesOf(frontier[j]), dist + 1)
      {
        RelaxedGrows(p, m0, m, frontier[j], p.graph.CalleesOf(frontier[j]), dist + 1);
      }
    }
    forall n | n in m && m[n] < dist + 1
      ensures Relaxed(p, m, n, p.graph.CalleesOf(n), m[n] + 1)
    {
      if before[n] == dist {
        assert n in frontier;
      } else {
        RelaxedGrows(p, before, m, n, p.graph.CalleesOf(n), before[n] + 1);
      }
    }
  }

  lemma CountDrops(all: set<Id>, old_: set<Id>, new_: set<Id>, x: Id)
    requires old_ <= new_ <= all && x in new_ && x !in old_
    ensures |all - new_| < |all - old_|
  {
    assert all - new_ <= (all - old_) - {x};
    CardinalityMonotone(all - new_, (all - old_) - {x});
  }

  lemma {:induction false} CardinalityMonotone<T>(a: set<T>, b: set<T>)
    requires a <= b
    ensures |a| <= |b|
  {
    assert b == a + (b - a);
  }

  /** One node of the frontier: emplace its admitted callees at `dist`. */
  method RelaxNode(p: Problem, ghost before: map<Id, nat>, m0: map<Id, nat>, next0: seq<Id>, node: Id, dist: nat)
    returns (m: map<Id, nat>, next: seq<Id>)
    requires p.graph.WellFormed() && p.AdmitsByTriple()
    requires m0.Keys <= Universe(p) && CorridorTight(p, m0)
    requires node in before && dist == before[node] + 1
    requires forall n :: n in before ==> n in m0 && m0[n] == before[n] && before[n] <= dist
    requires forall n :: n in m0 && n !in before ==> m0[n] == dist
    requires forall n :: n in next0 <==> n in m0 && n !in before
    ensures m.Keys <= Universe(p) && CorridorTight(p, m)
    ensures forall n :: n in m0 ==> n in m && m[n] == m0[n]
    ensures forall n :: n in m && n !in before ==> m[n] == dist
    ensures forall n :: n in next <==> n in m && n !in before
    ensures Relaxed(p, m, node, p.graph.CalleesOf(node), dist)
  {
    hide QueryGraph.WellFormed, Problem.AdmitsByTriple;
    m, next := m0, next0;
    var edges := p.graph.CalleesOf(node);
    for i := 0 to |edges|
      invariant m.Keys <= Universe(p) && CorridorTight(p, m)
      invariant forall n :: n in m0 ==> n in m && m[n] == m0[n]
      invariant forall n :: n in m && n !in before ==> m[n] == dist
      invariant forall n :: n in next <==> n in m && n !in before
      invariant Relaxed(p, m, node, edges[..i], dist)
    {
      var e := edges[i];
      if p.admits(e) && e.callee !in m {
        assert ReachedIn(p, node, m[node]);
        InUniverse(p, node, e);
        TightStep(p, m, node, e, before[node]);
        m := m[e.callee := dist];
        next := next + [e.callee];
      }
      assert edges[..i + 1] == edges[..i] + [e];
    }
    assert edges[..|edges|] == edges;
  }
}
