/** The two directions of the call query: callees of a function and callers of
    a function, over stored edges, virtual dispatch through overrides and
    pointers returned by functions.  Both show the same calls. */
module CallQueries {
  import opened GraphTypes
  import opened Relations
  import RT = RefTable
  import CG = CallGraph

  // ---- What counts as a call.

  /** The stored edge is itself a call; deferred joins never are. */
  ghost predicate Direct(se: CG.StoredEdge, t: Triple) {
    se.refs > 0 && se.key.kind != FunctionPointerReturn && se.key.Key() == t
  }

  /** A plausible dispatch reaches every override of its static target. */
  ghost predicate ViaOverride(se: CG.StoredEdge, overrides: map<Id, seq<Id>>, t: Triple) {
    && se.refs > 0 && IsDispatch(se.key)
    && t.caller == se.key.caller && t.site == se.key.site
    && t.callee != se.key.callee && Reach(overrides, se.key.callee, t.callee)
  }

  /** A deferred join reaches every function its stored callee returns. */
  ghost predicate ViaReturn(se: CG.StoredEdge, returned: map<Id, set<Id>>, t: Triple) {
    && se.refs > 0 && se.key.kind == FunctionPointerReturn
    && t.caller == se.key.caller && t.site == se.key.site
    && t.callee in Members(returned, se.key.callee)
  }

  predicate IsDispatch(e: EdgeRef) {
    e.kind == VirtualDispatch && e.confidence == Plausible
  }

  ghost predicate Shows(se: CG.StoredEdge, overrides: map<Id, seq<Id>>, returned: map<Id, set<Id>>, t: Triple) {
    Direct(se, t) || ViaOverride(se, overrides, t) || ViaReturn(se, returned, t)
  }

  /** Some stored edge shows the call `t`. */
  ghost predicate Calls(edges: seq<CG.StoredEdge>, overrides: map<Id, seq<Id>>, returned: map<Id, set<Id>>, t: Triple) {
    exists i :: 0 <= i < |edges| && Shows(edges[i], overrides, returned, t)
  }

  lemma TriplesSnoc(r: seq<EdgeRef>, e: EdgeRef)
    ensures TriplesOf(r + [e]) == TriplesOf(r) + {e.Key()}
  {
    assert e in r + [e];
    assert forall x :: x in r ==> x in r + [e];
  }

  function JoinKind(e: EdgeRef): EdgeKind {
    if e.exec != Synchronous then ThreadEntry else FunctionPointer
  }

  // ---- What is shown of a call, attributes included.

  /** The stored calls at one end, oldest first: every live edge but the joins. */
  ghost function StoredCalls(edges: seq<CG.StoredEdge>, n: nat, side: CG.Side, c: Id): seq<EdgeRef>
    requires n <= |edges|
  {
    if n == 0 then []
    else
      var rest, se := StoredCalls(edges, n - 1, side, c), edges[n - 1];
      if se.refs > 0 && CG.EndAt(side, se.key) == c && se.key.kind != FunctionPointerReturn then rest + [se.key] else rest
  }

  /** `e` is a dispatch edge redirected to an override, otherwise unchanged. */
  ghost predicate ByDispatch(se: CG.StoredEdge, overrides: map<Id, seq<Id>>, e: EdgeRef) {
    ViaOverride(se, overrides, e.Key()) && e == se.key.(callee := e.callee)
  }

  /** `e` is a deferred join redirected to a returned function, as a call of the
      kind its execution says. */
  ghost predicate ByJoin(se: CG.StoredEdge, returned: map<Id, set<Id>>, e: EdgeRef) {
    ViaReturn(se, returned, e.Key()) && e == se.key.(callee := e.callee, kind := if se.key.exec == Synchronous then FunctionPointer else ThreadEntry)
  }

  ghost predicate FromDispatch(edges: seq<CG.StoredEdge>, overrides: map<Id, seq<Id>>, e: EdgeRef) {
    exists i :: 0 <= i < |edges| && ByDispatch(edges[i], overrides, e)
  }

  ghost predicate FromJoin(edges: seq<CG.StoredEdge>, returned: map<Id, set<Id>>, e: EdgeRef) {
    exists i :: 0 <= i < |edges| && ByJoin(edges[i], returned, e)
  }

  /** The entries from `lo` on are synthesized from stored edges. */
  ghost predicate Synthesized(edges: seq<CG.StoredEdge>, overrides: map<Id, seq<Id>>, returned: map<Id, set<Id>>, r: seq<EdgeRef>, lo: nat) {
    forall k :: lo <= k < |r| ==> FromDispatch(edges, overrides, r[k]) || FromJoin(edges, returned, r[k])
  }

  lemma SynthesizedNone(edges: seq<CG.StoredEdge>, overrides: map<Id, seq<Id>>, returned: map<Id, set<Id>>, r: seq<EdgeRef>)
    ensures Synthesized(edges, overrides, returned, r, |r|)
  {
  }

  lemma SynthesizedSnoc(edges: seq<CG.StoredEdge>, overrides: map<Id, seq<Id>>, returned: map<Id, set<Id>>, r: seq<EdgeRef>, lo: nat, f: EdgeRef, i: nat)
    requires Synthesized(edges, overrides, returned, r, lo) && i < |edges|
    requires ByDispatch(edges[i], overrides, f) || ByJoin(edges[i], returned, f)
    ensures Synthesized(edges, overrides, returned, r + [f], lo)
  {
    hide ByDispatch, ByJoin;
  }

  /** The stored part of a list of positions. */
  ghost function DirectKeys(edges: seq<CG.StoredEdge>, list: seq<nat>): seq<EdgeRef>
    requires forall j :: 0 <= j < |list| ==> list[j] < |edges|
  {
    if list == [] then []
    else
      var rest, se := DirectKeys(edges, list[..|list| - 1]), edges[list[|list| - 1]];
      if se.refs > 0 && se.key.kind != FunctionPointerReturn then rest + [se.key] else rest
  }

  lemma DirectKeysNext(edges: seq<CG.StoredEdge>, list: seq<nat>, n: nat)
    requires n < |list| && forall j :: 0 <= j < |list| ==> list[j] < |edges|
    ensures var se := edges[list[n]];
            DirectKeys(edges, list[..n + 1]) ==
            DirectKeys(edges, list[..n]) + if se.refs > 0 && se.key.kind != FunctionPointerReturn then [se.key] else []
  {
    assert list[..n + 1][..n] == list[..n];
  }

  lemma {:induction false} DirectKeysStored(edges: seq<CG.StoredEdge>, n: nat, side: CG.Side, c: Id)
    requires n <= |edges|
    ensures forall j :: 0 <= j < |CG.LiveAt(edges, n, side, c)| ==> CG.LiveAt(edges, n, side, c)[j] < n
    ensures DirectKeys(edges, CG.LiveAt(edges, n, side, c)) == StoredCalls(edges, n, side, c)
  {
    if n > 0 {
      DirectKeysStored(edges, n - 1, side, c);
      var rest := CG.LiveAt(edges, n - 1, side, c);
      assert (rest + [n - 1])[..|rest|] == rest;
    } else {
      assert CG.LiveAt(edges, n, side, c) == [];
    }
  }

  // ---- Forward.

  function Landing(e: EdgeRef): (Id, Id) {
    (e.callee, e.site)
  }

  /** What must not be synthesized: the stored dispatches before `lo` and what
      was synthesized from `lo` on.  Nothing was, twice. */
  ghost predicate Settled(r: seq<EdgeRef>, lo: nat, seen: set<(Id, Id)>) {
    && lo <= |r| && (forall k :: 0 <= k < |r| && (k >= lo || r[k].kind == VirtualDispatch) ==> Landing(r[k]) in seen)
    && (forall p :: p in seen ==> exists k :: 0 <= k < |r| && (k >= lo || r[k].kind == VirtualDispatch) && Landing(r[k]) == p)
    && (forall j, k :: 0 <= j < k < |r| && k >= lo && (j >= lo || r[j].kind == VirtualDispatch) ==> Landing(r[j]) != Landing(r[k]))
  }

  lemma SettledStored(r: seq<EdgeRef>, seen: set<(Id, Id)>, e: EdgeRef)
    requires Settled(r, |r|, seen)
    ensures Settled(r + [e], |r| + 1, if e.kind == VirtualDispatch then seen + {Landing(e)} else seen)
  {
    var r' := r + [e];
    forall p | p in seen ensures exists k :: 0 <= k < |r'| && r'[k].kind == VirtualDispatch && Landing(r'[k]) == p {
      var k :| 0 <= k < |r| && (k >= |r| || r[k].kind == VirtualDispatch) && Landing(r[k]) == p;
      assert r'[k] == r[k];
    }
    assert r'[|r|] == e;
  }

  lemma SettledNew(r: seq<EdgeRef>, lo: nat, seen: set<(Id, Id)>, f: EdgeRef)
    requires Settled(r, lo, seen) && Landing(f) !in seen
    ensures Settled(r + [f], lo, seen + {Landing(f)})
  {
    var r' := r + [f];
    forall p | p in seen ensures exists k :: 0 <= k < |r'| && (k >= lo || r'[k].kind == VirtualDispatch) && Landing(r'[k]) == p {
      var k :| 0 <= k < |r| && (k >= lo || r[k].kind == VirtualDispatch) && Landing(r[k]) == p;
      assert r'[k] == r[k];
    }
    assert r'[|r|] == f;
  }

  /** Whatever is marked as seen is in the result. */
  ghost predicate SeenShown(caller: Id, r: seq<EdgeRef>, seen: set<(Id, Id)>) {
    forall p :: p in seen ==> Triple(caller, p.0, p.1) in TriplesOf(r)
  }

  ghost predicate AllFrom(caller: Id, r: seq<EdgeRef>) {
    forall e :: e in r ==> e.caller == caller
  }

  /** Show a call of `e`'s site to each target not shown already. */
  method FanOut(e: EdgeRef, kind: EdgeKind, targets: seq<Id>, r0: seq<EdgeRef>, seen0: set<(Id, Id)>, ghost lo: nat)
    returns (r: seq<EdgeRef>, seen: set<(Id, Id)>)
    requires AllFrom(e.caller, r0) && SeenShown(e.caller, r0, seen0) && Settled(r0, lo, seen0)
    ensures AllFrom(e.caller, r) && SeenShown(e.caller, r, seen) && Settled(r, lo, seen)
    ensures r0 <= r && forall k :: |r0| <= k < |r| ==> r[k].callee in targets && r[k] == e.(callee := r[k].callee, kind := kind)
    ensures forall t :: t in TriplesOf(r) <==>
              t in TriplesOf(r0) || (t.caller == e.caller && t.site == e.site && t.callee in targets)
  {
    hide TriplesOf, Settled;
    r, seen := r0, seen0;
    for i := 0 to |targets|
      invariant AllFrom(e.caller, r) && SeenShown(e.caller, r, seen) && Settled(r, lo, seen)
      invariant r0 <= r && forall k :: |r0| <= k < |r| ==> r[k].callee in targets && r[k] == e.(callee := r[k].callee, kind := kind)
      invariant forall t :: t in TriplesOf(r) <==>
                  t in TriplesOf(r0) || (t.caller == e.caller && t.site == e.site && t.callee in targets[..i])
    {
      var x := targets[i];
      assert targets[..i + 1] == targets[..i] + [x];
      if (x, e.site) !in seen {
        var f := e.(callee := x, kind := kind);
        TriplesSnoc(r, f);
        SettledNew(r, lo, seen, f);
        r := r + [f];
        seen := seen + {(x, e.site)};
      } else {
        assert Triple(e.caller, x, e.site) in TriplesOf(r);
      }
    }
    assert targets[..|targets|] == targets;
  }

  /** Some edge among the first `n` of `list` is itself the call `t`. */
  ghost predicate SomeDirect(edges: seq<CG.StoredEdge>, list: seq<nat>, n: nat, t: Triple)
    requires n <= |list| && forall j :: 0 <= j < |list| ==> list[j] < |edges|
  {
    exists j :: 0 <= j < n && Direct(edges[list[j]], t)
  }

  ghost predicate SomeOverride(edges: seq<CG.StoredEdge>, list: seq<nat>, n: nat, overrides: map<Id, seq<Id>>, t: Triple)
    requires n <= |list| && forall j :: 0 <= j < |list| ==> list[j] < |edges|
  {
    exists j :: 0 <= j < n && ViaOverride(edges[list[j]], overrides, t)
  }

  ghost predicate SomeReturn(edges: seq<CG.StoredEdge>, list: seq<nat>, n: nat, returned: map<Id, set<Id>>, t: Triple)
    requires n <= |list| && forall j :: 0 <= j < |list| ==> list[j] < |edges|
  {
    exists j :: 0 <= j < n && ViaReturn(edges[list[j]], returned, t)
  }

  lemma SomeNext(edges: seq<CG.StoredEdge>, list: seq<nat>, n: nat, overrides: map<Id, seq<Id>>, returned: map<Id, set<Id>>, t: Triple)
    requires n < |list| && forall j :: 0 <= j < |list| ==> list[j] < |edges|
    ensures SomeDirect(edges, list, n + 1, t) <==> SomeDirect(edges, list, n, t) || Direct(edges[list[n]], t)
    ensures SomeOverride(edges, list, n + 1, overrides, t) <==>
            SomeOverride(edges, list, n, overrides, t) || ViaOverride(edges[list[n]], overrides, t)
    ensures SomeReturn(edges, list, n + 1, returned, t) <==>
            SomeReturn(edges, list, n, returned, t) || ViaReturn(edges[list[n]], returned, t)
  {
    hide Direct, ViaOverride, ViaReturn;
  }

  method StoredCallees(edges: seq<CG.StoredEdge>, caller: Id, list: seq<nat>) returns (r: seq<EdgeRef>, seen: set<(Id, Id)>)
    requires forall j :: 0 <= j < |list| ==> list[j] < |edges| && edges[list[j]].key.caller == caller
    ensures AllFrom(caller, r) && SeenShown(caller, r, seen)
    ensures r == DirectKeys(edges, list) && Settled(r, |r|, seen)
    ensures forall t :: t in TriplesOf(r) <==> SomeDirect(edges, list, |list|, t)
  {
    hide TriplesOf, SomeDirect, Settled, DirectKeys;
    r, seen := [], {};
    NothingSettled(edges, list);
    NoTriples();
    forall t ensures !SomeDirect(edges, list, 0, t) {
      NoneYet(edges, list, map[], map[], t);
    }
    for i := 0 to |list|
      invariant AllFrom(caller, r) && SeenShown(caller, r, seen)
      invariant r == DirectKeys(edges, list[..i]) && Settled(r, |r|, seen)
      invariant forall t :: t in TriplesOf(r) <==> SomeDirect(edges, list, i, t)
    {
      var se := edges[list[i]];
      DirectKeysNext(edges, list, i);
      SettledStored(r, seen, se.key);
      forall t ensures SomeDirect(edges, list, i + 1, t) <==> SomeDirect(edges, list, i, t) || Direct(se, t) {
        SomeNext(edges, list, i, map[], map[], t);
      }
      if se.refs > 0 && se.key.kind != FunctionPointerReturn {
        TriplesSnoc(r, se.key);
        r := r + [se.key];
        if se.key.kind == VirtualDispatch {
          seen := seen + {(se.key.callee, se.key.site)};
        }
      }
    }
    assert list[..|list|] == list;
  }

  lemma NothingSettled(edges: seq<CG.StoredEdge>, list: seq<nat>)
    requires forall j :: 0 <= j < |list| ==> list[j] < |edges|
    ensures Settled([], 0, {}) && DirectKeys(edges, list[..0]) == []
  {
  }

  lemma NoTriples()
    ensures TriplesOf([]) == {}
  {
  }

  lemma NoneYet(edges: seq<CG.StoredEdge>, list: seq<nat>, overrides: map<Id, seq<Id>>, returned: map<Id, set<Id>>, t: Triple)
    requires forall j :: 0 <= j < |list| ==> list[j] < |edges|
    ensures !SomeDirect(edges, list, 0, t) && !SomeOverride(edges, list, 0, overrides, t) && !SomeReturn(edges, list, 0, returned, t)
  {
  }

  /** The entries that one fan-out adds are synthesized. */
  lemma FannedOut(edges: seq<CG.StoredEdge>, overrides: map<Id, seq<Id>>, returned: map<Id, set<Id>>, r: seq<EdgeRef>, n: nat, lo: nat, i: nat)
    requires n <= |r| && Synthesized(edges, overrides, returned, r[..n], lo) && i < |edges|
    requires forall k :: n <= k < |r| ==> ByDispatch(edges[i], overrides, r[k]) || ByJoin(edges[i], returned, r[k])
    ensures Synthesized(edges, overrides, returned, r, lo)
  {
    hide ByDispatch, ByJoin;
    forall k | lo <= k < |r| ensures FromDispatch(edges, overrides, r[k]) || FromJoin(edges, returned, r[k]) {
      if k < n {
        assert r[..n][k] == r[k];
      }
    }
  }

  method OverrideCallees(edges: seq<CG.StoredEdge>, caller: Id, list: seq<nat>, overrides: map<Id, seq<Id>>, ghost returned: map<Id, set<Id>>,
                         r0: seq<EdgeRef>, seen0: set<(Id, Id)>, ghost lo: nat) returns (r: seq<EdgeRef>, seen: set<(Id, Id)>)
    requires forall j :: 0 <= j < |list| ==> list[j] < |edges| && edges[list[j]].key.caller == caller
    requires AllFrom(caller, r0) && SeenShown(caller, r0, seen0) && Settled(r0, lo, seen0) && Synthesized(edges, overrides, returned, r0, lo)
    ensures AllFrom(caller, r) && SeenShown(caller, r, seen) && Settled(r, lo, seen)
    ensures r0 <= r && Synthesized(edges, overrides, returned, r, lo)
    ensures forall t :: t in TriplesOf(r) <==> t in TriplesOf(r0) || SomeOverride(edges, list, |list|, overrides, t)
  {
    hide TriplesOf, SomeOverride, Reach, SeenShown, AllFrom, Settled, Synthesized;
    r, seen := r0, seen0;
    forall t ensures !SomeOverride(edges, list, 0, overrides, t) {
      NoneYet(edges, list, overrides, map[], t);
    }
    for i := 0 to |list|
      invariant AllFrom(caller, r) && SeenShown(caller, r, seen) && Settled(r, lo, seen)
      invariant r0 <= r && Synthesized(edges, overrides, returned, r, lo)
      invariant forall t :: t in TriplesOf(r) <==> t in TriplesOf(r0) || SomeOverride(edges, list, i, overrides, t)
    {
      var se := edges[list[i]];
      forall t
        ensures SomeOverride(edges, list, i + 1, overrides, t) <==>
                SomeOverride(edges, list, i, overrides, t) || ViaOverride(se, overrides, t)
      {
        SomeNext(edges, list, i, overrides, map[], t);
      }
      if se.refs > 0 && IsDispatch(se.key) {
        var targets := TransitiveClosure(se.key.callee, overrides);
        ghost var before := r;
        r, seen := FanOut(se.key, se.key.kind, targets, r, seen, lo);
        assert r[..|before|] == before;
        FannedOut(edges, overrides, returned, r, |before|, lo, list[i]);
      }
    }
  }

  method ReturnCallees(edges: seq<CG.StoredEdge>, caller: Id, list: seq<nat>, ghost overrides: map<Id, seq<Id>>, returned: map<Id, set<Id>>,
                       r0: seq<EdgeRef>, seen0: set<(Id, Id)>, ghost lo: nat) returns (r: seq<EdgeRef>, seen: set<(Id, Id)>)
    requires forall j :: 0 <= j < |list| ==> list[j] < |edges| && edges[list[j]].key.caller == caller
    requires AllFrom(caller, r0) && SeenShown(caller, r0, seen0) && Settled(r0, lo, seen0) && Synthesized(edges, overrides, returned, r0, lo)
    ensures AllFrom(caller, r) && SeenShown(caller, r, seen) && Settled(r, lo, seen)
    ensures r0 <= r && Synthesized(edges, overrides, returned, r, lo)
    ensures forall t :: t in TriplesOf(r) <==> t in TriplesOf(r0) || SomeReturn(edges, list, |list|, returned, t)
  {
    hide TriplesOf, SomeReturn, SeenShown, AllFrom, Settled, Synthesized;
    r, seen := r0, seen0;
    forall t ensures !SomeReturn(edges, list, 0, returned, t) {
      NoneYet(edges, list, map[], returned, t);
    }
    for i := 0 to |list|
      invariant AllFrom(caller, r) && SeenShown(caller, r, seen) && Settled(r, lo, seen)
      invariant r0 <= r && Synthesized(edges, overrides, returned, r, lo)
      invariant forall t :: t in TriplesOf(r) <==> t in TriplesOf(r0) || SomeReturn(edges, list, i, returned, t)
    {
      var se := edges[list[i]];
      forall t
        ensures SomeReturn(edges, list, i + 1, returned, t) <==> SomeReturn(edges, list, i, returned, t) || ViaReturn(se, returned, t)
      {
        SomeNext(edges, list, i, map[], returned, t);
      }
      if se.refs > 0 && se.key.kind == FunctionPointerReturn {
        var targets := ListOf(Members(returned, se.key.callee));
        ghost var before := r;
        r, seen := FanOut(se.key, JoinKind(se.key), targets, r, seen, lo);
        assert r[..|before|] == before;
        FannedOut(edges, overrides, returned, r, |before|, lo, list[i]);
      }
    }
  }

  ghost predicate ForwardAnswer(edges: seq<CG.StoredEdge>, overrides: map<Id, seq<Id>>, returned: map<Id, set<Id>>, caller: Id, r: seq<EdgeRef>) {
    var stored := StoredCalls(edges, |edges|, CG.Out, caller);
    stored <= r && Synthesized(edges, overrides, returned, r, |stored|) && LandsOnce(r, |stored|)
  }

  ghost predicate LandsOnce(r: seq<EdgeRef>, lo: nat) {
    forall j, k :: 0 <= j < k < |r| && k >= lo && (j >= lo || r[j].kind == VirtualDispatch) ==> Landing(r[j]) != Landing(r[k])
  }

  lemma SettledMeans(r: seq<EdgeRef>, lo: nat, seen: set<(Id, Id)>)
    requires Settled(r, lo, seen)
    ensures LandsOnce(r, lo)
  {
  }

  /** The calls that leave `caller`. */
  method CalleeRefsOf(g: CG.CallGraph, rel: Relations, caller: Id) returns (r: seq<EdgeRef>)
    requires g.Valid() && rel.Valid()
    ensures forall e :: e in r ==> e.caller == caller
    // First the stored calls, as they are stored; then what they are expanded to,
    // each landing once and none that a stored dispatch already has.
    ensures ForwardAnswer(g.edges, rel.methodOverrides, rel.functionReturns, caller, r)
    ensures forall t :: t in TriplesOf(r) <==>
              t.caller == caller && Calls(g.edges, rel.methodOverrides, rel.functionReturns, t)
  {
    hide TriplesOf, SomeDirect, SomeOverride, SomeReturn, RT.IndexOk, RT.CountsMatch, RT.UnitsMatch, CG.LiveAt, Transposed, ReturnsTransposed, SeenShown;
    hide Settled, Synthesized, StoredCalls;
    var list := RT.Bucket(g.outEdges, caller);
    assert list == CG.LiveAt(g.edges, |g.edges|, CG.Out, caller);
    ListIsLive(g.edges, CG.Out, caller, list);
    DirectKeysStored(g.edges, |g.edges|, CG.Out, caller);
    var seen;
    r, seen := StoredCallees(g.edges, caller, list);
    ghost var lo := |r|;
    SynthesizedNone(g.edges, rel.methodOverrides, rel.functionReturns, r);
    r, seen := OverrideCallees(g.edges, caller, list, rel.methodOverrides, rel.functionReturns, r, seen, lo);
    r, seen := ReturnCallees(g.edges, caller, list, rel.methodOverrides, rel.functionReturns, r, seen, lo);
    SettledMeans(r, lo, seen);
    forall t ensures
      SomeDirect(g.edges, list, |list|, t) || SomeOverride(g.edges, list, |list|, rel.methodOverrides, t) ||
      SomeReturn(g.edges, list, |list|, rel.functionReturns, t)
      <==> t.caller == caller && Calls(g.edges, rel.methodOverrides, rel.functionReturns, t)
    {
      OutListShows(g.edges, caller, list, rel.methodOverrides, rel.functionReturns, t);
    }
  }

  lemma ListIsLive(edges: seq<CG.StoredEdge>, side: CG.Side, c: Id, list: seq<nat>)
    requires list == CG.LiveAt(edges, |edges|, side, c)
    ensures forall j :: 0 <= j < |list| ==> list[j] < |edges| && edges[list[j]].refs > 0 && CG.EndAt(side, edges[list[j]].key) == c
    ensures forall i :: 0 <= i < |edges| && edges[i].refs > 0 && CG.EndAt(side, edges[i].key) == c ==> i in list
  {
    forall j | 0 <= j < |list|
      ensures list[j] < |edges| && edges[list[j]].refs > 0 && CG.EndAt(side, edges[list[j]].key) == c
    {
      CG.LiveAtMember(edges, |edges|, side, c, list[j]);
    }
    forall i | 0 <= i < |edges| && edges[i].refs > 0 && CG.EndAt(side, edges[i].key) == c ensures i in list {
      CG.LiveAtMember(edges, |edges|, side, c, i);
    }
  }

  lemma OutListShows(edges: seq<CG.StoredEdge>, caller: Id, list: seq<nat>, overrides: map<Id, seq<Id>>, returned: map<Id, set<Id>>, t: Triple)
    requires forall j :: 0 <= j < |list| ==> list[j] < |edges| && edges[list[j]].key.caller == caller
    requires forall i :: 0 <= i < |edges| && edges[i].refs > 0 && edges[i].key.caller == caller ==> i in list
    ensures SomeDirect(edges, list, |list|, t) || SomeOverride(edges, list, |list|, overrides, t) || SomeReturn(edges, list, |list|, returned, t)
            <==> t.caller == caller && Calls(edges, overrides, returned, t)
  {
    hide Reach;
    if t.caller == caller && Calls(edges, overrides, returned, t) {
      var i :| 0 <= i < |edges| && Shows(edges[i], overrides, returned, t);
      var j :| 0 <= j < |list| && list[j] == i;
    }
    if SomeDirect(edges, list, |list|, t) {
      var j :| 0 <= j < |list| && Direct(edges[list[j]], t);
      assert Shows(edges[list[j]], overrides, returned, t);
    }
    if SomeOverride(edges, list, |list|, overrides, t) {
      var j :| 0 <= j < |list| && ViaOverride(edges[list[j]], overrides, t);
      assert Shows(edges[list[j]], overrides, returned, t);
    }
    if SomeReturn(edges, list, |list|, returned, t) {
      var j :| 0 <= j < |list| && ViaReturn(edges[list[j]], returned, t);
      assert Shows(edges[list[j]], overrides, returned, t);
    }
  }

  // ---- Reverse.

  /** Which deferred expansion an edge takes part in. */
  datatype Expansion = Overrides | Returns

  predicate Expands(x: Expansion, e: EdgeRef) {
    match x
    case Overrides => IsDispatch(e)
    case Returns => e.kind == FunctionPointerReturn
  }

  function ExpandedKind(x: Expansion, e: EdgeRef): EdgeKind {
    match x
    case Overrides => e.kind
    case Returns => JoinKind(e)
  }

  ghost function CallSitesOf(r: seq<EdgeRef>): set<(Id, Id)> {
    set e | e in r :: (e.caller, e.site)
  }

  lemma CallSitesSnoc(r: seq<EdgeRef>, e: EdgeRef)
    ensures CallSitesOf(r + [e]) == CallSitesOf(r) + {(e.caller, e.site)}
  {
    assert e in r + [e];
    assert forall x :: x in r ==> x in r + [e];
  }

  ghost predicate AllInto(callee: Id, r: seq<EdgeRef>) {
    forall e :: e in r ==> e.callee == callee
  }

  /** The result so far: about `callee` only, no edge twice, sites known. */
  ghost predicate Gathered(callee: Id, r: seq<EdgeRef>, seen: set<(Id, Id)>) {
    AllInto(callee, r) && NoDuplicates(r) && seen == CallSitesOf(r)
  }

  lemma GatherNew(callee: Id, r: seq<EdgeRef>, seen: set<(Id, Id)>, e: EdgeRef)
    requires Gathered(callee, r, seen) && e.callee == callee && (e.caller, e.site) !in seen
    ensures Gathered(callee, r + [e], seen + {(e.caller, e.site)})
  {
    CallSitesSnoc(r, e);
    assert forall x :: x in r ==> (x.caller, x.site) in CallSitesOf(r);
  }

  lemma SeenIsShown(callee: Id, r: seq<EdgeRef>, seen: set<(Id, Id)>, caller: Id, site: Id)
    requires Gathered(callee, r, seen) && (caller, site) in seen
    ensures Triple(caller, callee, site) in TriplesOf(r)
  {
    var e :| e in r && (e.caller, e.site) == (caller, site);
    assert e.Key() == Triple(caller, callee, site);
  }

  /** A live edge into `b` that expands as `x` leaves `caller` at `site`. */
  ghost predicate Into(edges: seq<CG.StoredEdge>, x: Expansion, b: Id, caller: Id, site: Id) {
    exists i :: 0 <= i < |edges| && IntoAt(edges[i], x, b, caller, site)
  }

  ghost predicate IntoAt(se: CG.StoredEdge, x: Expansion, b: Id, caller: Id, site: Id) {
    se.refs > 0 && Expands(x, se.key) && se.key.callee == b && se.key.caller == caller && se.key.site == site
  }

  ghost predicate SomeInto(edges: seq<CG.StoredEdge>, list: seq<nat>, n: nat, x: Expansion, b: Id, caller: Id, site: Id)
    requires n <= |list| && forall j :: 0 <= j < |list| ==> list[j] < |edges|
  {
    exists j :: 0 <= j < n && IntoAt(edges[list[j]], x, b, caller, site)
  }

  lemma SomeIntoNext(edges: seq<CG.StoredEdge>, list: seq<nat>, n: nat, x: Expansion, b: Id, caller: Id, site: Id)
    requires n < |list| && forall j :: 0 <= j < |list| ==> list[j] < |edges|
    ensures SomeInto(edges, list, n + 1, x, b, caller, site) <==>
            SomeInto(edges, list, n, x, b, caller, site) || IntoAt(edges[list[n]], x, b, caller, site)
  {
    hide IntoAt;
  }

  lemma SomeIntoAll(edges: seq<CG.StoredEdge>, list: seq<nat>, x: Expansion, b: Id, caller: Id, site: Id)
    requires forall j :: 0 <= j < |list| ==> list[j] < |edges|
    requires forall i :: 0 <= i < |edges| && edges[i].refs > 0 && edges[i].key.callee == b ==> i in list
    ensures !SomeInto(edges, list, 0, x, b, caller, site)
    ensures SomeInto(edges, list, |list|, x, b, caller, site) <==> Into(edges, x, b, caller, site)
  {
    if Into(edges, x, b, caller, site) {
      var i :| 0 <= i < |edges| && IntoAt(edges[i], x, b, caller, site);
      var j :| 0 <= j < |list| && list[j] == i;
      assert IntoAt(edges[list[j]], x, b, caller, site);
    }
    if SomeInto(edges, list, |list|, x, b, caller, site) {
      var j :| 0 <= j < |list| && IntoAt(edges[list[j]], x, b, caller, site);
    }
  }

  /** A call of `b` that expands as `x` may reach `callee`. */
  ghost predicate Reaches(x: Expansion, overrides: map<Id, seq<Id>>, returned: map<Id, set<Id>>, b: Id, callee: Id) {
    match x
    case Overrides => b != callee && Reach(overrides, b, callee)
    case Returns => callee in Members(returned, b)
  }

  /** From `lo` on every entry has a call site of its own. */
  ghost predicate NewSites(r: seq<EdgeRef>, lo: nat) {
    forall j, k :: 0 <= j < k < |r| && k >= lo ==> r[j].caller != r[k].caller || r[j].site != r[k].site
  }

  lemma NewSitesSnoc(callee: Id, r: seq<EdgeRef>, seen: set<(Id, Id)>, lo: nat, f: EdgeRef)
    requires NewSites(r, lo) && Gathered(callee, r, seen) && (f.caller, f.site) !in seen
    ensures NewSites(r + [f], lo)
  {
    forall j | 0 <= j < |r| ensures r[j].caller != f.caller || r[j].site != f.site {
      assert r[j] in r;
      assert (r[j].caller, r[j].site) in CallSitesOf(r);
    }
  }

  /** What the reverse query has gathered from `lo` on. */
  ghost predicate ExpandedFrom(edges: seq<CG.StoredEdge>, overrides: map<Id, seq<Id>>, returned: map<Id, set<Id>>, r: seq<EdgeRef>, lo: nat) {
    Synthesized(edges, overrides, returned, r, lo) && NewSites(r, lo)
  }

  lemma ExpandedSnoc(edges: seq<CG.StoredEdge>, overrides: map<Id, seq<Id>>, returned: map<Id, set<Id>>, x: Expansion, callee: Id,
                   r: seq<EdgeRef>, seen: set<(Id, Id)>, lo: nat, i: nat)
    requires i < |edges| && edges[i].refs > 0 && Expands(x, edges[i].key) && Reaches(x, overrides, returned, edges[i].key.callee, callee)
    requires ExpandedFrom(edges, overrides, returned, r, lo) && Gathered(callee, r, seen) && (edges[i].key.caller, edges[i].key.site) !in seen
    ensures ExpandedFrom(edges, overrides, returned, r + [edges[i].key.(callee := callee, kind := ExpandedKind(x, edges[i].key))], lo)
  {
    hide Reach, Synthesized, NewSites, Gathered;
    var f := edges[i].key.(callee := callee, kind := ExpandedKind(x, edges[i].key));
    assert x.Overrides? ==> ByDispatch(edges[i], overrides, f);
    assert x.Returns? ==> ByJoin(edges[i], returned, f);
    SynthesizedSnoc(edges, overrides, returned, r, lo, f, i);
    NewSitesSnoc(callee, r, seen, lo, f);
  }

  /** Show the call sites of `b`'s expanding edges as calls of `callee`. */
  method FanIn(edges: seq<CG.StoredEdge>, list: seq<nat>, x: Expansion, b: Id, callee: Id, r0: seq<EdgeRef>, seen0: set<(Id, Id)>,
               ghost overrides: map<Id, seq<Id>>, ghost returned: map<Id, set<Id>>, ghost lo: nat)
    returns (r: seq<EdgeRef>, seen: set<(Id, Id)>)
    requires forall j :: 0 <= j < |list| ==> list[j] < |edges| && edges[list[j]].key.callee == b
    requires forall i :: 0 <= i < |edges| && edges[i].refs > 0 && edges[i].key.callee == b ==> i in list
    requires Gathered(callee, r0, seen0) && ExpandedFrom(edges, overrides, returned, r0, lo) && Reaches(x, overrides, returned, b, callee)
    ensures Gathered(callee, r, seen) && ExpandedFrom(edges, overrides, returned, r, lo) && r0 <= r
    ensures forall t :: t in TriplesOf(r) <==>
              t in TriplesOf(r0) || (t.callee == callee && Into(edges, x, b, t.caller, t.site))
  {
    hide TriplesOf, SomeInto, Into, Gathered, ExpandedFrom, Reaches;
    r, seen := r0, seen0;
    forall c, s
      ensures !SomeInto(edges, list, 0, x, b, c, s)
      ensures SomeInto(edges, list, |list|, x, b, c, s) <==> Into(edges, x, b, c, s)
    {
      SomeIntoAll(edges, list, x, b, c, s);
    }
    for i := 0 to |list|
      invariant Gathered(callee, r, seen) && ExpandedFrom(edges, overrides, returned, r, lo) && r0 <= r
      invariant forall t :: t in TriplesOf(r) <==>
                  t in TriplesOf(r0) || (t.callee == callee && SomeInto(edges, list, i, x, b, t.caller, t.site))
    {
      var se := edges[list[i]];
      forall c, s ensures SomeInto(edges, list, i + 1, x, b, c, s) <==> SomeInto(edges, list, i, x, b, c, s) || IntoAt(se, x, b, c, s) {
        SomeIntoNext(edges, list, i, x, b, c, s);
      }
      if se.refs > 0 && Expands(x, se.key) {
        if (se.key.caller, se.key.site) !in seen {
          var f := se.key.(callee := callee, kind := ExpandedKind(x, se.key));
          ExpandedSnoc(edges, overrides, returned, x, callee, r, seen, lo, list[i]);
          GatherNew(callee, r, seen, f);
          TriplesSnoc(r, f);
          r := r + [f];
          seen := seen + {(f.caller, f.site)};
        } else {
          SeenIsShown(callee, r, seen, se.key.caller, se.key.site);
        }
      }
    }
  }

  /** Some of the first `n` functions is called by such an edge. */
  ghost predicate IntoSome(edges: seq<CG.StoredEdge>, x: Expansion, bs: seq<Id>, n: nat, caller: Id, site: Id)
    requires n <= |bs|
  {
    exists k :: 0 <= k < n && Into(edges, x, bs[k], caller, site)
  }

  lemma IntoSomeNext(edges: seq<CG.StoredEdge>, x: Expansion, bs: seq<Id>, n: nat, caller: Id, site: Id)
    requires n < |bs|
    ensures IntoSome(edges, x, bs, n + 1, caller, site) <==> IntoSome(edges, x, bs, n, caller, site) || Into(edges, x, bs[n], caller, site)
  {
    hide Into;
  }

  /** Fan in from each of several functions. */
  method FanInAll(g: CG.CallGraph, x: Expansion, bs: seq<Id>, callee: Id, r0: seq<EdgeRef>, seen0: set<(Id, Id)>,
                  ghost overrides: map<Id, seq<Id>>, ghost returned: map<Id, set<Id>>, ghost lo: nat)
    returns (r: seq<EdgeRef>, seen: set<(Id, Id)>)
    requires g.Valid() && Gathered(callee, r0, seen0) && ExpandedFrom(g.edges, overrides, returned, r0, lo)
    requires forall k :: 0 <= k < |bs| ==> Reaches(x, overrides, returned, bs[k], callee)
    ensures Gathered(callee, r, seen) && ExpandedFrom(g.edges, overrides, returned, r, lo) && r0 <= r
    ensures forall t :: t in TriplesOf(r) <==>
              t in TriplesOf(r0) || (t.callee == callee && IntoSome(g.edges, x, bs, |bs|, t.caller, t.site))
  {
    hide TriplesOf, Into, IntoSome, Gathered, ExpandedFrom, Reaches, RT.IndexOk, RT.CountsMatch, RT.UnitsMatch, CG.LiveAt;
    r, seen := r0, seen0;
    forall c, s ensures !IntoSome(g.edges, x, bs, 0, c, s) {
      IntoNone(g.edges, x, bs, c, s);
    }
    for i := 0 to |bs|
      invariant Gathered(callee, r, seen) && ExpandedFrom(g.edges, overrides, returned, r, lo) && r0 <= r
      invariant forall t :: t in TriplesOf(r) <==>
                  t in TriplesOf(r0) || (t.callee == callee && IntoSome(g.edges, x, bs, i, t.caller, t.site))
    {
      var list := RT.Bucket(g.inEdges, bs[i]);
      assert list == CG.LiveAt(g.edges, |g.edges|, CG.In, bs[i]);
      ListIsLive(g.edges, CG.In, bs[i], list);
      r, seen := FanIn(g.edges, list, x, bs[i], callee, r, seen, overrides, returned, lo);
      forall c, s ensures IntoSome(g.edges, x, bs, i + 1, c, s) <==> IntoSome(g.edges, x, bs, i, c, s) || Into(g.edges, x, bs[i], c, s) {
        IntoSomeNext(g.edges, x, bs, i, c, s);
      }
    }
  }

  lemma IntoNone(edges: seq<CG.StoredEdge>, x: Expansion, bs: seq<Id>, caller: Id, site: Id)
    ensures !IntoSome(edges, x, bs, 0, caller, site)
  {
  }

  lemma {:induction false} LiveAtAscending(edges: seq<CG.StoredEdge>, n: nat, side: CG.Side, c: Id)
    requires n <= |edges|
    ensures forall i, j :: 0 <= i < j < |CG.LiveAt(edges, n, side, c)| ==> CG.LiveAt(edges, n, side, c)[i] != CG.LiveAt(edges, n, side, c)[j]
  {
    if n > 0 {
      LiveAtAscending(edges, n - 1, side, c);
      var rest := CG.LiveAt(edges, n - 1, side, c);
      forall i | 0 <= i < |rest| ensures rest[i] != n - 1 {
        CG.LiveAtMember(edges, n - 1, side, c, rest[i]);
      }
    }
  }

  method StoredCallers(edges: seq<CG.StoredEdge>, ghost index: map<EdgeRef, nat>, callee: Id, list: seq<nat>)
    returns (r: seq<EdgeRef>, seen: set<(Id, Id)>)
    requires RT.IndexOk(edges, index)
    requires forall j :: 0 <= j < |list| ==> list[j] < |edges| && edges[list[j]].refs > 0 && edges[list[j]].key.callee == callee
    requires forall i, j :: 0 <= i < j < |list| ==> list[i] != list[j]
    ensures Gathered(callee, r, seen) && r == DirectKeys(edges, list)
    ensures forall t :: t in TriplesOf(r) <==> SomeDirect(edges, list, |list|, t)
  {
    hide TriplesOf, SomeDirect, CallSitesOf, NoDuplicates, RT.IndexOk, DirectKeys;
    r, seen := [], {};
    NothingSettled(edges, list);
    NoTriples();
    NothingGathered(callee);
    forall t ensures !SomeDirect(edges, list, 0, t) {
      NoneYet(edges, list, map[], map[], t);
    }
    for i := 0 to |list|
      invariant Gathered(callee, r, seen) && r == DirectKeys(edges, list[..i])
      invariant forall e :: e in r ==> exists j :: 0 <= j < i && edges[list[j]].key == e
      invariant forall t :: t in TriplesOf(r) <==> SomeDirect(edges, list, i, t)
    {
      var se := edges[list[i]];
      forall t ensures SomeDirect(edges, list, i + 1, t) <==> SomeDirect(edges, list, i, t) || Direct(se, t) {
        SomeNext(edges, list, i, map[], map[], t);
      }
      DirectKeysNext(edges, list, i);
      if se.refs > 0 && se.key.kind != FunctionPointerReturn {
        if se.key in r {
          var j :| 0 <= j < i && edges[list[j]].key == se.key;
          SameEdgeSamePlace(edges, index, list[j], list[i]);
        }
        TriplesSnoc(r, se.key);
        GatherStored(callee, r, seen, se.key);
        r := r + [se.key];
        seen := seen + {(se.key.caller, se.key.site)};
      }
    }
    assert list[..|list|] == list;
  }

  lemma SameEdgeSamePlace(edges: seq<CG.StoredEdge>, index: map<EdgeRef, nat>, i: nat, j: nat)
    requires RT.IndexOk(edges, index) && i < |edges| && j < |edges| && edges[i].refs > 0 && edges[j].refs > 0
    requires edges[i].key == edges[j].key
    ensures i == j
  {
    assert index[edges[i].key] == i && index[edges[j].key] == j;
  }

  lemma NothingGathered(callee: Id)
    ensures Gathered(callee, [], {})
  {
  }

  lemma GatheredMeans(callee: Id, r: seq<EdgeRef>, seen: set<(Id, Id)>)
    requires Gathered(callee, r, seen)
    ensures (forall e :: e in r ==> e.callee == callee) && NoDuplicates(r)
  {
  }

  lemma GatherStored(callee: Id, r: seq<EdgeRef>, seen: set<(Id, Id)>, e: EdgeRef)
    requires Gathered(callee, r, seen) && e.callee == callee && e !in r
    ensures Gathered(callee, r + [e], seen + {(e.caller, e.site)})
  {
    CallSitesSnoc(r, e);
  }

  ghost predicate ReverseAnswer(edges: seq<CG.StoredEdge>, overrides: map<Id, seq<Id>>, returned: map<Id, set<Id>>, callee: Id, r: seq<EdgeRef>) {
    var stored := StoredCalls(edges, |edges|, CG.In, callee);
    stored <= r && ExpandedFrom(edges, overrides, returned, r, |stored|)
  }

  lemma NothingExpanded(edges: seq<CG.StoredEdge>, overrides: map<Id, seq<Id>>, returned: map<Id, set<Id>>, r: seq<EdgeRef>)
    ensures ExpandedFrom(edges, overrides, returned, r, |r|)
  {
  }

  lemma BasesReach(rel: Relations, bases: seq<Id>, callee: Id)
    requires rel.Valid() && forall b :: b in bases <==> b != callee && Reach(rel.overrideBases, callee, b)
    ensures forall k :: 0 <= k < |bases| ==> Reaches(Overrides, rel.methodOverrides, rel.functionReturns, bases[k], callee)
  {
    hide Reach, Transposed;
    forall k | 0 <= k < |bases| ensures Reaches(Overrides, rel.methodOverrides, rel.functionReturns, bases[k], callee) {
      assert bases[k] in bases;
      ReachTransposed(rel.methodOverrides, rel.overrideBases, bases[k], callee);
    }
  }

  lemma ReturnersReach(rel: Relations, returners: seq<Id>, callee: Id)
    requires rel.Valid() && returners == Bucket(rel.returnedBy, callee)
    ensures forall k :: 0 <= k < |returners| ==> Reaches(Returns, rel.methodOverrides, rel.functionReturns, returners[k], callee)
  {
    forall k | 0 <= k < |returners| ensures callee in Members(rel.functionReturns, returners[k]) {
      assert returners[k] in returners;
    }
  }

  /** The calls that reach `callee`. */
  method CallerRefsOf(g: CG.CallGraph, rel: Relations, callee: Id) returns (r: seq<EdgeRef>)
    requires g.Valid() && rel.Valid()
    ensures forall e :: e in r ==> e.callee == callee
    ensures NoDuplicates(r)
    // First the stored calls, then what expands to this function, from call sites
    // that are not there yet.
    ensures ReverseAnswer(g.edges, rel.methodOverrides, rel.functionReturns, callee, r)
    ensures forall t :: t in TriplesOf(r) <==>
              t.callee == callee && Calls(g.edges, rel.methodOverrides, rel.functionReturns, t)
  {
    hide TriplesOf, SomeDirect, IntoSome, Into, RT.IndexOk, RT.CountsMatch, RT.UnitsMatch, CG.LiveAt, Transposed, ReturnsTransposed, CallSitesOf, Reach, Calls;
    hide ExpandedFrom, Reaches, StoredCalls, Gathered;
    var list := RT.Bucket(g.inEdges, callee);
    assert list == CG.LiveAt(g.edges, |g.edges|, CG.In, callee);
    ListIsLive(g.edges, CG.In, callee, list);
    DirectKeysStored(g.edges, |g.edges|, CG.In, callee);
    LiveAtAscending(g.edges, |g.edges|, CG.In, callee);
    var seen;
    r, seen := StoredCallers(g.edges, g.edgeIndex, callee, list);
    ghost var lo := |r|;
    NothingExpanded(g.edges, rel.methodOverrides, rel.functionReturns, r);
    var bases := TransitiveClosure(callee, rel.overrideBases);
    BasesReach(rel, bases, callee);
    r, seen := FanInAll(g, Overrides, bases, callee, r, seen, rel.methodOverrides, rel.functionReturns, lo);
    var returners := Bucket(rel.returnedBy, callee);
    ReturnersReach(rel, returners, callee);
    r, seen := FanInAll(g, Returns, returners, callee, r, seen, rel.methodOverrides, rel.functionReturns, lo);
    GatheredMeans(callee, r, seen);
    forall t ensures
      SomeDirect(g.edges, list, |list|, t) ||
      (t.callee == callee && IntoSome(g.edges, Overrides, bases, |bases|, t.caller, t.site)) ||
      (t.callee == callee && IntoSome(g.edges, Returns, returners, |returners|, t.caller, t.site))
      <==> t.callee == callee && Calls(g.edges, rel.methodOverrides, rel.functionReturns, t)
    {
      InListsShow(g.edges, callee, list, bases, returners, rel.methodOverrides, rel.overrideBases, rel.functionReturns, rel.returnedBy, t);
    }
  }

  /** The reverse lists show exactly the calls the forward relations define:
      this is where each relation meets its transpose. */
  lemma InListsShow(edges: seq<CG.StoredEdge>, callee: Id, list: seq<nat>, bases: seq<Id>, returners: seq<Id>,
                    overrides: map<Id, seq<Id>>, overriddenBases: map<Id, seq<Id>>,
                    returned: map<Id, set<Id>>, returnedBy: map<Id, seq<Id>>, t: Triple)
    requires forall j :: 0 <= j < |list| ==> list[j] < |edges| && edges[list[j]].key.callee == callee
    requires forall i :: 0 <= i < |edges| && edges[i].refs > 0 && edges[i].key.callee == callee ==> i in list
    requires Transposed(overrides, overriddenBases) && ReturnsTransposed(returned, returnedBy)
    requires forall b :: b in bases <==> b != callee && Reach(overriddenBases, callee, b)
    requires returners == Bucket(returnedBy, callee)
    ensures SomeDirect(edges, list, |list|, t) ||
            (t.callee == callee && IntoSome(edges, Overrides, bases, |bases|, t.caller, t.site)) ||
            (t.callee == callee && IntoSome(edges, Returns, returners, |returners|, t.caller, t.site))
            <==> t.callee == callee && Calls(edges, overrides, returned, t)
  {
    hide Reach, Transposed, ReturnsTransposed, Direct, ViaOverride, ViaReturn, IntoSome;
    if t.callee == callee && Calls(edges, overrides, returned, t) {
      var i :| 0 <= i < |edges| && Shows(edges[i], overrides, returned, t);
      if Direct(edges[i], t) {
        DirectInList(edges, callee, list, i, t);
      } else if ViaOverride(edges[i], overrides, t) {
        OverrideInList(edges, callee, bases, overrides, overriddenBases, i, t);
      } else {
        ReturnInList(edges, callee, returners, returned, returnedBy, i, t);
      }
    }
    if SomeDirect(edges, list, |list|, t) {
      var j :| 0 <= j < |list| && Direct(edges[list[j]], t);
      DirectCallee(edges[list[j]], t);
      assert Shows(edges[list[j]], overrides, returned, t);
    }
    if t.callee == callee && IntoSome(edges, Overrides, bases, |bases|, t.caller, t.site) {
      ListedOverride(edges, callee, bases, overrides, overriddenBases, returned, t);
    }
    if t.callee == callee && IntoSome(edges, Returns, returners, |returners|, t.caller, t.site) {
      ListedReturn(edges, callee, returners, overrides, returned, returnedBy, t);
    }
  }

  lemma DirectCallee(se: CG.StoredEdge, t: Triple)
    requires Direct(se, t)
    ensures se.key.callee == t.callee && se.refs > 0
  {
  }

  lemma DirectInList(edges: seq<CG.StoredEdge>, callee: Id, list: seq<nat>, i: nat, t: Triple)
    requires forall j :: 0 <= j < |list| ==> list[j] < |edges|
    requires forall i :: 0 <= i < |edges| && edges[i].refs > 0 && edges[i].key.callee == callee ==> i in list
    requires i < |edges| && Direct(edges[i], t) && t.callee == callee
    ensures SomeDirect(edges, list, |list|, t)
  {
    var j :| 0 <= j < |list| && list[j] == i;
  }

  lemma OverrideInList(edges: seq<CG.StoredEdge>, callee: Id, bases: seq<Id>,
                       overrides: map<Id, seq<Id>>, overriddenBases: map<Id, seq<Id>>, i: nat, t: Triple)
    requires Transposed(overrides, overriddenBases)
    requires forall b :: b in bases <==> b != callee && Reach(overriddenBases, callee, b)
    requires i < |edges| && ViaOverride(edges[i], overrides, t) && t.callee == callee
    ensures IntoSome(edges, Overrides, bases, |bases|, t.caller, t.site)
  {
    hide Reach, Transposed;
    ReachTransposed(overrides, overriddenBases, edges[i].key.callee, callee);
    var k :| 0 <= k < |bases| && bases[k] == edges[i].key.callee;
    assert IntoAt(edges[i], Overrides, bases[k], t.caller, t.site);
    assert Into(edges, Overrides, bases[k], t.caller, t.site);
  }

  lemma ReturnInList(edges: seq<CG.StoredEdge>, callee: Id, returners: seq<Id>,
                     returned: map<Id, set<Id>>, returnedBy: map<Id, seq<Id>>, i: nat, t: Triple)
    requires ReturnsTransposed(returned, returnedBy) && returners == Bucket(returnedBy, callee)
    requires i < |edges| && ViaReturn(edges[i], returned, t) && t.callee == callee
    ensures IntoSome(edges, Returns, returners, |returners|, t.caller, t.site)
  {
    var k :| 0 <= k < |returners| && returners[k] == edges[i].key.callee;
    assert IntoAt(edges[i], Returns, returners[k], t.caller, t.site);
    assert Into(edges, Returns, returners[k], t.caller, t.site);
  }

  lemma ListedOverride(edges: seq<CG.StoredEdge>, callee: Id, bases: seq<Id>, overrides: map<Id, seq<Id>>,
                       overriddenBases: map<Id, seq<Id>>, returned: map<Id, set<Id>>, t: Triple)
    requires Transposed(overrides, overriddenBases) && t.callee == callee
    requires forall b :: b in bases <==> b != callee && Reach(overriddenBases, callee, b)
    requires IntoSome(edges, Overrides, bases, |bases|, t.caller, t.site)
    ensures Calls(edges, overrides, returned, t)
  {
    hide Reach, Transposed;
    var k :| 0 <= k < |bases| && Into(edges, Overrides, bases[k], t.caller, t.site);
    var i :| 0 <= i < |edges| && IntoAt(edges[i], Overrides, bases[k], t.caller, t.site);
    assert bases[k] in bases;
    ReachTransposed(overrides, overriddenBases, bases[k], callee);
    assert Shows(edges[i], overrides, returned, t);
  }

  lemma ListedReturn(edges: seq<CG.StoredEdge>, callee: Id, returners: seq<Id>, overrides: map<Id, seq<Id>>,
                     returned: map<Id, set<Id>>, returnedBy: map<Id, seq<Id>>, t: Triple)
    requires ReturnsTransposed(returned, returnedBy) && returners == Bucket(returnedBy, callee) && t.callee == callee
    requires IntoSome(edges, Returns, returners, |returners|, t.caller, t.site)
    ensures Calls(edges, overrides, returned, t)
  {
    var k :| 0 <= k < |returners| && Into(edges, Returns, returners[k], t.caller, t.site);
    var i :| 0 <= i < |edges| && IntoAt(edges[i], Returns, returners[k], t.caller, t.site);
    assert returners[k] in returners;
    assert Shows(edges[i], overrides, returned, t);
  }
}
