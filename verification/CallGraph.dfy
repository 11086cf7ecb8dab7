/** The call graph's edge storage: refcounted edges that several translation
    units may register, with adjacency lists, a content index and per-unit
    provenance, all updated in place.  It refines the ledger of registrations. */
module CallGraph {
  import opened GraphTypes
  import opened Interner
  import opened Registry
  import opened RefTable
  import L = Ledger

  type StoredEdge = Stored<EdgeRef>

  type EdgeReg = Reg<EdgeRef, Id>

  datatype Side = Out | In

  function EndAt(side: Side, e: EdgeRef): Id {
    if side.Out? then e.caller else e.callee
  }

  /** The live edges at one end, oldest first: what an adjacency list holds. */
  ghost function LiveAt(edges: seq<StoredEdge>, n: nat, side: Side, c: Id): seq<nat>
    requires n <= |edges|
  {
    if n == 0 then []
    else
      var rest := LiveAt(edges, n - 1, side, c);
      if edges[n - 1].refs > 0 && EndAt(side, edges[n - 1].key) == c then rest + [n - 1] else rest
  }

  method InternEnds(t: seq<string>, caller: string, callee: string, site: string) returns (t': seq<string>, a: Id, b: Id, c: Id)
    requires Injective(t)
    ensures t <= t' && Injective(t')
    ensures a < |t'| && b < |t'| && c < |t'| && t'[a] == caller && t'[b] == callee && t'[c] == site
  {
    hide Injective, Find, Intern;
    var x := Intern(t, caller);
    var y := Intern(x.0, callee);
    var z := Intern(y.0, site);
    t', a, b, c := z.0, x.1, y.1, z.1;
  }

  ghost predicate Adjacent(edges: seq<StoredEdge>, lists: map<Id, seq<nat>>, side: Side) {
    forall c :: Bucket(lists, c) == LiveAt(edges, |edges|, side, c)
  }

  ghost predicate InRange(n: nat, regs: seq<EdgeReg>) {
    forall i :: 0 <= i < |regs| ==>
      && regs[i].record.caller < n && regs[i].record.callee < n && regs[i].record.site < n
      && (regs[i].tu.Some? ==> regs[i].tu.value < n)
  }

  // ---- Adjacency under the updates.

  lemma {:induction false} LiveAtSame(a: seq<StoredEdge>, b: seq<StoredEdge>, n: nat, side: Side, c: Id)
    requires n <= |a| && n <= |b|
    requires forall i :: 0 <= i < n ==> a[i].key == b[i].key && (a[i].refs > 0 <==> b[i].refs > 0)
    ensures LiveAt(a, n, side, c) == LiveAt(b, n, side, c)
  {
    if n > 0 {
      LiveAtSame(a, b, n - 1, side, c);
    }
  }

  lemma {:induction false} LiveAtMember(edges: seq<StoredEdge>, n: nat, side: Side, c: Id, i: nat)
    requires n <= |edges|
    ensures i in LiveAt(edges, n, side, c) <==> i < n && edges[i].refs > 0 && EndAt(side, edges[i].key) == c
  {
    if n > 0 {
      LiveAtMember(edges, n - 1, side, c, i);
    }
  }

  /** Dropping the dead positions from an old list gives the new list. */
  lemma {:induction false} LiveAtKeep(a: seq<StoredEdge>, b: seq<StoredEdge>, n: nat, side: Side, c: Id, dead: set<nat>)
    requires n <= |a| && n <= |b|
    requires forall i :: 0 <= i < n ==> a[i].key == b[i].key
    requires forall i :: 0 <= i < n ==> (b[i].refs > 0 <==> a[i].refs > 0 && i !in dead)
    ensures Keep(LiveAt(a, n, side, c), dead) == LiveAt(b, n, side, c)
  {
    if n > 0 {
      LiveAtKeep(a, b, n - 1, side, c, dead);
      var rest := LiveAt(a, n - 1, side, c);
      assert (rest + [n - 1])[..|rest|] == rest;
    }
  }

  class CallGraph {
    var strings: seq<string>
    var edges: seq<StoredEdge>
    var edgeIndex: map<EdgeRef, nat>
    var outEdges: map<Id, seq<nat>>
    var inEdges: map<Id, seq<nat>>
    var tuEdges: map<Id, seq<nat>>
    var liveEdgeCount: nat

    /** Every registration still standing, oldest first. */
    ghost var regs: seq<EdgeReg>

    ghost predicate Core()
      reads this
    {
      && IndexOk(edges, edgeIndex)
      && Adjacent(edges, outEdges, Out) && Adjacent(edges, inEdges, In)
      && liveEdgeCount == |edgeIndex|
    }

    ghost predicate Valid()
      reads this
    {
      && Injective(strings)
      && Core()
      && CountsMatch(edges, edgeIndex, regs)
      && UnitsMatch(tuEdges, edgeIndex, regs)
      && InRange(|strings|, regs)
      && (forall tu :: tu in tuEdges ==> tu < |strings|)
    }

    constructor ()
      ensures Valid() && regs == [] && strings == [] && edges == []
    {
      strings, edges, edgeIndex, outEdges, inEdges, tuEdges, liveEdgeCount := [], [], map[], map[], map[], map[], 0;
      regs := [];
    }

    /** Add `n` registrations of `e`: raise the count of the stored edge, or
        append it. */
    method Register(e: EdgeRef, n: nat) returns (idx: nat)
      requires Core() && n > 0
      modifies this`edges, this`edgeIndex, this`outEdges, this`inEdges, this`liveEdgeCount
      ensures Core()
      ensures e in edgeIndex && idx == edgeIndex[e]
      ensures Raised(old(edges), old(edgeIndex), edges, edgeIndex, e, n)
      ensures old(e !in edgeIndex) ==> edges == old(edges) + [Stored(e, n)]
    {
      hide LiveAt, IndexOk, Adjacent, Raised;
      if e in edgeIndex {
        RaiseCount(edges, edgeIndex, e, n);
        idx := edgeIndex[e];
        SameLists(edges, edges[idx := edges[idx].(refs := edges[idx].refs + n)], outEdges, inEdges);
        edges := edges[idx := edges[idx].(refs := edges[idx].refs + n)];
      } else {
        AppendRecord(edges, edgeIndex, e, n);
        AppendLists(edges, Stored(e, n), outEdges, inEdges);
        idx := |edges|;
        outEdges := outEdges[e.caller := Bucket(outEdges, e.caller) + [idx]];
        inEdges := inEdges[e.callee := Bucket(inEdges, e.callee) + [idx]];
        edges := edges + [Stored(e, n)];
        edgeIndex := edgeIndex[e := idx];
        liveEdgeCount := liveEdgeCount + 1;
      }
    }

    /** Register one edge, for a unit or (with an empty path) untagged. */
    method AddEdge(caller: string, callee: string, site: string, kind: EdgeKind, confidence: Confidence,
                   exec: ExecContext, indirection: nat, tuPath: string)
      requires Valid()
      modifies this`strings, this`edges, this`edgeIndex, this`outEdges, this`inEdges, this`tuEdges, this`liveEdgeCount, this`regs
      ensures Valid() && old(strings) <= strings
      ensures exists r :: regs == old(regs) + [r] &&
                Spells(strings, r, caller, callee, site, tuPath) &&
                r.record == EdgeRef(r.record.caller, r.record.callee, r.record.site, kind, confidence, exec, indirection)
      ensures TextRegs(strings, regs) == old(TextRegs(strings, regs)) +
                [Reg(TextEdge(caller, callee, site, kind, confidence, exec, indirection), if tuPath == "" then None else Some(tuPath))]
    {
      hide LiveAt, IndexOk, Adjacent, Raised, CountsMatch, UnitsMatch, Injective, Find, InRange, Intern, TextRegs;
      var table, a, b, c := InternEnds(strings, caller, callee, site);
      strings := table;
      var e := EdgeRef(a, b, c, kind, confidence, exec, indirection);
      ghost var edges0, index0 := edges, edgeIndex;
      var idx := Register(e, 1);
      var tag := None;
      if tuPath != "" {
        var t := Intern(strings, tuPath);
        strings := t.0;
        tuEdges := tuEdges[t.1 := Bucket(tuEdges, t.1) + [idx]];
        tag := Some(t.1);
      }
      ghost var r := Reg(e, tag);
      AppendMatches(edges0, index0, edges, edgeIndex, old(tuEdges), tuEdges, regs, r);
      InRangeSnoc(|old(strings)|, |strings|, regs, r);
      TextRegsGrow(old(strings), strings, regs);
      TextRegsSnoc(strings, regs, r);
      regs := regs + [r];
    }

    // ---- Shard merge.

    /** Merge another graph into this one: its strings are interned here, and
        each of its registrations counts here as it did there. */
    method Absorb(shard: CallGraph)
      requires Valid() && shard.Valid()
      modifies this
      ensures Valid() && old(strings) <= strings
      ensures shard == this ==> unchanged(this)
      ensures shard != this ==>
                TextRegs(strings, regs) == old(TextRegs(strings, regs)) + TextRegs(shard.strings, shard.regs)
    {
      hide LiveAt, IndexOk, Adjacent, CountsMatch, UnitsMatch, Injective, RefsOf, Positions, Count, InRange, Merged, TextRegs, MapRegs, OneToOneIds, UnitMerged;
      if shard == this {
        return;
      }
      var table, remap := Remap(strings, shard.strings);
      RemapIsOneToOne(table, shard.strings, remap);
      CountsCover(shard.edges, shard.edgeIndex, shard.regs);
      EdgesInRange(|shard.strings|, shard.edges, shard.edgeIndex, shard.regs);
      ghost var edges0, index0 := edges, edgeIndex;
      var edgeRemap := AbsorbEdges(shard.edges, shard.edgeIndex, remap);
      var units := AbsorbUnits(tuEdges, shard.tuEdges, remap, edgeRemap, |table|);
      AbsorbMatches(edges0, index0, shard.edges, shard.edgeIndex, edges, edgeIndex, remap, edgeRemap,
                    tuEdges, shard.tuEdges, units, regs, shard.regs);
      TextRegsGrow(strings, table, regs);
      TextRegsMapped(table, shard.strings, remap, shard.regs);
      TextRegsConcat(table, regs, MapRegs(remap, shard.regs));
      AbsorbInRange(|strings|, |table|, regs, remap, shard.regs);
      regs := regs + MapRegs(remap, shard.regs);
      tuEdges := units;
      strings := table;
    }

    /** Register every live edge of another edge table, with its count. */
    method AbsorbEdges(src: seq<StoredEdge>, ghost srcIndex: map<EdgeRef, nat>, remap: seq<Id>) returns (edgeRemap: map<nat, nat>)
      requires Core() && IndexOk(src, srcIndex) && OneToOneIds(remap)
      requires forall i :: 0 <= i < |src| && src[i].refs > 0 ==> Mappable(remap, src[i].key)
      modifies this`edges, this`edgeIndex, this`outEdges, this`inEdges, this`liveEdgeCount
      ensures Core()
      ensures Merged(old(edges), old(edgeIndex), src, srcIndex, |src|, edges, edgeIndex, remap, edgeRemap)
    {
      hide LiveAt, IndexOk, Adjacent, RefsOf, Merged, Raised;
      edgeRemap := map[];
      MergedStart(edges, edgeIndex, src, srcIndex, remap);
      for i := 0 to |src|
        invariant Core()
        invariant Merged(old(edges), old(edgeIndex), src, srcIndex, i, edges, edgeIndex, remap, edgeRemap)
      {
        if src[i].refs > 0 {
          ghost var edges1, index1 := edges, edgeIndex;
          var idx := Register(MapEdge(remap, src[i].key), src[i].refs);
          MergedNext(old(edges), old(edgeIndex), src, srcIndex, i, edges1, index1, edges, edgeIndex, remap, edgeRemap, idx);
          edgeRemap := edgeRemap[i := idx];
        } else {
          MergedSkip(old(edges), old(edgeIndex), src, srcIndex, i, edges, edgeIndex, remap, edgeRemap);
        }
      }
    }

    // ---- Compaction.

    /** Rebuild the storage without tombstones. */
    method Compact()
      requires Valid()
      modifies this`edges, this`edgeIndex, this`outEdges, this`inEdges, this`tuEdges
      ensures Valid()
      ensures |edges| == liveEdgeCount && forall i :: 0 <= i < |edges| ==> edges[i].refs > 0
      ensures edgeIndex.Keys == old(edgeIndex).Keys && edges == LiveOf(old(edges), |old(edges)|)
    {
      hide LiveAt, IndexOk, Adjacent, CountsMatch, UnitsMatch, Injective, RefsOf, Positions, Count, LiveOf;
      var newEdges, newIndex, newOut, newIn, remap := CompactEdges(edges, edgeIndex);
      var newTuEdges := RemapUnits(tuEdges, remap);
      CompactMatches(edges, edgeIndex, newEdges, newIndex, remap, tuEdges, newTuEdges, regs);
      edges, edgeIndex, outEdges, inEdges, tuEdges := newEdges, newIndex, newOut, newIn, newTuEdges;
    }

    // ---- Per-unit removal.

    /** Drop every registration of the given units.  An edge goes when its last
        registration does. */
    method RemoveTUs(tuPaths: seq<string>) returns (removed: nat)
      requires Valid()
      modifies this`edges, this`edgeIndex, this`outEdges, this`inEdges, this`tuEdges, this`liveEdgeCount, this`regs
      ensures Valid()
      ensures regs == Without(old(regs), UnitIds(strings, tuPaths))
      ensures TextRegs(strings, regs) == Without(old(TextRegs(strings, regs)), L.AsSet(tuPaths))
      ensures removed == old(liveEdgeCount) - liveEdgeCount
    {
      hide LiveAt, IndexOk, Adjacent, CountsMatch, UnitsMatch, Injective, Find, Without, AsSet, UnitIds, InRange, TextRegs;
      var tuIds := FindUnits(strings, tuPaths);
      var dead: set<nat> := {};
      var callers: set<Id>, callees: set<Id> := {}, {};
      removed := 0;
      ghost var edges0 := edges;
      WithoutNone(regs);
      AsSetNone(tuIds);
      for t := 0 to |tuIds|
        invariant IndexOk(edges, edgeIndex) && CountsMatch(edges, edgeIndex, regs) && UnitsMatch(tuEdges, edgeIndex, regs)
        invariant liveEdgeCount == |edgeIndex| && removed == old(liveEdgeCount) - liveEdgeCount
        invariant regs == Without(old(regs), AsSet(tuIds[..t]))
        invariant Drained(edges0, edges, dead, callers, callees)
        invariant outEdges == old(outEdges) && inEdges == old(inEdges) && tuEdges.Keys <= old(tuEdges).Keys
      {
        WithoutTwice(old(regs), AsSet(tuIds[..t]), {tuIds[t]});
        AsSetNext(tuIds, t);
        var more;
        more, dead, callers, callees := ReleaseUnit(tuIds[t], dead, callers, callees, edges0);
        removed := removed + more;
      }
      assert tuIds[..|tuIds|] == tuIds;
      outEdges := Scrub(outEdges, callers, dead, edges0, edges, Out);
      inEdges := Scrub(inEdges, callees, dead, edges0, edges, In);
      WithoutInRange(|strings|, old(regs), UnitIds(strings, tuPaths));
      TextWithout(strings, old(regs), tuPaths);
    }

    /** Release the registration at one position of a unit's list. */
    method ReleaseAt(list: seq<nat>, m: nat, dead0: set<nat>, callers0: set<Id>, callees0: set<Id>,
                     ghost edges0: seq<StoredEdge>, ghost index0: map<EdgeRef, nat>, ghost rest: seq<EdgeReg>)
      returns (removed: nat, dead: set<nat>, callers: set<Id>, callees: set<Id>)
      requires m < |list| && IndexOk(edges, edgeIndex) && Pending(edges, edgeIndex, index0, rest, list[m..])
      requires OneToOne(index0) && ListOk(edges, index0, list)
      requires liveEdgeCount == |edgeIndex| && Drained(edges0, edges, dead0, callers0, callees0)
      modifies this`edges, this`edgeIndex, this`liveEdgeCount
      ensures IndexOk(edges, edgeIndex) && Pending(edges, edgeIndex, index0, rest, list[m + 1..])
      ensures ListOk(edges, index0, list)
      ensures liveEdgeCount == |edgeIndex| && removed == old(liveEdgeCount) - liveEdgeCount
      ensures Drained(edges0, edges, dead, callers, callees)
    {
      hide LiveAt, IndexOk, Pending, ListOk, Drained, RefsOf, OneToOne;
      removed, dead, callers, callees := 0, dead0, callers0, callees0;
      PendingNext(edges, edgeIndex, index0, rest, list, m);
      var idx := list[m];
      var e := edges[idx].key;
      DrainedNext(edges0, edges, dead, callers, callees, idx);
      edges := edges[idx := edges[idx].(refs := edges[idx].refs - 1)];
      if edges[idx].refs == 0 {
        dead := dead + {idx};
        callers := callers + {e.caller};
        callees := callees + {e.callee};
        edgeIndex := edgeIndex - {e};
        liveEdgeCount := liveEdgeCount - 1;
        removed := 1;
      }
    }

    /** Release one unit's registrations; the adjacency lists wait. */
    method ReleaseUnit(tu: Id, dead0: set<nat>, callers0: set<Id>, callees0: set<Id>, ghost edges0: seq<StoredEdge>)
      returns (removed: nat, dead: set<nat>, callers: set<Id>, callees: set<Id>)
      requires IndexOk(edges, edgeIndex) && CountsMatch(edges, edgeIndex, regs) && UnitsMatch(tuEdges, edgeIndex, regs)
      requires liveEdgeCount == |edgeIndex|
      requires Drained(edges0, edges, dead0, callers0, callees0)
      modifies this`edges, this`edgeIndex, this`tuEdges, this`liveEdgeCount, this`regs
      ensures IndexOk(edges, edgeIndex) && CountsMatch(edges, edgeIndex, regs) && UnitsMatch(tuEdges, edgeIndex, regs)
      ensures liveEdgeCount == |edgeIndex| && removed == old(liveEdgeCount) - liveEdgeCount
      ensures regs == Without(old(regs), {tu}) && tuEdges == old(tuEdges) - {tu}
      ensures Drained(edges0, edges, dead, callers, callees)
    {
      hide LiveAt, CountsMatch, UnitsMatch, IndexOk, Pending, ListOk, Drained, Without, Positions, Count, Occurrences, RefsOf, OneToOne;
      removed, dead, callers, callees := 0, dead0, callers0, callees0;
      var list := Bucket(tuEdges, tu);
      ghost var index0 := edgeIndex;
      ghost var rest := Without(regs, {tu});
      PendingStart(edges, edgeIndex, tuEdges, regs, tu, list);
      assert list[0..] == list;
      for m := 0 to |list|
        invariant IndexOk(edges, edgeIndex) && Pending(edges, edgeIndex, index0, rest, list[m..])
        invariant liveEdgeCount == |edgeIndex| && removed == |index0| - liveEdgeCount
        invariant ListOk(edges, index0, list) && tuEdges == old(tuEdges) && regs == old(regs)
        invariant Drained(edges0, edges, dead, callers, callees)
      {
        var more;
        more, dead, callers, callees := ReleaseAt(list, m, dead, callers, callees, edges0, index0, rest);
        removed := removed + more;
      }
      assert list[|list|..] == [];
      PendingEnd(edges, edgeIndex, old(edges), index0, tuEdges, regs, tu);
      tuEdges := tuEdges - {tu};
      regs := rest;
    }
  }

  ghost function AsSet(s: seq<Id>): set<Id> {
    set x | x in s
  }

  lemma AsSetNone(s: seq<Id>)
    ensures AsSet(s[..0]) == {}
  {
  }

  lemma AsSetNext(s: seq<Id>, t: nat)
    requires t < |s|
    ensures AsSet(s[..t + 1]) == AsSet(s[..t]) + {s[t]}
  {
    assert s[..t + 1] == s[..t] + [s[t]];
  }

  ghost function UnitIds(strings: seq<string>, paths: seq<string>): set<Id> {
    set i | 0 <= i < |strings| && strings[i] in paths
  }

  method FindUnits(strings: seq<string>, paths: seq<string>) returns (ids: seq<Id>)
    requires Injective(strings)
    ensures NoDuplicates(ids)
    ensures AsSet(ids) == UnitIds(strings, paths)
  {
    ids := [];
    for i := 0 to |paths|
      invariant NoDuplicates(ids)
      invariant AsSet(ids) == UnitIds(strings, paths[..i])
    {
      assert paths[..i + 1] == paths[..i] + [paths[i]];
      var found := Find(strings, paths[i]);
      if found.Some? {
        assert UnitIds(strings, paths[..i + 1]) == UnitIds(strings, paths[..i]) + {found.value};
        if found.value !in ids {
          ids := ids + [found.value];
        }
      } else {
        assert UnitIds(strings, paths[..i + 1]) == UnitIds(strings, paths[..i]);
      }
    }
    assert paths[..|paths|] == paths;
  }

  /** Between two states of the edge table exactly the edges in `dead` died,
      and the lists they are on are known. */
  ghost predicate Drained(a: seq<StoredEdge>, b: seq<StoredEdge>, dead: set<nat>, callers: set<Id>, callees: set<Id>) {
    && |a| == |b|
    && (forall i :: 0 <= i < |a| ==> a[i].key == b[i].key && (b[i].refs > 0 <==> a[i].refs > 0 && i !in dead))
    && (forall i :: i in dead ==> i < |a| && a[i].key.caller in callers && a[i].key.callee in callees)
  }

  lemma DrainedNext(a: seq<StoredEdge>, b: seq<StoredEdge>, dead: set<nat>, callers: set<Id>, callees: set<Id>, idx: nat)
    requires Drained(a, b, dead, callers, callees) && idx < |b| && b[idx].refs > 0
    ensures var b' := b[idx := b[idx].(refs := b[idx].refs - 1)];
            if b'[idx].refs == 0
            then Drained(a, b', dead + {idx}, callers + {b[idx].key.caller}, callees + {b[idx].key.callee})
            else Drained(a, b', dead, callers, callees)
  {
  }

  /** Drop the dead positions from the affected lists. */
  method Scrub(lists: map<Id, seq<nat>>, affected: set<Id>, dead: set<nat>,
               ghost a: seq<StoredEdge>, ghost b: seq<StoredEdge>, ghost side: Side) returns (r: map<Id, seq<nat>>)
    requires Adjacent(a, lists, side) && |a| == |b|
    requires forall i :: 0 <= i < |a| ==> a[i].key == b[i].key && (b[i].refs > 0 <==> a[i].refs > 0 && i !in dead)
    requires forall i :: i in dead ==> i < |a| && EndAt(side, a[i].key) in affected
    ensures Adjacent(b, r, side)
  {
    r := lists;
    var left := affected;
    while left != {}
      invariant left <= affected
      invariant forall c :: Bucket(r, c) == if c in affected && c !in left then Keep(Bucket(lists, c), dead) else Bucket(lists, c)
      decreases left
    {
      var c :| c in left;
      r := r[c := Keep(Bucket(r, c), dead)];
      left := left - {c};
    }
    forall c ensures Bucket(r, c) == LiveAt(b, |b|, side, c) {
      assert Bucket(lists, c) == LiveAt(a, |a|, side, c);
      LiveAtKeep(a, b, |a|, side, c, dead);
      if c !in affected {
        forall x | x in Bucket(lists, c) ensures x !in dead {
          LiveAtMember(a, |a|, side, c, x);
        }
        KeepNone(Bucket(lists, c), dead);
      }
    }
  }

  lemma WithoutInRange(n: nat, regs: seq<EdgeReg>, tus: set<Id>)
    requires InRange(n, regs)
    ensures InRange(n, Without(regs, tus))
  {
    var rest := Without(regs, tus);
    forall i | 0 <= i < |rest|
      ensures rest[i].record.caller < n && rest[i].record.callee < n && rest[i].record.site < n
      ensures rest[i].tu.Some? ==> rest[i].tu.value < n
    {
      assert rest[i] in rest;
      WithoutMember(regs, tus, rest[i]);
      var j :| 0 <= j < |regs| && regs[j] == rest[i];
    }
  }

  /** A registration's ids stand for the given strings. */
  ghost predicate Spells(strings: seq<string>, r: EdgeReg, caller: string, callee: string, site: string, tuPath: string) {
    && r.record.caller < |strings| && strings[r.record.caller] == caller
    && r.record.callee < |strings| && strings[r.record.callee] == callee
    && r.record.site < |strings| && strings[r.record.site] == site
    && (tuPath == "" ==> r.tu.None?)
    && (tuPath != "" ==> r.tu.Some? && r.tu.value < |strings| && strings[r.tu.value] == tuPath)
  }

  lemma InRangeSnoc(m: nat, n: nat, regs: seq<EdgeReg>, r: EdgeReg)
    requires InRange(m, regs) && m <= n
    requires r.record.caller < n && r.record.callee < n && r.record.site < n && (r.tu.Some? ==> r.tu.value < n)
    ensures InRange(n, regs + [r])
  {
  }

  lemma SameLists(a: seq<StoredEdge>, b: seq<StoredEdge>, outs: map<Id, seq<nat>>, ins: map<Id, seq<nat>>)
    requires |a| == |b| && Adjacent(a, outs, Out) && Adjacent(a, ins, In)
    requires forall i :: 0 <= i < |a| ==> a[i].key == b[i].key && (a[i].refs > 0 <==> b[i].refs > 0)
    ensures Adjacent(b, outs, Out) && Adjacent(b, ins, In)
  {
    forall side, c ensures LiveAt(b, |b|, side, c) == LiveAt(a, |a|, side, c) {
      LiveAtSame(a, b, |a|, side, c);
    }
  }

  lemma AppendLists(edges: seq<StoredEdge>, se: StoredEdge, outs: map<Id, seq<nat>>, ins: map<Id, seq<nat>>)
    requires Adjacent(edges, outs, Out) && Adjacent(edges, ins, In) && se.refs > 0
    ensures Adjacent(edges + [se], outs[se.key.caller := Bucket(outs, se.key.caller) + [|edges|]], Out)
    ensures Adjacent(edges + [se], ins[se.key.callee := Bucket(ins, se.key.callee) + [|edges|]], In)
  {
    var outs' := outs[se.key.caller := Bucket(outs, se.key.caller) + [|edges|]];
    var ins' := ins[se.key.callee := Bucket(ins, se.key.callee) + [|edges|]];
    forall c
      ensures Bucket(outs', c) == LiveAt(edges + [se], |edges + [se]|, Out, c)
      ensures Bucket(ins', c) == LiveAt(edges + [se], |edges + [se]|, In, c)
    {
      LiveAtAppend(edges, se, Out, c);
      LiveAtAppend(edges, se, In, c);
      assert Bucket(outs, c) == LiveAt(edges, |edges|, Out, c);
      assert Bucket(ins, c) == LiveAt(edges, |edges|, In, c);
    }
  }

  lemma LiveAtAppend(edges: seq<StoredEdge>, se: StoredEdge, side: Side, c: Id)
    requires se.refs > 0
    ensures LiveAt(edges + [se], |edges| + 1, side, c) ==
            if EndAt(side, se.key) == c then LiveAt(edges, |edges|, side, c) + [|edges|] else LiveAt(edges, |edges|, side, c)
  {
    LiveAtSame(edges + [se], edges, |edges|, side, c);
  }

  // ---- Compaction.

  method CompactEdges(edges: seq<StoredEdge>, ghost index: map<EdgeRef, nat>)
    returns (newEdges: seq<StoredEdge>, newIndex: map<EdgeRef, nat>, newOut: map<Id, seq<nat>>, newIn: map<Id, seq<nat>>,
             remap: map<nat, nat>)
    requires IndexOk(edges, index)
    ensures IndexOk(newEdges, newIndex) && Adjacent(newEdges, newOut, Out) && Adjacent(newEdges, newIn, In)
    ensures Compacted(edges, index, |edges|, newEdges, newIndex, remap)
    ensures newEdges == LiveOf(edges, |edges|)
  {
    hide LiveAt, IndexOk, Adjacent, Compacted, RefsOf, Raised;
    newEdges, newIndex, newOut, newIn, remap := [], map[], map[], map[], map[];
    CompactStart(edges, index);
    for n := 0 to |edges|
      invariant IndexOk(newEdges, newIndex) && Adjacent(newEdges, newOut, Out) && Adjacent(newEdges, newIn, In)
      invariant Compacted(edges, index, n, newEdges, newIndex, remap) && newEdges == LiveOf(edges, n)
    {
      if edges[n].refs == 0 {
        CompactSkip(edges, index, n, newEdges, newIndex, remap);
      } else {
        CompactKeep(edges, index, n, newEdges, newIndex, remap);
        var se := edges[n];
        AppendRecord(newEdges, newIndex, se.key, se.refs);
        AppendLists(newEdges, se, newOut, newIn);
        assert se == Stored(se.key, se.refs);
        remap := remap[n := |newEdges|];
        newOut := newOut[se.key.caller := Bucket(newOut, se.key.caller) + [|newEdges|]];
        newIn := newIn[se.key.callee := Bucket(newIn, se.key.callee) + [|newEdges|]];
        newIndex := newIndex[se.key := |newEdges|];
        newEdges := newEdges + [se];
      }
    }
  }

  lemma CompactStart(edges: seq<StoredEdge>, index: map<EdgeRef, nat>)
    ensures IndexOk<EdgeRef>([], map[]) && Adjacent([], map[], Out) && Adjacent([], map[], In)
    ensures Compacted(edges, index, 0, [], map[], map[])
  {
  }

  // ---- Shard merge.

  predicate Mappable<T>(remap: seq<T>, e: EdgeRef) {
    e.caller < |remap| && e.callee < |remap| && e.site < |remap|
  }

  function MapEdge(remap: seq<Id>, e: EdgeRef): EdgeRef
    requires Mappable(remap, e)
  {
    e.(caller := remap[e.caller], callee := remap[e.callee], site := remap[e.site])
  }

  function MapReg(remap: seq<Id>, r: EdgeReg): EdgeReg
    requires Mappable(remap, r.record) && (r.tu.Some? ==> r.tu.value < |remap|)
  {
    Reg(MapEdge(remap, r.record), if r.tu.Some? then Some(remap[r.tu.value]) else None)
  }

  ghost function MapRegs(remap: seq<Id>, regs: seq<EdgeReg>): seq<EdgeReg>
    requires InRange(|remap|, regs)
  {
    if regs == [] then []
    else MapRegs(remap, regs[..|regs| - 1]) + [MapReg(remap, regs[|regs| - 1])]
  }

  ghost predicate OneToOneIds(remap: seq<Id>) {
    forall i, j :: 0 <= i < |remap| && 0 <= j < |remap| && remap[i] == remap[j] ==> i == j
  }

  /** An edge in terms of strings: the same whatever the ids are. */
  datatype TextEdge = TextEdge(caller: string, callee: string, site: string, kind: EdgeKind, confidence: Confidence,
                               exec: ExecContext, indirection: nat)

  function EdgeText(strings: seq<string>, e: EdgeRef): TextEdge
    requires Mappable(strings, e)
  {
    TextEdge(strings[e.caller], strings[e.callee], strings[e.site], e.kind, e.confidence, e.exec, e.indirection)
  }

  function TextOf(strings: seq<string>, r: EdgeReg): L.Entry<TextEdge>
    requires Mappable(strings, r.record) && (r.tu.Some? ==> r.tu.value < |strings|)
  {
    Reg(EdgeText(strings, r.record), if r.tu.Some? then Some(strings[r.tu.value]) else None)
  }

  /** The ledger in terms of strings. */
  ghost function TextRegs(strings: seq<string>, regs: seq<EdgeReg>): seq<L.Entry<TextEdge>>
    requires InRange(|strings|, regs)
  {
    if regs == [] then []
    else TextRegs(strings, regs[..|regs| - 1]) + [TextOf(strings, regs[|regs| - 1])]
  }

  lemma RemapIsOneToOne(table: seq<string>, shard: seq<string>, remap: seq<Id>)
    requires Injective(shard) && |remap| == |shard|
    requires forall k :: 0 <= k < |shard| ==> remap[k] < |table| && table[remap[k]] == shard[k]
    ensures OneToOneIds(remap)
  {
    forall i, j | 0 <= i < |remap| && 0 <= j < |remap| && remap[i] == remap[j] ensures i == j {
      RemapInjective(table, shard, remap, i, j);
    }
  }

  lemma EdgesInRange(n: nat, edges: seq<StoredEdge>, index: map<EdgeRef, nat>, regs: seq<EdgeReg>)
    requires IndexOk(edges, index) && CountsMatch(edges, index, regs) && InRange(n, regs)
    ensures forall i :: 0 <= i < |edges| && edges[i].refs > 0 ==>
              edges[i].key.caller < n && edges[i].key.callee < n && edges[i].key.site < n
  {
    forall i | 0 <= i < |edges| && edges[i].refs > 0
      ensures edges[i].key.caller < n && edges[i].key.callee < n && edges[i].key.site < n
    {
      assert RefsOf(edges, index, edges[i].key) == Count(regs, edges[i].key);
      CountPositive(regs, edges[i].key);
    }
  }

  lemma MapEdgeInjective(remap: seq<Id>, e: EdgeRef, f: EdgeRef)
    requires OneToOneIds(remap) && Mappable(remap, e) && Mappable(remap, f)
    requires MapEdge(remap, e) == MapEdge(remap, f)
    ensures e == f
  {
  }

  // ---- The ledger in strings.

  lemma {:induction false} TextRegsGrow(small: seq<string>, big: seq<string>, regs: seq<EdgeReg>)
    requires small <= big && InRange(|small|, regs)
    ensures InRange(|big|, regs) && TextRegs(big, regs) == TextRegs(small, regs)
    decreases |regs|
  {
    if regs != [] {
      TextRegsGrow(small, big, regs[..|regs| - 1]);
    }
  }

  lemma {:induction false} TextRegsMapped(table: seq<string>, shard: seq<string>, remap: seq<Id>, regs: seq<EdgeReg>)
    requires InRange(|shard|, regs) && |remap| == |shard|
    requires forall k :: 0 <= k < |shard| ==> remap[k] < |table| && table[remap[k]] == shard[k]
    ensures InRange(|remap|, regs) && InRange(|table|, MapRegs(remap, regs))
    ensures TextRegs(table, MapRegs(remap, regs)) == TextRegs(shard, regs)
    decreases |regs|
  {
    if regs != [] {
      var most := regs[..|regs| - 1];
      TextRegsMapped(table, shard, remap, most);
      var a := MapRegs(remap, most);
      assert MapRegs(remap, regs)[..|a|] == a;
    }
  }

  lemma {:induction false} TextRegsConcat(strings: seq<string>, a: seq<EdgeReg>, b: seq<EdgeReg>)
    requires InRange(|strings|, a) && InRange(|strings|, b)
    ensures InRange(|strings|, a + b) && TextRegs(strings, a + b) == TextRegs(strings, a) + TextRegs(strings, b)
    decreases |b|
  {
    if b == [] {
      assert a + b == a;
    } else {
      var most := b[..|b| - 1];
      TextRegsConcat(strings, a, most);
      assert (a + b)[..|a + b| - 1] == a + most;
    }
  }

  lemma {:induction false} TextWithout(strings: seq<string>, regs: seq<EdgeReg>, paths: seq<string>)
    requires InRange(|strings|, regs)
    ensures InRange(|strings|, Without(regs, UnitIds(strings, paths)))
    ensures TextRegs(strings, Without(regs, UnitIds(strings, paths))) == Without(TextRegs(strings, regs), L.AsSet(paths))
    decreases |regs|
  {
    if regs != [] {
      hide Without, TextRegs;
      var r, most := regs[|regs| - 1], regs[..|regs| - 1];
      Split(regs);
      TextWithout(strings, most, paths);
      WithoutSnoc(most, r, UnitIds(strings, paths));
      TextRegsSnoc(strings, most, r);
      TextRegsSnoc(strings, Without(most, UnitIds(strings, paths)), r);
      WithoutSnoc(TextRegs(strings, most), TextOf(strings, r), L.AsSet(paths));
    } else {
      assert TextRegs(strings, regs) == [];
    }
  }

  lemma TextRegsSnoc(strings: seq<string>, regs: seq<EdgeReg>, r: EdgeReg)
    requires InRange(|strings|, regs) && Mappable(strings, r.record) && (r.tu.Some? ==> r.tu.value < |strings|)
    ensures InRange(|strings|, regs + [r]) && TextRegs(strings, regs + [r]) == TextRegs(strings, regs) + [TextOf(strings, r)]
  {
    assert (regs + [r])[..|regs|] == regs;
  }

  lemma AbsorbInRange(m: nat, n: nat, regs: seq<EdgeReg>, remap: seq<Id>, more: seq<EdgeReg>)
    requires InRange(m, regs) && m <= n && InRange(|remap|, more) && InRange(n, MapRegs(remap, more))
    ensures InRange(n, regs + MapRegs(remap, more))
  {
  }

  // ---- Merging the edge tables.

  ghost predicate AllMappable(remap: seq<Id>, index: map<EdgeRef, nat>) {
    forall j :: j in index ==> Mappable(remap, j)
  }

  /** `k` is the counterpart of an edge the shard stores. */
  ghost predicate Image(remap: seq<Id>, srcIndex: map<EdgeRef, nat>, k: EdgeRef)
    requires AllMappable(remap, srcIndex)
  {
    exists j :: j in srcIndex && MapEdge(remap, j) == k
  }

  /** Stored edges stay where they are, and the shard's edges are found where
      the renumbering says. */
  ghost predicate Linked(index0: map<EdgeRef, nat>, srcIndex: map<EdgeRef, nat>, n: nat,
                         index: map<EdgeRef, nat>, remap: seq<Id>, edgeRemap: map<nat, nat>)
    requires AllMappable(remap, srcIndex)
  {
    && (forall k :: k in index0 ==> k in index && index[k] == index0[k])
    && (forall j :: j in srcIndex && srcIndex[j] < n ==>
          MapEdge(remap, j) in index && srcIndex[j] in edgeRemap && edgeRemap[srcIndex[j]] == index[MapEdge(remap, j)])
  }

  /** The counts of the first `n` edges have been added, and no others. */
  ghost predicate Summed(edges0: seq<StoredEdge>, index0: map<EdgeRef, nat>, src: seq<StoredEdge>, srcIndex: map<EdgeRef, nat>, n: nat,
                         edges: seq<StoredEdge>, index: map<EdgeRef, nat>, remap: seq<Id>)
    requires AllMappable(remap, srcIndex)
  {
    && (forall j :: j in srcIndex ==>
          RefsOf(edges, index, MapEdge(remap, j)) ==
          RefsOf(edges0, index0, MapEdge(remap, j)) + if srcIndex[j] < n then RefsOf(src, srcIndex, j) else 0)
    && (forall k :: !Image(remap, srcIndex, k) ==> RefsOf(edges, index, k) == RefsOf(edges0, index0, k))
  }

  /** The first `n` edges of the shard have been added to the table. */
  ghost predicate Merged(edges0: seq<StoredEdge>, index0: map<EdgeRef, nat>, src: seq<StoredEdge>, srcIndex: map<EdgeRef, nat>, n: nat,
                         edges: seq<StoredEdge>, index: map<EdgeRef, nat>, remap: seq<Id>, edgeRemap: map<nat, nat>)
  {
    && AllMappable(remap, srcIndex)
    && Linked(index0, srcIndex, n, index, remap, edgeRemap)
    && Summed(edges0, index0, src, srcIndex, n, edges, index, remap)
  }

  lemma MergedStart(edges: seq<StoredEdge>, index: map<EdgeRef, nat>, src: seq<StoredEdge>, srcIndex: map<EdgeRef, nat>, remap: seq<Id>)
    requires IndexOk(src, srcIndex)
    requires forall i :: 0 <= i < |src| && src[i].refs > 0 ==> Mappable(remap, src[i].key)
    ensures Merged(edges, index, src, srcIndex, 0, edges, index, remap, map[])
  {
    hide RefsOf;
    forall j | j in srcIndex ensures Mappable(remap, j) {
      assert src[srcIndex[j]].key == j;
    }
  }

  lemma MergedSkip(edges0: seq<StoredEdge>, index0: map<EdgeRef, nat>, src: seq<StoredEdge>, srcIndex: map<EdgeRef, nat>, n: nat,
                   edges: seq<StoredEdge>, index: map<EdgeRef, nat>, remap: seq<Id>, edgeRemap: map<nat, nat>)
    requires IndexOk(src, srcIndex) && n < |src| && src[n].refs == 0
    requires Merged(edges0, index0, src, srcIndex, n, edges, index, remap, edgeRemap)
    ensures Merged(edges0, index0, src, srcIndex, n + 1, edges, index, remap, edgeRemap)
  {
    hide RefsOf;
    assert forall j :: j in srcIndex ==> srcIndex[j] != n;
  }

  lemma MergedNext(edges0: seq<StoredEdge>, index0: map<EdgeRef, nat>, src: seq<StoredEdge>, srcIndex: map<EdgeRef, nat>, n: nat,
                   edges1: seq<StoredEdge>, index1: map<EdgeRef, nat>, edges: seq<StoredEdge>, index: map<EdgeRef, nat>,
                   remap: seq<Id>, edgeRemap: map<nat, nat>, idx: nat)
    requires IndexOk(src, srcIndex) && n < |src| && src[n].refs > 0 && OneToOneIds(remap)
    requires Merged(edges0, index0, src, srcIndex, n, edges1, index1, remap, edgeRemap)
    requires Mappable(remap, src[n].key)
    requires Raised(edges1, index1, edges, index, MapEdge(remap, src[n].key), src[n].refs)
    requires MapEdge(remap, src[n].key) in index && idx == index[MapEdge(remap, src[n].key)]
    ensures Merged(edges0, index0, src, srcIndex, n + 1, edges, index, remap, edgeRemap[n := idx])
  {
    var e := src[n].key;
    assert e in srcIndex && srcIndex[e] == n && RefsOf(src, srcIndex, e) == src[n].refs;
    assert forall j :: j in srcIndex && srcIndex[j] == n ==> j == e;
    hide RefsOf, IndexOk, MapEdge, OneToOneIds, Summed;
    SummedNext(edges0, index0, src, srcIndex, n, edges1, index1, edges, index, remap);
    forall j | j in srcIndex && srcIndex[j] < n + 1
      ensures MapEdge(remap, j) in index && srcIndex[j] in edgeRemap[n := idx]
      ensures edgeRemap[n := idx][srcIndex[j]] == index[MapEdge(remap, j)]
    {
      if srcIndex[j] < n {
        assert MapEdge(remap, j) in index1;
      }
    }
  }

  lemma SummedNext(edges0: seq<StoredEdge>, index0: map<EdgeRef, nat>, src: seq<StoredEdge>, srcIndex: map<EdgeRef, nat>, n: nat,
                   edges1: seq<StoredEdge>, index1: map<EdgeRef, nat>, edges: seq<StoredEdge>, index: map<EdgeRef, nat>, remap: seq<Id>)
    requires IndexOk(src, srcIndex) && n < |src| && src[n].refs > 0 && OneToOneIds(remap)
    requires AllMappable(remap, srcIndex) && Mappable(remap, src[n].key)
    requires Summed(edges0, index0, src, srcIndex, n, edges1, index1, remap)
    requires Raised(edges1, index1, edges, index, MapEdge(remap, src[n].key), src[n].refs)
    ensures Summed(edges0, index0, src, srcIndex, n + 1, edges, index, remap)
  {
    var e := src[n].key;
    assert e in srcIndex && srcIndex[e] == n && RefsOf(src, srcIndex, e) == src[n].refs;
    assert forall j :: j in srcIndex && srcIndex[j] == n ==> j == e;
    hide RefsOf, IndexOk, MapEdge, OneToOneIds;
    forall j | j in srcIndex
      ensures RefsOf(edges, index, MapEdge(remap, j)) ==
              RefsOf(edges0, index0, MapEdge(remap, j)) + if srcIndex[j] < n + 1 then RefsOf(src, srcIndex, j) else 0
    {
      if MapEdge(remap, j) == MapEdge(remap, e) {
        MapEdgeInjective(remap, j, e);
      }
    }
    forall k | !Image(remap, srcIndex, k) ensures RefsOf(edges, index, k) == RefsOf(edges0, index0, k) {
      assert k != MapEdge(remap, e);
    }
  }

  // ---- Merging the provenance.

  /** What one unit's list becomes once the units not in `left` are merged. */
  ghost predicate UnitMerged(r: map<Id, seq<nat>>, units: map<Id, seq<nat>>, src: map<Id, seq<nat>>, remap: seq<Id>,
                             edgeRemap: map<nat, nat>, left: set<Id>, u: Id)
    requires u < |remap|
  {
    Bucket(r, remap[u]) ==
    if u in left then Bucket(units, remap[u]) else Bucket(units, remap[u]) + Renumber(Bucket(src, u), edgeRemap)
  }

  /** Append each unit's list, renumbered, to the unit's list here. */
  method AbsorbUnits(units: map<Id, seq<nat>>, src: map<Id, seq<nat>>, remap: seq<Id>, edgeRemap: map<nat, nat>, ghost n: nat)
    returns (r: map<Id, seq<nat>>)
    requires OneToOneIds(remap) && forall u :: u in src ==> u < |remap|
    requires forall u :: 0 <= u < |remap| ==> remap[u] < n
    requires forall t :: t in units ==> t < n
    ensures forall t :: t in r ==> t < n
    ensures forall u :: 0 <= u < |remap| ==> UnitMerged(r, units, src, remap, edgeRemap, {}, u)
    ensures forall t :: t !in remap ==> Bucket(r, t) == Bucket(units, t)
  {
    hide OneToOneIds, UnitMerged, Renumber;
    r := units;
    var left := src.Keys;
    forall u | 0 <= u < |remap| ensures UnitMerged(r, units, src, remap, edgeRemap, left, u) {
      UnitStart(units, src, remap, edgeRemap, u);
    }
    while left != {}
      invariant left <= src.Keys
      invariant forall t :: t in r ==> t < n
      invariant forall u :: 0 <= u < |remap| ==> UnitMerged(r, units, src, remap, edgeRemap, left, u)
      invariant forall t :: t !in remap ==> Bucket(r, t) == Bucket(units, t)
      decreases left
    {
      var v :| v in left;
      assert remap[v] in remap;
      var r' := r[remap[v] := Bucket(r, remap[v]) + Renumber(src[v], edgeRemap)];
      forall u | 0 <= u < |remap| ensures UnitMerged(r', units, src, remap, edgeRemap, left - {v}, u) {
        UnitNext(r, units, src, remap, edgeRemap, left, u, v);
      }
      r := r';
      left := left - {v};
    }
  }

  lemma UnitStart(units: map<Id, seq<nat>>, src: map<Id, seq<nat>>, remap: seq<Id>, edgeRemap: map<nat, nat>, u: Id)
    requires u < |remap|
    ensures UnitMerged(units, units, src, remap, edgeRemap, src.Keys, u)
  {
  }

  lemma UnitNext(r: map<Id, seq<nat>>, units: map<Id, seq<nat>>, src: map<Id, seq<nat>>, remap: seq<Id>,
                 edgeRemap: map<nat, nat>, left: set<Id>, u: Id, v: Id)
    requires u < |remap| && v < |remap| && v in left && v in src && OneToOneIds(remap)
    requires UnitMerged(r, units, src, remap, edgeRemap, left, u) && UnitMerged(r, units, src, remap, edgeRemap, left, v)
    ensures UnitMerged(r[remap[v] := Bucket(r, remap[v]) + Renumber(src[v], edgeRemap)], units, src, remap, edgeRemap, left - {v}, u)
  {
    hide Renumber;
  }

  lemma MapRegsSnoc(remap: seq<Id>, regs: seq<EdgeReg>, r: EdgeReg)
    requires InRange(|remap|, regs + [r]) && InRange(|remap|, regs)
    requires Mappable(remap, r.record) && (r.tu.Some? ==> r.tu.value < |remap|)
    ensures MapRegs(remap, regs + [r]) == MapRegs(remap, regs) + [MapReg(remap, r)]
  {
    assert (regs + [r])[..|regs|] == regs;
  }

  lemma {:induction false} CountMapped(remap: seq<Id>, regs: seq<EdgeReg>, e: EdgeRef)
    requires InRange(|remap|, regs) && OneToOneIds(remap) && Mappable(remap, e)
    ensures Count(MapRegs(remap, regs), MapEdge(remap, e)) == Count(regs, e)
    decreases |regs|
  {
    if regs != [] {
      hide Count, MapRegs;
      var r, most := regs[|regs| - 1], regs[..|regs| - 1];
      Split(regs);
      CountMapped(remap, most, e);
      MapRegsSnoc(remap, most, r);
      CountSnoc(most, r, e);
      CountSnoc(MapRegs(remap, most), MapReg(remap, r), MapEdge(remap, e));
      if MapEdge(remap, r.record) == MapEdge(remap, e) {
        MapEdgeInjective(remap, r.record, e);
      }
    }
  }

  lemma {:induction false} CountNotMapped(remap: seq<Id>, regs: seq<EdgeReg>, k: EdgeRef)
    requires InRange(|remap|, regs)
    requires forall i :: 0 <= i < |regs| ==> MapEdge(remap, regs[i].record) != k
    ensures Count(MapRegs(remap, regs), k) == 0
    decreases |regs|
  {
    if regs != [] {
      hide Count, MapRegs;
      var r, most := regs[|regs| - 1], regs[..|regs| - 1];
      Split(regs);
      CountNotMapped(remap, most, k);
      MapRegsSnoc(remap, most, r);
      CountSnoc(MapRegs(remap, most), MapReg(remap, r), k);
    } else {
      assert MapRegs(remap, regs) == [];
    }
  }

  /** A unit's mapped registrations are its list, renumbered. */
  lemma {:induction false} PositionsMapped(remap: seq<Id>, regs: seq<EdgeReg>, u: Id, srcIndex: map<EdgeRef, nat>, index: map<EdgeRef, nat>, edgeRemap: map<nat, nat>)
    requires InRange(|remap|, regs) && OneToOneIds(remap) && u < |remap|
    requires forall i :: 0 <= i < |regs| ==>
               regs[i].record in srcIndex && MapEdge(remap, regs[i].record) in index &&
               srcIndex[regs[i].record] in edgeRemap && edgeRemap[srcIndex[regs[i].record]] == index[MapEdge(remap, regs[i].record)]
    ensures Positions(MapRegs(remap, regs), remap[u], index) == Renumber(Positions(regs, u, srcIndex), edgeRemap)
    decreases |regs|
  {
    if regs != [] {
      hide Positions, MapRegs, Renumber;
      var r, most := regs[|regs| - 1], regs[..|regs| - 1];
      Split(regs);
      PositionsMapped(remap, most, u, srcIndex, index, edgeRemap);
      MapRegsSnoc(remap, most, r);
      PositionsSnoc(MapRegs(remap, most), MapReg(remap, r), remap[u], index);
      PositionsSnoc(most, r, u, srcIndex);
      RenumberSnoc(Positions(most, u, srcIndex), srcIndex[r.record], edgeRemap);
    } else {
      assert MapRegs(remap, regs) == [];
    }
  }

  lemma {:induction false} PositionsNotMapped(remap: seq<Id>, regs: seq<EdgeReg>, t: Id, index: map<EdgeRef, nat>)
    requires InRange(|remap|, regs) && t !in remap
    ensures Positions(MapRegs(remap, regs), t, index) == []
    decreases |regs|
  {
    if regs != [] {
      hide Positions, MapRegs;
      var r, most := regs[|regs| - 1], regs[..|regs| - 1];
      Split(regs);
      PositionsNotMapped(remap, most, t, index);
      MapRegsSnoc(remap, most, r);
      PositionsSnoc(MapRegs(remap, most), MapReg(remap, r), t, index);
    } else {
      assert MapRegs(remap, regs) == [];
    }
  }

  /** The count of an edge the shard has. */
  lemma AbsorbCountOf(edges0: seq<StoredEdge>, index0: map<EdgeRef, nat>, src: seq<StoredEdge>, srcIndex: map<EdgeRef, nat>,
                      edges: seq<StoredEdge>, index: map<EdgeRef, nat>, remap: seq<Id>, regs: seq<EdgeReg>, more: seq<EdgeReg>, j: EdgeRef)
    requires IndexOk(src, srcIndex) && OneToOneIds(remap) && InRange(|remap|, more)
    requires CountsMatch(edges0, index0, regs) && CountsMatch(src, srcIndex, more)
    requires AllMappable(remap, srcIndex) && Summed(edges0, index0, src, srcIndex, |src|, edges, index, remap) && j in srcIndex
    ensures RefsOf(edges, index, MapEdge(remap, j)) == Count(regs + MapRegs(remap, more), MapEdge(remap, j))
  {
    assert srcIndex[j] < |src|;
    hide Count, MapRegs, RefsOf, MapEdge, OneToOneIds, IndexOk, InRange;
    CountConcat(regs, MapRegs(remap, more), MapEdge(remap, j));
    CountMapped(remap, more, j);
    assert RefsOf(edges0, index0, MapEdge(remap, j)) == Count(regs, MapEdge(remap, j)) && RefsOf(src, srcIndex, j) == Count(more, j);
  }

  lemma AbsorbCount(edges0: seq<StoredEdge>, index0: map<EdgeRef, nat>, src: seq<StoredEdge>, srcIndex: map<EdgeRef, nat>,
                    edges: seq<StoredEdge>, index: map<EdgeRef, nat>, remap: seq<Id>, regs: seq<EdgeReg>, more: seq<EdgeReg>, k: EdgeRef)
    requires IndexOk(src, srcIndex) && OneToOneIds(remap) && InRange(|remap|, more)
    requires CountsMatch(edges0, index0, regs) && CountsMatch(src, srcIndex, more)
    requires AllMappable(remap, srcIndex) && Summed(edges0, index0, src, srcIndex, |src|, edges, index, remap)
    ensures RefsOf(edges, index, k) == Count(regs + MapRegs(remap, more), k)
  {
    if Image(remap, srcIndex, k) {
      var j :| j in srcIndex && MapEdge(remap, j) == k;
      AbsorbCountOf(edges0, index0, src, srcIndex, edges, index, remap, regs, more, j);
    } else {
      CountsCover(src, srcIndex, more);
      hide Count, MapRegs, RefsOf, OneToOneIds, IndexOk, MapEdge;
      CountConcat(regs, MapRegs(remap, more), k);
      CountNotMapped(remap, more, k);
      assert RefsOf(edges0, index0, k) == Count(regs, k);
    }
  }

  lemma AbsorbPositions(index0: map<EdgeRef, nat>, srcIndex: map<EdgeRef, nat>, index: map<EdgeRef, nat>, remap: seq<Id>,
                        edgeRemap: map<nat, nat>, units0: map<Id, seq<nat>>, srcUnits: map<Id, seq<nat>>, units: map<Id, seq<nat>>,
                        regs: seq<EdgeReg>, more: seq<EdgeReg>, t: Id)
    requires OneToOneIds(remap) && InRange(|remap|, more)
    requires UnitsMatch(units0, index0, regs) && UnitsMatch(srcUnits, srcIndex, more)
    requires forall i :: 0 <= i < |regs| ==> regs[i].record in index0 && regs[i].record in index && index0[regs[i].record] == index[regs[i].record]
    requires forall i :: 0 <= i < |more| ==>
               more[i].record in srcIndex && MapEdge(remap, more[i].record) in index &&
               srcIndex[more[i].record] in edgeRemap && edgeRemap[srcIndex[more[i].record]] == index[MapEdge(remap, more[i].record)]
    requires forall u :: 0 <= u < |remap| ==> UnitMerged(units, units0, srcUnits, remap, edgeRemap, {}, u)
    requires forall t :: t !in remap ==> Bucket(units, t) == Bucket(units0, t)
    ensures Bucket(units, t) == Positions(regs + MapRegs(remap, more), t, index)
  {
    hide Positions, MapRegs, Renumber, MapEdge, OneToOneIds;
    PositionsConcat(regs, MapRegs(remap, more), t, index);
    PositionsSameIndex(regs, t, index0, index);
    assert Bucket(units0, t) == Positions(regs, t, index0);
    if t in remap {
      var u :| 0 <= u < |remap| && remap[u] == t;
      assert UnitMerged(units, units0, srcUnits, remap, edgeRemap, {}, u);
      assert Bucket(srcUnits, u) == Positions(more, u, srcIndex);
      PositionsMapped(remap, more, u, srcIndex, index, edgeRemap);
    } else {
      PositionsNotMapped(remap, more, t, index);
    }
  }

  lemma AbsorbMatches(edges0: seq<StoredEdge>, index0: map<EdgeRef, nat>, src: seq<StoredEdge>, srcIndex: map<EdgeRef, nat>,
                      edges: seq<StoredEdge>, index: map<EdgeRef, nat>, remap: seq<Id>, edgeRemap: map<nat, nat>,
                      units0: map<Id, seq<nat>>, srcUnits: map<Id, seq<nat>>, units: map<Id, seq<nat>>,
                      regs: seq<EdgeReg>, more: seq<EdgeReg>)
    requires IndexOk(edges0, index0) && IndexOk(src, srcIndex) && OneToOneIds(remap)
    requires CountsMatch(edges0, index0, regs) && CountsMatch(src, srcIndex, more)
    requires UnitsMatch(units0, index0, regs) && UnitsMatch(srcUnits, srcIndex, more)
    requires Merged(edges0, index0, src, srcIndex, |src|, edges, index, remap, edgeRemap)
    requires InRange(|remap|, more)
    requires forall u :: 0 <= u < |remap| ==> UnitMerged(units, units0, srcUnits, remap, edgeRemap, {}, u)
    requires forall t :: t !in remap ==> Bucket(units, t) == Bucket(units0, t)
    ensures CountsMatch(edges, index, regs + MapRegs(remap, more))
    ensures UnitsMatch(units, index, regs + MapRegs(remap, more))
  {
    CountsCover(edges0, index0, regs);
    CountsCover(src, srcIndex, more);
    assert forall i :: 0 <= i < |more| ==> srcIndex[more[i].record] < |src|;
    hide Count, Positions, MapRegs, IndexOk, RefsOf, MapEdge, OneToOneIds, UnitMerged;
    forall k ensures RefsOf(edges, index, k) == Count(regs + MapRegs(remap, more), k) {
      AbsorbCount(edges0, index0, src, srcIndex, edges, index, remap, regs, more, k);
    }
    forall t ensures Bucket(units, t) == Positions(regs + MapRegs(remap, more), t, index) {
      AbsorbPositions(index0, srcIndex, index, remap, edgeRemap, units0, srcUnits, units, regs, more, t);
    }
  }
}
