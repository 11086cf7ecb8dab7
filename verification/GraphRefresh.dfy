/** Two call graphs with the same ledger are the same graph, whatever their ids
    and their history; hence a warm refresh is as good as a clean build. */
module GraphRefresh {
  import opened GraphTypes
  import opened Interner
  import opened Registry
  import opened RefTable
  import opened CG = CallGraph
  import L = Ledger

  /** The edge with text `t` is stored with `n` registrations. */
  ghost predicate Stored(strings: seq<string>, edges: seq<StoredEdge>, index: map<EdgeRef, nat>, t: TextEdge, n: nat) {
    exists e :: e in index && index[e] < |edges| && Mappable(strings, e) && EdgeText(strings, e) == t && edges[index[e]].refs == n
  }

  /** The texts of the edges in an adjacency list. */
  ghost function TextsAt(strings: seq<string>, edges: seq<StoredEdge>, list: seq<nat>): set<TextEdge>
    requires forall i :: 0 <= i < |list| ==> list[i] < |edges| && Mappable(strings, edges[list[i]].key)
  {
    set i | 0 <= i < |list| :: EdgeText(strings, edges[list[i]].key)
  }

  lemma TextInjective(strings: seq<string>, e: EdgeRef, f: EdgeRef)
    requires Injective(strings) && Mappable(strings, e) && Mappable(strings, f) && EdgeText(strings, e) == EdgeText(strings, f)
    ensures e == f
  {
    SameText(strings, e.caller, f.caller);
    SameText(strings, e.callee, f.callee);
    SameText(strings, e.site, f.site);
  }

  /** An edge is registered as often as its text. */
  lemma {:induction false} CountIsText(strings: seq<string>, regs: seq<EdgeReg>, e: EdgeRef)
    requires Injective(strings) && InRange(|strings|, regs) && Mappable(strings, e)
    ensures Count(regs, e) == Count(TextRegs(strings, regs), EdgeText(strings, e))
    decreases |regs|
  {
    if regs != [] {
      hide Count, TextRegs, Injective;
      var r, most := regs[|regs| - 1], regs[..|regs| - 1];
      Split(regs);
      CountIsText(strings, most, e);
      CountSnoc(most, r, e);
      TextRegsSnoc(strings, most, r);
      CountSnoc(TextRegs(strings, most), TextOf(strings, r), EdgeText(strings, e));
      if EdgeText(strings, r.record) == EdgeText(strings, e) {
        TextInjective(strings, r.record, e);
      }
    } else {
      assert TextRegs(strings, regs) == [];
    }
  }

  lemma {:induction false} TextRegsAt(strings: seq<string>, regs: seq<EdgeReg>, i: nat)
    requires InRange(|strings|, regs)
    ensures |TextRegs(strings, regs)| == |regs|
    ensures i < |regs| ==> TextRegs(strings, regs)[i] == TextOf(strings, regs[i])
    decreases |regs|
  {
    if regs != [] {
      TextRegsAt(strings, regs[..|regs| - 1], i);
    }
  }

  /** A text is stored with `n` registrations exactly if the ledger has them. */
  lemma StoredIsRegistered(strings: seq<string>, edges: seq<StoredEdge>, index: map<EdgeRef, nat>, regs: seq<EdgeReg>, t: TextEdge, n: nat)
    requires Injective(strings) && IndexOk(edges, index) && CountsMatch(edges, index, regs) && InRange(|strings|, regs)
    ensures Stored(strings, edges, index, t, n) <==> n > 0 && Count(TextRegs(strings, regs), t) == n
  {
    hide Count, TextRegs, Injective, EdgeText;
    if Stored(strings, edges, index, t, n) {
      var e :| e in index && index[e] < |edges| && Mappable(strings, e) && EdgeText(strings, e) == t && edges[index[e]].refs == n;
      CountIsText(strings, regs, e);
      assert RefsOf(edges, index, e) == Count(regs, e);
    }
    if n > 0 && Count(TextRegs(strings, regs), t) == n {
      CountPositive(TextRegs(strings, regs), t);
      var i :| 0 <= i < |TextRegs(strings, regs)| && TextRegs(strings, regs)[i].record == t;
      TextRegsAt(strings, regs, i);
      var e := regs[i].record;
      CountIsText(strings, regs, e);
      assert RefsOf(edges, index, e) == Count(regs, e);
    }
  }

  ghost predicate AllLive(strings: seq<string>, edges: seq<StoredEdge>, list: seq<nat>, m: nat, side: Side, c: Id)
    requires m <= |edges|
  {
    forall i :: 0 <= i < |list| ==>
      list[i] < m && edges[list[i]].refs > 0 && Mappable(strings, edges[list[i]].key) && EndAt(side, edges[list[i]].key) == c
  }

  lemma {:induction false} ListLive(strings: seq<string>, edges: seq<StoredEdge>, m: nat, side: Side, c: Id)
    requires m <= |edges| && forall i :: 0 <= i < |edges| && edges[i].refs > 0 ==> Mappable(strings, edges[i].key)
    ensures AllLive(strings, edges, LiveAt(edges, m, side, c), m, side, c)
  {
    if m > 0 {
      ListLive(strings, edges, m - 1, side, c);
    }
  }

  /** An adjacency list shows nothing twice. */
  lemma {:induction false} ListShows(strings: seq<string>, edges: seq<StoredEdge>, index: map<EdgeRef, nat>, m: nat, side: Side, c: Id)
    requires Injective(strings) && IndexOk(edges, index) && m <= |edges|
    requires forall i :: 0 <= i < |edges| && edges[i].refs > 0 ==> Mappable(strings, edges[i].key)
    ensures AllLive(strings, edges, LiveAt(edges, m, side, c), m, side, c)
    ensures |TextsAt(strings, edges, LiveAt(edges, m, side, c))| == |LiveAt(edges, m, side, c)|
  {
    ListLive(strings, edges, m, side, c);
    if m > 0 {
      hide Injective, EdgeText, IndexOk, TextsAt, AllLive;
      ListShows(strings, edges, index, m - 1, side, c);
      var rest := LiveAt(edges, m - 1, side, c);
      if edges[m - 1].refs > 0 && EndAt(side, edges[m - 1].key) == c {
        assert LiveAt(edges, m, side, c) == rest + [m - 1];
        NotShown(strings, edges, index, rest, m - 1, side, c);
        TextsSnoc(strings, edges, rest, m - 1);
      }
    } else {
      assert TextsAt(strings, edges, LiveAt(edges, m, side, c)) == {};
    }
  }

  lemma NotShown(strings: seq<string>, edges: seq<StoredEdge>, index: map<EdgeRef, nat>, list: seq<nat>, m: nat, side: Side, c: Id)
    requires Injective(strings) && IndexOk(edges, index) && m < |edges| && AllLive(strings, edges, list, m, side, c)
    requires edges[m].refs > 0 && Mappable(strings, edges[m].key)
    ensures forall i :: 0 <= i < |list| ==> list[i] < |edges| && Mappable(strings, edges[list[i]].key)
    ensures EdgeText(strings, edges[m].key) !in TextsAt(strings, edges, list)
  {
    hide Injective, EdgeText, IndexOk;
    forall i | 0 <= i < |list| ensures EdgeText(strings, edges[list[i]].key) != EdgeText(strings, edges[m].key) {
      if EdgeText(strings, edges[list[i]].key) == EdgeText(strings, edges[m].key) {
        TextInjective(strings, edges[list[i]].key, edges[m].key);
        OnePlace(edges, index, list[i], m);
      }
    }
  }

  lemma OnePlace(edges: seq<StoredEdge>, index: map<EdgeRef, nat>, i: nat, j: nat)
    requires IndexOk(edges, index) && i < |edges| && j < |edges| && edges[i].refs > 0 && edges[j].refs > 0 && edges[i].key == edges[j].key
    ensures i == j
  {
  }

  lemma TextsSnoc(strings: seq<string>, edges: seq<StoredEdge>, list: seq<nat>, x: nat)
    requires forall i :: 0 <= i < |list| ==> list[i] < |edges| && Mappable(strings, edges[list[i]].key)
    requires x < |edges| && Mappable(strings, edges[x].key)
    ensures TextsAt(strings, edges, list + [x]) == TextsAt(strings, edges, list) + {EdgeText(strings, edges[x].key)}
  {
    hide EdgeText;
    var longer := list + [x];
    forall t ensures t in TextsAt(strings, edges, longer) <==> t in TextsAt(strings, edges, list) || t == EdgeText(strings, edges[x].key) {
      if t in TextsAt(strings, edges, list) {
        var i :| 0 <= i < |list| && EdgeText(strings, edges[list[i]].key) == t;
        assert longer[i] == list[i];
      }
      assert longer[|list|] == x;
    }
  }

  ghost function EndText(side: Side, t: TextEdge): string {
    if side.Out? then t.caller else t.callee
  }

  /** The adjacency list of a function shows the stored edges at its name. */
  lemma ListIsStored(strings: seq<string>, edges: seq<StoredEdge>, index: map<EdgeRef, nat>, regs: seq<EdgeReg>, side: Side, c: Id, t: TextEdge)
    requires Injective(strings) && IndexOk(edges, index) && CountsMatch(edges, index, regs) && InRange(|strings|, regs) && c < |strings|
    ensures forall i :: 0 <= i < |edges| && edges[i].refs > 0 ==> Mappable(strings, edges[i].key)
    ensures forall i :: 0 <= i < |LiveAt(edges, |edges|, side, c)| ==>
              LiveAt(edges, |edges|, side, c)[i] < |edges| && Mappable(strings, edges[LiveAt(edges, |edges|, side, c)[i]].key)
    ensures t in TextsAt(strings, edges, LiveAt(edges, |edges|, side, c)) <==>
            EndText(side, t) == strings[c] && Count(TextRegs(strings, regs), t) > 0
  {
    hide Count, TextRegs, Injective, LiveAt;
    EdgesInRange(|strings|, edges, index, regs);
    ListShows(strings, edges, index, |edges|, side, c);
    var list := LiveAt(edges, |edges|, side, c);
    if t in TextsAt(strings, edges, list) {
      var i :| 0 <= i < |list| && EdgeText(strings, edges[list[i]].key) == t;
      assert Stored(strings, edges, index, t, edges[list[i]].refs);
      StoredIsRegistered(strings, edges, index, regs, t, edges[list[i]].refs);
    }
    if EndText(side, t) == strings[c] && Count(TextRegs(strings, regs), t) > 0 {
      StoredIsRegistered(strings, edges, index, regs, t, Count(TextRegs(strings, regs), t));
      var e :| e in index && index[e] < |edges| && Mappable(strings, e) && EdgeText(strings, e) == t && edges[index[e]].refs > 0;
      SameText(strings, EndAt(side, e), c);
      LiveAtMember(edges, |edges|, side, c, index[e]);
      var i :| 0 <= i < |list| && list[i] == index[e];
    }
  }

  ghost predicate SameLedger(g: CallGraph, h: CallGraph)
    requires g.Valid() && h.Valid()
    reads g, h
  {
    multiset(TextRegs(g.strings, g.regs)) == multiset(TextRegs(h.strings, h.regs))
  }

  /** Same ledger, same graph: the stored edges with their counts, what the
      adjacency lists show at each name, and their lengths. */
  lemma SameGraph(g: CallGraph, h: CallGraph, t: TextEdge, n: nat)
    requires g.Valid() && h.Valid() && SameLedger(g, h)
    ensures Stored(g.strings, g.edges, g.edgeIndex, t, n) <==> Stored(h.strings, h.edges, h.edgeIndex, t, n)
  {
    hide TextRegs, Stored, CountsMatch, UnitsMatch, IndexOk, Adjacent, InRange;
    CountIsMultiset(TextRegs(g.strings, g.regs), TextRegs(h.strings, h.regs), t);
    StoredIsRegistered(g.strings, g.edges, g.edgeIndex, g.regs, t, n);
    StoredIsRegistered(h.strings, h.edges, h.edgeIndex, h.regs, t, n);
  }

  ghost predicate ListReadable(g: CallGraph, list: seq<nat>)
    reads g
  {
    forall i :: 0 <= i < |list| ==> list[i] < |g.edges| && Mappable(g.strings, g.edges[list[i]].key)
  }

  ghost function Lists(g: CallGraph, side: Side): map<Id, seq<nat>>
    reads g
  {
    if side.Out? then g.outEdges else g.inEdges
  }

  lemma SameLists(g: CallGraph, h: CallGraph, side: Side, a: Id, b: Id)
    requires g.Valid() && h.Valid() && SameLedger(g, h)
    requires a < |g.strings| && b < |h.strings| && g.strings[a] == h.strings[b]
    ensures ListReadable(g, Bucket(Lists(g, side), a)) && ListReadable(h, Bucket(Lists(h, side), b))
    ensures TextsAt(g.strings, g.edges, Bucket(Lists(g, side), a)) == TextsAt(h.strings, h.edges, Bucket(Lists(h, side), b))
    ensures |Bucket(Lists(g, side), a)| == |Bucket(Lists(h, side), b)|
  {
    hide TextRegs, CountsMatch, UnitsMatch, IndexOk, InRange, LiveAt, EdgeText, TextsAt, Injective;
    assert Bucket(Lists(g, side), a) == LiveAt(g.edges, |g.edges|, side, a);
    assert Bucket(Lists(h, side), b) == LiveAt(h.edges, |h.edges|, side, b);
    ListIsStored(g.strings, g.edges, g.edgeIndex, g.regs, side, a, TextEdge("", "", "", DirectCall, Proven, Synchronous, 0));
    ListIsStored(h.strings, h.edges, h.edgeIndex, h.regs, side, b, TextEdge("", "", "", DirectCall, Proven, Synchronous, 0));
    forall t ensures t in TextsAt(g.strings, g.edges, Bucket(Lists(g, side), a)) <==> t in TextsAt(h.strings, h.edges, Bucket(Lists(h, side), b)) {
      CountIsMultiset(TextRegs(g.strings, g.regs), TextRegs(h.strings, h.regs), t);
      ListIsStored(g.strings, g.edges, g.edgeIndex, g.regs, side, a, t);
      ListIsStored(h.strings, h.edges, h.edgeIndex, h.regs, side, b, t);
    }
    ListShows(g.strings, g.edges, g.edgeIndex, |g.edges|, side, a);
    ListShows(h.strings, h.edges, h.edgeIndex, |h.edges|, side, b);
  }

  // ---- Live counts.

  ghost function StoredTexts(strings: seq<string>, keys: set<EdgeRef>): set<TextEdge>
    requires forall e :: e in keys ==> Mappable(strings, e)
  {
    set e | e in keys :: EdgeText(strings, e)
  }

  lemma {:induction false} StoredTextsCount(strings: seq<string>, keys: set<EdgeRef>)
    requires Injective(strings) && forall e :: e in keys ==> Mappable(strings, e)
    ensures |StoredTexts(strings, keys)| == |keys|
    decreases |keys|
  {
    hide EdgeText, Injective;
    if keys != {} {
      var e :| e in keys;
      var rest := keys - {e};
      StoredTextsCount(strings, rest);
      assert StoredTexts(strings, keys) == StoredTexts(strings, rest) + {EdgeText(strings, e)};
      assert EdgeText(strings, e) !in StoredTexts(strings, rest) by {
        NewText(strings, rest, e);
      }
    }
  }

  lemma NewText(strings: seq<string>, rest: set<EdgeRef>, e: EdgeRef)
    requires Injective(strings) && Mappable(strings, e) && e !in rest && forall f :: f in rest ==> Mappable(strings, f)
    ensures EdgeText(strings, e) !in StoredTexts(strings, rest)
  {
    hide Injective, EdgeText;
    forall f | f in rest ensures EdgeText(strings, f) != EdgeText(strings, e) {
      if EdgeText(strings, f) == EdgeText(strings, e) {
        TextInjective(strings, e, f);
      }
    }
  }

  lemma KeysStored(strings: seq<string>, edges: seq<StoredEdge>, index: map<EdgeRef, nat>, regs: seq<EdgeReg>, t: TextEdge)
    requires Injective(strings) && IndexOk(edges, index) && CountsMatch(edges, index, regs) && InRange(|strings|, regs)
    ensures forall e :: e in index.Keys ==> Mappable(strings, e)
    ensures t in StoredTexts(strings, index.Keys) <==> Count(TextRegs(strings, regs), t) > 0
  {
    hide Count, TextRegs, Injective, EdgeText;
    EdgesInRange(|strings|, edges, index, regs);
    forall e | e in index.Keys ensures Mappable(strings, e) {
      assert edges[index[e]].key == e;
    }
    var n := Count(TextRegs(strings, regs), t);
    StoredIsRegistered(strings, edges, index, regs, t, n);
    if t in StoredTexts(strings, index.Keys) {
      var e :| e in index && EdgeText(strings, e) == t;
      assert Stored(strings, edges, index, t, edges[index[e]].refs);
      StoredIsRegistered(strings, edges, index, regs, t, edges[index[e]].refs);
    }
  }

  lemma SameLiveCount(g: CallGraph, h: CallGraph)
    requires g.Valid() && h.Valid() && SameLedger(g, h)
    ensures g.liveEdgeCount == h.liveEdgeCount
  {
    hide TextRegs, CountsMatch, UnitsMatch, IndexOk, InRange, Adjacent, StoredTexts, Injective;
    KeysStored(g.strings, g.edges, g.edgeIndex, g.regs, TextEdge("", "", "", DirectCall, Proven, Synchronous, 0));
    KeysStored(h.strings, h.edges, h.edgeIndex, h.regs, TextEdge("", "", "", DirectCall, Proven, Synchronous, 0));
    forall t ensures t in StoredTexts(g.strings, g.edgeIndex.Keys) <==> t in StoredTexts(h.strings, h.edgeIndex.Keys) {
      CountIsMultiset(TextRegs(g.strings, g.regs), TextRegs(h.strings, h.regs), t);
      KeysStored(g.strings, g.edges, g.edgeIndex, g.regs, t);
      KeysStored(h.strings, h.edges, h.edgeIndex, h.regs, t);
    }
    assert StoredTexts(g.strings, g.edgeIndex.Keys) == StoredTexts(h.strings, h.edgeIndex.Keys);
    StoredTextsCount(g.strings, g.edgeIndex.Keys);
    StoredTextsCount(h.strings, h.edgeIndex.Keys);
  }

  /** Two graphs that hold the bake of the same units are the same graph: after a
      warm refresh it is the one a clean build makes. */
  lemma BakesAgree(g: CallGraph, h: CallGraph, units: set<string>, bake: string -> multiset<TextEdge>)
    requires g.Valid() && h.Valid()
    requires L.IsBake(TextRegs(g.strings, g.regs), units, bake) && L.IsBake(TextRegs(h.strings, h.regs), units, bake)
    ensures g.liveEdgeCount == h.liveEdgeCount
    ensures forall t, n :: Stored(g.strings, g.edges, g.edgeIndex, t, n) <==> Stored(h.strings, h.edges, h.edgeIndex, t, n)
  {
    hide TextRegs, L.IsBake, IndexOk, CountsMatch, UnitsMatch, Adjacent, Stored;
    L.BakeUnique(TextRegs(g.strings, g.regs), TextRegs(h.strings, h.regs), units, bake);
    SameLiveCount(g, h);
    forall t, n: nat ensures Stored(g.strings, g.edges, g.edgeIndex, t, n) <==> Stored(h.strings, h.edges, h.edgeIndex, t, n) {
      SameGraph(g, h, t, n);
    }
  }
}
