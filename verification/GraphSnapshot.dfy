/** Saving the call graph and loading it for changes: the same ledger and the
    same relations come back, and the edges are the live ones in their order. */
module GraphSnapshot {
  import opened GraphTypes
  import opened Interner
  import opened Registry
  import opened RefTable
  import opened Rows
  import opened CallGraph
  import R = Relations
  import Q = CallQueries
  import opened GraphCodec
  import Codec
  import FlowSnapshot

  // ---- The edges and the ledger that rows stand for.

  ghost function StoredOf(rows: seq<EdgeRow>): seq<StoredEdge> {
    seq(|rows|, i requires 0 <= i < |rows| => Stored(rows[i].edge, rows[i].refs))
  }

  predicate Counted(n: nat, r: EdgeRow) {
    EdgeOk(n, r) && |r.tus| <= r.refs
  }

  ghost predicate AllCounted(n: nat, rows: seq<EdgeRow>) {
    forall i :: 0 <= i < |rows| ==> Counted(n, rows[i])
  }

  ghost function LedgerOf(n: nat, rows: seq<EdgeRow>): seq<EdgeReg>
    requires AllCounted(n, rows)
  {
    if rows == [] then []
    else
      var r := rows[|rows| - 1];
      LedgerOf(n, rows[..|rows| - 1]) + Block(r.edge, r.refs, r.tus)
  }

  lemma LedgerSnoc(n: nat, rows: seq<EdgeRow>, r: EdgeRow)
    requires AllCounted(n, rows) && Counted(n, r)
    ensures AllCounted(n, rows + [r])
    ensures LedgerOf(n, rows + [r]) == LedgerOf(n, rows) + Block(r.edge, r.refs, r.tus)
  {
    assert (rows + [r])[..|rows|] == rows;
  }

  lemma StoredSnoc(rows: seq<EdgeRow>, r: EdgeRow)
    ensures StoredOf(rows + [r]) == StoredOf(rows) + [Stored(r.edge, r.refs)]
  {
  }

  lemma {:induction false} LiveEdgesFrom(edges: seq<StoredEdge>, n: nat, j: nat) returns (i: nat)
    requires n <= |edges| && j < |LiveOf(edges, n)|
    ensures i < n && edges[i].refs > 0 && LiveOf(edges, n)[j] == edges[i]
  {
    if edges[n - 1].refs > 0 && j == |LiveOf(edges, n)| - 1 {
      i := n - 1;
    } else {
      i := LiveEdgesFrom(edges, n - 1, j);
    }
  }

  ghost predicate DistinctKeys(edges: seq<StoredEdge>) {
    forall i, j :: 0 <= i < j < |edges| ==> edges[i].key != edges[j].key
  }

  /** No two live edges have the same content. */
  lemma {:induction false} LiveEdgesDistinct(edges: seq<StoredEdge>, index: map<EdgeRef, nat>, n: nat)
    requires n <= |edges| && IndexOk(edges, index)
    ensures DistinctKeys(LiveOf(edges, n))
  {
    if n > 0 {
      LiveEdgesDistinct(edges, index, n - 1);
      var rest, last := LiveOf(edges, n - 1), edges[n - 1];
      forall j | 0 <= j < |rest| ensures last.refs > 0 ==> rest[j].key != last.key {
        var i := LiveEdgesFrom(edges, n - 1, j);
        assert edges[i].refs > 0 && i != n - 1;
      }
      assert LiveOf(edges, n) == if last.refs > 0 then rest + [last] else rest;
    }
  }

  // ---- Saving.

  ghost predicate RowsUpTo(g: CallGraph, rows: seq<EdgeRow>, i: nat)
    reads g
  {
    && i <= |g.edges| && AllCounted(|g.strings|, rows)
    && StoredOf(rows) == LiveOf(g.edges, i)
    && Replayed([], LedgerOf(|g.strings|, rows), g.regs, g.edgeIndex, i, {})
  }

  lemma NoRows(g: CallGraph)
    ensures RowsUpTo(g, [], 0)
  {
    ReplayedStart([], g.regs, g.edgeIndex);
  }

  lemma SkipDead(g: CallGraph, rows: seq<EdgeRow>, i: nat)
    requires g.Valid() && RowsUpTo(g, rows, i) && i < |g.edges| && g.edges[i].refs == 0
    ensures RowsUpTo(g, rows, i + 1)
  {
    hide Injective, Adjacent, IndexOk, CountsMatch, UnitsMatch, InRange, Replayed, StoredOf, LedgerOf;
    ReplayedSkip([], LedgerOf(|g.strings|, rows), g.regs, g.edges, g.edgeIndex, i);
  }

  lemma AddRow(g: CallGraph, rows: seq<EdgeRow>, i: nat, r: EdgeRow)
    requires g.Valid() && RowsUpTo(g, rows, i) && i < |g.edges| && g.edges[i].refs > 0 && Counted(|g.strings|, r)
    requires r.edge == g.edges[i].key && r.refs == g.edges[i].refs && UnitsOfRecord(g.regs, r.edge, r.refs, r.tus)
    ensures RowsUpTo(g, rows + [r], i + 1)
  {
    hide Injective, Adjacent, IndexOk, CountsMatch, UnitsMatch, InRange, Replayed, StoredOf, LedgerOf, UnitsOfRecord, Block, Counted;
    StoredAt(g.edges, g.edgeIndex, g.regs, i);
    LedgerSnoc(|g.strings|, rows, r);
    StoredSnoc(rows, r);
    ReplayBlock(g.regs, g.edges, g.edgeIndex, LedgerOf(|g.strings|, rows), r.edge, r.refs, r.tus, i);
  }

  /** One row for each live edge: its count and the units that registered it. */
  method RowsOf(g: CallGraph) returns (rows: seq<EdgeRow>)
    requires g.Valid()
    ensures RowsUpTo(g, rows, |g.edges|) && |rows| <= |g.edges|
  {
    hide Injective, Adjacent, IndexOk, CountsMatch, UnitsMatch, InRange, RowsUpTo, UnitsOfRecord;
    rows := [];
    NoRows(g);
    EdgesInRange(|g.strings|, g.edges, g.edgeIndex, g.regs);
    for i := 0 to |g.edges|
      invariant RowsUpTo(g, rows, i) && |rows| <= i
    {
      if g.edges[i].refs == 0 {
        SkipDead(g, rows, i);
      } else {
        var tus := UnitsOf(g.edges, g.edgeIndex, g.tuEdges, g.regs, i);
        var r := EdgeRow(g.edges[i].key, g.edges[i].refs, tus);
        AddRow(g, rows, i, r);
        rows := rows + [r];
      }
    }
  }

  // ---- Installing.

  lemma {:induction false} TaggedInRange(n: nat, e: EdgeRef, tus: seq<Id>)
    requires EndsOk(n, e) && IdsOk(n, tus)
    ensures InRange(n, TaggedRegs(e, tus))
    decreases |tus|
  {
    if tus != [] {
      TaggedInRange(n, e, tus[..|tus| - 1]);
    }
  }

  lemma BlockInRange(n: nat, regs: seq<EdgeReg>, r: EdgeRow)
    requires InRange(n, regs) && Counted(n, r)
    ensures InRange(n, regs + Block(r.edge, r.refs, r.tus))
  {
    hide TaggedRegs, Copies;
    TaggedInRange(n, r.edge, r.tus);
    CopiesAll<EdgeReg>(Reg(r.edge, None), r.refs - |r.tus|);
  }

  /** Install one edge directly, with its count and its units. */
  method InstallEdge(g: CallGraph, r: EdgeRow)
    requires g.Valid() && Counted(|g.strings|, r) && r.edge !in g.edgeIndex
    modifies g`edges, g`edgeIndex, g`outEdges, g`inEdges, g`liveEdgeCount, g`tuEdges, g`regs
    ensures g.Valid() && g.regs == old(g.regs) + Block(r.edge, r.refs, r.tus)
    ensures g.edges == old(g.edges) + [Stored(r.edge, r.refs)]
  {
    hide Injective, Adjacent, IndexOk, CountsMatch, UnitsMatch, InRange, Raised, UnitsPushed, Block, LiveAt;
    CountsCover(g.edges, g.edgeIndex, g.regs);
    ghost var edges0, index0, units0 := g.edges, g.edgeIndex, g.tuEdges;
    var idx := g.Register(r.edge, r.refs);
    PushStart(edges0, index0, g.edges, g.edgeIndex, units0, g.regs, r.edge, r.refs, r.tus);
    for j := 0 to |r.tus|
      invariant UnitsPushed(g.tuEdges, g.edgeIndex, g.regs, r.edge, r.tus, j)
      invariant g.regs == old(g.regs) && g.Core() && r.edge in g.edgeIndex && idx == g.edgeIndex[r.edge]
      invariant Raised(edges0, index0, g.edges, g.edgeIndex, r.edge, r.refs)
      invariant g.edges == old(g.edges) + [Stored(r.edge, r.refs)]
      invariant forall tu :: tu in g.tuEdges ==> tu < |g.strings|
    {
      PushNext(g.tuEdges, g.edgeIndex, g.regs, r.edge, r.tus, j);
      g.tuEdges := g.tuEdges[r.tus[j] := Bucket(g.tuEdges, r.tus[j]) + [idx]];
    }
    BlockMatches(edges0, index0, g.edges, g.edgeIndex, g.tuEdges, g.regs, r.edge, r.refs, r.tus);
    BlockInRange(|g.strings|, g.regs, r);
    g.regs := g.regs + Block(r.edge, r.refs, r.tus);
  }

  ghost predicate DistinctEdges(rows: seq<EdgeRow>) {
    forall i, j :: 0 <= i < j < |rows| ==> rows[i].edge != rows[j].edge
  }

  /** A graph with the given strings and no edges. */
  method NewGraph(strings: seq<string>) returns (g: CallGraph)
    requires Injective(strings)
    ensures fresh(g) && g.Valid() && g.strings == strings && g.regs == [] && g.edges == []
  {
    g := new CallGraph();
    g.strings := strings;
  }

  method InstallEdges(strings: seq<string>, rows: seq<EdgeRow>) returns (g: CallGraph)
    requires Injective(strings) && AllCounted(|strings|, rows) && DistinctEdges(rows)
    ensures fresh(g) && g.Valid() && g.strings == strings && g.edges == StoredOf(rows) && g.regs == LedgerOf(|strings|, rows)
  {
    hide CallGraph.Valid, Counted, Injective, Block;
    g := NewGraph(strings);
    for n := 0 to |rows|
      invariant fresh(g) && g.Valid() && g.strings == strings
      invariant g.edges == StoredOf(rows[..n]) && g.regs == LedgerOf(|strings|, rows[..n])
    {
      NewEdge(g, rows, n);
      assert rows[..n + 1] == rows[..n] + [rows[n]];
      LedgerSnoc(|strings|, rows[..n], rows[n]);
      StoredSnoc(rows[..n], rows[n]);
      InstallEdge(g, rows[n]);
    }
    assert rows[..|rows|] == rows;
  }

  lemma NewEdge(g: CallGraph, rows: seq<EdgeRow>, n: nat)
    requires g.Valid() && n < |rows| && g.edges == StoredOf(rows[..n]) && DistinctEdges(rows)
    ensures rows[n].edge !in g.edgeIndex
  {
    hide Adjacent, CountsMatch, UnitsMatch, InRange, Injective;
    forall k | k in g.edgeIndex ensures k != rows[n].edge {
      var i := g.edgeIndex[k];
      assert g.edges[i].key == k == rows[i].edge;
    }
  }

  lemma SavedDistinct(g: CallGraph, rows: seq<EdgeRow>)
    requires g.Valid() && RowsUpTo(g, rows, |g.edges|)
    ensures DistinctEdges(rows)
  {
    hide Adjacent, CountsMatch, UnitsMatch, InRange, Injective, Replayed, AllCounted, LiveOf;
    LiveEdgesDistinct(g.edges, g.edgeIndex, |g.edges|);
    forall i, j | 0 <= i < j < |rows| ensures rows[i].edge != rows[j].edge {
      var stored := StoredOf(rows);
      assert DistinctKeys(stored) && stored[i].key == rows[i].edge && stored[j].key == rows[j].edge;
    }
  }

  // ---- Relations as pairs.

  /** The partners of `a`, in the order of the pairs. */
  ghost function PartnersOf(pairs: seq<Pair>, a: Id): seq<Id> {
    if pairs == [] then []
    else
      var rest, p := PartnersOf(pairs[..|pairs| - 1], a), pairs[|pairs| - 1];
      if p.first == a then rest + [p.second] else rest
  }

  lemma PartnersSnoc(pairs: seq<Pair>, p: Pair, a: Id)
    ensures PartnersOf(pairs + [p], a) == if p.first == a then PartnersOf(pairs, a) + [p.second] else PartnersOf(pairs, a)
  {
    assert (pairs + [p])[..|pairs|] == pairs;
  }

  lemma {:induction false} PartnersMember(pairs: seq<Pair>, a: Id, b: Id)
    ensures b in PartnersOf(pairs, a) <==> Pair(a, b) in pairs
    decreases |pairs|
  {
    if pairs != [] {
      var most, p := pairs[..|pairs| - 1], pairs[|pairs| - 1];
      assert pairs == most + [p];
      PartnersMember(most, a, b);
    }
  }

  /** The pairs list each bucket in its order. */
  ghost predicate ListsMap(pairs: seq<Pair>, m: map<Id, seq<Id>>) {
    forall a :: PartnersOf(pairs, a) == R.Bucket(m, a)
  }

  ghost predicate ListsSets(pairs: seq<Pair>, m: map<Id, set<Id>>) {
    && (forall i, j :: 0 <= i < j < |pairs| ==> pairs[i] != pairs[j])
    && (forall a, b :: Pair(a, b) in pairs <==> b in R.Members(m, a))
  }

  /** What is listed so far: the keys not left, and of `k` the first `j`. */
  ghost predicate ListedUpTo(pairs: seq<Pair>, m: map<Id, seq<Id>>, left: set<Id>, k: Id, j: nat) {
    forall a :: PartnersOf(pairs, a) ==
      if a == k && k in m && j <= |m[k]| then m[k][..j] else if a in left then [] else R.Bucket(m, a)
  }

  method PairsOf(m: map<Id, seq<Id>>) returns (pairs: seq<Pair>)
    ensures ListsMap(pairs, m)
  {
    hide PartnersOf;
    pairs := [];
    NoPairs();
    var left := m.Keys;
    while left != {}
      invariant left <= m.Keys
      invariant forall a :: PartnersOf(pairs, a) == if a in left then [] else R.Bucket(m, a)
      decreases left
    {
      var k :| k in left;
      left := left - {k};
      for j := 0 to |m[k]|
        invariant ListedUpTo(pairs, m, left, k, j)
      {
        NextPair(pairs, m, left, k, j);
        pairs := pairs + [Pair(k, m[k][j])];
      }
    }
  }

  lemma NoPairs()
    ensures forall a :: PartnersOf([], a) == []
  {
  }

  lemma NextPair(pairs: seq<Pair>, m: map<Id, seq<Id>>, left: set<Id>, k: Id, j: nat)
    requires k in m && j < |m[k]| && ListedUpTo(pairs, m, left, k, j)
    ensures ListedUpTo(pairs + [Pair(k, m[k][j])], m, left, k, j + 1)
  {
    hide PartnersOf;
    var pairs' := pairs + [Pair(k, m[k][j])];
    forall a ensures PartnersOf(pairs', a) ==
      if a == k && k in m && j + 1 <= |m[k]| then m[k][..j + 1] else if a in left then [] else R.Bucket(m, a)
    {
      PartnersSnoc(pairs, Pair(k, m[k][j]), a);
      assert m[k][..j + 1] == m[k][..j] + [m[k][j]];
    }
  }

  method SetPairsOf(m: map<Id, set<Id>>) returns (pairs: seq<Pair>)
    ensures ListsSets(pairs, m)
  {
    pairs := [];
    var left := set a, b | a in m && b in m[a] :: Pair(a, b);
    while left != {}
      invariant forall p :: p in left ==> p.second in R.Members(m, p.first) && p !in pairs
      invariant forall i, j :: 0 <= i < j < |pairs| ==> pairs[i] != pairs[j]
      invariant forall a, b :: b in R.Members(m, a) <==> Pair(a, b) in pairs || Pair(a, b) in left
      decreases left
    {
      var p :| p in left;
      pairs := pairs + [p];
      left := left - {p};
    }
  }

  /** Install the pairs in the relation and its reverse. */
  method InstallPairs(pairs: seq<Pair>) returns (forward: map<Id, seq<Id>>, reverse: map<Id, seq<Id>>)
    ensures ListsMap(pairs, forward) && R.Transposed(forward, reverse)
  {
    hide PartnersOf, R.Push, R.Bucket;
    forward, reverse := map[], map[];
    NothingListed();
    for i := 0 to |pairs|
      invariant ListsMap(pairs[..i], forward) && R.Transposed(forward, reverse)
    {
      var p := pairs[i];
      assert pairs[..i + 1] == pairs[..i] + [p];
      PushPair(pairs[..i], forward, p);
      R.PushMember(forward, p.first, p.second);
      R.PushMember(reverse, p.second, p.first);
      forward, reverse := R.Push(forward, p.first, p.second), R.Push(reverse, p.second, p.first);
    }
    assert pairs[..|pairs|] == pairs;
  }

  lemma NothingListed()
    ensures ListsMap([], map[]) && R.Transposed(map[], map[])
  {
  }

  lemma PushPair(pairs: seq<Pair>, m: map<Id, seq<Id>>, p: Pair)
    requires ListsMap(pairs, m)
    ensures ListsMap(pairs + [p], R.Push(m, p.first, p.second))
  {
    hide PartnersOf;
    forall a ensures PartnersOf(pairs + [p], a) == R.Bucket(R.Push(m, p.first, p.second), a) {
      PartnersSnoc(pairs, p, a);
      assert PartnersOf(pairs, a) == R.Bucket(m, a);
    }
  }

  method InstallSets(pairs: seq<Pair>) returns (forward: map<Id, set<Id>>, reverse: map<Id, seq<Id>>)
    ensures forall a, b :: Pair(a, b) in pairs <==> b in R.Members(forward, a)
    ensures R.ReturnsTransposed(forward, reverse)
  {
    hide R.Push, R.Bucket, R.Insert, R.Members;
    forward, reverse := map[], map[];
    NothingReturned();
    for i := 0 to |pairs|
      invariant forall a, b :: Pair(a, b) in pairs[..i] <==> b in R.Members(forward, a)
      invariant R.ReturnsTransposed(forward, reverse)
    {
      var p := pairs[i];
      assert pairs[..i + 1] == pairs[..i] + [p];
      R.InsertMember(forward, p.first, p.second);
      R.PushMember(reverse, p.second, p.first);
      forward, reverse := R.Insert(forward, p.first, p.second), R.Push(reverse, p.second, p.first);
    }
    assert pairs[..|pairs|] == pairs;
  }

  lemma NothingReturned()
    ensures (forall a :: R.Members(map[], a) == {}) && R.ReturnsTransposed(map[], map[])
  {
  }

  method InstallRelations(overrides: seq<Pair>, returned: seq<Pair>) returns (rel: R.Relations)
    ensures fresh(rel) && rel.Valid() && ListsMap(overrides, rel.methodOverrides)
    ensures forall a, b :: Pair(a, b) in returned <==> b in R.Members(rel.functionReturns, a)
  {
    hide ListsMap, R.Transposed, R.ReturnsTransposed, R.Members;
    var a, b := InstallPairs(overrides);
    var c, d := InstallSets(returned);
    rel := new R.Relations();
    rel.methodOverrides, rel.overrideBases, rel.functionReturns, rel.returnedBy := a, b, c, d;
  }

  // ---- Save, then load.

  /** The node table and the class hierarchy, which are carried as rows. */
  datatype Others = Others(nodes: seq<NodeRow>, derived: seq<Pair>, impls: seq<Pair>)

  ghost predicate EdgesFit(g: CallGraph)
    reads g
  {
    && |g.edges| < Codec.U32
    && forall i :: 0 <= i < |g.edges| ==> g.edges[i].refs < Codec.U32 && g.edges[i].key.indirection < Codec.U32
  }

  ghost predicate RelationsFit(n: nat, rel: R.Relations)
    reads rel
  {
    && (forall pairs :: ListsMap(pairs, rel.methodOverrides) ==> |pairs| < Codec.U32)
    && (forall pairs :: ListsSets(pairs, rel.functionReturns) ==> |pairs| < Codec.U32)
    && (forall a: Id, b: Id :: b in R.Bucket(rel.methodOverrides, a) ==> a < n && b < n)
    && (forall a: Id, b: Id :: b in R.Members(rel.functionReturns, a) ==> a < n && b < n)
  }

  ghost predicate OthersFit(isText: string -> bool, n: nat, o: Others) {
    && |o.nodes| < Codec.U32 && (forall i :: 0 <= i < |o.nodes| ==> NodeReads(isText, n, o.nodes[i]))
    && PairsRead(n, o.derived) && PairsRead(n, o.impls)
  }

  /** Everything fits the 32-bit fields, every id is interned and every string is text. */
  ghost predicate Fits(isText: string -> bool, g: CallGraph, rel: R.Relations, o: Others)
    reads g, rel
  {
    && |g.strings| < Codec.U32 && (forall i :: 0 <= i < |g.strings| ==> FlowSnapshot.TextFits(isText, g.strings[i]))
    && EdgesFit(g) && RelationsFit(|g.strings|, rel) && OthersFit(isText, |g.strings|, o)
  }

  lemma EdgesRead(g: CallGraph, rows: seq<EdgeRow>)
    requires EdgesFit(g) && RowsUpTo(g, rows, |g.edges|) && |g.strings| < Codec.U32
    ensures forall i :: 0 <= i < |rows| ==> EdgeReads(|g.strings|, rows[i])
  {
    hide Replayed, LiveOf, LedgerOf;
    forall i | 0 <= i < |rows| ensures EdgeReads(|g.strings|, rows[i]) {
      assert Counted(|g.strings|, rows[i]);
      assert StoredOf(rows)[i] == Stored(rows[i].edge, rows[i].refs);
      var n := LiveEdgesFrom(g.edges, |g.edges|, i);
    }
  }

  lemma OverridesRead(n: nat, rel: R.Relations, pairs: seq<Pair>)
    requires RelationsFit(n, rel) && ListsMap(pairs, rel.methodOverrides) && n < Codec.U32
    ensures PairsRead(n, pairs)
  {
    hide PartnersOf, R.Bucket;
    forall i | 0 <= i < |pairs| ensures PairReads(n, pairs[i]) {
      PartnersMember(pairs, pairs[i].first, pairs[i].second);
      assert pairs[i] == Pair(pairs[i].first, pairs[i].second) && pairs[i] in pairs;
      assert PartnersOf(pairs, pairs[i].first) == R.Bucket(rel.methodOverrides, pairs[i].first);
    }
  }

  lemma ReturnsRead(n: nat, rel: R.Relations, pairs: seq<Pair>)
    requires RelationsFit(n, rel) && ListsSets(pairs, rel.functionReturns) && n < Codec.U32
    ensures PairsRead(n, pairs)
  {
    hide ListsMap, R.Members;
    forall i | 0 <= i < |pairs| ensures PairReads(n, pairs[i]) {
      assert pairs[i] == Pair(pairs[i].first, pairs[i].second) && pairs[i] in pairs;
    }
  }

  lemma AllReplayed(g: CallGraph, rows: seq<EdgeRow>)
    requires g.Valid() && RowsUpTo(g, rows, |g.edges|)
    ensures multiset(LedgerOf(|g.strings|, rows)) == multiset(g.regs)
  {
    hide Adjacent, UnitsMatch, InRange, Injective, StoredOf, LiveOf, LedgerOf;
    ReplayedEnd([], LedgerOf(|g.strings|, rows), g.regs, g.edges, g.edgeIndex);
  }

  /** Same strings, same registrations, the live edges in their order, and the
      same relations in both directions. */
  ghost predicate Recovered(g: CallGraph, rel: R.Relations, g': CallGraph, rel': R.Relations)
    reads g, rel, g', rel'
  {
    && g'.Valid() && rel'.Valid() && g'.strings == g.strings && multiset(g'.regs) == multiset(g.regs)
    && g'.edges == LiveOf(g.edges, |g.edges|)
    && (forall a :: R.Bucket(rel'.methodOverrides, a) == R.Bucket(rel.methodOverrides, a))
    && (forall a :: R.Members(rel'.functionReturns, a) == R.Members(rel.functionReturns, a))
  }

  method SaveGraph(g: CallGraph, rel: R.Relations, o: Others, ghost isText: string -> bool) returns (s: Section)
    requires g.Valid() && Fits(isText, g, rel, o)
    ensures Writable(isText, s) && s.strings == g.strings && s.nodes == o.nodes && s.derived == o.derived && s.impls == o.impls
    ensures RowsUpTo(g, s.edges, |g.edges|) && ListsMap(s.overrides, rel.methodOverrides) && ListsSets(s.returned, rel.functionReturns)
  {
    hide CallGraph.Valid, EdgesFit, RelationsFit, RowsUpTo, ListsMap, ListsSets, FlowSnapshot.TextFits, NodeReads, PairsRead, EdgeReads;
    var rows := RowsOf(g);
    FewEdges(g, rows);
    EdgesRead(g, rows);
    var overrides := PairsOf(rel.methodOverrides);
    OverridesRead(|g.strings|, rel, overrides);
    var returned := SetPairsOf(rel.functionReturns);
    ReturnsRead(|g.strings|, rel, returned);
    s := Section(g.strings, o.nodes, rows, o.derived, overrides, o.impls, returned);
  }

  lemma FewEdges(g: CallGraph, rows: seq<EdgeRow>)
    requires EdgesFit(g) && |rows| <= |g.edges|
    ensures |rows| < Codec.U32
  {
  }

  lemma RelationsBack(rel: R.Relations, rel': R.Relations, overrides: seq<Pair>, returned: seq<Pair>)
    requires ListsMap(overrides, rel.methodOverrides) && ListsMap(overrides, rel'.methodOverrides)
    requires ListsSets(returned, rel.functionReturns)
    requires forall a, b :: Pair(a, b) in returned <==> b in R.Members(rel'.functionReturns, a)
    ensures forall a :: R.Bucket(rel'.methodOverrides, a) == R.Bucket(rel.methodOverrides, a)
    ensures forall a :: R.Members(rel'.functionReturns, a) == R.Members(rel.functionReturns, a)
  {
    hide PartnersOf, R.Bucket, R.Members;
    forall a ensures R.Bucket(rel'.methodOverrides, a) == R.Bucket(rel.methodOverrides, a) {
      assert PartnersOf(overrides, a) == R.Bucket(rel.methodOverrides, a);
    }
    forall a ensures R.Members(rel'.functionReturns, a) == R.Members(rel.functionReturns, a) {
      forall b ensures b in R.Members(rel'.functionReturns, a) <==> b in R.Members(rel.functionReturns, a) {
        assert Pair(a, b) in returned <==> b in R.Members(rel.functionReturns, a);
      }
    }
  }

  /** Save, emit, load and install: the graph and its relations come back. */
  method RoundTrip(g: CallGraph, rel: R.Relations, o: Others, isText: string -> bool)
    returns (g': CallGraph, rel': R.Relations, o': Others)
    requires g.Valid() && rel.Valid() && Fits(isText, g, rel, o)
    ensures fresh(g') && fresh(rel') && Recovered(g, rel, g', rel') && o' == o
  {
    hide Fits, RowsUpTo, ListsMap, ListsSets, Writable, LedgerOf, StoredOf, LiveOf, GraphBytes, SectionOk, R.Transposed, R.ReturnsTransposed, DistinctEdges;
    var s := SaveGraph(g, rel, o, isText);
    assert GraphBytes(s) + "" == GraphBytes(s);
    var loaded := LoadGraph(GraphBytes(s), isText, s, "");
    SavedDistinct(g, s.edges);
    AllReplayed(g, s.edges);
    SavedEdges(g, s.edges);
    g' := InstallEdges(loaded.value.strings, loaded.value.edges);
    rel' := InstallRelations(loaded.value.overrides, loaded.value.returned);
    RelationsBack(rel, rel', s.overrides, s.returned);
    o' := Others(loaded.value.nodes, loaded.value.derived, loaded.value.impls);
  }

  lemma SavedEdges(g: CallGraph, rows: seq<EdgeRow>)
    requires RowsUpTo(g, rows, |g.edges|)
    ensures AllCounted(|g.strings|, rows) && StoredOf(rows) == LiveOf(g.edges, |g.edges|)
  {
  }

  // ---- What a reader of the loaded graph sees.

  lemma {:induction false} LiveEdgesHold(edges: seq<StoredEdge>, n: nat, i: nat) returns (j: nat)
    requires i < n <= |edges| && edges[i].refs > 0
    ensures j < |LiveOf(edges, n)| && LiveOf(edges, n)[j] == edges[i]
  {
    if i == n - 1 {
      j := |LiveOf(edges, n)| - 1;
    } else {
      j := LiveEdgesHold(edges, n - 1, i);
    }
  }

  lemma ReachSame(a: map<Id, seq<Id>>, b: map<Id, seq<Id>>, x: Id, y: Id)
    requires (forall k :: R.Bucket(a, k) == R.Bucket(b, k)) && R.Reach(a, x, y)
    ensures R.Reach(b, x, y)
  {
    var p :| |p| > 0 && p[0] == x && p[|p| - 1] == y && R.Chain(a, p);
    forall i | 0 <= i && i + 1 < |p| ensures R.StepIn(b, p, i) {
      assert R.StepIn(a, p, i);
      assert R.Bucket(a, p[i]) == R.Bucket(b, p[i]);
    }
    assert R.Chain(b, p);
  }

  lemma ShowsSame(se: StoredEdge, a: map<Id, seq<Id>>, b: map<Id, seq<Id>>, c: map<Id, set<Id>>, d: map<Id, set<Id>>, t: Triple)
    requires (forall k :: R.Bucket(a, k) == R.Bucket(b, k)) && (forall k :: R.Members(c, k) == R.Members(d, k))
    requires Q.Shows(se, a, c, t)
    ensures Q.Shows(se, b, d, t) && se.refs > 0
  {
    hide R.Reach, R.Bucket, R.Members;
    if Q.ViaOverride(se, a, t) {
      ReachSame(a, b, se.key.callee, t.callee);
    }
  }

  /** The loaded graph shows exactly the calls of the saved one, dispatch and
      returned pointers included. */
  lemma SameCalls(g: CallGraph, rel: R.Relations, g': CallGraph, rel': R.Relations, t: Triple)
    requires Recovered(g, rel, g', rel')
    ensures Q.Calls(g'.edges, rel'.methodOverrides, rel'.functionReturns, t) <==> Q.Calls(g.edges, rel.methodOverrides, rel.functionReturns, t)
  {
    hide Q.Shows, LiveOf, CallGraph.Valid, R.Relations.Valid, R.Bucket, R.Members;
    if i :| 0 <= i < |g'.edges| && Q.Shows(g'.edges[i], rel'.methodOverrides, rel'.functionReturns, t) {
      var j := LiveEdgesFrom(g.edges, |g.edges|, i);
      ShowsSame(g.edges[j], rel'.methodOverrides, rel.methodOverrides, rel'.functionReturns, rel.functionReturns, t);
    }
    if i :| 0 <= i < |g.edges| && Q.Shows(g.edges[i], rel.methodOverrides, rel.functionReturns, t) {
      ShowsSame(g.edges[i], rel.methodOverrides, rel'.methodOverrides, rel.functionReturns, rel'.functionReturns, t);
      var j := LiveEdgesHold(g.edges, |g.edges|, i);
    }
  }
}
