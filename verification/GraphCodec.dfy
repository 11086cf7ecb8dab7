/** The bytes of the snapshot's graph section: string table, nodes, live edges
    with counts and units, and the relations as pairs. */
module GraphCodec {
  import opened GraphTypes
  import opened Interner
  import opened FlowTypes
  import opened Codec
  import opened SetTables
  import opened FlowSnapshot
  import CO = CanonicalOrder

  datatype NodeRow = NodeRow(
    name: Id, display: Id, file: string, line: nat, isEntryPoint: bool, isVirtual: bool, enclosingClass: string, tus: seq<Id>)

  /** `tus` holds a unit once for each of its registrations. */
  datatype EdgeRow = EdgeRow(edge: EdgeRef, refs: nat, tus: seq<Id>)

  datatype Pair = Pair(first: Id, second: Id)

  datatype Section = Section(
    strings: seq<string>, nodes: seq<NodeRow>, edges: seq<EdgeRow>,
    derived: seq<Pair>, overrides: seq<Pair>, impls: seq<Pair>, returned: seq<Pair>)

  function NoEdge(): EdgeRef {
    EdgeRef(0, 0, 0, DirectCall, Proven, Synchronous, 0)
  }

  // ---- One-byte fields.

  function OneByte(n: nat): (r: string)
    ensures |r| == 1 && ByteOf(r[0]) == n % 256
  {
    [Digit(n)]
  }

  function KindAt(n: nat): EdgeKind {
    match n
    case 0 => DirectCall
    case 1 => VirtualDispatch
    case 2 => FunctionPointer
    case 3 => ConstructorCall
    case 4 => DestructorCall
    case 5 => OperatorCall
    case 6 => TemplateInstantiation
    case 7 => LambdaCall
    case 8 => ThreadEntry
    case _ => FunctionPointerReturn
  }

  function ConfidenceAt(n: nat): Confidence {
    if n == 0 then Proven else if n == 1 then Plausible else Unknown
  }

  function ExecAt(n: nat): ExecContext {
    match n
    case 0 => Synchronous
    case 1 => ThreadSpawn
    case 2 => AsyncTask
    case 3 => PackagedTask
    case _ => Invoke
  }

  /** Bit 0 marks entry points, bit 1 virtual functions. */
  function NodeFlags(isEntryPoint: bool, isVirtual: bool): nat {
    (if isEntryPoint then 1 else 0) + (if isVirtual then 2 else 0)
  }

  // ---- The encoding.

  function IdList(xs: seq<Id>): string {
    PutU32(|xs|) + Numbers(xs)
  }

  function PairKey(p: Pair): string {
    PutU32(p.first) + PutU32(p.second)
  }

  function PairsKey(xs: seq<Pair>): string {
    if xs == [] then "" else PairKey(xs[0]) + PairsKey(xs[1..])
  }

  function NodeKey(x: NodeRow): string {
    (PutU32(x.name) + PutU32(x.display)) + (NodeDetails(x) + IdList(x.tus))
  }

  function NodeDetails(x: NodeRow): string {
    PutLenStr(x.file) + (PutU32(x.line) + (OneByte(NodeFlags(x.isEntryPoint, x.isVirtual)) + PutLenStr(x.enclosingClass)))
  }

  function NodesKey(xs: seq<NodeRow>): string {
    if xs == [] then "" else NodeKey(xs[0]) + NodesKey(xs[1..])
  }

  function EndsKey(e: EdgeRef): string {
    PutU32(e.caller) + (PutU32(e.callee) + PutU32(e.site))
  }

  function AttributesKey(e: EdgeRef): string {
    OneByte(CO.KindRank(e.kind)) + (OneByte(CO.ConfidenceRank(e.confidence)) + (OneByte(CO.ExecRank(e.exec)) + PutU32(e.indirection)))
  }

  function EdgeKey(x: EdgeRow): string {
    EndsKey(x.edge) + (AttributesKey(x.edge) + (PutU32(x.refs) + IdList(x.tus)))
  }

  function EdgesKey(xs: seq<EdgeRow>): string {
    if xs == [] then "" else EdgeKey(xs[0]) + EdgesKey(xs[1..])
  }

  function PairList(xs: seq<Pair>): string {
    PutU32(|xs|) + PairsKey(xs)
  }

  function RelationBytes(s: Section): string {
    PairList(s.derived) + (PairList(s.overrides) + (PairList(s.impls) + PairList(s.returned)))
  }

  function GraphBytes(s: Section): string {
    StringBody(s.strings) + ((PutU32(|s.nodes|) + NodesKey(s.nodes)) + ((PutU32(|s.edges|) + EdgesKey(s.edges)) + RelationBytes(s)))
  }

  // ---- What is accepted, and what fits.

  predicate IdsOk(n: nat, xs: seq<Id>) {
    forall i :: 0 <= i < |xs| ==> xs[i] < n
  }

  predicate PairOk(n: nat, p: Pair) {
    p.first < n && p.second < n
  }

  predicate PairsOk(n: nat, xs: seq<Pair>) {
    forall i :: 0 <= i < |xs| ==> PairOk(n, xs[i])
  }

  predicate EndsOk(n: nat, e: EdgeRef) {
    e.caller < n && e.callee < n && e.site < n
  }

  predicate NodeOk(n: nat, x: NodeRow) {
    x.name < n && x.display < n && IdsOk(n, x.tus)
  }

  predicate NodesOk(n: nat, xs: seq<NodeRow>) {
    forall i :: 0 <= i < |xs| ==> NodeOk(n, xs[i])
  }

  predicate EdgeOk(n: nat, x: EdgeRow) {
    EndsOk(n, x.edge) && x.refs > 0 && IdsOk(n, x.tus)
  }

  predicate EdgesOk(n: nat, xs: seq<EdgeRow>) {
    forall i :: 0 <= i < |xs| ==> EdgeOk(n, xs[i])
  }

  /** Every id means a string, and no edge is dead. */
  predicate SectionOk(s: Section) {
    var n := |s.strings|;
    && NodesOk(n, s.nodes) && EdgesOk(n, s.edges)
    && PairsOk(n, s.derived) && PairsOk(n, s.overrides) && PairsOk(n, s.impls) && PairsOk(n, s.returned)
  }

  predicate IdReads(n: nat, x: Id) {
    x < n < U32
  }

  predicate PairReads(n: nat, p: Pair) {
    n < U32 && PairOk(n, p)
  }

  ghost predicate NodeReads(isText: string -> bool, n: nat, x: NodeRow) {
    && n < U32 && NodeOk(n, x) && TextFits(isText, x.file) && TextFits(isText, x.enclosingClass) && x.line < U32 && |x.tus| < U32
  }

  predicate EdgeReads(n: nat, x: EdgeRow) {
    n < U32 && EdgeOk(n, x) && x.edge.indirection < U32 && x.refs < U32 && |x.tus| < U32
  }

  predicate PairsRead(n: nat, xs: seq<Pair>) {
    |xs| < U32 && forall i :: 0 <= i < |xs| ==> PairReads(n, xs[i])
  }

  /** Everything fits the 32-bit fields, and every string is text. */
  ghost predicate Writable(isText: string -> bool, s: Section) {
    var n := |s.strings|;
    && n < U32 && (forall i :: 0 <= i < n ==> TextFits(isText, s.strings[i]))
    && |s.nodes| < U32 && (forall i :: 0 <= i < |s.nodes| ==> NodeReads(isText, n, s.nodes[i]))
    && |s.edges| < U32 && (forall i :: 0 <= i < |s.edges| ==> EdgeReads(n, s.edges[i]))
    && PairsRead(n, s.derived) && PairsRead(n, s.overrides) && PairsRead(n, s.impls) && PairsRead(n, s.returned)
  }

  // ---- Reading.

  method ReadName(rd: Reader, ids: nat, ghost x: Id, ghost tail: string) returns (r: Id)
    requires rd.Valid()
    modifies rd`p, rd`ok
    ensures rd.Valid() && rd.p >= old(rd.p) && (rd.ok ==> old(rd.ok))
    ensures rd.ok ==> r < ids
    ensures old(rd.Sees(PutU32(x), tail)) && IdReads(ids, x) ==> rd.ok && r == x && rd.Rest() == tail
  {
    r := ReadId(rd, ids, x, tail);
  }

  lemma NamesNext(xs: seq<Id>, i: nat, tail: string)
    requires i < |xs|
    ensures Numbers(xs[i..]) + tail == PutU32(xs[i]) + (Numbers(xs[i + 1..]) + tail)
  {
    assert xs[i..][1..] == xs[i + 1..];
    Regroup(PutU32(xs[i]), Numbers(xs[i + 1..]), tail);
  }

  lemma {:induction false} NamesLong(xs: seq<Id>)
    ensures |Numbers(xs)| >= |xs|
    decreases |xs|
  {
    if xs != [] {
      NamesLong(xs[1..]);
      assert |PutU32(xs[0])| >= 1;
    }
  }

  lemma NamesEnds(xs: seq<Id>, tail: string)
    ensures Numbers(xs[|xs|..]) + tail == tail
  {
    assert xs[|xs|..] == [];
  }

  method ReadNames(rd: Reader, ids: nat, ghost xs: seq<Id>, ghost tail: string) returns (r: seq<Id>)
    requires rd.Valid()
    modifies rd`p, rd`ok
    ensures rd.Valid() && rd.p >= old(rd.p) && (rd.ok ==> old(rd.ok))
    ensures rd.ok ==> IdsOk(ids, r)
    ensures old(rd.Sees(PutU32(|xs|) + Numbers(xs), tail)) && |xs| < U32 && (forall i :: 0 <= i < |xs| ==> IdReads(ids, xs[i])) ==>
              rd.ok && r == xs && rd.Rest() == tail
  {
    hide Numbers, PutU32, IdReads;
    ghost var good := rd.Sees(PutU32(|xs|) + Numbers(xs), tail) && |xs| < U32 && (forall i :: 0 <= i < |xs| ==> IdReads(ids, xs[i]));
    Regroup(PutU32(|xs|), Numbers(xs), tail);
    NamesLong(xs);
    var n := rd.Count(|xs|, Numbers(xs) + tail);
    r := [];
    assert xs[0..] == xs;
    var i := 0;
    while rd.ok && i < n
      invariant rd.Valid() && rd.p >= old(rd.p) && (rd.ok ==> old(rd.ok)) && i <= n
      invariant good ==> rd.ok && n == |xs| && r == xs[..i] && rd.Rest() == Numbers(xs[i..]) + tail
      invariant rd.ok ==> IdsOk(ids, r)
      decreases n - i
    {
      ghost var x, t := 0, "";
      if good {
        NamesNext(xs, i, tail);
        x, t := xs[i], Numbers(xs[i + 1..]) + tail;
      }
      var v := ReadName(rd, ids, x, t);
      r := r + [v];
      i := i + 1;
    }
    if good {
      NamesEnds(xs, tail);
      assert xs[..|xs|] == xs;
    }
  }

  method ReadUnits(rd: Reader, ids: nat, ghost xs: seq<Id>, ghost tail: string) returns (r: seq<Id>)
    requires rd.Valid()
    modifies rd`p, rd`ok
    ensures rd.Valid() && rd.p >= old(rd.p) && (rd.ok ==> old(rd.ok) && IdsOk(ids, r))
    ensures old(rd.Sees(IdList(xs), tail)) && |xs| < U32 && ids < U32 && IdsOk(ids, xs) ==> rd.ok && r == xs && rd.Rest() == tail
  {
    hide Numbers, PutU32;
    r := ReadNames(rd, ids, xs, tail);
  }

  method ReadPair(rd: Reader, ids: nat, ghost x: Pair, ghost tail: string) returns (r: Pair)
    requires rd.Valid()
    modifies rd`p, rd`ok
    ensures rd.Valid() && rd.p >= old(rd.p) && (rd.ok ==> old(rd.ok))
    ensures rd.ok ==> PairOk(ids, r)
    ensures old(rd.Sees(PairKey(x), tail)) && PairReads(ids, x) ==> rd.ok && r == x && rd.Rest() == tail
  {
    hide PutU32;
    Regroup(PutU32(x.first), PutU32(x.second), tail);
    var first := ReadId(rd, ids, x.first, PutU32(x.second) + tail);
    var second := ReadId(rd, ids, x.second, tail);
    r := Pair(first, second);
  }

  lemma PairsNext(xs: seq<Pair>, i: nat, tail: string)
    requires i < |xs|
    ensures PairsKey(xs[i..]) + tail == PairKey(xs[i]) + (PairsKey(xs[i + 1..]) + tail)
  {
    assert xs[i..][1..] == xs[i + 1..];
    Regroup(PairKey(xs[i]), PairsKey(xs[i + 1..]), tail);
  }

  lemma {:induction false} PairsLong(xs: seq<Pair>)
    ensures |PairsKey(xs)| >= |xs|
    decreases |xs|
  {
    if xs != [] {
      PairsLong(xs[1..]);
      assert |PairKey(xs[0])| >= 1;
    }
  }

  lemma PairsEnds(xs: seq<Pair>, tail: string)
    ensures PairsKey(xs[|xs|..]) + tail == tail
  {
    assert xs[|xs|..] == [];
  }

  method ReadPairs(rd: Reader, ids: nat, ghost xs: seq<Pair>, ghost tail: string) returns (r: seq<Pair>)
    requires rd.Valid()
    modifies rd`p, rd`ok
    ensures rd.Valid() && rd.p >= old(rd.p) && (rd.ok ==> old(rd.ok))
    ensures rd.ok ==> PairsOk(ids, r)
    ensures old(rd.Sees(PutU32(|xs|) + PairsKey(xs), tail)) && |xs| < U32 && (forall i :: 0 <= i < |xs| ==> PairReads(ids, xs[i])) ==>
              rd.ok && r == xs && rd.Rest() == tail
  {
    hide PairsKey, PairKey, PairReads, PairOk, PutU32;
    ghost var good := rd.Sees(PutU32(|xs|) + PairsKey(xs), tail) && |xs| < U32 && (forall i :: 0 <= i < |xs| ==> PairReads(ids, xs[i]));
    Regroup(PutU32(|xs|), PairsKey(xs), tail);
    PairsLong(xs);
    var n := rd.Count(|xs|, PairsKey(xs) + tail);
    r := [];
    assert xs[0..] == xs;
    var i := 0;
    while rd.ok && i < n
      invariant rd.Valid() && rd.p >= old(rd.p) && (rd.ok ==> old(rd.ok)) && i <= n
      invariant good ==> rd.ok && n == |xs| && r == xs[..i] && rd.Rest() == PairsKey(xs[i..]) + tail
      invariant rd.ok ==> PairsOk(ids, r)
      decreases n - i
    {
      ghost var x, t := Pair(0, 0), "";
      if good {
        PairsNext(xs, i, tail);
        x, t := xs[i], PairsKey(xs[i + 1..]) + tail;
      }
      var v := ReadPair(rd, ids, x, t);
      r := r + [v];
      i := i + 1;
    }
    if good {
      PairsEnds(xs, tail);
      assert xs[..|xs|] == xs;
    }
  }

  method ReadDetails(rd: Reader, ghost x: NodeRow, ghost tail: string)
    returns (file: string, line: nat, isEntryPoint: bool, isVirtual: bool, enclosingClass: string)
    requires rd.Valid()
    modifies rd`p, rd`ok
    ensures rd.Valid() && rd.p >= old(rd.p) && (rd.ok ==> old(rd.ok))
    ensures old(rd.Sees(NodeDetails(x), tail)) && TextFits(rd.isText, x.file) && TextFits(rd.isText, x.enclosingClass) && x.line < U32 ==>
              rd.ok && rd.Rest() == tail && file == x.file && line == x.line && isEntryPoint == x.isEntryPoint &&
              isVirtual == x.isVirtual && enclosingClass == x.enclosingClass
  {
    hide PutLenStr, PutU32, OneByte, Digit;
    ghost var flagByte := OneByte(NodeFlags(x.isEntryPoint, x.isVirtual));
    ghost var k2 := flagByte + PutLenStr(x.enclosingClass);
    ghost var k1 := PutU32(x.line) + k2;
    Regroup(PutLenStr(x.file), k1, tail);
    Regroup(PutU32(x.line), k2, tail);
    Regroup(flagByte, PutLenStr(x.enclosingClass), tail);
    file := rd.Text(x.file, k1 + tail);
    line := rd.ReadU32(x.line, k2 + tail);
    var flags := rd.ReadU8(flagByte, PutLenStr(x.enclosingClass) + tail);
    isEntryPoint, isVirtual := flags % 2 == 1, flags / 2 % 2 == 1;
    enclosingClass := rd.Text(x.enclosingClass, tail);
  }

  method ReadNode(rd: Reader, ids: nat, ghost x: NodeRow, ghost tail: string) returns (r: NodeRow)
    requires rd.Valid()
    modifies rd`p, rd`ok
    ensures rd.Valid() && rd.p >= old(rd.p) && (rd.ok ==> old(rd.ok))
    ensures rd.ok ==> NodeOk(ids, r)
    ensures old(rd.Sees(NodeKey(x), tail)) && NodeReads(rd.isText, ids, x) ==> rd.ok && r == x && rd.Rest() == tail
  {
    hide PutU32, NodeDetails, IdList, TextFits, IdsOk;
    ghost var k := NodeDetails(x) + IdList(x.tus);
    Regroup(PutU32(x.name) + PutU32(x.display), k, tail);
    Regroup(PutU32(x.name), PutU32(x.display), k + tail);
    Regroup(NodeDetails(x), IdList(x.tus), tail);
    var name := ReadId(rd, ids, x.name, PutU32(x.display) + (k + tail));
    var display := ReadId(rd, ids, x.display, k + tail);
    var file, line, isEntryPoint, isVirtual, enclosingClass := ReadDetails(rd, x, IdList(x.tus) + tail);
    var tus := ReadUnits(rd, ids, x.tus, tail);
    r := NodeRow(name, display, file, line, isEntryPoint, isVirtual, enclosingClass, tus);
  }

  lemma NodesNext(xs: seq<NodeRow>, i: nat, tail: string)
    requires i < |xs|
    ensures NodesKey(xs[i..]) + tail == NodeKey(xs[i]) + (NodesKey(xs[i + 1..]) + tail)
  {
    assert xs[i..][1..] == xs[i + 1..];
    Regroup(NodeKey(xs[i]), NodesKey(xs[i + 1..]), tail);
  }

  lemma {:induction false} NodesLong(xs: seq<NodeRow>)
    ensures |NodesKey(xs)| >= |xs|
    decreases |xs|
  {
    if xs != [] {
      NodesLong(xs[1..]);
      assert |NodeKey(xs[0])| >= 1;
    }
  }

  lemma NodesEnds(xs: seq<NodeRow>, tail: string)
    ensures NodesKey(xs[|xs|..]) + tail == tail
  {
    assert xs[|xs|..] == [];
  }

  method ReadNodes(rd: Reader, ids: nat, ghost xs: seq<NodeRow>, ghost tail: string) returns (r: seq<NodeRow>)
    requires rd.Valid()
    modifies rd`p, rd`ok
    ensures rd.Valid() && rd.p >= old(rd.p) && (rd.ok ==> old(rd.ok))
    ensures rd.ok ==> NodesOk(ids, r)
    ensures old(rd.Sees(PutU32(|xs|) + NodesKey(xs), tail)) && |xs| < U32 && (forall i :: 0 <= i < |xs| ==> NodeReads(rd.isText, ids, xs[i])) ==>
              rd.ok && r == xs && rd.Rest() == tail
  {
    hide NodesKey, NodeKey, NodeReads, NodeOk, PutU32;
    ghost var good := rd.Sees(PutU32(|xs|) + NodesKey(xs), tail) && |xs| < U32 && (forall i :: 0 <= i < |xs| ==> NodeReads(rd.isText, ids, xs[i]));
    Regroup(PutU32(|xs|), NodesKey(xs), tail);
    NodesLong(xs);
    var n := rd.Count(|xs|, NodesKey(xs) + tail);
    r := [];
    assert xs[0..] == xs;
    var i := 0;
    while rd.ok && i < n
      invariant rd.Valid() && rd.p >= old(rd.p) && (rd.ok ==> old(rd.ok)) && i <= n
      invariant good ==> rd.ok && n == |xs| && r == xs[..i] && rd.Rest() == NodesKey(xs[i..]) + tail
      invariant rd.ok ==> NodesOk(ids, r)
      decreases n - i
    {
      ghost var x, t := NodeRow(0, 0, "", 0, false, false, "", []), "";
      if good {
        NodesNext(xs, i, tail);
        x, t := xs[i], NodesKey(xs[i + 1..]) + tail;
      }
      var v := ReadNode(rd, ids, x, t);
      r := r + [v];
      i := i + 1;
    }
    if good {
      NodesEnds(xs, tail);
      assert xs[..|xs|] == xs;
    }
  }

  method ReadEnds(rd: Reader, ids: nat, ghost e: EdgeRef, ghost tail: string) returns (caller: Id, callee: Id, site: Id)
    requires rd.Valid()
    modifies rd`p, rd`ok
    ensures rd.Valid() && rd.p >= old(rd.p) && (rd.ok ==> old(rd.ok) && caller < ids && callee < ids && site < ids)
    ensures old(rd.Sees(EndsKey(e), tail)) && ids < U32 && EndsOk(ids, e) ==>
              rd.ok && rd.Rest() == tail && caller == e.caller && callee == e.callee && site == e.site
  {
    hide PutU32;
    ghost var k := PutU32(e.callee) + PutU32(e.site);
    Regroup(PutU32(e.caller), k, tail);
    Regroup(PutU32(e.callee), PutU32(e.site), tail);
    caller := ReadId(rd, ids, e.caller, k + tail);
    callee := ReadId(rd, ids, e.callee, PutU32(e.site) + tail);
    site := ReadId(rd, ids, e.site, tail);
  }

  method ReadAttributes(rd: Reader, ghost e: EdgeRef, ghost tail: string)
    returns (kind: EdgeKind, confidence: Confidence, exec: ExecContext, indirection: nat)
    requires rd.Valid()
    modifies rd`p, rd`ok
    ensures rd.Valid() && rd.p >= old(rd.p) && (rd.ok ==> old(rd.ok))
    ensures old(rd.Sees(AttributesKey(e), tail)) && e.indirection < U32 ==>
              rd.ok && rd.Rest() == tail && kind == e.kind && confidence == e.confidence && exec == e.exec && indirection == e.indirection
  {
    hide PutU32, OneByte, Digit;
    ghost var a, b, c := OneByte(CO.KindRank(e.kind)), OneByte(CO.ConfidenceRank(e.confidence)), OneByte(CO.ExecRank(e.exec));
    ghost var k2 := c + PutU32(e.indirection);
    ghost var k1 := b + k2;
    Regroup(a, k1, tail);
    Regroup(b, k2, tail);
    Regroup(c, PutU32(e.indirection), tail);
    var x := rd.ReadU8(a, k1 + tail);
    var y := rd.ReadU8(b, k2 + tail);
    var z := rd.ReadU8(c, PutU32(e.indirection) + tail);
    indirection := rd.ReadU32(e.indirection, tail);
    kind, confidence, exec := KindAt(x), ConfidenceAt(y), ExecAt(z);
  }

  method ReadEdge(rd: Reader, ids: nat, ghost x: EdgeRow, ghost tail: string) returns (r: EdgeRow)
    requires rd.Valid()
    modifies rd`p, rd`ok
    ensures rd.Valid() && rd.p >= old(rd.p) && (rd.ok ==> old(rd.ok))
    ensures rd.ok ==> EdgeOk(ids, r)
    ensures old(rd.Sees(EdgeKey(x), tail)) && EdgeReads(ids, x) ==> rd.ok && r == x && rd.Rest() == tail
  {
    hide PutU32, EndsKey, AttributesKey, IdList, IdsOk;
    ghost var k2 := PutU32(x.refs) + IdList(x.tus);
    ghost var k1 := AttributesKey(x.edge) + k2;
    Regroup(EndsKey(x.edge), k1, tail);
    Regroup(AttributesKey(x.edge), k2, tail);
    Regroup(PutU32(x.refs), IdList(x.tus), tail);
    var caller, callee, site := ReadEnds(rd, ids, x.edge, k1 + tail);
    var kind, confidence, exec, indirection := ReadAttributes(rd, x.edge, k2 + tail);
    var refs := rd.ReadU32(x.refs, IdList(x.tus) + tail);
    var tus := ReadUnits(rd, ids, x.tus, tail);
    if refs == 0 {
      rd.ok := false;
    }
    r := EdgeRow(EdgeRef(caller, callee, site, kind, confidence, exec, indirection), refs, tus);
  }

  lemma EdgesNext(xs: seq<EdgeRow>, i: nat, tail: string)
    requires i < |xs|
    ensures EdgesKey(xs[i..]) + tail == EdgeKey(xs[i]) + (EdgesKey(xs[i + 1..]) + tail)
  {
    assert xs[i..][1..] == xs[i + 1..];
    Regroup(EdgeKey(xs[i]), EdgesKey(xs[i + 1..]), tail);
  }

  lemma {:induction false} EdgesLong(xs: seq<EdgeRow>)
    ensures |EdgesKey(xs)| >= |xs|
    decreases |xs|
  {
    if xs != [] {
      EdgesLong(xs[1..]);
      assert |EdgeKey(xs[0])| >= 1;
    }
  }

  lemma EdgesEnds(xs: seq<EdgeRow>, tail: string)
    ensures EdgesKey(xs[|xs|..]) + tail == tail
  {
    assert xs[|xs|..] == [];
  }

  method ReadEdges(rd: Reader, ids: nat, ghost xs: seq<EdgeRow>, ghost tail: string) returns (r: seq<EdgeRow>)
    requires rd.Valid()
    modifies rd`p, rd`ok
    ensures rd.Valid() && rd.p >= old(rd.p) && (rd.ok ==> old(rd.ok))
    ensures rd.ok ==> EdgesOk(ids, r)
    ensures old(rd.Sees(PutU32(|xs|) + EdgesKey(xs), tail)) && |xs| < U32 && (forall i :: 0 <= i < |xs| ==> EdgeReads(ids, xs[i])) ==>
              rd.ok && r == xs && rd.Rest() == tail
  {
    hide EdgesKey, EdgeKey, EdgeReads, EdgeOk, PutU32;
    ghost var good := rd.Sees(PutU32(|xs|) + EdgesKey(xs), tail) && |xs| < U32 && (forall i :: 0 <= i < |xs| ==> EdgeReads(ids, xs[i]));
    Regroup(PutU32(|xs|), EdgesKey(xs), tail);
    EdgesLong(xs);
    var n := rd.Count(|xs|, EdgesKey(xs) + tail);
    r := [];
    assert xs[0..] == xs;
    var i := 0;
    while rd.ok && i < n
      invariant rd.Valid() && rd.p >= old(rd.p) && (rd.ok ==> old(rd.ok)) && i <= n
      invariant good ==> rd.ok && n == |xs| && r == xs[..i] && rd.Rest() == EdgesKey(xs[i..]) + tail
      invariant rd.ok ==> EdgesOk(ids, r)
      decreases n - i
    {
      ghost var x, t := EdgeRow(NoEdge(), 0, []), "";
      if good {
        EdgesNext(xs, i, tail);
        x, t := xs[i], EdgesKey(xs[i + 1..]) + tail;
      }
      var v := ReadEdge(rd, ids, x, t);
      r := r + [v];
      i := i + 1;
    }
    if good {
      EdgesEnds(xs, tail);
      assert xs[..|xs|] == xs;
    }
  }

  method ReadPairList(rd: Reader, ids: nat, ghost xs: seq<Pair>, ghost tail: string) returns (r: seq<Pair>)
    requires rd.Valid()
    modifies rd`p, rd`ok
    ensures rd.Valid() && rd.p >= old(rd.p) && (rd.ok ==> old(rd.ok) && PairsOk(ids, r))
    ensures old(rd.Sees(PairList(xs), tail)) && PairsRead(ids, xs) ==> rd.ok && r == xs && rd.Rest() == tail
  {
    hide PairsKey, PutU32;
    r := ReadPairs(rd, ids, xs, tail);
  }

  method ReadRelations(rd: Reader, ids: nat, ghost s: Section, ghost tail: string)
    returns (derived: seq<Pair>, overrides: seq<Pair>, impls: seq<Pair>, returned: seq<Pair>)
    requires rd.Valid()
    modifies rd`p, rd`ok
    ensures rd.Valid() && rd.p >= old(rd.p)
    ensures rd.ok ==> old(rd.ok) && PairsOk(ids, derived) && PairsOk(ids, overrides) && PairsOk(ids, impls) && PairsOk(ids, returned)
    ensures old(rd.Sees(RelationBytes(s), tail)) && PairsRead(ids, s.derived) && PairsRead(ids, s.overrides) && PairsRead(ids, s.impls) &&
              PairsRead(ids, s.returned) ==>
              rd.ok && rd.Rest() == tail && derived == s.derived && overrides == s.overrides && impls == s.impls && returned == s.returned
  {
    hide PairList, PairsOk, PairsRead;
    ghost var k2 := PairList(s.impls) + PairList(s.returned);
    ghost var k1 := PairList(s.overrides) + k2;
    Regroup(PairList(s.derived), k1, tail);
    Regroup(PairList(s.overrides), k2, tail);
    Regroup(PairList(s.impls), PairList(s.returned), tail);
    derived := ReadPairList(rd, ids, s.derived, k1 + tail);
    overrides := ReadPairList(rd, ids, s.overrides, k2 + tail);
    impls := ReadPairList(rd, ids, s.impls, PairList(s.returned) + tail);
    returned := ReadPairList(rd, ids, s.returned, tail);
  }

  /** Load the section.  Whatever the bytes, an accepted section has only ids
      that mean something and no dead edge; emitted bytes give back what was
      emitted, and are refused if anything follows them. */
  method LoadGraph(data: string, isText: string -> bool, ghost s: Section, ghost rest: string) returns (r: Option<Section>)
    ensures r.Some? ==> SectionOk(r.value)
    ensures data == GraphBytes(s) + rest && Writable(isText, s) ==> r == if rest == "" then Some(s) else None
  {
    hide PutU32, StringsKey, NodesKey, EdgesKey, RelationBytes, PairsRead, PairsOk, NodesOk, EdgesOk, NodeReads, EdgeReads, TextFits;
    var rd := new Reader(data, isText);
    ghost var good := data == GraphBytes(s) + rest && Writable(isText, s);
    ghost var body := StringBody(s.strings);
    ghost var nodeBytes, edgeBytes := PutU32(|s.nodes|) + NodesKey(s.nodes), PutU32(|s.edges|) + EdgesKey(s.edges);
    ghost var k2 := RelationBytes(s) + rest;
    ghost var k1 := edgeBytes + k2;
    Regroup(body, nodeBytes + (edgeBytes + RelationBytes(s)), rest);
    Regroup(nodeBytes, edgeBytes + RelationBytes(s), rest);
    Regroup(edgeBytes, RelationBytes(s), rest);
    assert good ==> rd.Sees(body, nodeBytes + k1);
    var strings := ReadStrings(rd, s.strings, nodeBytes + k1);
    if !rd.ok {
      return None;
    }
    var n := |strings|;
    var nodes := ReadNodes(rd, n, s.nodes, k1);
    var edges := ReadEdges(rd, n, s.edges, k2);
    var derived, overrides, impls, returned := ReadRelations(rd, n, s, rest);
    if !rd.ok || rd.p != |data| {
      return None;
    }
    r := Some(Section(strings, nodes, edges, derived, overrides, impls, returned));
  }
}
