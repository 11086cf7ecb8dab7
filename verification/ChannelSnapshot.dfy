/** The channel section of a snapshot: one row per live site with its count and
    the units that registered it.  Loading the rows gives back the ledger and
    every live site. */
module ChannelSnapshot {
  import opened GraphTypes
  import opened Interner
  import opened Registry
  import opened RefTable
  import opened Rows
  import opened FlowTypes
  import opened Codec
  import opened SetTables
  import opened ChannelIndex
  import opened FlowSnapshot
  import CO = CanonicalOrder
  import L = Ledger

  /** `tus` holds a unit once for each of its registrations. */
  datatype Row = Row(site: Site, refs: nat, tus: seq<string>)

  // ---- The ledger the rows stand for.

  predicate RowOk(r: Row) {
    r.refs > 0 && |r.tus| <= r.refs && r.site.tuPath == "" && Ascending(r.tus) && forall i :: 0 <= i < |r.tus| ==> r.tus[i] != ""
  }

  predicate Ascending(tus: seq<string>) {
    forall i, j :: 0 <= i < j < |tus| ==> tus[i] == tus[j] || CO.TextLess(tus[i], tus[j])
  }

  function Expanded(r: Row): seq<SiteReg>
    requires RowOk(r)
  {
    Block(KeyOf(r.site), r.refs, r.tus)
  }

  ghost predicate RowsOk(rows: seq<Row>) {
    && (forall i :: 0 <= i < |rows| ==> RowOk(rows[i]))
    && (forall i, j :: 0 <= i < j < |rows| ==> KeyOf(rows[i].site) != KeyOf(rows[j].site))
  }

  ghost function ExpandedAll(rows: seq<Row>): seq<SiteReg>
    requires forall i :: 0 <= i < |rows| ==> RowOk(rows[i])
  {
    if rows == [] then [] else ExpandedAll(rows[..|rows| - 1]) + Expanded(rows[|rows| - 1])
  }

  lemma ExpandedSnoc(rows: seq<Row>, r: Row)
    requires (forall i :: 0 <= i < |rows| ==> RowOk(rows[i])) && RowOk(r)
    ensures forall i :: 0 <= i < |rows + [r]| ==> RowOk((rows + [r])[i])
    ensures ExpandedAll(rows + [r]) == ExpandedAll(rows) + Expanded(r)
  {
    assert (rows + [r])[..|rows|] == rows;
  }

  // ---- Rows of an index.

  /** The rows hold the registrations of the sites before `i`, and describe them. */
  ghost predicate RowsUpTo(ch: ChannelIndex, rows: seq<Row>, i: nat)
    reads ch
  {
    && i <= |ch.table| && |ch.table| == |ch.sites| && RowsOk(rows)
    && Replayed([], ExpandedAll(rows), ch.regs, ch.index, i, {})
    && AllFrom(ch, rows, i) && AllHave(ch, rows, i)
  }

  ghost predicate AllFrom(ch: ChannelIndex, rows: seq<Row>, i: nat)
    reads ch
  {
    forall j :: 0 <= j < |rows| ==> RowFrom(ch, rows[j], i)
  }

  ghost predicate AllHave(ch: ChannelIndex, rows: seq<Row>, i: nat)
    reads ch
  {
    i <= |ch.table| && i <= |ch.sites| && forall n :: 0 <= n < i && ch.table[n].refs > 0 ==> HasRow(ch, rows, n)
  }

  /** A row describes a live site before `i`. */
  ghost predicate RowFrom(ch: ChannelIndex, r: Row, i: nat)
    reads ch
  {
    exists n :: 0 <= n < i && n < |ch.table| && n < |ch.sites| && ch.table[n].refs > 0 && SameDetails(r.site, ch.sites[n])
  }

  ghost predicate HasRow(ch: ChannelIndex, rows: seq<Row>, n: nat)
    reads ch
    requires n < |ch.sites|
  {
    exists j :: 0 <= j < |rows| && SameDetails(rows[j].site, ch.sites[n])
  }

  lemma RowsSkip(ch: ChannelIndex, rows: seq<Row>, i: nat)
    requires ch.Valid() && RowsUpTo(ch, rows, i) && i < |ch.table| && ch.table[i].refs == 0
    ensures RowsUpTo(ch, rows, i + 1)
  {
    hide IndexOk, CountsMatch, UnitsMatch, Represented, Lists, LiveIn, Replayed, SameDetails, RowOk;
    ReplayedSkip([], ExpandedAll(rows), ch.regs, ch.table, ch.index, i);
    forall j | 0 <= j < |rows| ensures RowFrom(ch, rows[j], i + 1) {
      assert RowFrom(ch, rows[j], i);
    }
    assert AllHave(ch, rows, i + 1);
  }

  lemma AddRow(ch: ChannelIndex, rows: seq<Row>, i: nat, r: Row)
    requires ch.Valid() && RowsUpTo(ch, rows, i) && i < |ch.table| && ch.table[i].refs > 0 && RowOk(r)
    requires r.refs == ch.table[i].refs && r.site == ch.sites[i].(tuPath := "")
    requires UnitsOfRecord(ch.regs, ch.table[i].key, r.refs, r.tus)
    ensures RowsUpTo(ch, rows + [r], i + 1)
  {
    hide ChannelIndex.Valid, Replayed, RowOk, SameDetails, KeyOf, RowFrom, HasRow, ExpandedAll, UnitsOfRecord, Block;
    RowPosition(ch, i, r);
    ExpandedSnoc(rows, r);
    ReplayBlock(ch.regs, ch.table, ch.index, ExpandedAll(rows), KeyOf(r.site), r.refs, r.tus, i);
    FromNext(ch, rows, r, i);
    forall n | 0 <= n < i + 1 && ch.table[n].refs > 0 ensures HasRow(ch, rows + [r], n) {
      RowStays(ch, rows, r, n, i);
    }
  }

  lemma RowPosition(ch: ChannelIndex, i: nat, r: Row)
    requires ch.Valid() && i < |ch.table| && i < |ch.sites| && ch.table[i].refs > 0 && r.site == ch.sites[i].(tuPath := "")
    ensures IndexOk(ch.table, ch.index) && KeyOf(r.site) == ch.table[i].key && KeyOf(r.site) in ch.index && ch.index[KeyOf(r.site)] == i
  {
    hide CountsMatch, UnitsMatch, Represented, Lists, LiveIn;
  }

  lemma FromNext(ch: ChannelIndex, rows: seq<Row>, r: Row, i: nat)
    requires ch.Valid() && AllFrom(ch, rows, i) && i < |ch.table| && i < |ch.sites| && ch.table[i].refs > 0 && r.site == ch.sites[i].(tuPath := "")
    requires forall a, b :: 0 <= a < b < |rows| ==> KeyOf(rows[a].site) != KeyOf(rows[b].site)
    ensures AllFrom(ch, rows + [r], i + 1)
    ensures var rows' := rows + [r]; forall a, b :: 0 <= a < b < |rows'| ==> KeyOf(rows'[a].site) != KeyOf(rows'[b].site)
  {
    hide ChannelIndex.Valid, SameDetails;
    var rows' := rows + [r];
    KeyOnly(r.site, ch.sites[i]);
    OwnDetails(r.site, ch.sites[i]);
    forall j | 0 <= j < |rows'| ensures RowFrom(ch, rows'[j], i + 1) && (j < |rows| ==> KeyOf(rows'[j].site) != KeyOf(r.site)) {
      if j < |rows| {
        assert RowFrom(ch, rows[j], i);
        EarlierRow(ch, rows[j], i);
      }
    }
  }

  lemma KeyOnly(a: Site, b: Site)
    requires a == b.(tuPath := a.tuPath)
    ensures KeyOf(a) == KeyOf(b)
  {
  }

  lemma OwnDetails(a: Site, b: Site)
    requires a == b.(tuPath := a.tuPath)
    ensures SameDetails(a, b)
  {
  }

  lemma EarlierRow(ch: ChannelIndex, r: Row, i: nat)
    requires ch.Valid() && RowFrom(ch, r, i) && i < |ch.table| && ch.table[i].refs > 0
    ensures RowFrom(ch, r, i + 1) && KeyOf(r.site) != KeyOf(ch.sites[i])
  {
    hide CountsMatch, UnitsMatch, Represented, Lists, LiveIn, IndexOk;
    var n :| 0 <= n < i && n < |ch.table| && n < |ch.sites| && ch.table[n].refs > 0 && SameDetails(r.site, ch.sites[n]);
    OtherKey(ch.table, ch.index, n, i);
    assert ch.table[n].key == KeyOf(ch.sites[n]) && ch.table[i].key == KeyOf(ch.sites[i]);
  }

  lemma RowStays(ch: ChannelIndex, rows: seq<Row>, r: Row, n: nat, i: nat)
    requires n <= i < |ch.sites| && (n < i ==> HasRow(ch, rows, n)) && r.site == ch.sites[i].(tuPath := "")
    ensures HasRow(ch, rows + [r], n)
  {
    var rows' := rows + [r];
    if n < i {
      var j :| 0 <= j < |rows| && SameDetails(rows[j].site, ch.sites[n]);
      assert rows'[j] == rows[j];
    } else {
      assert rows'[|rows|] == r;
    }
  }

  lemma OtherKey(table: seq<Stored<SiteKey>>, index: map<SiteKey, nat>, n: nat, i: nat)
    requires IndexOk(table, index) && n < |table| && i < |table| && n != i && table[n].refs > 0 && table[i].refs > 0
    ensures table[n].key != table[i].key
  {
  }

  method RowsOf(ch: ChannelIndex, ghost isText: string -> bool) returns (rows: seq<Row>)
    requires ch.Valid()
    ensures RowsUpTo(ch, rows, |ch.table|)
    ensures Fits(isText, ch) ==> |rows| < U32 && forall i :: 0 <= i < |rows| ==> RowReads(isText, rows[i])
  {
    hide IndexOk, CountsMatch, UnitsMatch, Represented, Tagged, Lists, LiveIn, RowsUpTo, Keyed, RowReads, Fits, UnitsOfRecord;
    rows := [];
    FitsSize(isText, ch);
    NoRows(ch);
    KeyedMeans(ch.table, ch.sites);
    for i := 0 to |ch.table|
      invariant RowsUpTo(ch, rows, i) && |rows| <= i
      invariant Fits(isText, ch) ==> forall j :: 0 <= j < |rows| ==> RowReads(isText, rows[j])
    {
      if ch.table[i].refs == 0 {
        RowsSkip(ch, rows, i);
      } else {
        var units := UnitsOf(ch.table, ch.index, ch.byTu, ch.regs, i);
        var tus := SortUnits(units);
        SameUnits(ch.regs, ch.table[i].key, ch.table[i].refs, units, tus);
        NamedUnits(ch, tus);
        var r := Row(ch.sites[i].(tuPath := ""), ch.table[i].refs, tus);
        AddRow(ch, rows, i, r);
        if Fits(isText, ch) {
          RowFits(isText, ch, i, r);
        }
        rows := rows + [r];
      }
    }
  }

  lemma SameUnits(regs: seq<SiteReg>, k: SiteKey, refs: nat, units: seq<string>, tus: seq<string>)
    requires UnitsOfRecord(regs, k, refs, units) && multiset(units) == multiset(tus)
    ensures UnitsOfRecord(regs, k, refs, tus) && |tus| == |units| && forall j :: 0 <= j < |tus| ==> tus[j] in units
  {
    assert |tus| == |multiset(tus)| == |multiset(units)| == |units|;
    forall j | 0 <= j < |tus| ensures tus[j] in units {
      assert tus[j] in multiset(tus);
    }
  }

  method SortUnits(units: seq<string>) returns (r: seq<string>)
    ensures Ascending(r) && multiset(r) == multiset(units)
  {
    hide CO.TextLess;
    r := [];
    for i := 0 to |units|
      invariant Ascending(r) && multiset(r) == multiset(units[..i])
    {
      assert units[..i + 1] == units[..i] + [units[i]];
      r := InsertUnit(r, units[i]);
    }
    assert units[..|units|] == units;
  }

  method InsertUnit(sorted: seq<string>, u: string) returns (r: seq<string>)
    requires Ascending(sorted)
    ensures Ascending(r) && multiset(r) == multiset(sorted) + multiset{u}
  {
    hide CO.TextLess;
    var k := |sorted|;
    while k > 0 && CO.TextLess(u, sorted[k - 1])
      invariant 0 <= k <= |sorted| && forall i :: k <= i < |sorted| ==> CO.TextLess(u, sorted[i])
    {
      k := k - 1;
    }
    assert sorted == sorted[..k] + sorted[k..];
    r := sorted[..k] + [u] + sorted[k..];
    forall i | 0 <= i < k ensures sorted[i] == u || CO.TextLess(sorted[i], u) {
      BelowUnit(sorted, u, k, i);
    }
  }

  lemma BelowUnit(sorted: seq<string>, u: string, k: nat, i: nat)
    requires Ascending(sorted) && i < k <= |sorted| && !CO.TextLess(u, sorted[k - 1])
    ensures sorted[i] == u || CO.TextLess(sorted[i], u)
  {
    hide CO.TextLess;
    CO.TextLessTotal(u, sorted[k - 1]);
    if i < k - 1 && sorted[i] != sorted[k - 1] && sorted[k - 1] != u {
      CO.TextLessTrans(sorted[i], sorted[k - 1], u);
    }
  }

  lemma NamedUnits(ch: ChannelIndex, tus: seq<string>)
    requires ch.Valid() && forall j :: 0 <= j < |tus| ==> tus[j] in ch.byTu
    ensures forall j :: 0 <= j < |tus| ==> tus[j] != ""
  {
  }

  /** Everything fits the 32-bit fields, and every string is text. */
  ghost predicate Fits(isText: string -> bool, ch: ChannelIndex)
    reads ch
  {
    && |ch.table| < U32 && (forall t :: t in ch.byTu ==> TextFits(isText, t))
    && (forall i :: 0 <= i < |ch.table| ==> ch.table[i].refs < U32)
    && (forall i :: 0 <= i < |ch.sites| ==> NamesRead(isText, ch.sites[i]) && GuardsRead(isText, ch.sites[i].guards))
  }

  lemma FitsSize(isText: string -> bool, ch: ChannelIndex)
    ensures Fits(isText, ch) ==> |ch.table| < U32
  {
  }

  lemma RowFits(isText: string -> bool, ch: ChannelIndex, i: nat, r: Row)
    requires Fits(isText, ch) && RowOk(r) && i < |ch.table| && i < |ch.sites| && r.refs == ch.table[i].refs && r.site == ch.sites[i].(tuPath := "")
    requires forall j :: 0 <= j < |r.tus| ==> r.tus[j] in ch.byTu
    ensures RowReads(isText, r)
  {
    hide TextFits, GuardReads;
  }

  lemma NoRows(ch: ChannelIndex)
    requires ch.Valid()
    ensures RowsUpTo(ch, [], 0)
  {
    hide IndexOk, CountsMatch, UnitsMatch, Represented, Lists, LiveIn;
    ReplayedStart([], ch.regs, ch.index);
  }

  // ---- The bytes.

  function PutOp(op: Operation): (r: string)
    ensures |r| == 1
  {
    if op.Produce? then [0 as char] else [1 as char]
  }

  function NameBytes(s: Site): string {
    ChannelBytes(s) + FunctionBytes(s)
  }

  function ChannelBytes(s: Site): string {
    PutLenStr(s.channelId) + (PutLenStr(s.typeName) + (PutLenStr(s.category) + PutOp(s.op)))
  }

  function FunctionBytes(s: Site): string {
    PutLenStr(s.functionUsr) + (PutLenStr(s.functionDisplay) + PutLenStr(s.callSite))
  }

  function RowKey(r: Row): string {
    NameBytes(r.site) + (PutU32(r.refs) + (GuardList(r.site.guards) + (PutU32(|r.tus|) + StringsKey(r.tus))))
  }

  function RowsKey(xs: seq<Row>): string {
    if xs == [] then "" else RowKey(xs[0]) + RowsKey(xs[1..])
  }

  ghost predicate NamesRead(isText: string -> bool, s: Site) {
    && TextFits(isText, s.channelId) && TextFits(isText, s.typeName) && TextFits(isText, s.category)
    && TextFits(isText, s.functionUsr) && TextFits(isText, s.functionDisplay) && TextFits(isText, s.callSite)
  }

  ghost predicate RowReads(isText: string -> bool, r: Row) {
    && NamesRead(isText, r.site) && RowOk(r) && r.refs < U32 && |r.site.guards| < U32
    && (forall i :: 0 <= i < |r.site.guards| ==> GuardReads(isText, r.site.guards[i]))
    && (forall i :: 0 <= i < |r.tus| ==> TextFits(isText, r.tus[i]))
  }

  method ReadChannel(rd: Reader, ghost x: Site, ghost tail: string) returns (channelId: string, typeName: string, category: string, op: Operation)
    requires rd.Valid()
    modifies rd`p, rd`ok
    ensures rd.Valid() && rd.p >= old(rd.p) && (rd.ok ==> old(rd.ok))
    ensures old(rd.Sees(ChannelBytes(x), tail)) && NamesRead(rd.isText, x) ==>
              rd.ok && rd.Rest() == tail && channelId == x.channelId && typeName == x.typeName && category == x.category && op == x.op
  {
    hide PutLenStr;
    ghost var k3 := PutOp(x.op);
    ghost var k2 := PutLenStr(x.category) + k3;
    ghost var k1 := PutLenStr(x.typeName) + k2;
    Regroup(PutLenStr(x.channelId), k1, tail);
    Regroup(PutLenStr(x.typeName), k2, tail);
    Regroup(PutLenStr(x.category), k3, tail);
    channelId := rd.Text(x.channelId, k1 + tail);
    typeName := rd.Text(x.typeName, k2 + tail);
    category := rd.Text(x.category, k3 + tail);
    var n := rd.ReadU8(PutOp(x.op), tail);
    op := if n == 0 then Produce else Consume;
  }

  method ReadFunction(rd: Reader, ghost x: Site, ghost tail: string) returns (usr: string, display: string, callSite: string)
    requires rd.Valid()
    modifies rd`p, rd`ok
    ensures rd.Valid() && rd.p >= old(rd.p) && (rd.ok ==> old(rd.ok))
    ensures old(rd.Sees(FunctionBytes(x), tail)) && NamesRead(rd.isText, x) ==>
              rd.ok && rd.Rest() == tail && usr == x.functionUsr && display == x.functionDisplay && callSite == x.callSite
  {
    hide PutLenStr;
    ghost var k2 := PutLenStr(x.callSite);
    ghost var k1 := PutLenStr(x.functionDisplay) + k2;
    Regroup(PutLenStr(x.functionUsr), k1, tail);
    Regroup(PutLenStr(x.functionDisplay), k2, tail);
    usr := rd.Text(x.functionUsr, k1 + tail);
    display := rd.Text(x.functionDisplay, k2 + tail);
    callSite := rd.Text(x.callSite, tail);
  }

  method ReadNames(rd: Reader, ghost x: Site, ghost tail: string) returns (r: Site)
    requires rd.Valid()
    modifies rd`p, rd`ok
    ensures rd.Valid() && rd.p >= old(rd.p) && (rd.ok ==> old(rd.ok)) && r.tuPath == "" && r.guards == []
    ensures old(rd.Sees(NameBytes(x), tail)) && NamesRead(rd.isText, x) ==> rd.ok && r == x.(tuPath := "", guards := []) && rd.Rest() == tail
  {
    hide ChannelBytes, FunctionBytes, NamesRead;
    Regroup(ChannelBytes(x), FunctionBytes(x), tail);
    var channelId, typeName, category, op := ReadChannel(rd, x, FunctionBytes(x) + tail);
    var usr, display, callSite := ReadFunction(rd, x, tail);
    r := Site(channelId, typeName, category, op, usr, display, callSite, [], "");
  }

  /** A site cannot have fewer registrations than contributors, nor none. */
  method ReadRow(rd: Reader, ghost x: Row, ghost tail: string) returns (r: Row)
    requires rd.Valid()
    modifies rd`p, rd`ok
    ensures rd.Valid() && rd.p >= old(rd.p) && (rd.ok ==> old(rd.ok))
    ensures rd.ok ==> r.refs > 0 && |r.tus| <= r.refs
    ensures old(rd.Sees(RowKey(x), tail)) && RowReads(rd.isText, x) ==> rd.ok && r == x && rd.Rest() == tail
  {
    hide NameBytes, GuardList, StringsKey, PutU32, GuardReads, TextFits, NamesRead;
    ghost var k3 := PutU32(|x.tus|) + StringsKey(x.tus);
    ghost var k2 := GuardList(x.site.guards) + k3;
    ghost var k1 := PutU32(x.refs) + k2;
    Regroup(NameBytes(x.site), k1, tail);
    Regroup(PutU32(x.refs), k2, tail);
    Regroup(GuardList(x.site.guards), k3, tail);
    GuardListIs(x.site.guards);
    var site := ReadNames(rd, x.site, k1 + tail);
    var refs := rd.ReadU32(x.refs, k2 + tail);
    var guards := ReadGuards(rd, x.site.guards, k3 + tail);
    var tus := ReadStrings(rd, x.tus, tail);
    if refs == 0 || refs < |tus| {
      rd.ok := false;
    }
    r := Row(site.(guards := guards), refs, tus);
  }

  lemma GuardListIs(xs: seq<Guard>)
    ensures GuardList(xs) == PutU32(|xs|) + GuardSetKey(xs)
  {
  }

  lemma RowsNext(xs: seq<Row>, i: nat, tail: string)
    requires i < |xs|
    ensures RowsKey(xs[i..]) + tail == RowKey(xs[i]) + (RowsKey(xs[i + 1..]) + tail)
  {
    assert xs[i..][1..] == xs[i + 1..];
    Regroup(RowKey(xs[i]), RowsKey(xs[i + 1..]), tail);
  }

  lemma {:induction false} RowsLong(xs: seq<Row>)
    ensures |RowsKey(xs)| >= |xs|
    decreases |xs|
  {
    if xs != [] {
      RowsLong(xs[1..]);
      assert |RowKey(xs[0])| >= 1;
    }
  }

  lemma RowsEnds(xs: seq<Row>, tail: string)
    ensures RowsKey(xs[|xs|..]) + tail == tail
  {
    assert xs[|xs|..] == [];
  }

  method ReadRows(rd: Reader, ghost xs: seq<Row>, ghost tail: string) returns (r: seq<Row>)
    requires rd.Valid()
    modifies rd`p, rd`ok
    ensures rd.Valid() && rd.p >= old(rd.p) && (rd.ok ==> old(rd.ok))
    ensures rd.ok ==> forall i :: 0 <= i < |r| ==> r[i].refs > 0 && |r[i].tus| <= r[i].refs
    ensures old(rd.Sees(PutU32(|xs|) + RowsKey(xs), tail)) && |xs| < U32 && (forall i :: 0 <= i < |xs| ==> RowReads(rd.isText, xs[i])) ==>
              rd.ok && r == xs && rd.Rest() == tail
  {
    hide RowsKey, RowKey, RowReads, PutU32;
    ghost var good := rd.Sees(PutU32(|xs|) + RowsKey(xs), tail) && |xs| < U32 && (forall i :: 0 <= i < |xs| ==> RowReads(rd.isText, xs[i]));
    Regroup(PutU32(|xs|), RowsKey(xs), tail);
    RowsLong(xs);
    var n := rd.Count(|xs|, RowsKey(xs) + tail);
    r := [];
    assert xs[0..] == xs;
    var i := 0;
    while rd.ok && i < n
      invariant rd.Valid() && rd.p >= old(rd.p) && (rd.ok ==> old(rd.ok)) && i <= n
      invariant good ==> rd.ok && n == |xs| && r == xs[..i] && rd.Rest() == RowsKey(xs[i..]) + tail
      invariant rd.ok ==> forall j :: 0 <= j < |r| ==> r[j].refs > 0 && |r[j].tus| <= r[j].refs
      decreases n - i
    {
      ghost var x, t := Row(Site("", "", "", Produce, "", "", "", [], ""), 0, []), "";
      if good {
        RowsNext(xs, i, tail);
        x, t := xs[i], RowsKey(xs[i + 1..]) + tail;
      }
      var v := ReadRow(rd, x, t);
      r := r + [v];
      i := i + 1;
    }
    if good {
      RowsEnds(xs, tail);
      assert xs[..|xs|] == xs;
    }
  }

  /** Load the section.  Any accepted row is one a site could have; emitted bytes
      give back the rows, and are refused if anything follows them. */
  method LoadRows(data: string, isText: string -> bool, ghost rows: seq<Row>, ghost rest: string) returns (r: Option<seq<Row>>)
    ensures r.Some? ==> forall i :: 0 <= i < |r.value| ==> r.value[i].refs > 0 && |r.value[i].tus| <= r.value[i].refs
    ensures data == PutU32(|rows|) + RowsKey(rows) + rest && |rows| < U32 && (forall i :: 0 <= i < |rows| ==> RowReads(isText, rows[i])) ==>
              r == if rest == "" then Some(rows) else None
  {
    hide RowsKey, RowReads, PutU32;
    var rd := new Reader(data, isText);
    var rs := ReadRows(rd, rows, rest);
    if !rd.ok || rd.p != |data| {
      return None;
    }
    r := Some(rs);
  }

  // ---- Installing the rows.

  /** The representative of a sorted list is its first unit. */
  function FirstOf(tus: seq<string>): string {
    if tus == [] then "" else tus[0]
  }

  /** Install one row directly: the site, then its units. */
  method InstallRow(ch: ChannelIndex, r: Row)
    requires ch.Valid() && RowOk(r) && KeyOf(r.site) !in ch.index
    modifies ch
    ensures ch.Valid() && ch.regs == old(ch.regs) + Expanded(r)
    ensures ch.sites == old(ch.sites) + [r.site.(tuPath := FirstOf(r.tus))]
  {
    hide IndexOk, CountsMatch, UnitsMatch, Lists, Represented, Raised, LiveIn, RefsOf, Tagged, Keyed, Copies, Block, UnitsPushed, Ascending, FirstOf;
    var site := r.site.(tuPath := FirstOf(r.tus));
    ghost var k := KeyOf(site);
    ghost var table0, index0, units0, regs0 := ch.table, ch.index, ch.byTu, ch.regs;
    Unregistered(table0, index0, regs0, k);
    var idx := ch.Store(site, r.refs);
    PushStart(table0, index0, ch.table, ch.index, units0, regs0, k, r.refs, r.tus);
    for j := 0 to |r.tus|
      invariant UnitsPushed(ch.byTu, ch.index, regs0, k, r.tus, j)
      invariant ch.regs == regs0 && ch.Shape() && k in ch.index && idx == ch.index[k] && "" !in ch.byTu
      invariant Raised(table0, index0, ch.table, ch.index, k, r.refs)
      invariant Represented(ch.table, ch.sites, regs0 + Copies(TagOf(site), r.refs), {})
      invariant ch.sites == old(ch.sites) + [site] && idx == |old(ch.sites)|
    {
      PushNext(ch.byTu, ch.index, regs0, k, r.tus, j);
      ch.byTu := ch.byTu[r.tus[j] := Bucket(ch.byTu, r.tus[j]) + [idx]];
    }
    BlockMatches(table0, index0, ch.table, ch.index, ch.byTu, regs0, k, r.refs, r.tus);
    BlockTagged(regs0, k, r.refs, r.tus);
    BlockRepresented(ch.table, ch.sites, ch.index, regs0, site, r.refs, r.tus);
    ch.regs := regs0 + Block(k, r.refs, r.tus);
  }

  lemma BlockTagged(regs: seq<SiteReg>, k: SiteKey, refs: nat, tus: seq<string>)
    requires Tagged(regs) && |tus| <= refs && forall i :: 0 <= i < |tus| ==> tus[i] != ""
    ensures Tagged(regs + Block(k, refs, tus))
  {
    hide Block;
    var b := Block(k, refs, tus);
    forall i | 0 <= i < |b| ensures b[i].tu != Some("") {
      BlockCounts(k, refs, tus, b[i]);
      assert b[i] in multiset(b);
      if b[i].tu.Some? {
        assert b[i].tu.value in multiset(tus);
      }
    }
  }

  /** The units of a row are the contributors it brings. */
  lemma BlockContributors(k: SiteKey, refs: nat, tus: seq<string>, x: SiteKey)
    requires |tus| <= refs
    ensures Contributors(Block(k, refs, tus), x) == if x == k then L.AsSet(tus) else {}
  {
    hide Block;
    var b := Block(k, refs, tus);
    forall t ensures t in Contributors(b, x) <==> x == k && t in tus {
      BlockCounts(k, refs, tus, Reg(x, Some(t)));
      assert Reg(x, Some(t)) in b <==> Reg(x, Some(t)) in multiset(b);
      assert t in tus <==> t in multiset(tus);
      assert t in Contributors(b, x) <==> Reg(x, Some(t)) in b;
    }
  }

  /** The first unit of a sorted list is the least contributor. */
  lemma FirstIsLeast(tus: seq<string>)
    requires Ascending(tus)
    ensures LeastOf(L.AsSet(tus), FirstOf(tus))
  {
    hide CO.TextLess;
    if tus != [] {
      assert tus[0] in tus;
    }
  }

  lemma OtherContributors(regs: seq<SiteReg>, site: Site, refs: nat, tus: seq<string>, x: SiteKey)
    requires |tus| <= refs && refs > 0 && x != KeyOf(site)
    ensures Contributors(regs + Block(KeyOf(site), refs, tus), x) == Contributors(regs + Copies(TagOf(site), refs), x)
  {
    hide Block, Copies, Contributors;
    ContributorsConcat(regs, Block(KeyOf(site), refs, tus), x);
    BlockContributors(KeyOf(site), refs, tus, x);
    ContributorsConcat(regs, Copies(TagOf(site), refs), x);
    CopiesElsewhere(TagOf(site), refs, x);
  }

  lemma CopiesElsewhere(r: SiteReg, n: nat, x: SiteKey)
    requires r.record != x
    ensures Contributors(Copies(r, n), x) == {}
  {
    CopiesAll(r, n);
  }

  lemma BlockRepresented(table: seq<Stored<SiteKey>>, sites: seq<Site>, index: map<SiteKey, nat>, regs: seq<SiteReg>, site: Site, refs: nat, tus: seq<string>)
    requires IndexOk(table, index) && Represented(table, sites, regs + Copies(TagOf(site), refs), {}) && Contributors(regs, KeyOf(site)) == {}
    requires KeyOf(site) in index && index[KeyOf(site)] < |sites| && sites[index[KeyOf(site)]] == site
    requires refs > 0 && |tus| <= refs && Ascending(tus) && site.tuPath == FirstOf(tus)
    ensures Represented(table, sites, regs + Block(KeyOf(site), refs, tus), {})
  {
    hide Block, Copies, Contributors, LeastOf, Ascending, FirstOf;
    var k := KeyOf(site);
    ContributorsConcat(regs, Block(k, refs, tus), k);
    BlockContributors(k, refs, tus, k);
    FirstIsLeast(tus);
    assert {} + L.AsSet(tus) == L.AsSet(tus);
    forall i | 0 <= i < |table| && table[i].refs > 0 ensures LeastOf(Contributors(regs + Block(k, refs, tus), table[i].key), sites[i].tuPath) {
      if table[i].key != k {
        OtherContributors(regs, site, refs, tus, table[i].key);
      }
    }
  }

  method InstallRows(rows: seq<Row>) returns (ch: ChannelIndex)
    requires RowsOk(rows)
    ensures fresh(ch) && ch.Valid() && ch.regs == ExpandedAll(rows)
    ensures |ch.sites| == |rows| && forall i :: 0 <= i < |rows| ==> SameDetails(ch.sites[i], rows[i].site)
  {
    hide ChannelIndex.Valid, Expanded;
    ch := new ChannelIndex();
    NoSites(ch);
    for n := 0 to |rows|
      invariant fresh(ch) && ch.Valid() && ch.regs == ExpandedAll(rows[..n])
      invariant |ch.sites| == n && forall i :: 0 <= i < n ==> SameDetails(ch.sites[i], rows[i].site)
    {
      NewKey(ch, rows, n);
      assert rows[..n + 1] == rows[..n] + [rows[n]];
      ExpandedSnoc(rows[..n], rows[n]);
      InstallRow(ch, rows[n]);
    }
    assert rows[..|rows|] == rows;
  }

  lemma NoSites(ch: ChannelIndex)
    requires ch.Valid() && ch.regs == [] && ch.sites == []
    ensures ch.regs == ExpandedAll([])
  {
  }

  lemma NewKey(ch: ChannelIndex, rows: seq<Row>, n: nat)
    requires ch.Valid() && RowsOk(rows) && n < |rows| && |ch.sites| == n && forall i :: 0 <= i < n ==> SameDetails(ch.sites[i], rows[i].site)
    ensures KeyOf(rows[n].site) !in ch.index
  {
    hide CountsMatch, UnitsMatch, Represented, Lists, LiveIn;
    forall k | k in ch.index ensures k != KeyOf(rows[n].site) {
      var i := ch.index[k];
      assert ch.table[i].key == k == KeyOf(ch.sites[i]);
      assert KeyOf(ch.sites[i]) == KeyOf(rows[i].site);
    }
  }

  // ---- Save, then load.

  lemma SameLeast(s: set<string>, p: string, q: string)
    requires LeastOf(s, p) && LeastOf(s, q)
    ensures p == q
  {
    if s != {} && p != q {
      CO.TextLessStrict(p, q);
    }
  }

  lemma SameContributors(a: seq<SiteReg>, b: seq<SiteReg>, k: SiteKey)
    requires multiset(a) == multiset(b)
    ensures Contributors(a, k) == Contributors(b, k)
  {
    forall r ensures r in a <==> r in b {
      assert r in a <==> r in multiset(a);
      assert r in b <==> r in multiset(b);
    }
  }

  /** Two indexes with the same ledger and details show the same site. */
  lemma SameSite(a: ChannelIndex, b: ChannelIndex, i: nat, j: nat)
    requires a.Valid() && b.Valid() && multiset(a.regs) == multiset(b.regs)
    requires i < |a.table| && i < |a.sites| && a.table[i].refs > 0 && j < |b.sites| && SameDetails(a.sites[i], b.sites[j])
    ensures j < |b.table| && b.table[j].refs > 0 ==> a.sites[i] == b.sites[j]
  {
    hide IndexOk, CountsMatch, UnitsMatch, Lists, LiveIn, LeastOf, Contributors;
    if j < |b.table| && b.table[j].refs > 0 {
      assert a.table[i].key == KeyOf(a.sites[i]) == KeyOf(b.sites[j]) == b.table[j].key;
      SameContributors(a.regs, b.regs, a.table[i].key);
      SameLeast(Contributors(a.regs, a.table[i].key), a.sites[i].tuPath, b.sites[j].tuPath);
    }
  }

  /** The live position of a registered key. */
  lemma LiveKey(a: ChannelIndex, b: ChannelIndex, i: nat, j: nat)
    requires a.Valid() && b.Valid() && multiset(a.regs) == multiset(b.regs) && DistinctSites(b.sites)
    requires i < |a.table| && a.table[i].refs > 0 && j < |b.sites| && a.table[i].key == KeyOf(b.sites[j])
    ensures j < |b.table| && b.table[j].refs > 0
  {
    hide UnitsMatch, Represented, Lists, LiveIn, Count;
    var k := a.table[i].key;
    CountIsMultiset(a.regs, b.regs, k);
    assert RefsOf(a.table, a.index, k) == Count(a.regs, k) && RefsOf(b.table, b.index, k) == Count(b.regs, k);
    var n := b.index[k];
    assert KeyOf(b.sites[n]) == k;
    assert n == j;
  }

  lemma InstalledIsLive(ch: ChannelIndex, r: Row, again: ChannelIndex, j: nat)
    requires ch.Valid() && again.Valid() && multiset(again.regs) == multiset(ch.regs)
    requires j < |again.table| && j < |again.sites| && again.table[j].refs > 0 && SameDetails(again.sites[j], r.site) && RowFrom(ch, r, |ch.table|)
    ensures ch.Live(again.sites[j])
  {
    hide IndexOk, CountsMatch, UnitsMatch, Represented, Lists, LiveIn, Keyed;
    var n :| 0 <= n < |ch.table| && n < |ch.sites| && ch.table[n].refs > 0 && SameDetails(r.site, ch.sites[n]);
    SameSite(again, ch, j, n);
  }

  lemma LiveIsInstalled(ch: ChannelIndex, r: Row, again: ChannelIndex, n: nat, j: nat)
    requires ch.Valid() && again.Valid() && multiset(again.regs) == multiset(ch.regs) && DistinctSites(again.sites)
    requires n < |ch.table| && n < |ch.sites| && ch.table[n].refs > 0
    requires j < |again.sites| && SameDetails(again.sites[j], r.site) && SameDetails(r.site, ch.sites[n])
    ensures again.Live(ch.sites[n])
  {
    hide IndexOk, CountsMatch, UnitsMatch, Represented, Lists, LiveIn, Keyed;
    StoredKey(ch.table, ch.sites, ch.index, ch.regs, n);
    LiveKey(ch, again, n, j);
    SameSite(again, ch, j, n);
  }

  lemma DistinctRows(rows: seq<Row>, sites: seq<Site>)
    requires RowsOk(rows) && |sites| == |rows| && forall i :: 0 <= i < |rows| ==> SameDetails(sites[i], rows[i].site)
    ensures DistinctSites(sites)
  {
    hide RowOk;
    forall i, j | 0 <= i < j < |sites| ensures KeyOf(sites[i]) != KeyOf(sites[j]) {
      assert KeyOf(rows[i].site) != KeyOf(rows[j].site);
    }
  }

  lemma SameLive(ch: ChannelIndex, rows: seq<Row>, again: ChannelIndex, s: Site)
    requires ch.Valid() && again.Valid() && RowsUpTo(ch, rows, |ch.table|) && multiset(again.regs) == multiset(ch.regs)
    requires |again.sites| == |rows| && forall i :: 0 <= i < |rows| ==> SameDetails(again.sites[i], rows[i].site)
    ensures again.Live(s) <==> ch.Live(s)
  {
    hide ChannelIndex.Valid, Replayed, SameDetails, RowsOk, RowOk, RowFrom, ExpandedAll, DistinctSites;
    DistinctRows(rows, again.sites);
    if again.Live(s) {
      var j :| 0 <= j < |again.table| && j < |again.sites| && again.table[j].refs > 0 && again.sites[j] == s;
      InstalledIsLive(ch, rows[j], again, j);
    }
    if ch.Live(s) {
      var n :| 0 <= n < |ch.table| && n < |ch.sites| && ch.table[n].refs > 0 && ch.sites[n] == s;
      assert HasRow(ch, rows, n);
      var j :| 0 <= j < |rows| && SameDetails(rows[j].site, ch.sites[n]);
      LiveIsInstalled(ch, rows[j], again, n, j);
    }
  }

  /** Save the index, load the bytes and install them: the same registrations and
      the same live sites. */
  method RoundTrip(ch: ChannelIndex, isText: string -> bool) returns (again: Option<ChannelIndex>)
    requires ch.Valid() && Fits(isText, ch)
    ensures again.Some? && again.value.Valid() && multiset(again.value.regs) == multiset(ch.regs)
    ensures forall s :: again.value.Live(s) <==> ch.Live(s)
  {
    hide ChannelIndex.Valid, RowsKey, RowReads, Replayed, SameDetails, ChannelIndex.Live, PutU32, Fits;
    var rows := RowsOf(ch, isText);
    var data := PutU32(|rows|) + RowsKey(rows);
    assert data + "" == data;
    var loaded := LoadRows(data, isText, rows, "");
    var installed := InstallRows(loaded.value);
    AllReplayed(ch, rows);
    forall s ensures installed.Live(s) <==> ch.Live(s) {
      SameLive(ch, rows, installed, s);
    }
    again := Some(installed);
  }

  lemma AllReplayed(ch: ChannelIndex, rows: seq<Row>)
    requires ch.Valid() && RowsUpTo(ch, rows, |ch.table|)
    ensures multiset(ExpandedAll(rows)) == multiset(ch.regs)
  {
    hide UnitsMatch, Represented, Lists, LiveIn;
    ReplayedEnd([], ExpandedAll(rows), ch.regs, ch.table, ch.index);
  }
}
