/** The mapped form's lookups, on the bytes themselves.  They take any region that
    was accepted, with any words in its arrays, and read only inside it.  What
    they see of the bytes of a save is what was saved, so they answer like the
    resident form. */
module MappedReads {
  import opened GraphTypes
  import opened Interner
  import opened FlowTypes
  import opened Codec
  import opened SetTables
  import opened FlowIndex
  import opened CountingSort
  import opened MappedIndex
  import opened FlowSnapshot
  import opened MappedBytes
  import RT = RefTable
  import CO = CanonicalOrder

  /** An attached section: the record region, the bytes of the string table, and
      the set tables, which are read at load. */
  datatype Mapping = Mapping(region: Region, strings: string, stringCount: nat, tables: Tables)

  /** What an accepted load guarantees; nothing about any word in the region. */
  ghost predicate Accepted(v: Mapping) {
    Sized(v.region, v.stringCount) && forall i :: 0 <= i < |v.tables.locals| ==> LocalsNamed(v.stringCount, v.tables.locals[i])
  }

  // ---- Single reads.

  function Text(v: Mapping, id: nat): string
    requires Accepted(v)
  {
    MappedString(v.region, v.strings, v.stringCount, id)
  }

  function FieldOffset(s: Selector): (n: nat)
    ensures n + 4 <= RECORD_BYTES
  {
    match s
    case ByCaller => 0
    case ByCallee => 4
    case ByCallerDisplay => 8
    case ByCalleeDisplay => 12
    case BySite => 16
    case ByTu => 20
  }

  /** One of the two bytes after the words of a record. */
  function SmallField(r: Region, pos: nat, field: nat): nat
    requires |r.records| == RECORD_BYTES * r.recordCount && pos < r.recordCount && field < RECORD_BYTES
  {
    assert RECORD_BYTES * pos + RECORD_BYTES <= RECORD_BYTES * r.recordCount;
    ByteOf(r.records[RECORD_BYTES * pos + field])
  }

  function UnitOf(word: nat): Option<Id> {
    if word == NO_STRING then None else Some(word)
  }

  /** Whether every id and set of a record means something. */
  predicate Meaningful(v: Mapping, c: StoredContext) {
    && c.caller < v.stringCount && c.callee < v.stringCount && c.callerDisplay < v.stringCount && c.calleeDisplay < v.stringCount
    && c.site < v.stringCount && (c.tu.Some? ==> c.tu.value < v.stringCount)
    && c.scopeSet < |v.tables.scopes| && c.guardSet < |v.tables.guards| && c.raiiSet < |v.tables.locals|
  }

  /** The fields of a record, as they stand. */
  function FieldsOf(r: Region, pos: nat): StoredContext
    requires |r.records| == RECORD_BYTES * r.recordCount && pos < r.recordCount
  {
    StoredContext(FieldOf(r, pos, 0), FieldOf(r, pos, 4), FieldOf(r, pos, 8), FieldOf(r, pos, 12), FieldOf(r, pos, 16),
                  UnitOf(FieldOf(r, pos, 20)), FieldOf(r, pos, 24), FieldOf(r, pos, 28), FieldOf(r, pos, 32),
                  SpecOf(SmallField(r, pos, 36)), SmallField(r, pos, 37) != 0, true)
  }

  /** The record at any position: dead if it is out of range or not meaningful. */
  function MappedRecord(v: Mapping, pos: nat): (c: StoredContext)
    requires Accepted(v)
    ensures c.live ==> pos < v.region.recordCount && Readable(StringsSeen(v), v.tables, c)
  {
    if pos >= v.region.recordCount then StoredContext(0, 0, 0, 0, 0, None, 0, 0, 0, NoSpec, false, false)
    else
      var c := FieldsOf(v.region, pos);
      c.(live := Meaningful(v, c))
  }

  /** What a lookup array is sorted by, at entry `i`; with no array, entry `i` is
      record `i`.  An entry out of range sorts after every id. */
  function KeyAt(v: Mapping, order: Option<string>, s: Selector, i: nat): nat
    requires Accepted(v) && (order.Some? ==> 4 * i + 4 <= |order.value|)
  {
    var pos := if order.Some? then WordAt(order.value, i) else i;
    if pos >= v.region.recordCount then NOWHERE else FieldOf(v.region, pos, FieldOffset(s))
  }

  // ---- What the bytes say, as values.

  function StringsSeen(v: Mapping): (r: seq<string>)
    requires Accepted(v)
    ensures |r| == v.stringCount
  {
    seq(v.stringCount, id requires 0 <= id < v.stringCount => Text(v, id))
  }

  ghost function Words(s: string): (r: seq<nat>)
    requires |s| % 4 == 0
    ensures |r| == |s| / 4
  {
    seq(|s| / 4, i requires 0 <= i < |s| / 4 => WordAt(s, i))
  }

  ghost function RecordsSeen(v: Mapping): (r: seq<StoredContext>)
    requires Accepted(v)
    ensures |r| == v.region.recordCount
  {
    seq(v.region.recordCount, pos requires 0 <= pos < v.region.recordCount => MappedRecord(v, pos))
  }

  ghost function Seen(v: Mapping): Mapped
    requires Accepted(v)
  {
    var r := v.region;
    Mapped(StringsSeen(v), v.tables, RecordsSeen(v), Words(r.sortedIds), Words(r.byCaller), Words(r.byCallee), Words(r.byCallerDisplay), Words(r.byCalleeDisplay))
  }

  // ---- The searches.

  /** The keys an array is searched by. */
  ghost function KeysSeen(v: Mapping, order: Option<string>, s: Selector, count: nat): (r: seq<nat>)
    requires Accepted(v) && (order.Some? ==> 4 * count <= |order.value|)
    ensures |r| == count && forall i :: 0 <= i < count ==> r[i] == KeyAt(v, order, s, i)
  {
    seq(count, i requires 0 <= i < count => KeyAt(v, order, s, i))
  }

  /** The range of an id in an array of any words. */
  method ByteRange(v: Mapping, order: Option<string>, s: Selector, count: nat, id: nat) returns (first: nat, last: nat)
    requires Accepted(v) && (order.Some? ==> 4 * count <= |order.value|)
    ensures first <= last <= count && FoundRange(KeysSeen(v, order, s, count), id, first, last)
  {
    hide KeyAt, Accepted;
    ghost var keys := KeysSeen(v, order, s, count);
    var lo, hi := 0, count;
    while lo < hi
      invariant 0 <= lo <= hi <= count
      invariant SortedKeys(keys) ==> (forall i :: 0 <= i < lo ==> keys[i] < id) && (forall i :: hi <= i < count ==> keys[i] >= id)
    {
      var mid := lo + (hi - lo) / 2;
      assert keys[mid] == KeyAt(v, order, s, mid);
      if KeyAt(v, order, s, mid) < id {
        lo := mid + 1;
      } else {
        hi := mid;
      }
    }
    first := lo;
    hi := count;
    while lo < hi
      invariant first <= lo <= hi <= count
      invariant SortedKeys(keys) ==> (forall i :: first <= i < lo ==> keys[i] == id) && (forall i :: hi <= i < count ==> keys[i] > id)
    {
      var mid := lo + (hi - lo) / 2;
      assert keys[mid] == KeyAt(v, order, s, mid);
      if KeyAt(v, order, s, mid) <= id {
        lo := mid + 1;
      } else {
        hi := mid;
      }
    }
    last := lo;
  }

  lemma WordsAt(s: string, i: nat)
    requires |s| % 4 == 0 && i < |s| / 4
    ensures Words(s)[i] == WordAt(s, i)
  {
  }

  /** The id of a string, by bisection of an array of any words. */
  method ByteFindId(v: Mapping, s: string) returns (r: Option<Id>)
    requires Accepted(v)
    ensures IdsSorted(StringsSeen(v), Words(v.region.sortedIds)) ==>
              (r.Some? ==> r.value < v.stringCount && StringsSeen(v)[r.value] == s) && (r.None? ==> s !in StringsSeen(v))
  {
    hide CO.TextLess, MappedString, WordAt;
    ghost var m := Seen(v);
    var lo, hi := 0, v.stringCount;
    while lo < hi
      invariant 0 <= lo <= hi <= v.stringCount == |m.sortedIds|
      invariant IdsSorted(m.strings, m.sortedIds) ==>
                  (forall i :: 0 <= i < lo ==> m.strings[m.sortedIds[i]] != s) && (forall i :: hi <= i < |m.sortedIds| ==> m.strings[m.sortedIds[i]] != s)
    {
      var mid := lo + (hi - lo) / 2;
      var id := WordAt(v.region.sortedIds, mid);
      var text := Text(v, id);
      WordsAt(v.region.sortedIds, mid);
      TextSeen(v, id);
      if text == s {
        return Some(id);
      }
      OneSide(m, s, mid);
      if CO.TextLess(text, s) {
        lo := mid + 1;
      } else {
        hi := mid;
      }
    }
    NotFound(m, s);
    return None;
  }

  lemma TextSeen(v: Mapping, id: nat)
    requires Accepted(v)
    ensures Text(v, id) == StringAt(Seen(v), id)
  {
  }

  /** The context of a record, its strings read in place. */
  function ContextSeen(v: Mapping, c: StoredContext): (r: CallContext)
    requires Accepted(v) && Readable(StringsSeen(v), v.tables, c)
    ensures r == Materialize(StringsSeen(v), v.tables, c)
  {
    CallContext(Text(v, c.callerDisplay), Text(v, c.calleeDisplay), Text(v, c.site), Text(v, c.caller), Text(v, c.callee),
                if c.tu.Some? then Text(v, c.tu.value) else "", v.tables.scopes[c.scopeSet], v.tables.guards[c.guardSet],
                LocalsOf(StringsSeen(v), v.tables.locals[c.raiiSet]), c.spec, c.insideCatch)
  }

  /** The contexts of the valid records at the given positions, in range or not. */
  method ByteCollect(v: Mapping, ps: seq<nat>) returns (r: seq<CallContext>)
    requires Accepted(v)
    ensures var m := Seen(v);
            (forall i :: 0 <= i < |ps| ==> ps[i] < |m.records| && m.records[ps[i]].live) ==>
              AllReadable(m.strings, m.tables, At(m.records, ps)) && r == Values(m.strings, m.tables, At(m.records, ps))
  {
    hide Accepted, Readable, Materialize, MappedRecord;
    ghost var m := Seen(v);
    r := [];
    for k := 0 to |ps|
      invariant (forall i :: 0 <= i < |ps| ==> ps[i] < |m.records| && m.records[ps[i]].live) ==>
                  |r| == k && forall i :: 0 <= i < k ==> Readable(m.strings, m.tables, m.records[ps[i]]) && r[i] == Materialize(m.strings, m.tables, m.records[ps[i]])
    {
      var c := MappedRecord(v, ps[k]);
      if c.live {
        r := r + [ContextSeen(v, c)];
      }
    }
  }

  // ---- The lookups.

  method ByteAtSite(v: Mapping, site: string, ghost strings: seq<string>, ghost t: Tables, ghost cs: seq<StoredContext>) returns (r: seq<CallContext>)
    requires Accepted(v)
    ensures IsImage(Seen(v), strings, t, cs) ==> r == AtSite(strings, t, cs, site)
  {
    hide Accepted, Grouped, Items, Readable, IdsSorted, Order, Pick, Materialize, Find, Injective, Words, StringsSeen, RecordsSeen, KeyAt;
    ghost var m := Seen(v);
    var id := ByteFindId(v, site);
    if IsImage(m, strings, t, cs) {
      FoundId(strings, site, id);
    }
    if id.None? {
      return [];
    }
    var first, last := ByteRange(v, None, BySite, v.region.recordCount, id.value);
    var ps := seq(last - first, i requires 0 <= i < last - first => first + i);
    r := ByteCollect(v, ps);
    if IsImage(m, strings, t, cs) {
      RecordsSorted(m, strings, t, cs);
      RecordsLive(m, strings, t, cs);
      SiteKeysSeen(v);
      SiteRange(m, strings, t, cs, id.value, first, last);
      assert At(m.records, ps) == m.records[first..last];
      PickReadable(strings, t, cs, BySite, id.value);
    }
  }

  /** The searched field of a record is the record's. */
  lemma KeySeen(v: Mapping, s: Selector, pos: nat)
    requires Accepted(v) && pos < v.region.recordCount && s != ByTu
    ensures FieldOf(v.region, pos, FieldOffset(s)) == FieldIn(s, RecordsSeen(v)[pos])
  {
  }

  lemma SiteKeysSeen(v: Mapping)
    requires Accepted(v)
    ensures KeysSeen(v, None, BySite, v.region.recordCount) == SiteKeys(Seen(v))
  {
    hide MappedRecord, Accepted;
    forall i | 0 <= i < v.region.recordCount ensures KeyAt(v, None, BySite, i) == Seen(v).records[i].site {
      KeySeen(v, BySite, i);
    }
  }

  lemma OrderKeysSeen(v: Mapping, order: string, s: Selector, i: nat)
    requires Accepted(v) && |order| % 4 == 0 && i < |order| / 4 && s != ByTu
    ensures KeyAt(v, Some(order), s, i) == FieldAt(Seen(v), Words(order), s, i)
  {
    hide MappedRecord, WordAt;
    var pos := Words(order)[i];
    if pos < v.region.recordCount {
      KeySeen(v, s, pos);
    }
  }

  /** The positions in a range of a lookup array. */
  method WordsIn(order: string, first: nat, last: nat) returns (ps: seq<nat>)
    requires |order| % 4 == 0 && first <= last <= |order| / 4
    ensures ps == Words(order)[first..last]
  {
    hide WordAt;
    ps := [];
    for i := first to last
      invariant ps == Words(order)[first..i]
    {
      ps := ps + [WordAt(order, i)];
    }
  }

  /** One array: the positions it has for an id. */
  method ByteListed(v: Mapping, order: string, s: Selector, id: nat, ghost strings: seq<string>, ghost t: Tables, ghost cs: seq<StoredContext>) returns (ps: seq<nat>)
    requires Accepted(v) && |order| % 4 == 0 && s != ByTu
    ensures IsImage(Seen(v), strings, t, cs) && id < |strings| && Words(order) == Order(Seen(v).records, s, |strings|) ==>
              (forall i :: 0 <= i < |ps| ==> ps[i] < |Seen(v).records| && Seen(v).records[ps[i]].live) && At(Seen(v).records, ps) == Pick(Seen(v).records, s, id)
  {
    hide Accepted, Grouped, Items, Readable, IdsSorted, Order, LiveWhere, Pick, Injective, AllReadable, StringsSeen, RecordsSeen, KeyAt, Words, FoundRange, FieldAt;
    ghost var m := Seen(v);
    var first, last := ByteRange(v, Some(order), s, |order| / 4, id);
    ps := WordsIn(order, first, last);
    if IsImage(m, strings, t, cs) && id < |strings| && Words(order) == Order(m.records, s, |strings|) {
      ghost var keys := KeysSeen(v, Some(order), s, |order| / 4);
      forall i | 0 <= i < |keys| ensures keys[i] == FieldAt(m, Words(order), s, i) {
        OrderKeysSeen(v, order, s, i);
      }
      ImageOrders(m, strings, t, cs, s);
      RangeFound(m, Words(order), s, id, keys, first, last);
      MappedPick(m, strings, t, cs, s, id, ps);
    }
  }

  method ByteByName(v: Mapping, side: Side, name: string, ghost strings: seq<string>, ghost t: Tables, ghost cs: seq<StoredContext>) returns (r: seq<CallContext>)
    requires Accepted(v)
    ensures IsImage(Seen(v), strings, t, cs) ==> multiset(r) == multiset(ByName(strings, t, cs, side, name))
  {
    hide Grouped, Items, Readable, IdsSorted, Order, LiveWhere, Pick, Materialize, Find, Injective, Values, Words, StringsSeen, RecordsSeen, WordAt;
    ghost var m := Seen(v);
    var id := ByteFindId(v, name);
    if IsImage(m, strings, t, cs) {
      FoundId(strings, name, id);
    }
    if id.None? {
      return [];
    }
    var ps := ByteListed(v, if side.Caller? then v.region.byCaller else v.region.byCallee, UsrOf(side), id.value, strings, t, cs);
    if ps == [] {
      ps := ByteListed(v, if side.Caller? then v.region.byCallerDisplay else v.region.byCalleeDisplay, DisplayOf(side), id.value, strings, t, cs);
    }
    r := ByteCollect(v, ps);
    if IsImage(m, strings, t, cs) {
      NamedSorted(m, strings, t, cs, side, id.value);
    }
  }

  // ---- The fields of a saved record, read in place.

  ghost predicate Fits32(c: StoredContext) {
    && c.caller < U32 && c.callee < U32 && c.callerDisplay < U32 && c.calleeDisplay < U32 && c.site < U32
    && (c.tu.Some? ==> c.tu.value < NO_STRING) && c.scopeSet < U32 && c.guardSet < U32 && c.raiiSet < U32
  }

  /** Reading a word and what follows it. */
  lemma Peel(at: string, i: nat, x: nat, tail: string)
    requires i <= |at| && at[i..] == PutU32(x) + tail && x < U32
    ensures i + 4 <= |at| && U32Of(at[i..]) == x && at[i + 4..] == tail
  {
    U32Back(x, tail);
    assert at[i + 4..] == at[i..][4..] == tail;
  }

  lemma FrontBack(at: string, x: StoredContext, tail: string)
    requires at == RecordFront(x) + tail && Fits32(x)
    ensures |at| >= 20 && U32Of(at) == x.caller && U32Of(at[4..]) == x.callee && U32Of(at[8..]) == x.callerDisplay
    ensures U32Of(at[12..]) == x.calleeDisplay && U32Of(at[16..]) == x.site && at[20..] == tail
  {
    hide PutU32, U32Of;
    var k4 := PutU32(x.site);
    var k3 := PutU32(x.calleeDisplay) + k4;
    var k2 := PutU32(x.callerDisplay) + k3;
    var k1 := PutU32(x.callee) + k2;
    Regroup(PutU32(x.caller), k1, tail);
    Regroup(PutU32(x.callee), k2, tail);
    Regroup(PutU32(x.callerDisplay), k3, tail);
    Regroup(PutU32(x.calleeDisplay), k4, tail);
    assert at[0..] == at;
    Peel(at, 0, x.caller, k1 + tail);
    Peel(at, 4, x.callee, k2 + tail);
    Peel(at, 8, x.callerDisplay, k3 + tail);
    Peel(at, 12, x.calleeDisplay, k4 + tail);
    Peel(at, 16, x.site, tail);
  }

  lemma BackBack(at: string, x: StoredContext, tail: string)
    requires at == RecordBack(x) + tail && Fits32(x)
    ensures |at| >= 18 && UnitOf(U32Of(at)) == x.tu && U32Of(at[4..]) == x.scopeSet && U32Of(at[8..]) == x.guardSet && U32Of(at[12..]) == x.raiiSet
    ensures SpecOf(ByteOf(at[16])) == x.spec && (ByteOf(at[17]) != 0) == x.insideCatch
  {
    hide PutU32, U32Of;
    var k4 := PutSpec(x.spec) + PutFlag(x.insideCatch);
    var k3 := PutU32(x.raiiSet) + k4;
    var k2 := PutU32(x.guardSet) + k3;
    var k1 := PutU32(x.scopeSet) + k2;
    Regroup(PutU32(TuWord(x.tu)), k1, tail);
    Regroup(PutU32(x.scopeSet), k2, tail);
    Regroup(PutU32(x.guardSet), k3, tail);
    Regroup(PutU32(x.raiiSet), k4, tail);
    assert at[0..] == at;
    Peel(at, 0, TuWord(x.tu), k1 + tail);
    Peel(at, 4, x.scopeSet, k2 + tail);
    Peel(at, 8, x.guardSet, k3 + tail);
    Peel(at, 12, x.raiiSet, k4 + tail);
    assert at[16..] == k4 + tail;
    assert at[16] == at[16..][0] == PutSpec(x.spec)[0] && at[17] == at[16..][1] == PutFlag(x.insideCatch)[0];
  }

  /** Every field of a record, read in place, is the saved one. */
  lemma FieldsBack(r: Region, xs: seq<StoredContext>, i: nat)
    requires r.recordCount == |xs| && r.records == RecordsKey(xs) && |r.records| == RECORD_BYTES * r.recordCount
    requires i < |xs| && Fits32(xs[i]) && xs[i].live
    ensures FieldsOf(r, i) == xs[i]
  {
    var x := xs[i];
    RecordAtBytes(xs, i);
    RecordLength(x);
    var n, after := RECORD_BYTES * i, RecordsKey(xs[i + 1..]);
    var at := r.records[n..];
    Regroup(RecordFront(x), RecordBack(x), after);
    hide PutU32, U32Of, RecordsKey, RecordKey, RecordFront, RecordBack, Fits32, UnitOf, SpecOf, ByteOf;
    FrontBack(at, x, RecordBack(x) + after);
    var back := at[20..];
    BackBack(back, x, after);
    assert n + 38 <= |r.records|;
    Shifted(r.records, n, at);
    Shifted(r.records, n + 20, back);
    assert r.records[n + 0..] == at && r.records[n + 20..] == back;
  }

  lemma Shifted(s: string, n: nat, at: string)
    requires n + 18 <= |s| && at == s[n..]
    ensures s[n + 4..] == at[4..] && s[n + 8..] == at[8..] && s[n + 12..] == at[12..] && s[n + 16..] == at[16..]
    ensures s[n + 16] == at[16] && s[n + 17] == at[17]
  {
  }

  lemma WordsBack(xs: seq<nat>)
    requires forall i :: 0 <= i < |xs| ==> xs[i] < U32
    ensures |Numbers(xs)| == 4 * |xs| && Words(Numbers(xs)) == xs
  {
    hide Numbers, WordAt;
    NumbersLength(xs);
    forall i | 0 <= i < |xs| ensures WordAt(Numbers(xs), i) == xs[i] {
      NumberAt(xs, i);
    }
  }

  // ---- Loading a section for reading.

  /** Attach a control-flow section.  The string table is not read, only its size
      is checked; the set tables are. */
  method LoadMapped(data: string, isText: string -> bool, ghost m: Mapped) returns (r: Option<Mapping>)
    ensures r.Some? ==> Accepted(r.value)
    ensures data == FlowBytes(m) && Writable(isText, m) && Attachable(m) ==> r.Some? && IsMappingOf(r.value, m)
  {
    hide StringsKey, SetPart, RegionBytes, PutU32, SetsWritable, RecordReads, TextFits, Sized, LocalsNamed, Attached;
    var rd := new Reader(data, isText);
    ghost var good := data == FlowBytes(m) && Writable(isText, m) && Attachable(m);
    RegionOfSection(m);
    ghost var body := StringBody(m.strings);
    ghost var k2 := SetPart(m.tables) + RegionBytes(m);
    ghost var k1 := StringsKey(m.strings) + k2;
    Regroup(PutU32(|m.strings|), StringsKey(m.strings), k2);
    var tableBytes := rd.ReadU32(|body|, body + k2);
    var tableStart := rd.p;
    assert good ==> rd.Rest() == body + k2 == PutU32(|m.strings|) + k1;
    var stringCount := rd.ReadU32(|m.strings|, k1);
    if !rd.ok || tableBytes < 4 || tableBytes > |data| - tableStart {
      return None;
    }
    var strings := data[tableStart + 4..tableStart + tableBytes];
    if good {
      StringBytes(data, tableStart, m.strings, k2);
    }
    rd.p := tableStart + tableBytes;
    var scopes, guards, locals := ReadSets(rd, stringCount, m.tables, RegionBytes(m));
    if !rd.ok {
      return None;
    }
    var region, rest := Attach(data[rd.p..], stringCount, m);
    if region.None? || rest != "" {
      return None;
    }
    r := Some(Mapping(region.value, strings, stringCount, Tables(scopes, map[], guards, map[], locals, map[])));
  }

  ghost predicate IsMappingOf(v: Mapping, m: Mapped) {
    && Attached(v.region, m) && v.strings == StringsKey(m.strings) && v.stringCount == |m.strings|
    && v.tables.scopes == m.tables.scopes && v.tables.guards == m.tables.guards && v.tables.locals == m.tables.locals
  }

  lemma StringBytes(data: string, start: nat, xs: seq<string>, tail: string)
    requires start <= |data| && data[start..] == StringBody(xs) + tail
    ensures start + |StringBody(xs)| <= |data| && |StringBody(xs)| >= 4
    ensures data[start + 4..start + |StringBody(xs)|] == StringsKey(xs) && data[start + |StringBody(xs)|..] == tail
  {
    hide PutU32, StringsKey;
    var n := |StringBody(xs)|;
    assert data[start..][4..n] == StringsKey(xs) && data[start..][n..] == tail;
    assert data[start + 4..start + n] == data[start..][4..n] && data[start + n..] == data[start..][n..];
  }

  // ---- What is seen of a saved section.

  ghost predicate SmallWords(m: Mapped) {
    && (forall i :: 0 <= i < |m.sortedIds| ==> m.sortedIds[i] < U32)
    && (forall i :: 0 <= i < |m.byCaller| ==> m.byCaller[i] < U32) && (forall i :: 0 <= i < |m.byCallee| ==> m.byCallee[i] < U32)
    && (forall i :: 0 <= i < |m.byCallerDisplay| ==> m.byCallerDisplay[i] < U32) && (forall i :: 0 <= i < |m.byCalleeDisplay| ==> m.byCalleeDisplay[i] < U32)
  }

  lemma StringsBack(v: Mapping, m: Mapped)
    requires Accepted(v) && IsMappingOf(v, m) && Attachable(m) && |StringsKey(m.strings)| < U32
    requires forall i :: 0 <= i < |m.strings| ==> |m.strings[i]| < U32
    ensures StringsSeen(v) == m.strings
  {
    hide StringsKey, MappedString, Attached, Attachable, Sized;
    forall i | 0 <= i < |m.strings| ensures Text(v, i) == m.strings[i] {
      StringBack(v.region, m, i);
    }
  }

  lemma RecordsBack(v: Mapping, m: Mapped)
    requires Accepted(v) && IsMappingOf(v, m) && AllReadable(m.strings, m.tables, m.records)
    requires forall i :: 0 <= i < |m.records| ==> Fits32(m.records[i]) && m.records[i].live
    ensures RecordsSeen(v) == m.records
  {
    hide StringsKey, FieldsOf, Fits32, RecordsKey, Numbers, OffsetsOf;
    forall i | 0 <= i < |m.records| ensures MappedRecord(v, i) == m.records[i] {
      FieldsBack(v.region, m.records, i);
      assert Readable(m.strings, m.tables, m.records[i]);
    }
  }

  /** What is seen of an attached save is what was saved. */
  lemma SeenIsSaved(v: Mapping, m: Mapped)
    requires Accepted(v) && IsMappingOf(v, m) && Attachable(m) && |StringsKey(m.strings)| < U32 && SmallWords(m)
    requires forall i :: 0 <= i < |m.strings| ==> |m.strings[i]| < U32
    requires AllReadable(m.strings, m.tables, m.records) && forall i :: 0 <= i < |m.records| ==> Fits32(m.records[i]) && m.records[i].live
    ensures Seen(v) == m.(tables := v.tables)
  {
    hide StringsKey, MappedRecord, StringsSeen, RecordsSeen, Fits32, Readable, Words, Numbers, Accepted, OffsetsOf, RecordsKey;
    StringsBack(v, m);
    RecordsBack(v, m);
    WordsBack(m.sortedIds);
    WordsBack(m.byCaller);
    WordsBack(m.byCallee);
    WordsBack(m.byCallerDisplay);
    WordsBack(m.byCalleeDisplay);
  }

  lemma SavedSmall(ix: ControlFlowIndex, m: Mapped, isText: string -> bool)
    requires ix.Valid() && Fits(ix, isText) && IsImage(m, ix.strings, ix.tables, ix.contexts)
    ensures Writable(isText, m) && Attachable(m) && |StringsKey(m.strings)| < U32 && SmallWords(m)
    ensures forall i :: 0 <= i < |m.strings| ==> |m.strings[i]| < U32
    ensures AllReadable(m.strings, m.tables, m.records) && forall i :: 0 <= i < |m.records| ==> Fits32(m.records[i]) && m.records[i].live
  {
    hide Entries, LiveWhere, AllListed, TablesOk, Grouped, Items, CO.TextLess, Order, StringsKey, PutU32, SetsWritable;
    SavedWritable(ix, m, isText);
    RecordsLive(m, ix.strings, ix.tables, ix.contexts);
    OffsetsLength(m.strings);
    OrderSize(m, ix.strings, ix.tables, ix.contexts, ByCaller);
    OrderSize(m, ix.strings, ix.tables, ix.contexts, ByCallee);
    OrderSize(m, ix.strings, ix.tables, ix.contexts, ByCallerDisplay);
    OrderSize(m, ix.strings, ix.tables, ix.contexts, ByCalleeDisplay);
    ImageOrders(m, ix.strings, ix.tables, ix.contexts, ByCaller);
    ImageOrders(m, ix.strings, ix.tables, ix.contexts, ByCallee);
    ImageOrders(m, ix.strings, ix.tables, ix.contexts, ByCallerDisplay);
    ImageOrders(m, ix.strings, ix.tables, ix.contexts, ByCalleeDisplay);
    forall i | 0 <= i < |m.records| ensures Fits32(m.records[i]) {
      assert RecordReads(SizesOf(m), m.records[i]);
    }
  }

  // ---- Both forms, over the bytes of a save.

  lemma SameImage(m: Mapped, strings: seq<string>, t: Tables, cs: seq<StoredContext>, t': Tables)
    requires IsImage(m, strings, t, cs) && t.scopes == t'.scopes && t.guards == t'.guards && t.locals == t'.locals
    ensures IsImage(m.(tables := t'), strings, t', cs)
  {
    hide Order, IdsSorted, Injective;
    forall i | 0 <= i < |cs| ensures Readable(strings, t', cs[i]) {
      SameReadable(strings, t, t', cs, i);
    }
  }

  lemma SameLookups(strings: seq<string>, t: Tables, t': Tables, cs: seq<StoredContext>, site: string, side: Side, name: string)
    requires AllReadable(strings, t, cs) && AllReadable(strings, t', cs) && t.scopes == t'.scopes && t.guards == t'.guards && t.locals == t'.locals
    ensures AtSite(strings, t', cs, site) == AtSite(strings, t, cs, site)
    ensures ByName(strings, t', cs, side, name) == ByName(strings, t, cs, side, name)
  {
    hide Find, Pick, Values, Readable;
    var a, b := Find(strings, site), Find(strings, name);
    if a.Some? {
      PickReadable(strings, t, cs, BySite, a.value);
      SameValues(strings, t, t', Pick(cs, BySite, a.value));
    }
    if b.Some? {
      PickReadable(strings, t, cs, UsrOf(side), b.value);
      PickReadable(strings, t, cs, DisplayOf(side), b.value);
      SameValues(strings, t, t', Named(cs, side, b.value));
    }
  }

  /** Save an index, emit the bytes, attach them, and ask both forms: they agree on
      every site, and on a name exactly if no empty bucket hides its display names. */
  method CompareSaved(ix: ControlFlowIndex, isText: string -> bool, site: string, side: Side, name: string)
    returns (siteA: seq<CallContext>, siteB: seq<CallContext>, nameA: seq<CallContext>, nameB: seq<CallContext>)
    requires ix.Valid() && Fits(ix, isText)
    ensures siteA == siteB == AtSite(ix.strings, ix.tables, ix.contexts, site)
    ensures multiset(nameB) == multiset(ByName(ix.strings, ix.tables, ix.contexts, side, name))
    ensures multiset(nameA) == multiset(nameB) <==>
            !(exists id :: 0 <= id < |ix.strings| && ix.strings[id] == name && Blocked(ix.lookup, side, id))
  {
    hide IsImage, ByName, AtSite, ControlFlowIndex.Valid, RT.Bucket, Writable, Attachable, FlowBytes, Fits, Accepted, SmallWords, StringsKey, Fits32, AllReadable, Seen;
    siteA := ResidentAtSite(ix, site);
    nameA := ResidentByName(ix, side, name);
    var m := Save(ix);
    SavedSmall(ix, m, isText);
    var v := LoadMapped(FlowBytes(m), isText, m);
    SeenIsSaved(v.value, m);
    ImageTables(m, ix.strings, ix.tables, ix.contexts);
    SameImage(m, ix.strings, ix.tables, ix.contexts, v.value.tables);
    siteB := ByteAtSite(v.value, site, ix.strings, v.value.tables, ix.contexts);
    nameB := ByteByName(v.value, side, name, ix.strings, v.value.tables, ix.contexts);
    ImageReadable(m, ix.strings, ix.tables, ix.contexts);
    ImageReadable(m.(tables := v.value.tables), ix.strings, v.value.tables, ix.contexts);
    SameLookups(ix.strings, ix.tables, v.value.tables, ix.contexts, site, side, name);
    assert |multiset(nameB)| == |nameB|;
  }

  lemma ImageReadable(m: Mapped, strings: seq<string>, t: Tables, cs: seq<StoredContext>)
    requires IsImage(m, strings, t, cs)
    ensures AllReadable(strings, t, cs)
  {
  }
}
