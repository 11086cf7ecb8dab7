/** The record region of a snapshot, attached without copying: how it is cut into
    arrays, and what a read at a position gives.  Any bytes may be attached; no
    read leaves its array. */
module MappedBytes {
  import opened GraphTypes
  import opened Interner
  import opened FlowTypes
  import opened Codec
  import opened SetTables
  import opened FlowIndex
  import opened MappedIndex
  import opened FlowSnapshot

  const RECORD_BYTES: nat := 38

  /** The attached arrays, each with exactly the bytes it needs. */
  datatype Region = Region(recordCount: nat, records: string, offsets: string, sortedIds: string, byCaller: string, byCallee: string,
                           byCallerDisplay: string, byCalleeDisplay: string)

  ghost predicate Sized(r: Region, stringCount: nat) {
    && |r.records| == RECORD_BYTES * r.recordCount && |r.offsets| == 4 * stringCount && |r.sortedIds| == 4 * stringCount
    && |r.byCaller| == 4 * r.recordCount && |r.byCallee| == 4 * r.recordCount
    && |r.byCallerDisplay| % 4 == 0 && |r.byCallerDisplay| <= 4 * r.recordCount
    && |r.byCalleeDisplay| % 4 == 0 && |r.byCalleeDisplay| <= 4 * r.recordCount
  }

  /** An array of `n` bytes at the cursor, if there are as many. */
  method TakeArray(s: string, n: nat, ghost x: string, ghost tail: string) returns (r: Option<string>, rest: string)
    ensures r.Some? <==> n <= |s|
    ensures r.Some? ==> |r.value| == n && s == r.value + rest
    ensures s == x + tail && n == |x| ==> r == Some(x) && rest == tail
  {
    if n > |s| {
      return None, s;
    }
    assert s == s[..n] + s[n..];
    assert s == x + tail && n == |x| ==> s[..n] == x && s[n..] == tail;
    return Some(s[..n]), s[n..];
  }

  method TakeU32(s: string, ghost x: nat, ghost tail: string) returns (r: Option<nat>, rest: string)
    ensures r.Some? <==> 4 <= |s|
    ensures s == PutU32(x) + tail && x < U32 ==> r == Some(x) && rest == tail
  {
    if |s| < 4 {
      return None, s;
    }
    if s == PutU32(x) + tail && x < U32 {
      U32Back(x, tail);
      assert s[4..] == tail;
    }
    return Some(U32Of(s)), s[4..];
  }

  /** What `Attach` expects to find. */
  ghost function RegionBytes(m: Mapped): string {
    (PutU32(|m.records|) + RecordsKey(m.records)) + (Numbers(OffsetsOf(m.strings)) + (Numbers(m.sortedIds) + (Numbers(m.byCaller) + (Numbers(m.byCallee)
    + ((PutU32(|m.byCallerDisplay|) + Numbers(m.byCallerDisplay)) + (PutU32(|m.byCalleeDisplay|) + Numbers(m.byCalleeDisplay)))))))
  }

  lemma {:induction false} NumbersConcat(a: seq<nat>, b: seq<nat>)
    ensures Numbers(a + b) == Numbers(a) + Numbers(b)
    decreases |a|
  {
    if a == [] {
      assert a + b == b;
    } else {
      hide PutU32;
      NumbersConcat(a[1..], b);
      assert (a + b)[1..] == a[1..] + b;
      Regroup(PutU32(a[0]), Numbers(a[1..]), Numbers(b));
    }
  }

  /** The region is the tail of what a save emits. */
  lemma RegionOfSection(m: Mapped)
    ensures FlowBytes(m) == PutU32(|StringBody(m.strings)|) + (StringBody(m.strings) + (SetPart(m.tables) + RegionBytes(m)))
  {
    hide PutU32, Numbers, RecordsKey, StringBody, SetPart, OffsetsOf;
    NumbersConcat(OffsetsOf(m.strings), m.sortedIds);
    NumbersConcat(m.byCaller, m.byCallee);
    var c := (PutU32(|m.byCallerDisplay|) + Numbers(m.byCallerDisplay)) + (PutU32(|m.byCalleeDisplay|) + Numbers(m.byCalleeDisplay));
    Regroup(Numbers(m.byCaller), Numbers(m.byCallee), c);
    Regroup(Numbers(OffsetsOf(m.strings)), Numbers(m.sortedIds), Numbers(m.byCaller) + (Numbers(m.byCallee) + c));
  }

  ghost predicate Attachable(m: Mapped) {
    && |m.records| < U32 && |OffsetsOf(m.strings)| == |m.sortedIds| == |m.strings| && |m.byCaller| == |m.byCallee| == |m.records|
    && |m.byCallerDisplay| <= |m.records| && |m.byCalleeDisplay| <= |m.records|
  }

  ghost predicate Attached(r: Region, m: Mapped) {
    && r.recordCount == |m.records| && r.records == RecordsKey(m.records) && r.offsets == Numbers(OffsetsOf(m.strings))
    && r.sortedIds == Numbers(m.sortedIds) && r.byCaller == Numbers(m.byCaller) && r.byCallee == Numbers(m.byCallee)
    && r.byCallerDisplay == Numbers(m.byCallerDisplay) && r.byCalleeDisplay == Numbers(m.byCalleeDisplay)
  }

  /** An array of `n` words. */
  method TakeWords(s: string, n: nat, ghost xs: seq<nat>, ghost tail: string) returns (r: Option<string>, rest: string)
    ensures r.Some? ==> |r.value| == 4 * n
    ensures s == Numbers(xs) + tail && n == |xs| ==> r == Some(Numbers(xs)) && rest == tail
  {
    hide Numbers;
    NumbersLength(xs);
    r, rest := TakeArray(s, 4 * n, Numbers(xs), tail);
  }

  /** The record count and the records. */
  method AttachRecords(data: string, ghost xs: seq<StoredContext>, ghost tail: string) returns (r: Option<(nat, string)>, rest: string)
    ensures r.Some? ==> |r.value.1| == RECORD_BYTES * r.value.0
    ensures data == (PutU32(|xs|) + RecordsKey(xs)) + tail && |xs| < U32 ==> r == Some((|xs|, RecordsKey(xs))) && rest == tail
  {
    hide RecordsKey, PutU32;
    Regroup(PutU32(|xs|), RecordsKey(xs), tail);
    RecordsLength(xs);
    var count, s := TakeU32(data, |xs|, RecordsKey(xs) + tail);
    rest := s;
    if count.None? {
      return None, rest;
    }
    var records;
    records, rest := TakeArray(s, RECORD_BYTES * count.value, RecordsKey(xs), tail);
    r := if records.Some? then Some((count.value, records.value)) else None;
  }

  /** Cut the region into its arrays.  Accepted means every array is there. */
  method Attach(data: string, stringCount: nat, ghost m: Mapped) returns (r: Option<Region>, rest: string)
    ensures r.Some? ==> Sized(r.value, stringCount)
    ensures data == RegionBytes(m) && Attachable(m) && stringCount == |m.strings| ==> r.Some? && Attached(r.value, m) && rest == ""
  {
    hide Numbers, RecordsKey, PutU32, OffsetsOf;
    ghost var d := PutU32(|m.byCalleeDisplay|) + Numbers(m.byCalleeDisplay);
    ghost var c := (PutU32(|m.byCallerDisplay|) + Numbers(m.byCallerDisplay)) + d;
    ghost var k3 := Numbers(m.byCallee) + c;
    ghost var k2 := Numbers(m.byCaller) + k3;
    ghost var k1 := Numbers(m.sortedIds) + k2;
    var records, s := AttachRecords(data, m.records, Numbers(OffsetsOf(m.strings)) + k1);
    if records.None? { return None, s; }
    var n := records.value.0;
    var offsets, sortedIds, byCaller, byCallee;
    offsets, s := TakeWords(s, stringCount, OffsetsOf(m.strings), k1);
    if offsets.None? { return None, s; }
    sortedIds, s := TakeWords(s, stringCount, m.sortedIds, k2);
    if sortedIds.None? { return None, s; }
    byCaller, s := TakeWords(s, n, m.byCaller, k3);
    if byCaller.None? { return None, s; }
    byCallee, s := TakeWords(s, n, m.byCallee, c);
    if byCallee.None? { return None, s; }
    var displays;
    displays, rest := AttachDisplays(s, n, m, d, c);
    if displays.None? { return None, rest; }
    r := Some(Region(n, records.value.1, offsets.value, sortedIds.value, byCaller.value, byCallee.value, displays.value.0, displays.value.1));
  }

  /** The two display arrays; neither can be longer than the records. */
  method AttachDisplays(s0: string, n: nat, ghost m: Mapped, ghost d: string, ghost c: string) returns (r: Option<(string, string)>, rest: string)
    requires d == PutU32(|m.byCalleeDisplay|) + Numbers(m.byCalleeDisplay)
    requires c == (PutU32(|m.byCallerDisplay|) + Numbers(m.byCallerDisplay)) + d
    ensures r.Some? ==> |r.value.0| % 4 == 0 && |r.value.0| <= 4 * n && |r.value.1| % 4 == 0 && |r.value.1| <= 4 * n
    ensures s0 == c && n < U32 && |m.byCallerDisplay| <= n && |m.byCalleeDisplay| <= n ==>
              r == Some((Numbers(m.byCallerDisplay), Numbers(m.byCalleeDisplay))) && rest == ""
  {
    hide Numbers, PutU32;
    NumbersLength(m.byCallerDisplay);
    NumbersLength(m.byCalleeDisplay);
    Regroup(PutU32(|m.byCallerDisplay|), Numbers(m.byCallerDisplay), d);
    assert Numbers(m.byCalleeDisplay) + "" == Numbers(m.byCalleeDisplay);
    var k, s := TakeU32(s0, |m.byCallerDisplay|, Numbers(m.byCallerDisplay) + d);
    if k.None? || k.value > n { return None, s; }
    var a, b;
    a, s := TakeArray(s, k.value * 4, Numbers(m.byCallerDisplay), d);
    if a.None? { return None, s; }
    k, s := TakeU32(s, |m.byCalleeDisplay|, Numbers(m.byCalleeDisplay));
    if k.None? || k.value > n { return None, s; }
    b, s := TakeArray(s, k.value * 4, Numbers(m.byCalleeDisplay), "");
    if b.None? { return None, s; }
    r, rest := Some((a.value, b.value)), s;
  }

  lemma {:induction false} RecordsLength(xs: seq<StoredContext>)
    ensures |RecordsKey(xs)| == RECORD_BYTES * |xs|
    decreases |xs|
  {
    if xs != [] {
      RecordsLength(xs[1..]);
      RecordLength(xs[0]);
    }
  }

  lemma RecordLength(x: StoredContext)
    ensures |RecordKey(x)| == RECORD_BYTES && |RecordFront(x)| == 20
  {
  }

  // ---- Reads.

  /** Word `i` of an array. */
  function WordAt(s: string, i: nat): nat
    requires 4 * i + 4 <= |s|
  {
    U32Of(s[4 * i..])
  }

  /** A word of record `pos`, by its offset in the record. */
  function FieldOf(r: Region, pos: nat, field: nat): nat
    requires |r.records| == RECORD_BYTES * r.recordCount && pos < r.recordCount && field + 4 <= RECORD_BYTES
  {
    assert RECORD_BYTES * pos + RECORD_BYTES <= RECORD_BYTES * r.recordCount;
    U32Of(r.records[RECORD_BYTES * pos + field..])
  }

  /** The string of an id: empty if the id, the offset or the length is bad. */
  function MappedString(r: Region, strings: string, stringCount: nat, id: nat): string
    requires Sized(r, stringCount)
  {
    if id >= stringCount then ""
    else
      var off := WordAt(r.offsets, id);
      if off > |strings| || |strings| - off < 4 then ""
      else
        var len := U32Of(strings[off..]);
        if |strings| - off - 4 < len then "" else strings[off + 4..off + 4 + len]
  }

  lemma {:induction false} NumberAt(xs: seq<nat>, i: nat)
    requires i < |xs| && xs[i] < U32
    ensures |Numbers(xs)| == 4 * |xs| && WordAt(Numbers(xs), i) == xs[i]
    decreases |xs|
  {
    NumbersLength(xs);
    if i == 0 {
      U32Back(xs[0], Numbers(xs[1..]));
      assert Numbers(xs)[0..] == Numbers(xs);
    } else {
      hide PutU32, U32Of;
      NumberAt(xs[1..], i - 1);
      assert Numbers(xs)[4..] == Numbers(xs[1..]);
      assert Numbers(xs)[4 * i..] == Numbers(xs)[4..][4 * (i - 1)..];
    }
  }

  /** Reading a string in place gives the string. */
  lemma StringBack(r: Region, m: Mapped, id: nat)
    requires Attached(r, m) && Sized(r, |m.strings|) && Attachable(m) && id < |m.strings| && |m.strings[id]| < U32 && |StringsKey(m.strings)| < U32
    ensures MappedString(r, StringsKey(m.strings), |m.strings|, id) == m.strings[id]
  {
    hide Numbers, RecordsKey, PutU32, U32Of, StringsKey;
    OffsetFinds(m.strings, id);
    var off := OffsetsOf(m.strings)[id];
    NumberAt(OffsetsOf(m.strings), id);
    var s, x, tail := StringsKey(m.strings), m.strings[id], StringsKey(m.strings[id + 1..]);
    assert s[off..] == PutLenStr(x) + tail;
    Regroup(PutU32(|x|), x, tail);
    U32Back(|x|, x + tail);
    assert s[off + 4..] == s[off..][4..] == x + tail;
    assert s[off + 4..off + 4 + |x|] == s[off + 4..][..|x|];
  }

  lemma FrontRecord(xs: seq<StoredContext>)
    requires xs != []
    ensures RecordsKey(xs) == RecordKey(xs[0]) + RecordsKey(xs[1..])
  {
    hide RecordKey;
  }

  lemma NoRecords()
    ensures RecordsKey([]) == ""
  {
  }

  lemma {:induction false} RecordsConcat(a: seq<StoredContext>, b: seq<StoredContext>)
    ensures RecordsKey(a + b) == RecordsKey(a) + RecordsKey(b)
    decreases |a|
  {
    hide RecordKey, RecordsKey;
    if a == [] {
      NoRecords();
      assert a + b == b;
    } else {
      RecordsConcat(a[1..], b);
      assert (a + b)[1..] == a[1..] + b;
      FrontRecord(a);
      FrontRecord(a + b);
      Regroup(RecordKey(a[0]), RecordsKey(a[1..]), RecordsKey(b));
    }
  }

  lemma FirstRecord(xs: seq<StoredContext>, i: nat)
    requires i < |xs|
    ensures RecordsKey(xs[i..]) == RecordKey(xs[i]) + RecordsKey(xs[i + 1..])
  {
    hide RecordKey, RecordsKey;
    FrontRecord(xs[i..]);
    assert xs[i..][1..] == xs[i + 1..];
  }

  lemma RecordAtBytes(xs: seq<StoredContext>, i: nat)
    requires i < |xs|
    ensures RECORD_BYTES * i <= |RecordsKey(xs)|
    ensures RecordsKey(xs)[RECORD_BYTES * i..] == RecordKey(xs[i]) + RecordsKey(xs[i + 1..])
  {
    hide RecordKey, RecordsKey;
    RecordsLength(xs[..i]);
    RecordsConcat(xs[..i], xs[i..]);
    Halves(xs, i);
    FirstRecord(xs, i);
    DropFront(RecordsKey(xs[..i]), RecordsKey(xs[i..]));
  }
}
