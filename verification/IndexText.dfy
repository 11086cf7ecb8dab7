/** Index text: file paths are raw bytes, but an index holds text.  Bytes that
    are not UTF-8 become code points of a reserved range, and so does a literal
    code point of that range, byte by byte.  Nothing is lost. */
module IndexText {
  import opened Interner

  type Byte = b: int | 0 <= b < 256

  /** Escaped byte `b` is the code point ESCAPE_BASE + b, for b from 0x80. */
  const ESCAPE_BASE: nat := 0x10FF00

  // ---- Strict UTF-8, by section 4 of RFC 3629.

  predicate IsScalar(cp: nat) {
    cp < 0xD800 || 0xE000 <= cp < 0x110000
  }

  function Encode(cp: nat): seq<Byte>
    requires IsScalar(cp)
  {
    if cp < 0x80 then [cp]
    else if cp < 0x800 then [0xC0 + cp / 64, 0x80 + cp % 64]
    else if cp < 0x10000 then [0xE0 + cp / 64 / 64, 0x80 + cp / 64 % 64, 0x80 + cp % 64]
    else [0xF0 + cp / 64 / 64 / 64, 0x80 + cp / 64 / 64 % 64, 0x80 + cp / 64 % 64, 0x80 + cp % 64]
  }

  /** The six payload bits of a continuation byte. */
  function Tail(b: Byte): int {
    b as int - 0x80
  }

  predicate IsTail(b: Byte) {
    0x80 <= b <= 0xBF
  }

  /** The code point a whole slice encodes, if it is exactly one: no overlong
      forms, no surrogates, nothing above U+10FFFF. */
  function DecodeOne(s: seq<Byte>): Option<nat> {
    if |s| == 1 && s[0] < 0x80 then Some(s[0] as int)
    else if |s| == 2 && 0xC2 <= s[0] <= 0xDF && IsTail(s[1]) then
      Some(64 * (s[0] as int - 0xC0) + Tail(s[1]))
    else if |s| == 3 && 0xE0 <= s[0] <= 0xEF && IsTail(s[1]) && IsTail(s[2])
      && (s[0] == 0xE0 ==> s[1] >= 0xA0) && (s[0] == 0xED ==> s[1] <= 0x9F) then
      Some(64 * (64 * (s[0] as int - 0xE0) + Tail(s[1])) + Tail(s[2]))
    else if |s| == 4 && 0xF0 <= s[0] <= 0xF4 && IsTail(s[1]) && IsTail(s[2]) && IsTail(s[3])
      && (s[0] == 0xF0 ==> s[1] >= 0x90) && (s[0] == 0xF4 ==> s[1] <= 0x8F) then
      Some(64 * (64 * (64 * (s[0] as int - 0xF0) + Tail(s[1])) + Tail(s[2])) + Tail(s[3]))
    else None
  }

  lemma Payload(x: nat, t: nat)
    requires t < 64
    ensures (64 * x + t) / 64 == x && (64 * x + t) % 64 == t
  {
  }

  /** A slice that decodes is the encoding of its code point. */
  lemma EncodeDecode(s: seq<Byte>)
    requires DecodeOne(s).Some?
    ensures IsScalar(DecodeOne(s).value) && Encode(DecodeOne(s).value) == s
  {
    if |s| == 2 {
      Payload(s[0] as int - 0xC0, Tail(s[1]));
    } else if |s| == 3 {
      var x := 64 * (s[0] as int - 0xE0) + Tail(s[1]);
      Payload(s[0] as int - 0xE0, Tail(s[1]));
      Payload(x, Tail(s[2]));
    } else if |s| == 4 {
      var x := 64 * (s[0] as int - 0xF0) + Tail(s[1]);
      var y := 64 * x + Tail(s[2]);
      Payload(s[0] as int - 0xF0, Tail(s[1]));
      Payload(x, Tail(s[2]));
      Payload(y, Tail(s[3]));
    }
  }

  /** Decoding is the inverse, and no shorter slice decodes. */
  lemma DecodeEncode(cp: nat)
    requires IsScalar(cp)
    ensures 1 <= |Encode(cp)| <= 4 && DecodeOne(Encode(cp)) == Some(cp)
    ensures forall n :: 0 <= n < |Encode(cp)| ==> DecodeOne(Encode(cp)[..n]) == None
  {
  }

  // ---- The two directions.

  predicate IsEscape(cp: nat) {
    ESCAPE_BASE + 0x80 <= cp <= ESCAPE_BASE + 0xFF
  }

  ghost predicate AllScalar(text: seq<nat>) {
    forall i :: 0 <= i < |text| ==> IsScalar(text[i])
  }

  /** The raw bytes of one code point of index text. */
  function Raw(cp: nat): seq<Byte>
    requires IsScalar(cp)
  {
    if IsEscape(cp) then [cp - ESCAPE_BASE] else Encode(cp)
  }

  /** The raw bytes index text stands for. */
  ghost function Meaning(text: seq<nat>): seq<Byte>
    requires AllScalar(text)
  {
    if text == [] then [] else Meaning(text[..|text| - 1]) + Raw(text[|text| - 1])
  }

  lemma MeaningSnoc(text: seq<nat>, cp: nat)
    requires AllScalar(text) && IsScalar(cp)
    ensures AllScalar(text + [cp]) && Meaning(text + [cp]) == Meaning(text) + Raw(cp)
  {
    assert (text + [cp])[..|text|] == text;
  }

  method FromIndexText(text: seq<nat>) returns (raw: seq<Byte>)
    requires AllScalar(text)
    ensures raw == Meaning(text)
  {
    hide Encode;
    raw := [];
    for i := 0 to |text|
      invariant raw == Meaning(text[..i])
    {
      assert text[..i + 1] == text[..i] + [text[i]];
      MeaningSnoc(text[..i], text[i]);
      if IsEscape(text[i]) {
        raw := raw + [text[i] - ESCAPE_BASE];
      } else {
        raw := raw + Encode(text[i]);
      }
    }
    assert text[..|text|] == text;
  }

  // ---- What is escaped.

  /** A code point outside the reserved range starts at `o`. */
  ghost predicate OrdinaryAt(raw: seq<Byte>, o: nat) {
    exists n: nat :: OrdinarySlice(raw, o, n)
  }

  predicate OrdinarySlice(raw: seq<Byte>, o: nat, n: nat) {
    1 <= n && o + n <= |raw| && DecodeOne(raw[o..o + n]).Some? && !IsEscape(DecodeOne(raw[o..o + n]).value)
  }

  ghost predicate NoneOrdinary(raw: seq<Byte>, first: nat, last: nat) {
    forall o :: first <= o < last ==> !OrdinaryAt(raw, o)
  }

  /** Entry `k` of the text is an escape exactly if no ordinary code point starts
      where its bytes are. */
  ghost predicate RightAt(raw: seq<Byte>, text: seq<nat>, k: nat)
    requires AllScalar(text) && k < |text|
  {
    IsEscape(text[k]) <==> !OrdinaryAt(raw, |Meaning(text[..k])|)
  }

  /** Exactly what is not ordinary is escaped. */
  ghost predicate Economical(raw: seq<Byte>, text: seq<nat>) {
    AllScalar(text) && forall k :: 0 <= k < |text| ==> RightAt(raw, text, k)
  }

  lemma EconomicalSnoc(raw: seq<Byte>, text: seq<nat>, cp: nat)
    requires Economical(raw, text) && IsScalar(cp) && (IsEscape(cp) <==> !OrdinaryAt(raw, |Meaning(text)|))
    ensures Economical(raw, text + [cp])
  {
    hide OrdinaryAt, Meaning;
    var longer := text + [cp];
    forall k | 0 <= k < |longer| ensures RightAt(raw, longer, k) {
      assert longer[..k] == if k < |text| then text[..k] else text;
      if k < |text| {
        assert RightAt(raw, text, k);
      }
    }
  }

  /** The first byte of a code point tells its length, and no code point starts
      at one of its other bytes. */
  lemma OneLength(s: seq<Byte>, t: seq<Byte>)
    requires DecodeOne(s).Some? && DecodeOne(t).Some? && s[0] == t[0]
    ensures |s| == |t|
  {
  }

  lemma TailStartsNothing(b: Byte, s: seq<Byte>)
    requires IsTail(b) && s != [] && s[0] == b
    ensures DecodeOne(s).None?
  {
  }

  lemma TailsAfterFirst(s: seq<Byte>, j: nat)
    requires DecodeOne(s).Some? && 0 < j < |s|
    ensures IsTail(s[j])
  {
  }

  /** Nothing ordinary starts in a reserved code point. */
  lemma ReservedHere(raw: seq<Byte>, i: nat, n: nat, o: nat)
    requires 1 <= n && i + n <= |raw| && DecodeOne(raw[i..i + n]).Some? && IsEscape(DecodeOne(raw[i..i + n]).value) && i <= o < i + n
    ensures !OrdinaryAt(raw, o)
  {
    hide DecodeOne;
    forall m: nat | OrdinarySlice(raw, o, m) ensures false {
      if o == i {
        OneLength(raw[i..i + n], raw[o..o + m]);
      } else {
        TailsAfterFirst(raw[i..i + n], o - i);
        TailStartsNothing(raw[o], raw[o..o + m]);
      }
    }
  }

  lemma IllFormedHere(raw: seq<Byte>, i: nat)
    requires i < |raw| && forall k :: 0 <= k <= 4 ==> Silent(raw, i, k)
    ensures !OrdinaryAt(raw, i)
  {
    forall m: nat ensures !OrdinarySlice(raw, i, m) {
      assert m <= 4 ==> Silent(raw, i, m);
    }
  }

  /** Only one text stands for the bytes and escapes no more than it must. */
  lemma {:induction false} OnlyText(raw: seq<Byte>, a: seq<nat>, b: seq<nat>, k: nat)
    requires Economical(raw, a) && Economical(raw, b) && Meaning(a) == raw && Meaning(b) == raw && k <= |a| && k <= |b|
    ensures a[..k] == b[..k]
  {
    if k > 0 {
      hide OrdinaryAt, Meaning, Encode, DecodeOne;
      OnlyText(raw, a, b, k - 1);
      SameNext(raw, a, b, k - 1);
      assert a[..k] == a[..k - 1] + [a[k - 1]] && b[..k] == b[..k - 1] + [b[k - 1]];
    }
  }

  lemma {:induction false} MeaningPrefix(text: seq<nat>, k: nat)
    requires AllScalar(text) && k <= |text|
    ensures Meaning(text[..k]) <= Meaning(text)
    decreases |text| - k
  {
    if k == |text| {
      assert text[..k] == text;
    } else {
      hide Raw;
      MeaningSnoc(text[..k], text[k]);
      assert text[..k + 1] == text[..k] + [text[k]];
      MeaningPrefix(text, k + 1);
    }
  }

  lemma BytesAt(raw: seq<Byte>, text: seq<nat>, k: nat)
    requires AllScalar(text) && Meaning(text) == raw && k < |text|
    ensures var o := |Meaning(text[..k])|; o + |Raw(text[k])| <= |raw| && raw[o..o + |Raw(text[k])|] == Raw(text[k])
  {
    hide Meaning, Raw;
    MeaningSnoc(text[..k], text[k]);
    assert text[..k + 1] == text[..k] + [text[k]];
    MeaningPrefix(text, k + 1);
    var o, x := Meaning(text[..k]), Raw(text[k]);
    assert raw[..|o + x|] == o + x;
  }

  lemma SameNext(raw: seq<Byte>, a: seq<nat>, b: seq<nat>, k: nat)
    requires Economical(raw, a) && Economical(raw, b) && Meaning(a) == raw && Meaning(b) == raw && k < |a| && k < |b| && a[..k] == b[..k]
    ensures a[k] == b[k]
  {
    hide OrdinaryAt, Meaning, Encode, DecodeOne;
    assert RightAt(raw, a, k) && RightAt(raw, b, k);
    BytesAt(raw, a, k);
    BytesAt(raw, b, k);
    var o := |Meaning(a[..k])|;
    if IsEscape(a[k]) {
      assert raw[o..o + 1] == [a[k] - ESCAPE_BASE] == [b[k] - ESCAPE_BASE];
    } else {
      DecodeEncode(a[k]);
      DecodeEncode(b[k]);
      assert Encode(a[k])[0] == raw[o] == Encode(b[k])[0];
      OneLength(Encode(a[k]), Encode(b[k]));
    }
  }

  /** The text is determined. */
  lemma EconomicalUnique(raw: seq<Byte>, a: seq<nat>, b: seq<nat>)
    requires Economical(raw, a) && Economical(raw, b) && Meaning(a) == raw && Meaning(b) == raw
    ensures a == b
  {
    hide Encode, Meaning, OrdinaryAt;
    var k := if |a| < |b| then |a| else |b|;
    OnlyText(raw, a, b, k);
    if k == |a| {
      NoSlack(raw, a, b, k);
      assert a[..k] == a && b[..k] == b;
    } else {
      NoSlack(raw, b, a, k);
    }
  }

  lemma NoSlack(raw: seq<Byte>, a: seq<nat>, b: seq<nat>, k: nat)
    requires AllScalar(a) && AllScalar(b) && Meaning(a) == raw && Meaning(b) == raw && k <= |a| && k <= |b| && a[..k] == b[..k] && k == |a|
    ensures |b| == k
  {
    hide Meaning, Encode;
    assert a[..k] == a;
    if k < |b| {
      BytesAt(raw, b, k);
      assert !IsEscape(b[k]) ==> |Encode(b[k])| >= 1 by { DecodeEncodeLength(b[k]); }
    }
  }

  lemma DecodeEncodeLength(cp: nat)
    ensures IsScalar(cp) ==> |Encode(cp)| >= 1
  {
  }

  /** Escape each byte of a slice. */
  method EscapeBytes(out: seq<nat>, bytes: seq<Byte>, ghost raw: seq<Byte>) returns (r: seq<nat>)
    requires AllScalar(out) && forall i :: 0 <= i < |bytes| ==> bytes[i] >= 0x80
    requires Economical(raw, out) && NoneOrdinary(raw, |Meaning(out)|, |Meaning(out)| + |bytes|)
    ensures AllScalar(r) && Meaning(r) == Meaning(out) + bytes && Economical(raw, r)
  {
    hide Encode, Meaning, OrdinaryAt, Economical;
    r := out;
    for i := 0 to |bytes|
      invariant AllScalar(r) && Meaning(r) == Meaning(out) + bytes[..i] && Economical(raw, r)
    {
      EconomicalSnoc(raw, r, ESCAPE_BASE + bytes[i]);
      MeaningSnoc(r, ESCAPE_BASE + bytes[i]);
      assert bytes[..i + 1] == bytes[..i] + [bytes[i]];
      r := r + [ESCAPE_BASE + bytes[i]];
    }
    assert bytes[..|bytes|] == bytes;
  }

  lemma NotAscii(s: seq<Byte>, cp: nat)
    requires DecodeOne(s) == Some(cp) && IsEscape(cp)
    ensures forall i :: 0 <= i < |s| ==> s[i] >= 0x80
  {
  }

  /** No code point of `k` bytes starts at `i`. */
  ghost predicate Silent(raw: seq<Byte>, i: nat, k: nat) {
    i + k <= |raw| ==> DecodeOne(raw[i..i + k]) == None
  }

  /** The code point that starts at `i`, with its length: the shortest slice that
      decodes. */
  method NextCodePoint(raw: seq<Byte>, i: nat) returns (n: nat, cp: Option<nat>)
    requires i < |raw|
    ensures cp.Some? ==> 1 <= n <= 4 && i + n <= |raw| && DecodeOne(raw[i..i + n]) == cp
    ensures cp.Some? ==> forall k :: 0 <= k < n ==> Silent(raw, i, k)
    ensures cp.None? ==> raw[i] >= 0x80 && forall k :: 0 <= k <= 4 ==> Silent(raw, i, k)
  {
    hide Encode;
    n, cp := 1, None;
    while n <= 4
      invariant 1 <= n <= 5 && cp == None
      invariant forall k :: 0 <= k < n ==> Silent(raw, i, k)
      invariant n > 1 ==> raw[i] >= 0x80
    {
      if i + n <= |raw| {
        cp := DecodeOne(raw[i..i + n]);
        if cp.Some? {
          return;
        }
      }
      n := n + 1;
    }
  }

  /** Convert raw bytes.  The text stands for exactly those bytes; text that is
      ordinary UTF-8 comes out unchanged (`plain` names it). */
  method ToIndexText(raw: seq<Byte>, ghost plain: seq<nat>) returns (text: seq<nat>)
    ensures AllScalar(text) && Meaning(text) == raw && Economical(raw, text)
    ensures AllScalar(plain) && (forall i :: 0 <= i < |plain| ==> plain[i] < ESCAPE_BASE + 0x80) && raw == Utf8(plain) ==> text == plain
  {
    hide Encode, Meaning, DecodeOne, Utf8, OrdinaryAt, Economical;
    text := [];
    assert Economical(raw, []) by { NothingEscaped(raw); }
    ghost var ordinary := AllScalar(plain) && (forall i :: 0 <= i < |plain| ==> plain[i] < ESCAPE_BASE + 0x80) && raw == Utf8(plain);
    var i := 0;
    NoText(plain);
    while i < |raw|
      invariant 0 <= i <= |raw| && AllScalar(text) && Meaning(text) == raw[..i] && Economical(raw, text)
      invariant ordinary ==> |text| <= |plain| && text == plain[..|text|] && raw[i..] == Utf8(plain[|text|..])
    {
      var n, cp := NextCodePoint(raw, i);
      if cp.Some? {
        EncodeDecode(raw[i..i + n]);
      }
      if ordinary {
        NextPlain(raw, i, plain, |text|, n, cp);
      }
      if cp.Some? {
        assert raw[..i + n] == raw[..i] + raw[i..i + n];
        assert raw[i + n..] == raw[i..][n..];
        if cp.value < ESCAPE_BASE + 0x80 {
          OrdinaryHere(raw, i, n, cp.value);
          EconomicalSnoc(raw, text, cp.value);
          MeaningSnoc(text, cp.value);
          text := text + [cp.value];
        } else {
          Beyond(raw[i..i + n], cp.value);
          NotAscii(raw[i..i + n], cp.value);
          forall o | i <= o < i + n ensures !OrdinaryAt(raw, o) {
            ReservedHere(raw, i, n, o);
          }
          text := EscapeBytes(text, raw[i..i + n], raw);
        }
        i := i + n;
      } else {
        assert raw[..i + 1] == raw[..i] + raw[i..i + 1];
        IllFormedHere(raw, i);
        text := EscapeBytes(text, [raw[i]], raw);
        assert [raw[i]] == raw[i..i + 1];
        i := i + 1;
      }
    }
    assert raw[..|raw|] == raw;
    if ordinary {
      NothingLeft(plain[|text|..]);
    }
  }

  lemma NothingEscaped(raw: seq<Byte>)
    ensures Economical(raw, [])
  {
  }

  lemma OrdinaryHere(raw: seq<Byte>, i: nat, n: nat, cp: nat)
    requires 1 <= n && i + n <= |raw| && DecodeOne(raw[i..i + n]) == Some(cp) && cp < ESCAPE_BASE + 0x80
    ensures OrdinaryAt(raw, i) && !IsEscape(cp)
  {
    assert OrdinarySlice(raw, i, n);
  }

  lemma Beyond(s: seq<Byte>, cp: nat)
    requires DecodeOne(s) == Some(cp) && cp >= ESCAPE_BASE + 0x80
    ensures IsEscape(cp)
  {
  }

  // ---- Ordinary text.

  ghost function Utf8(text: seq<nat>): seq<Byte>
    requires AllScalar(text)
  {
    if text == [] then [] else Encode(text[0]) + Utf8(text[1..])
  }

  lemma NoText(plain: seq<nat>)
    ensures Meaning([]) == [] && plain[0..] == plain
  {
  }

  lemma NothingLeft(rest: seq<nat>)
    requires AllScalar(rest) && Utf8(rest) == []
    ensures rest == []
  {
    if rest != [] {
      DecodeEncode(rest[0]);
    }
  }

  /** In ordinary text the next slice that decodes is the next code point. */
  lemma NextPlain(raw: seq<Byte>, i: nat, plain: seq<nat>, k: nat, n: nat, cp: Option<nat>)
    requires i < |raw| && k <= |plain| && AllScalar(plain) && raw[i..] == Utf8(plain[k..])
    requires forall j :: 0 <= j < |plain| ==> plain[j] < ESCAPE_BASE + 0x80
    requires cp.Some? ==> 1 <= n <= 4 && i + n <= |raw| && DecodeOne(raw[i..i + n]) == cp && forall m :: 0 <= m < n ==> Silent(raw, i, m)
    requires cp.None? ==> forall m :: 0 <= m <= 4 ==> Silent(raw, i, m)
    ensures k < |plain| && cp == Some(plain[k]) && cp.value < ESCAPE_BASE + 0x80 && raw[i..][n..] == Utf8(plain[k + 1..])
  {
    hide DecodeOne, Encode;
    var rest := plain[k..];
    assert rest != [] by { if rest == [] { EmptyUtf8(); } }
    var e := Encode(rest[0]);
    DecodeEncode(rest[0]);
    assert raw[i..] == e + Utf8(rest[1..]);
    assert rest[1..] == plain[k + 1..];
    assert raw[i..i + |e|] == e;
    assert !Silent(raw, i, |e|);
    if cp.Some? {
      if n < |e| {
        ShorterSilent(raw, i, rest[0], n);
      }
    }
  }

  /** No slice shorter than the code point that is there decodes. */
  lemma ShorterSilent(raw: seq<Byte>, i: nat, cp: nat, n: nat)
    requires IsScalar(cp) && n < |Encode(cp)| && i + |Encode(cp)| <= |raw| && raw[i..i + |Encode(cp)|] == Encode(cp)
    ensures DecodeOne(raw[i..i + n]) == None
  {
    hide DecodeOne, Encode;
    DecodeEncode(cp);
    assert raw[i..i + n] == Encode(cp)[..n];
  }

  lemma EmptyUtf8()
    ensures Utf8([]) == []
  {
  }

  /** There and back again. */
  method RoundTrip(raw: seq<Byte>) returns (again: seq<Byte>)
    ensures again == raw
  {
    var text := ToIndexText(raw, []);
    again := FromIndexText(text);
  }
}
