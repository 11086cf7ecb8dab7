/** The byte encoding shared by set keys and snapshot sections: little-endian
    integers, one-byte flags and length-prefixed strings.  A byte is a char; a
    value can be told apart from whatever follows it. */
module Codec {
  import opened FlowTypes

  const U32: nat := 0x1_0000_0000

  function Digit(n: nat): char {
    (n % 256) as char
  }

  /** A conversion to 32 bits drops the higher digits. */
  function PutU32(n: nat): (r: string)
    ensures |r| == 4
  {
    [Digit(n), Digit(n / 256), Digit(n / 256 / 256), Digit(n / 256 / 256 / 256)]
  }

  function PutLenStr(s: string): string {
    PutU32(|s|) + s
  }

  function PutFlag(b: bool): (r: string)
    ensures |r| == 1
  {
    if b then [1 as char] else [0 as char]
  }

  lemma U32Unique(a: nat, b: nat)
    requires a < U32 && b < U32 && PutU32(a) == PutU32(b)
    ensures a == b
  {
    U32Digits(a);
    U32Digits(b);
    assert PutU32(a)[0] == PutU32(b)[0] && PutU32(a)[1] == PutU32(b)[1] && PutU32(a)[2] == PutU32(b)[2] && PutU32(a)[3] == PutU32(b)[3];
  }

  /** The digits add up. */
  lemma U32Digits(a: nat)
    requires a < U32
    ensures a == Digit(a) as int + 256 * (Digit(a / 256) as int + 256 * (Digit(a / 256 / 256) as int + 256 * (Digit(a / 256 / 256 / 256) as int)))
  {
    var b := a / 256;
    var c := b / 256;
    var d := c / 256;
    assert d < 256;
  }

  // ---- Each encoding can be told apart from what follows.

  lemma SplitFront(a: string, b: string, r: string, s: string)
    requires a + r == b + s && |a| == |b|
    ensures a == b && r == s
  {
    assert (a + r)[..|a|] == a && (b + s)[..|b|] == b;
    assert (a + r)[|a|..] == r && (b + s)[|b|..] == s;
  }

  lemma U32Apart(a: nat, b: nat, r: string, s: string)
    requires a < U32 && b < U32 && PutU32(a) + r == PutU32(b) + s
    ensures a == b && r == s
  {
    hide PutU32;
    SplitFront(PutU32(a), PutU32(b), r, s);
    U32Unique(a, b);
  }

  lemma FlagApart(a: bool, b: bool, r: string, s: string)
    requires PutFlag(a) + r == PutFlag(b) + s
    ensures a == b && r == s
  {
    SplitFront(PutFlag(a), PutFlag(b), r, s);
    assert PutFlag(a)[0] == PutFlag(b)[0];
  }

  lemma StrApart(a: string, b: string, r: string, s: string)
    requires |a| < U32 && |b| < U32 && PutLenStr(a) + r == PutLenStr(b) + s
    ensures a == b && r == s
  {
    hide PutU32;
    assert PutLenStr(a) + r == PutU32(|a|) + (a + r) && PutLenStr(b) + s == PutU32(|b|) + (b + s);
    U32Apart(|a|, |b|, a + r, b + s);
    SplitFront(a, b, r, s);
  }

  // ---- Reading back.

  function ByteOf(c: char): nat {
    c as int % 256
  }

  function U32Of(s: string): (n: nat)
    requires |s| >= 4
    ensures n < U32
  {
    ByteOf(s[0]) + 256 * (ByteOf(s[1]) + 256 * (ByteOf(s[2]) + 256 * ByteOf(s[3])))
  }

  lemma U32Back(n: nat, tail: string)
    requires n < U32
    ensures U32Of(PutU32(n) + tail) == n
  {
    var s := PutU32(n) + tail;
    assert s[0] == Digit(n) && s[1] == Digit(n / 256) && s[2] == Digit(n / 256 / 256) && s[3] == Digit(n / 256 / 256 / 256);
    U32Digits(n);
  }

  /** A reader with a cursor and a sticky failure flag.  It takes any bytes. */
  class Reader {
    const data: string
    const isText: string -> bool
    var p: nat
    var ok: bool

    constructor (bytes: string, text: string -> bool)
      ensures Valid() && ok && p == 0 && data == bytes && isText == text && Rest() == bytes
    {
      data, isText, p, ok := bytes, text, 0, true;
    }

    /** The cursor never passes the end. */
    ghost predicate Valid()
      reads this
    {
      p <= |data|
    }

    ghost function Rest(): string
      reads this
      requires Valid()
    {
      data[p..]
    }

    /** Not failed, and about to read `x`. */
    ghost predicate Sees(x: string, tail: string)
      reads this
      requires Valid()
    {
      ok && Rest() == x + tail
    }

    method Need(n: nat) returns (enough: bool)
      requires Valid()
      modifies this`ok
      ensures enough == ok && ok == (old(ok) && n <= |data| - p)
    {
      if !ok || n > |data| - p {
        ok := false;
        return false;
      }
      return true;
    }

    method ReadU8(ghost x: string, ghost tail: string) returns (v: nat)
      requires Valid()
      modifies this`p, this`ok
      ensures Valid() && p >= old(p) && (ok ==> old(ok) && p == old(p) + 1) && v < 256
      ensures !ok ==> v == 0 && p == old(p)
      ensures old(Sees(x, tail)) && |x| == 1 ==> ok && v == ByteOf(x[0]) && Rest() == tail
    {
      var enough := Need(1);
      if !enough {
        return 0;
      }
      v := ByteOf(data[p]);
      assert old(Sees(x, tail)) && |x| == 1 ==> data[p] == (x + tail)[0] && data[p..][1..] == (x + tail)[1..];
      p := p + 1;
    }

    method Flag(ghost b: bool, ghost tail: string) returns (v: bool)
      requires Valid()
      modifies this`p, this`ok
      ensures Valid() && p >= old(p) && (ok ==> old(ok))
      ensures old(Sees(PutFlag(b), tail)) ==> ok && v == b && Rest() == tail
    {
      var n := ReadU8(PutFlag(b), tail);
      v := n != 0;
    }

    method ReadU32(ghost x: nat, ghost tail: string) returns (v: nat)
      requires Valid()
      modifies this`p, this`ok
      ensures Valid() && p >= old(p) && (ok ==> old(ok) && p == old(p) + 4) && v < U32
      ensures !ok ==> v == 0 && p == old(p)
      ensures old(Sees(PutU32(x), tail)) && x < U32 ==> ok && v == x && Rest() == tail
    {
      hide PutU32, U32Of;
      var enough := Need(4);
      if !enough {
        return 0;
      }
      v := U32Of(data[p..]);
      if old(Sees(PutU32(x), tail)) && x < U32 {
        U32Back(x, tail);
        assert (PutU32(x) + tail)[4..] == tail;
      }
      assert data[p..][4..] == data[p + 4..];
      p := p + 4;
    }

    method Bytes(n: nat, ghost x: string, ghost tail: string) returns (s: string)
      requires Valid()
      modifies this`p, this`ok
      ensures Valid() && p >= old(p) && (ok ==> old(ok) && p == old(p) + n && |s| == n)
      ensures !ok ==> s == "" && p == old(p)
      ensures old(Sees(x, tail)) && n == |x| ==> ok && s == x && Rest() == tail
    {
      var enough := Need(n);
      if !enough {
        return "";
      }
      s := data[p..p + n];
      assert data[p..][..n] == s && data[p..][n..] == data[p + n..];
      assert (x + tail)[..|x|] == x && (x + tail)[|x|..] == tail;
      p := p + n;
    }

    method LenStr(ghost x: string, ghost tail: string) returns (s: string)
      requires Valid()
      modifies this`p, this`ok
      ensures Valid() && p >= old(p) && (ok ==> old(ok)) && (!ok ==> s == "")
      ensures old(Sees(PutLenStr(x), tail)) && |x| < U32 ==> ok && s == x && Rest() == tail
    {
      assert PutLenStr(x) + tail == PutU32(|x|) + (x + tail);
      var n := ReadU32(|x|, x + tail);
      s := Bytes(n, x, tail);
    }

    /** A string that is not text is damage. */
    method Text(ghost x: string, ghost tail: string) returns (s: string)
      requires Valid()
      modifies this`p, this`ok
      ensures Valid() && p >= old(p) && (ok ==> old(ok) && isText(s)) && (!ok ==> s == "")
      ensures old(Sees(PutLenStr(x), tail)) && |x| < U32 && isText(x) ==> ok && s == x && Rest() == tail
    {
      s := LenStr(x, tail);
      if ok && !isText(s) {
        ok := false;
        return "";
      }
    }

    /** A count of elements can never exceed the bytes that are left. */
    method Count(ghost x: nat, ghost tail: string) returns (n: nat)
      requires Valid()
      modifies this`p, this`ok
      ensures Valid() && p >= old(p) && (ok ==> old(ok) && n <= |data| - p) && (!ok ==> n == 0)
      ensures old(Sees(PutU32(x), tail)) && x < U32 && x <= |tail| ==> ok && n == x && Rest() == tail
    {
      n := ReadU32(x, tail);
      if ok && n > |data| - p {
        ok := false;
        return 0;
      }
    }
  }
}
