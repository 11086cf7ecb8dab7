/** The order in which callers are enumerated: by caller name, call site and
    the remaining edge fields.  It looks at texts, not at ids, so it does not
    depend on the order in which strings were interned. */
module CanonicalOrder {
  import opened GraphTypes
  import opened Interner

  /** An edge into a fixed callee, with its strings spelled out. */
  datatype CallerText = CallerText(caller: string, site: string, kind: EdgeKind, confidence: Confidence,
                                   exec: ExecContext, indirection: nat)

  predicate TextLess(a: string, b: string)
    decreases |a|
  {
    b != [] && (a == [] || a[0] < b[0] || (a[0] == b[0] && TextLess(a[1..], b[1..])))
  }

  function KindRank(k: EdgeKind): nat {
    match k
    case DirectCall => 0
    case VirtualDispatch => 1
    case FunctionPointer => 2
    case ConstructorCall => 3
    case DestructorCall => 4
    case OperatorCall => 5
    case TemplateInstantiation => 6
    case LambdaCall => 7
    case ThreadEntry => 8
    case FunctionPointerReturn => 9
  }

  function ConfidenceRank(c: Confidence): nat {
    match c
    case Proven => 0
    case Plausible => 1
    case Unknown => 2
  }

  function ExecRank(x: ExecContext): nat {
    match x
    case Synchronous => 0
    case ThreadSpawn => 1
    case AsyncTask => 2
    case PackagedTask => 3
    case Invoke => 4
  }

  predicate Before(a: CallerText, b: CallerText) {
    if a.caller != b.caller then TextLess(a.caller, b.caller)
    else if a.site != b.site then TextLess(a.site, b.site)
    else if a.kind != b.kind then KindRank(a.kind) < KindRank(b.kind)
    else if a.confidence != b.confidence then ConfidenceRank(a.confidence) < ConfidenceRank(b.confidence)
    else if a.exec != b.exec then ExecRank(a.exec) < ExecRank(b.exec)
    else a.indirection < b.indirection
  }

  /** `b` is longer than the common part, and there `a` ends or is smaller. */
  ghost predicate SmallerAt(a: string, b: string, k: nat) {
    k <= |a| && k < |b| && a[..k] == b[..k] && (k == |a| || a[k] < b[k])
  }

  /** The order of texts is that of their first difference. */
  lemma {:induction false} TextLessMeans(a: string, b: string)
    ensures TextLess(a, b) <==> exists k: nat :: SmallerAt(a, b, k)
    decreases |a|
  {
    if a != [] && b != [] {
      TextLessMeans(a[1..], b[1..]);
      if a[0] == b[0] {
        forall k: nat ensures SmallerAt(a, b, k + 1) <==> SmallerAt(a[1..], b[1..], k) {
          if k < |b[1..]| && k <= |a[1..]| {
            assert a[..k + 1] == [a[0]] + a[1..][..k] && b[..k + 1] == [b[0]] + b[1..][..k];
            assert a[1..][..k] == a[..k + 1][1..] && b[1..][..k] == b[..k + 1][1..];
          }
        }
        assert !SmallerAt(a, b, 0);
        if k: nat :| SmallerAt(a, b, k) {
          assert SmallerAt(a[1..], b[1..], k - 1);
        }
        if k: nat :| SmallerAt(a[1..], b[1..], k) {
          assert SmallerAt(a, b, k + 1);
        }
      } else {
        assert SmallerAt(a, b, 0) <==> a[0] < b[0];
        forall k: nat | k > 0 ensures !SmallerAt(a, b, k) {
          if k <= |a| && k < |b| {
            assert a[..k][0] == a[0] && b[..k][0] == b[0];
          }
        }
      }
    } else if b != [] {
      assert SmallerAt(a, b, 0);
    }
  }

  lemma {:induction false} TextLessTrans(a: string, b: string, c: string)
    requires TextLess(a, b) && TextLess(b, c)
    ensures TextLess(a, c)
    decreases |a|
  {
    if a != [] && a[0] == b[0] && b[0] == c[0] {
      TextLessTrans(a[1..], b[1..], c[1..]);
    }
  }

  lemma {:induction false} TextLessStrict(a: string, b: string)
    ensures !(TextLess(a, b) && TextLess(b, a))
    decreases |a|
  {
    if a != [] && b != [] && a[0] == b[0] {
      TextLessStrict(a[1..], b[1..]);
    }
  }

  lemma {:induction false} TextLessTotal(a: string, b: string)
    ensures a == b || TextLess(a, b) || TextLess(b, a)
    decreases |a|
  {
    if a != [] && b != [] && a[0] == b[0] {
      TextLessTotal(a[1..], b[1..]);
      assert a == [a[0]] + a[1..] && b == [b[0]] + b[1..];
    }
  }

  /** The order is strict and total. */
  lemma BeforeTrans(a: CallerText, b: CallerText, c: CallerText)
    requires Before(a, b) && Before(b, c)
    ensures Before(a, c)
  {
    hide TextLess;
    if a.caller != b.caller && b.caller != c.caller {
      TextLessTrans(a.caller, b.caller, c.caller);
      TextLessStrict(a.caller, b.caller);
    } else if a.caller == b.caller == c.caller && a.site != b.site && b.site != c.site {
      TextLessTrans(a.site, b.site, c.site);
      TextLessStrict(a.site, b.site);
    }
  }

  lemma BeforeStrict(a: CallerText, b: CallerText)
    requires Before(a, b)
    ensures a != b && !Before(b, a)
  {
    hide TextLess;
    TextLessStrict(a.caller, b.caller);
    TextLessStrict(a.site, b.site);
  }

  lemma BeforeTotal(a: CallerText, b: CallerText)
    ensures a == b || Before(a, b) || Before(b, a)
  {
    hide TextLess;
    TextLessTotal(a.caller, b.caller);
    TextLessTotal(a.site, b.site);
  }

  // ---- Sorted lists.

  predicate Spelled(t: seq<string>, e: EdgeRef) {
    e.caller < |t| && e.site < |t|
  }

  function TextOf(t: seq<string>, e: EdgeRef): CallerText
    requires Spelled(t, e)
  {
    CallerText(t[e.caller], t[e.site], e.kind, e.confidence, e.exec, e.indirection)
  }

  ghost predicate AllSpelled(t: seq<string>, s: seq<EdgeRef>) {
    forall i :: 0 <= i < |s| ==> Spelled(t, s[i])
  }

  ghost predicate Ascending(s: seq<CallerText>) {
    forall i, j :: 0 <= i < j < |s| ==> Before(s[i], s[j])
  }

  ghost function Texts(t: seq<string>, s: seq<EdgeRef>): (r: seq<CallerText>)
    requires AllSpelled(t, s)
    ensures |r| == |s|
  {
    seq(|s|, i requires 0 <= i < |s| => TextOf(t, s[i]))
  }

  /** There is only one ascending list of the same texts. */
  lemma {:induction false} AscendingUnique(a: seq<CallerText>, b: seq<CallerText>)
    requires Ascending(a) && Ascending(b)
    requires forall x :: x in a <==> x in b
    ensures a == b
    decreases |a|
  {
    hide Before;
    assert b != [] ==> b[0] in b;
    assert a != [] ==> a[0] in a;
    if a != [] {
      assert b != [];
      var j :| 0 <= j < |b| && b[j] == a[0];
      var i :| 0 <= i < |a| && a[i] == b[0];
      if a[0] != b[0] {
        BeforeStrict(a[0], a[i]);
        assert false;
      }
      forall x ensures x in a[1..] <==> x in b[1..] {
        forall k | 0 < k < |a| ensures a[k] != a[0] { BeforeStrict(a[0], a[k]); }
        forall k | 0 < k < |b| ensures b[k] != b[0] { BeforeStrict(b[0], b[k]); }
        assert x in a[1..] <==> x in a && x != a[0];
        assert x in b[1..] <==> x in b && x != b[0];
      }
      AscendingUnique(a[1..], b[1..]);
      assert a == [a[0]] + a[1..] && b == [b[0]] + b[1..];
    }
  }

  /** Sort the callers of one node.  The result lists the same edges, and two
      graphs that show the same callers by name list them in the same order. */
  method SortCallers(t: seq<string>, callee: Id, s: seq<EdgeRef>) returns (r: seq<EdgeRef>)
    requires Injective(t) && AllSpelled(t, s) && NoDuplicates(s)
    requires forall e :: e in s ==> e.callee == callee
    ensures AllSpelled(t, r) && Ascending(Texts(t, r))
    ensures multiset(r) == multiset(s)
  {
    hide Ascending, Injective, TextOf;
    r := [];
    assert Ascending(Texts(t, r)) by { EmptyAscending(Texts(t, r)); }
    for k := 0 to |s|
      invariant AllSpelled(t, r) && Ascending(Texts(t, r))
      invariant multiset(r) == multiset(s[..k])
    {
      NewText(t, callee, s, k, r);
      r := Insert(t, r, s[k]);
      assert s[..k + 1] == s[..k] + [s[k]];
    }
    assert s[..|s|] == s;
  }

  lemma EmptyAscending(s: seq<CallerText>)
    requires s == []
    ensures Ascending(s)
  {
  }

  lemma NewText(t: seq<string>, callee: Id, s: seq<EdgeRef>, k: nat, r: seq<EdgeRef>)
    requires Injective(t) && AllSpelled(t, s) && NoDuplicates(s) && k < |s|
    requires forall e :: e in s ==> e.callee == callee
    requires multiset(r) == multiset(s[..k])
    ensures forall e :: e in r ==> Spelled(t, e) && TextOf(t, e) != TextOf(t, s[k])
  {
    hide Injective, TextOf;
    forall e | e in r ensures Spelled(t, e) && TextOf(t, e) != TextOf(t, s[k]) {
      assert e in multiset(s[..k]);
      var i :| 0 <= i < k && s[i] == e;
      assert s[i] in s && s[k] in s;
      DifferentEdges(t, e, s[k]);
    }
  }

  lemma DifferentEdges(t: seq<string>, e: EdgeRef, f: EdgeRef)
    requires Injective(t) && Spelled(t, e) && Spelled(t, f) && e.callee == f.callee && e != f
    ensures TextOf(t, e) != TextOf(t, f)
  {
    if TextOf(t, e) == TextOf(t, f) {
      SameEdge(t, e, f);
    }
  }

  lemma SameEdge(t: seq<string>, e: EdgeRef, f: EdgeRef)
    requires Injective(t) && Spelled(t, e) && Spelled(t, f) && e.callee == f.callee
    requires TextOf(t, e) == TextOf(t, f)
    ensures e == f
  {
    SameText(t, e.caller, f.caller);
    SameText(t, e.site, f.site);
  }

  method Insert(t: seq<string>, s: seq<EdgeRef>, e: EdgeRef) returns (r: seq<EdgeRef>)
    requires AllSpelled(t, s) && Spelled(t, e) && Ascending(Texts(t, s))
    requires forall f :: f in s ==> Spelled(t, f) && TextOf(t, f) != TextOf(t, e)
    ensures AllSpelled(t, r) && Ascending(Texts(t, r))
    ensures multiset(r) == multiset(s) + multiset{e}
  {
    hide Before;
    var k := 0;
    while k < |s| && Before(TextOf(t, s[k]), TextOf(t, e))
      invariant 0 <= k <= |s|
      invariant forall i :: 0 <= i < k ==> Before(TextOf(t, s[i]), TextOf(t, e))
    {
      k := k + 1;
    }
    ghost var ts := Texts(t, s);
    forall i | k <= i < |s| ensures Before(TextOf(t, e), TextOf(t, s[i])) {
      assert s[k] in s;
      BeforeTotal(TextOf(t, s[k]), TextOf(t, e));
      if i > k {
        assert Before(ts[k], ts[i]);
        BeforeTrans(TextOf(t, e), TextOf(t, s[k]), TextOf(t, s[i]));
      }
    }
    r := s[..k] + [e] + s[k..];
    assert s == s[..k] + s[k..];
    InsertAscending(ts, k, TextOf(t, e));
    assert Texts(t, r) == ts[..k] + [TextOf(t, e)] + ts[k..];
  }

  lemma InsertAscending(s: seq<CallerText>, k: nat, x: CallerText)
    requires Ascending(s) && k <= |s|
    requires forall i :: 0 <= i < k ==> Before(s[i], x)
    requires forall i :: k <= i < |s| ==> Before(x, s[i])
    ensures Ascending(s[..k] + [x] + s[k..])
  {
    hide Before;
  }
}
