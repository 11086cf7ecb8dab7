/** Registrations: what an index of refcounted records stands for.  Each was
    made by one translation unit or is untagged. */
module Registry {
  import opened GraphTypes
  import opened Interner

  /** One registration of a record. */
  datatype Reg<K, T> = Reg(record: K, tu: Option<T>)

  ghost function Count<K, T>(regs: seq<Reg<K, T>>, e: K): nat {
    if regs == [] then 0
    else Count(regs[..|regs| - 1], e) + if regs[|regs| - 1].record == e then 1 else 0
  }

  /** The records a unit registered, in order, as positions in a table. */
  ghost function Positions<K, T>(regs: seq<Reg<K, T>>, tu: T, index: map<K, nat>): seq<nat> {
    if regs == [] then []
    else
      var r := regs[|regs| - 1];
      var rest := Positions(regs[..|regs| - 1], tu, index);
      if r.tu == Some(tu) && r.record in index then rest + [index[r.record]] else rest
  }

  /** What is left when some units are removed. */
  ghost function Without<K, T>(regs: seq<Reg<K, T>>, tus: set<T>): seq<Reg<K, T>> {
    if regs == [] then []
    else
      var r := regs[|regs| - 1];
      var rest := Without(regs[..|regs| - 1], tus);
      if r.tu.Some? && r.tu.value in tus then rest else rest + [r]
  }

  /** How often one position occurs in a list. */
  function Occurrences(s: seq<nat>, x: nat): nat {
    if s == [] then 0 else Occurrences(s[..|s| - 1], x) + if s[|s| - 1] == x then 1 else 0
  }

  // ---- One registration more.

  lemma CountSnoc<K, T>(regs: seq<Reg<K, T>>, r: Reg<K, T>, e: K)
    ensures Count(regs + [r], e) == Count(regs, e) + if r.record == e then 1 else 0
  {
    assert (regs + [r])[..|regs|] == regs;
  }

  lemma PositionsSnoc<K, T>(regs: seq<Reg<K, T>>, r: Reg<K, T>, tu: T, index: map<K, nat>)
    ensures Positions(regs + [r], tu, index) ==
            if r.tu == Some(tu) && r.record in index then Positions(regs, tu, index) + [index[r.record]]
            else Positions(regs, tu, index)
  {
    assert (regs + [r])[..|regs|] == regs;
  }

  lemma WithoutSnoc<K, T>(regs: seq<Reg<K, T>>, r: Reg<K, T>, tus: set<T>)
    ensures Without(regs + [r], tus) ==
            if r.tu.Some? && r.tu.value in tus then Without(regs, tus) else Without(regs, tus) + [r]
  {
    assert (regs + [r])[..|regs|] == regs;
  }

  lemma OccurrencesSnoc(s: seq<nat>, y: nat, x: nat)
    ensures Occurrences(s + [y], x) == Occurrences(s, x) + if y == x then 1 else 0
  {
    assert (s + [y])[..|s|] == s;
  }

  /** A nonempty sequence is its front and its last element. */
  lemma Split<T>(s: seq<T>)
    requires s != []
    ensures s == s[..|s| - 1] + [s[|s| - 1]]
  {
  }

  lemma {:induction false} CountConcat<K, T>(a: seq<Reg<K, T>>, b: seq<Reg<K, T>>, e: K)
    ensures Count(a + b, e) == Count(a, e) + Count(b, e)
    decreases |b|
  {
    if b == [] {
      assert a + b == a;
    } else {
      var r, most := b[|b| - 1], b[..|b| - 1];
      assert a + b == (a + most) + [r] && b == most + [r];
      CountConcat(a, most, e);
      CountSnoc(a + most, r, e);
      CountSnoc(most, r, e);
    }
  }

  lemma {:induction false} CountPositive<K, T>(regs: seq<Reg<K, T>>, e: K)
    ensures Count(regs, e) > 0 <==> exists i :: 0 <= i < |regs| && regs[i].record == e
    decreases |regs|
  {
    if regs != [] {
      var most := regs[..|regs| - 1];
      CountPositive(most, e);
      if i :| 0 <= i < |most| && most[i].record == e {
        assert regs[i].record == e;
      }
      if i :| 0 <= i < |regs| && regs[i].record == e && i < |regs| - 1 {
        assert most[i].record == e;
      }
    }
  }

  /** Where the last element of `a` is in a rearrangement of `a`. */
  lemma TakeOut<X>(a: seq<X>, b: seq<X>) returns (i: nat)
    requires a != [] && multiset(a) == multiset(b)
    ensures i < |b| && b == b[..i] + [a[|a| - 1]] + b[i + 1..]
    ensures multiset(a[..|a| - 1]) == multiset(b[..i] + b[i + 1..])
  {
    var r, most := a[|a| - 1], a[..|a| - 1];
    Split(a);
    assert r in multiset(b);
    i :| 0 <= i < |b| && b[i] == r;
    var rest := b[..i] + b[i + 1..];
    assert b == b[..i] + [r] + b[i + 1..];
    assert multiset(b) == multiset(rest) + multiset{r};
    assert multiset(a) == multiset(most) + multiset{r};
    assert multiset(most) == multiset(a) - multiset{r} && multiset(rest) == multiset(b) - multiset{r};
  }

  lemma {:induction false} CountIsMultiset<K, T>(a: seq<Reg<K, T>>, b: seq<Reg<K, T>>, e: K)
    requires multiset(a) == multiset(b)
    ensures Count(a, e) == Count(b, e)
    decreases |a|
  {
    if a == [] {
      assert |multiset(a)| == |multiset(b)| == 0;
    } else {
      hide Count;
      var r, most := a[|a| - 1], a[..|a| - 1];
      Split(a);
      var i := TakeOut(a, b);
      var rest := b[..i] + b[i + 1..];
      CountIsMultiset(most, rest, e);
      CountSnoc(most, r, e);
      CountSnoc(b[..i], r, e);
      CountConcat(b[..i] + [r], b[i + 1..], e);
      CountConcat(b[..i], b[i + 1..], e);
    }
  }

  lemma {:induction false} OccurrencesConcat(a: seq<nat>, b: seq<nat>, x: nat)
    ensures Occurrences(a + b, x) == Occurrences(a, x) + Occurrences(b, x)
    decreases |b|
  {
    if b == [] {
      assert a + b == a;
    } else {
      var y, most := b[|b| - 1], b[..|b| - 1];
      assert a + b == (a + most) + [y] && b == most + [y];
      OccurrencesConcat(a, most, x);
      OccurrencesSnoc(a + most, y, x);
      OccurrencesSnoc(most, y, x);
    }
  }

  lemma OccurrencesCons(y: nat, s: seq<nat>, x: nat)
    ensures Occurrences([y] + s, x) == Occurrences(s, x) + if y == x then 1 else 0
  {
    OccurrencesSnoc([], y, x);
    assert [] + [y] == [y];
    OccurrencesConcat([y], s, x);
  }

  lemma {:induction false} WithoutConcat<K, T>(a: seq<Reg<K, T>>, b: seq<Reg<K, T>>, tus: set<T>)
    ensures Without(a + b, tus) == Without(a, tus) + Without(b, tus)
    decreases |b|
  {
    if b == [] {
      assert a + b == a;
    } else {
      hide Without;
      var r, most := b[|b| - 1], b[..|b| - 1];
      assert a + b == (a + most) + [r] && b == most + [r];
      WithoutConcat(a, most, tus);
      WithoutSnoc(a + most, r, tus);
      WithoutSnoc(most, r, tus);
    }
  }

  lemma {:induction false} WithoutTwice<K, T>(regs: seq<Reg<K, T>>, a: set<T>, b: set<T>)
    ensures Without(Without(regs, a), b) == Without(regs, a + b)
    decreases |regs|
  {
    if regs != [] {
      hide Without;
      var r, most := regs[|regs| - 1], regs[..|regs| - 1];
      Split(regs);
      WithoutTwice(most, a, b);
      WithoutSnoc(most, r, a);
      WithoutSnoc(most, r, a + b);
      WithoutSnoc(Without(most, a), r, b);
    }
  }

  lemma {:induction false} WithoutNone<K, T>(regs: seq<Reg<K, T>>)
    ensures Without(regs, {}) == regs
    decreases |regs|
  {
    if regs != [] {
      WithoutNone(regs[..|regs| - 1]);
    }
  }

  /** Taking a unit out releases exactly the positions it registered. */
  lemma {:induction false} CountWithout<K, T>(regs: seq<Reg<K, T>>, tu: T, index: map<K, nat>, e: K)
    requires forall i :: 0 <= i < |regs| ==> regs[i].record in index
    requires e in index && forall f :: f in index && index[f] == index[e] ==> f == e
    ensures Count(regs, e) == Count(Without(regs, {tu}), e) + Occurrences(Positions(regs, tu, index), index[e])
    decreases |regs|
  {
    if regs != [] {
      hide Count, Without, Positions, Occurrences;
      var r, most := regs[|regs| - 1], regs[..|regs| - 1];
      Split(regs);
      CountWithout(most, tu, index, e);
      CountSnoc(most, r, e);
      PositionsSnoc(most, r, tu, index);
      WithoutSnoc(most, r, {tu});
      CountSnoc(Without(most, {tu}), r, e);
      OccurrencesSnoc(Positions(most, tu, index), index[r.record], index[e]);
    }
  }

  lemma {:induction false} PositionsOfOther<K, T>(regs: seq<Reg<K, T>>, tus: set<T>, tu: T, index: map<K, nat>)
    requires tu !in tus
    ensures Positions(Without(regs, tus), tu, index) == Positions(regs, tu, index)
    decreases |regs|
  {
    if regs != [] {
      hide Without, Positions;
      var r, most := regs[|regs| - 1], regs[..|regs| - 1];
      Split(regs);
      PositionsOfOther(most, tus, tu, index);
      WithoutSnoc(most, r, tus);
      PositionsSnoc(most, r, tu, index);
      PositionsSnoc(Without(most, tus), r, tu, index);
    }
  }

  lemma {:induction false} PositionsOfRemoved<K, T>(regs: seq<Reg<K, T>>, tus: set<T>, tu: T, index: map<K, nat>)
    requires tu in tus
    ensures Positions(Without(regs, tus), tu, index) == []
    decreases |regs|
  {
    if regs != [] {
      hide Without, Positions;
      var r, most := regs[|regs| - 1], regs[..|regs| - 1];
      Split(regs);
      PositionsOfRemoved(most, tus, tu, index);
      WithoutSnoc(most, r, tus);
      PositionsSnoc(Without(most, tus), r, tu, index);
    }
  }

  /** Positions only depend on where the registered edges are. */
  lemma {:induction false} PositionsSameIndex<K, T>(regs: seq<Reg<K, T>>, tu: T, a: map<K, nat>, b: map<K, nat>)
    requires forall i :: 0 <= i < |regs| ==> regs[i].record in a && regs[i].record in b && a[regs[i].record] == b[regs[i].record]
    ensures Positions(regs, tu, a) == Positions(regs, tu, b)
    decreases |regs|
  {
    if regs != [] {
      hide Positions;
      var r, most := regs[|regs| - 1], regs[..|regs| - 1];
      Split(regs);
      PositionsSameIndex(most, tu, a, b);
      PositionsSnoc(most, r, tu, a);
      PositionsSnoc(most, r, tu, b);
    }
  }

  lemma {:induction false} PositionsConcat<K, T>(a: seq<Reg<K, T>>, b: seq<Reg<K, T>>, tu: T, index: map<K, nat>)
    ensures Positions(a + b, tu, index) == Positions(a, tu, index) + Positions(b, tu, index)
    decreases |b|
  {
    if b == [] {
      assert a + b == a;
    } else {
      hide Positions;
      var r, most := b[|b| - 1], b[..|b| - 1];
      assert a + b == (a + most) + [r] && b == most + [r];
      PositionsConcat(a, most, tu, index);
      PositionsSnoc(a + most, r, tu, index);
      PositionsSnoc(most, r, tu, index);
    }
  }

  lemma {:induction false} WithoutMember<K, T>(regs: seq<Reg<K, T>>, tus: set<T>, r: Reg<K, T>)
    ensures r in Without(regs, tus) <==> r in regs && !(r.tu.Some? && r.tu.value in tus)
    decreases |regs|
  {
    if regs != [] {
      WithoutMember(regs[..|regs| - 1], tus, r);
      Split(regs);
    }
  }
}
