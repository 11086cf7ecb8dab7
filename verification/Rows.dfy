/** Rows of a refcounted table: how often a record is registered and by whom.
    Replaying the rows of a table gives back its ledger. */
module Rows {
  import opened GraphTypes
  import opened Interner
  import opened Registry
  import opened RefTable

  // ---- Several registrations at once.

  function Copies<X>(x: X, n: nat): seq<X> {
    if n == 0 then [] else Copies(x, n - 1) + [x]
  }

  lemma {:induction false} CopiesAll<X>(x: X, n: nat)
    ensures |Copies(x, n)| == n && forall i :: 0 <= i < n ==> Copies(x, n)[i] == x
  {
    if n > 0 {
      CopiesAll(x, n - 1);
    }
  }

  lemma CopiesSnoc<X>(s: seq<X>, x: X, n: nat)
    requires n > 0
    ensures s + Copies(x, n) == (s + Copies(x, n - 1)) + [x]
  {
  }

  lemma {:induction false} CountCopies<K(!new), T(!new)>(regs: seq<Reg<K, T>>, r: Reg<K, T>, n: nat, k: K)
    ensures Count(regs + Copies(r, n), k) == Count(regs, k) + if r.record == k then n else 0
    decreases n
  {
    if n == 0 {
      assert regs + Copies(r, 0) == regs;
    } else {
      CountCopies(regs, r, n - 1, k);
      CopiesSnoc(regs, r, n);
      CountSnoc(regs + Copies(r, n - 1), r, k);
    }
  }

  lemma {:induction false} PositionsCopies<K(!new), T(!new)>(regs: seq<Reg<K, T>>, r: Reg<K, T>, n: nat, tu: T, index: map<K, nat>)
    requires r.record in index
    ensures Positions(regs + Copies(r, n), tu, index) ==
            Positions(regs, tu, index) + if r.tu == Some(tu) then Copies(index[r.record], n) else []
    decreases n
  {
    if n == 0 {
      assert regs + Copies(r, 0) == regs;
    } else {
      CopiesSnoc(regs, r, n);
      CopiesSnoc(Positions(regs, tu, index), index[r.record], n);
      hide Positions, Copies;
      PositionsCopies(regs, r, n - 1, tu, index);
      PositionsSnoc(regs + Copies(r, n - 1), r, tu, index);
    }
  }

  lemma AppendCopies<K(!new), T(!new)>(table0: seq<Stored<K>>, index0: map<K, nat>, table: seq<Stored<K>>, index: map<K, nat>,
                     units0: map<T, seq<nat>>, units: map<T, seq<nat>>, regs: seq<Reg<K, T>>, r: Reg<K, T>, n: nat)
    requires IndexOk(table0, index0) && IndexOk(table, index)
    requires CountsMatch(table0, index0, regs) && UnitsMatch(units0, index0, regs)
    requires Raised(table0, index0, table, index, r.record, n)
    requires r.tu.None? ==> units == units0
    requires r.tu.Some? ==> units == units0[r.tu.value := Bucket(units0, r.tu.value) + Copies(index[r.record], n)]
    ensures CountsMatch(table, index, regs + Copies(r, n)) && UnitsMatch(units, index, regs + Copies(r, n))
  {
    hide Count, Positions;
    CountsCover(table0, index0, regs);
    forall k ensures RefsOf(table, index, k) == Count(regs + Copies(r, n), k) {
      CountCopies(regs, r, n, k);
    }
    forall t ensures Bucket(units, t) == Positions(regs + Copies(r, n), t, index) {
      PositionsSameIndex(regs, t, index0, index);
      PositionsCopies(regs, r, n, t, index);
      assert Bucket(units0, t) == Positions(regs, t, index0);
    }
  }

  lemma OneToOneKeys<K(!new)>(index: map<K, nat>, a: K, b: K)
    requires OneToOne(index) && a in index && b in index && index[a] == index[b]
    ensures a == b
  {
  }

  /** The registrations of the first `i` records are replayed, and of record `i`
      those of the units in `done`. */
  ghost predicate IsReplayed<K(!new), T(!new)>(x: Reg<K, T>, index: map<K, nat>, i: nat, done: set<T>) {
    x.record in index && (index[x.record] < i || (index[x.record] == i && x.tu.Some? && x.tu.value in done))
  }

  ghost predicate Replayed<K(!new), T(!new)>(regs0: seq<Reg<K, T>>, regs: seq<Reg<K, T>>, shard: seq<Reg<K, T>>, index: map<K, nat>, i: nat, done: set<T>) {
    forall x: Reg<K, T> :: multiset(regs)[x] == multiset(regs0)[x] + if IsReplayed(x, index, i, done) then multiset(shard)[x] else 0
  }

  lemma ReplayedStart<K(!new), T(!new)>(regs: seq<Reg<K, T>>, shard: seq<Reg<K, T>>, index: map<K, nat>)
    ensures Replayed(regs, regs, shard, index, 0, {})
  {
  }

  lemma ReplayedSkip<K(!new), T(!new)>(regs0: seq<Reg<K, T>>, regs: seq<Reg<K, T>>, shard: seq<Reg<K, T>>, table: seq<Stored<K>>, index: map<K, nat>, i: nat)
    requires IndexOk(table, index) && i < |table| && table[i].refs == 0 && Replayed(regs0, regs, shard, index, i, {})
    ensures Replayed(regs0, regs, shard, index, i + 1, {})
  {
    forall x: Reg<K, T> ensures IsReplayed(x, index, i + 1, {}) <==> IsReplayed(x, index, i, {}) {
    }
  }

  lemma SnocMultiset<K(!new), T(!new)>(regs: seq<Reg<K, T>>, r: Reg<K, T>)
    ensures multiset(regs + [r]) == multiset(regs) + multiset{r}
  {
  }

  lemma {:induction false} CopiesMultiset<K(!new), T(!new)>(regs: seq<Reg<K, T>>, r: Reg<K, T>, n: nat, x: Reg<K, T>)
    ensures multiset(regs + Copies(r, n))[x] == multiset(regs)[x] + if r == x then n else 0
    decreases n
  {
    if n == 0 {
      assert regs + Copies(r, 0) == regs;
    } else {
      CopiesSnoc(regs, r, n);
      hide Copies;
      CopiesMultiset(regs, r, n - 1, x);
      SnocMultiset(regs + Copies(r, n - 1), r);
    }
  }

  lemma ReplayedNext<K(!new), T(!new)>(regs0: seq<Reg<K, T>>, before: seq<Reg<K, T>>, regs: seq<Reg<K, T>>, shard: seq<Reg<K, T>>, index: map<K, nat>, i: nat,
                     done: set<T>, k: K, tu: T, n: nat)
    requires Replayed(regs0, before, shard, index, i, done) && regs == before + Copies(Reg(k, Some(tu)), n)
    requires k in index && index[k] == i && OneToOne(index) && tu !in done && n == multiset(shard)[Reg(k, Some(tu))]
    ensures Replayed(regs0, regs, shard, index, i, done + {tu})
  {
    hide OneToOne, Copies;
    forall x: Reg<K, T> ensures multiset(regs)[x] == multiset(regs0)[x] + if IsReplayed(x, index, i, done + {tu}) then multiset(shard)[x] else 0 {
      CopiesMultiset(before, Reg(k, Some(tu)), n, x);
      if x.record in index && index[x.record] == i {
        OneToOneKeys(index, x.record, k);
      }
    }
  }

  lemma ReplayedSite<K(!new), T(!new)>(regs0: seq<Reg<K, T>>, before: seq<Reg<K, T>>, regs: seq<Reg<K, T>>, shard: seq<Reg<K, T>>, index: map<K, nat>, i: nat,
                     done: set<T>, k: K, n: nat)
    requires Replayed(regs0, before, shard, index, i, done) && regs == before + Copies(Reg(k, None), n)
    requires k in index && index[k] == i && OneToOne(index) && n == multiset(shard)[Reg(k, None)]
    requires forall t :: Reg(k, Some(t)) in shard ==> t in done
    ensures Replayed(regs0, regs, shard, index, i + 1, {})
  {
    hide OneToOne, Copies;
    forall x: Reg<K, T> ensures multiset(regs)[x] == multiset(regs0)[x] + if IsReplayed(x, index, i + 1, {}) then multiset(shard)[x] else 0 {
      CopiesMultiset(before, Reg(k, None), n, x);
      if x.record in index && index[x.record] == i {
        OneToOneKeys(index, x.record, k);
        if x.tu.Some? && x.tu.value !in done {
          assert x == Reg(k, Some(x.tu.value));
          assert x !in shard;
        }
      }
    }
  }

  lemma ReplayedEnd<K(!new), T(!new)>(regs0: seq<Reg<K, T>>, regs: seq<Reg<K, T>>, shard: seq<Reg<K, T>>, table: seq<Stored<K>>, index: map<K, nat>)
    requires Replayed(regs0, regs, shard, index, |table|, {}) && IndexOk(table, index) && CountsMatch(table, index, shard)
    ensures multiset(regs) == multiset(regs0) + multiset(shard)
  {
    CountsCover(table, index, shard);
    forall x: Reg<K, T> ensures multiset(regs)[x] == (multiset(regs0) + multiset(shard))[x] {
      if x in shard {
        assert index[x.record] < |table|;
      }
    }
  }

  /** How many registrations of `k` carry a tag in `tus`. */
  ghost function TaggedCount<K(!new), T(!new)>(regs: seq<Reg<K, T>>, k: K, tus: set<T>): nat {
    if regs == [] then 0
    else
      var r, rest := regs[|regs| - 1], TaggedCount(regs[..|regs| - 1], k, tus);
      if r.record == k && r.tu.Some? && r.tu.value in tus then rest + 1 else rest
  }

  lemma {:induction false} TaggedNone<K(!new), T(!new)>(regs: seq<Reg<K, T>>, k: K)
    ensures TaggedCount(regs, k, {}) == 0
    decreases |regs|
  {
    if regs != [] {
      TaggedNone(regs[..|regs| - 1], k);
    }
  }

  lemma {:induction false} TaggedNext<K(!new), T(!new)>(regs: seq<Reg<K, T>>, k: K, tus: set<T>, tu: T)
    requires tu !in tus
    ensures TaggedCount(regs, k, tus + {tu}) == TaggedCount(regs, k, tus) + multiset(regs)[Reg(k, Some(tu))]
    ensures TaggedCount(regs, k, tus + {tu}) <= Count(regs, k)
    decreases |regs|
  {
    if regs != [] {
      var r, most := regs[|regs| - 1], regs[..|regs| - 1];
      Split(regs);
      TaggedNext(most, k, tus, tu);
      assert multiset(regs) == multiset(most) + multiset{r};
    }
  }

  lemma {:induction false} TaggedAll<K(!new), T(!new)>(regs: seq<Reg<K, T>>, k: K, tus: set<T>)
    requires forall t :: Reg(k, Some(t)) in regs ==> t in tus
    ensures Count(regs, k) == TaggedCount(regs, k, tus) + multiset(regs)[Reg(k, None)]
    decreases |regs|
  {
    if regs != [] {
      var r, most := regs[|regs| - 1], regs[..|regs| - 1];
      Split(regs);
      forall t | Reg(k, Some(t)) in most ensures t in tus {
        assert Reg(k, Some(t)) in regs;
      }
      TaggedAll(most, k, tus);
      assert multiset(regs) == multiset(most) + multiset{r};
      assert r in regs;
      if r.record == k && r.tu.Some? {
        assert r == Reg(k, Some(r.tu.value));
      } else if r.record == k {
        assert r == Reg(k, None);
      }
    }
  }

  /** A record's position occurs on a unit's list as often as the unit registered it. */
  lemma {:induction false} OccurrencesAreRegs<K(!new), T(!new)>(regs: seq<Reg<K, T>>, tu: T, index: map<K, nat>, k: K)
    requires k in index && OneToOne(index)
    ensures Occurrences(Positions(regs, tu, index), index[k]) == multiset(regs)[Reg(k, Some(tu))]
    decreases |regs|
  {
    if regs != [] {
      hide Positions, OneToOne, Occurrences;
      var r, most := regs[|regs| - 1], regs[..|regs| - 1];
      Split(regs);
      OccurrencesAreRegs(most, tu, index, k);
      PositionsSnoc(most, r, tu, index);
      assert multiset(regs) == multiset(most) + multiset{r};
      if r.tu == Some(tu) && r.record in index {
        OccurrencesSnoc(Positions(most, tu, index), index[r.record], index[k]);
        if index[r.record] == index[k] {
          OneToOneKeys(index, r.record, k);
        }
      }
    }
  }

  /** Every unit that registered a stored record has a list. */
  lemma TagsHaveLists<K(!new), T(!new)>(table: seq<Stored<K>>, index: map<K, nat>, units: map<T, seq<nat>>, regs: seq<Reg<K, T>>, k: K)
    requires IndexOk(table, index) && UnitsMatch(units, index, regs) && k in index
    ensures OneToOne(index)
    ensures forall t :: Reg(k, Some(t)) in regs ==> t in units.Keys
  {
    hide Positions;
    forall t | Reg(k, Some(t)) in regs ensures t in units.Keys {
      assert Reg(k, Some(t)) in multiset(regs);
      OccurrencesAreRegs(regs, t, index, k);
      assert Bucket(units, t) == Positions(regs, t, index);
    }
  }

  lemma UnitList<K(!new), T(!new)>(units: map<T, seq<nat>>, index: map<K, nat>, regs: seq<Reg<K, T>>, tu: T)
    requires UnitsMatch(units, index, regs) && tu in units
    ensures units[tu] == Positions(regs, tu, index)
  {
    assert Bucket(units, tu) == Positions(regs, tu, index);
  }

  /** The position and the count of a live record. */
  lemma StoredAt<K(!new), T(!new)>(table: seq<Stored<K>>, index: map<K, nat>, regs: seq<Reg<K, T>>, i: nat)
    requires IndexOk(table, index) && CountsMatch(table, index, regs) && i < |table| && table[i].refs > 0
    ensures table[i].key in index && index[table[i].key] == i && table[i].refs == Count(regs, table[i].key)
  {
    assert RefsOf(table, index, table[i].key) == Count(regs, table[i].key);
  }

  // ---- Rows: a record with its count and the units that registered it.

  function TaggedRegs<K(!new), T(!new)>(k: K, tus: seq<T>): seq<Reg<K, T>> {
    if tus == [] then [] else TaggedRegs(k, tus[..|tus| - 1]) + [Reg(k, Some(tus[|tus| - 1]))]
  }

  /** The registrations a row stands for: the tagged ones, then the rest. */
  function Block<K(!new), T(!new)>(k: K, refs: nat, tus: seq<T>): seq<Reg<K, T>>
    requires |tus| <= refs
  {
    TaggedRegs(k, tus) + Copies(Reg(k, None), refs - |tus|)
  }

  lemma {:induction false} TaggedCounts<K(!new), T(!new)>(k: K, tus: seq<T>, x: Reg<K, T>)
    ensures multiset(TaggedRegs(k, tus))[x] == if x.record == k && x.tu.Some? then multiset(tus)[x.tu.value] else 0
    decreases |tus|
  {
    if tus != [] {
      var most, t := tus[..|tus| - 1], tus[|tus| - 1];
      Split(tus);
      TaggedCounts(k, most, x);
      assert multiset(tus) == multiset(most) + multiset{t};
      SnocMultiset(TaggedRegs(k, most), Reg(k, Some(t)));
    }
  }

  lemma BlockCounts<K(!new), T(!new)>(k: K, refs: nat, tus: seq<T>, x: Reg<K, T>)
    requires |tus| <= refs
    ensures multiset(Block(k, refs, tus))[x] ==
            if x.record != k then 0 else if x.tu.Some? then multiset(tus)[x.tu.value] else refs - |tus|
  {
    hide Copies, TaggedRegs;
    TaggedCounts(k, tus, x);
    CopiesMultiset(TaggedRegs(k, tus), Reg(k, None), refs - |tus|, x);
  }

  lemma OneTag<K(!new), T(!new)>(regs: seq<Reg<K, T>>, k: K, tus: seq<T>, j: nat)
    requires j < |tus|
    ensures regs + TaggedRegs(k, tus[..j + 1]) == (regs + TaggedRegs(k, tus[..j])) + [Reg(k, Some(tus[j]))]
  {
    assert tus[..j + 1][..j] == tus[..j];
  }

  /** The units of a row are those that registered record `k`, as often. */
  ghost predicate UnitsOfRecord<K(!new), T(!new)>(regs: seq<Reg<K, T>>, k: K, refs: nat, tus: seq<T>) {
    && |tus| <= refs && refs - |tus| == multiset(regs)[Reg(k, None)]
    && forall t :: multiset(tus)[t] == multiset(regs)[Reg(k, Some(t))]
  }

  /** Adding the row of record `i` replays it. */
  lemma ReplayBlock<K(!new), T(!new)>(regs: seq<Reg<K, T>>, table: seq<Stored<K>>, index: map<K, nat>, before: seq<Reg<K, T>>, k: K, refs: nat, tus: seq<T>, i: nat)
    requires Replayed([], before, regs, index, i, {}) && IndexOk(table, index)
    requires k in index && index[k] == i && UnitsOfRecord(regs, k, refs, tus)
    ensures Replayed([], before + Block(k, refs, tus), regs, index, i + 1, {})
  {
    hide Block;
    var none: seq<Reg<K, T>> := [];
    forall x: Reg<K, T> ensures multiset(before + Block(k, refs, tus))[x] == multiset(none)[x] + if IsReplayed(x, index, i + 1, {}) then multiset(regs)[x] else 0 {
      BlockCounts(k, refs, tus, x);
      assert multiset(before + Block(k, refs, tus)) == multiset(before) + multiset(Block(k, refs, tus));
      if x.record == k {
        assert x == if x.tu.Some? then Reg(k, Some(x.tu.value)) else Reg(k, None);
      }
    }
  }

  lemma {:induction false} MoreCopies<T(!new)>(s: seq<T>, x: T, n: nat)
    ensures forall t :: multiset(s + Copies(x, n))[t] == multiset(s)[t] + if t == x then n else 0
    decreases n
  {
    if n == 0 {
      assert s + Copies(x, 0) == s;
    } else {
      CopiesSnoc(s, x, n);
      hide Copies;
      MoreCopies(s, x, n - 1);
      var a := s + Copies(x, n - 1);
      assert multiset(a + [x]) == multiset(a) + multiset{x};
    }
  }

  /** The units that registered record `i`, with repetitions. */
  method UnitsOf<K(!new), T(==, !new)>(table: seq<Stored<K>>, ghost index: map<K, nat>, units: map<T, seq<nat>>, ghost regs: seq<Reg<K, T>>, i: nat) returns (tus: seq<T>)
    requires IndexOk(table, index) && CountsMatch(table, index, regs) && UnitsMatch(units, index, regs) && i < |table| && table[i].refs > 0
    ensures |tus| <= table[i].refs && UnitsOfRecord(regs, table[i].key, table[i].refs, tus) && forall j :: 0 <= j < |tus| ==> tus[j] in units
  {
    hide IndexOk, CountsMatch, UnitsMatch, Occurrences, Count, TaggedCount, Positions, Copies, OneToOne;
    ghost var k := table[i].key;
    StoredAt(table, index, regs, i);
    TagsHaveLists(table, index, units, regs, k);
    TaggedNone(regs, k);
    tus := [];
    var left := units.Keys;
    assert units.Keys - left == {};
    while left != {}
      invariant left <= units.Keys
      invariant |tus| == TaggedCount(regs, k, units.Keys - left) <= table[i].refs
      invariant forall j :: 0 <= j < |tus| ==> tus[j] in units
      invariant forall t :: multiset(tus)[t] == if t in units.Keys - left then multiset(regs)[Reg(k, Some(t))] else 0
      decreases left
    {
      var tu :| tu in left;
      ghost var done := units.Keys - left;
      UnitList(units, index, regs, tu);
      OccurrencesAreRegs(regs, tu, index, k);
      TaggedNext(regs, k, done, tu);
      var n := Occurrences(units[tu], i);
      CopiesAll(tu, n);
      MoreCopies(tus, tu, n);
      tus := tus + Copies(tu, n);
      assert units.Keys - (left - {tu}) == done + {tu};
      left := left - {tu};
    }
    assert units.Keys - {} == units.Keys;
    TaggedAll(regs, k, units.Keys);
    forall t ensures multiset(tus)[t] == multiset(regs)[Reg(k, Some(t))] {
      assert Reg(k, Some(t)) in regs <==> Reg(k, Some(t)) in multiset(regs);
    }
  }

  // ---- Installing a row: its record is stored at once with its full count,
  // ---- then its position is pushed to the list of each of its units.

  /** The first `j` units have the position of `k`. */
  ghost predicate UnitsPushed<K(!new), T(!new)>(units: map<T, seq<nat>>, index: map<K, nat>, regs: seq<Reg<K, T>>, k: K, tus: seq<T>, j: nat) {
    j <= |tus| && UnitsMatch(units, index, regs + TaggedRegs(k, tus[..j]))
  }

  lemma PushStart<K(!new), T(!new)>(table0: seq<Stored<K>>, index0: map<K, nat>, table: seq<Stored<K>>, index: map<K, nat>,
                                    units: map<T, seq<nat>>, regs: seq<Reg<K, T>>, k: K, refs: nat, tus: seq<T>)
    requires IndexOk(table0, index0) && CountsMatch(table0, index0, regs) && UnitsMatch(units, index0, regs)
    requires Raised(table0, index0, table, index, k, refs)
    ensures UnitsPushed(units, index, regs, k, tus, 0)
  {
    hide Positions, RefsOf;
    CountsCover(table0, index0, regs);
    hide IndexOk;
    assert regs + TaggedRegs(k, tus[..0]) == regs;
    forall t ensures Bucket(units, t) == Positions(regs, t, index) {
      PositionsSameIndex(regs, t, index0, index);
      assert Bucket(units, t) == Positions(regs, t, index0);
    }
  }

  lemma PushNext<K(!new), T(!new)>(units: map<T, seq<nat>>, index: map<K, nat>, regs: seq<Reg<K, T>>, k: K, tus: seq<T>, j: nat)
    requires UnitsPushed(units, index, regs, k, tus, j) && j < |tus| && k in index
    ensures UnitsPushed(units[tus[j] := Bucket(units, tus[j]) + [index[k]]], index, regs, k, tus, j + 1)
  {
    hide Positions, TaggedRegs;
    var units' := units[tus[j] := Bucket(units, tus[j]) + [index[k]]];
    OneTag(regs, k, tus, j);
    forall t ensures Bucket(units', t) == Positions(regs + TaggedRegs(k, tus[..j + 1]), t, index) {
      PositionsSnoc(regs + TaggedRegs(k, tus[..j]), Reg(k, Some(tus[j])), t, index);
      assert Bucket(units, t) == Positions(regs + TaggedRegs(k, tus[..j]), t, index);
    }
  }

  lemma {:induction false} CountTagged<K(!new), T(!new)>(regs: seq<Reg<K, T>>, e: K, tus: seq<T>, k: K)
    ensures Count(regs + TaggedRegs(e, tus), k) == Count(regs, k) + if k == e then |tus| else 0
    decreases |tus|
  {
    if tus == [] {
      assert regs + TaggedRegs(e, tus) == regs;
    } else {
      var j := |tus| - 1;
      assert tus[..j + 1] == tus;
      OneTag(regs, e, tus, j);
      hide Count, TaggedRegs;
      CountTagged(regs, e, tus[..j], k);
      CountSnoc(regs + TaggedRegs(e, tus[..j]), Reg(e, Some(tus[j])), k);
    }
  }

  /** A row's tagged and untagged registrations, once its record is stored. */
  lemma BlockMatches<K(!new), T(!new)>(table0: seq<Stored<K>>, index0: map<K, nat>, table: seq<Stored<K>>, index: map<K, nat>,
                                       units: map<T, seq<nat>>, regs: seq<Reg<K, T>>, e: K, refs: nat, tus: seq<T>)
    requires CountsMatch(table0, index0, regs) && Raised(table0, index0, table, index, e, refs) && e in index
    requires |tus| <= refs && UnitsPushed(units, index, regs, e, tus, |tus|)
    ensures CountsMatch(table, index, regs + Block(e, refs, tus))
    ensures UnitsMatch(units, index, regs + Block(e, refs, tus))
  {
    hide Positions, Count, TaggedRegs, Copies, RefsOf;
    var tagged, rest := regs + TaggedRegs(e, tus), refs - |tus|;
    assert tus[..|tus|] == tus;
    assert regs + Block(e, refs, tus) == tagged + Copies(Reg(e, None), rest);
    forall k ensures RefsOf(table, index, k) == Count(regs + Block(e, refs, tus), k) {
      CountTagged(regs, e, tus, k);
      CountCopies(tagged, Reg(e, None), rest, k);
      assert RefsOf(table0, index0, k) == Count(regs, k);
    }
    forall t ensures Bucket(units, t) == Positions(regs + Block(e, refs, tus), t, index) {
      PositionsCopies(tagged, Reg(e, None), rest, t, index);
      assert Bucket(units, t) == Positions(tagged, t, index);
    }
  }
}
