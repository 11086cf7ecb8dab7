/** A refcounted table: records stored once with a count of registrations,
    found by content, with per-unit lists of positions.  Records whose count
    drops to 0 stay as tombstones until the table is compacted. */
module RefTable {
  import opened GraphTypes
  import opened Interner
  import opened Registry

  /** `refs` counts registrations; 0 is a tombstone. */
  datatype Stored<K> = Stored(key: K, refs: nat)

  function Bucket<C, T>(m: map<C, seq<T>>, k: C): seq<T> {
    if k in m then m[k] else []
  }

  /** The content index names exactly the live records. */
  ghost predicate IndexOk<K(!new)>(table: seq<Stored<K>>, index: map<K, nat>) {
    && (forall k :: k in index ==> index[k] < |table| && table[index[k]].key == k && table[index[k]].refs > 0)
    && (forall i :: 0 <= i < |table| && table[i].refs > 0 ==> table[i].key in index && index[table[i].key] == i)
  }

  ghost function RefsOf<K>(table: seq<Stored<K>>, index: map<K, nat>, k: K): nat {
    if k in index && index[k] < |table| then table[index[k]].refs else 0
  }

  /** The reference counts add up the registrations. */
  ghost predicate CountsMatch<K(!new), T(!new)>(table: seq<Stored<K>>, index: map<K, nat>, regs: seq<Reg<K, T>>) {
    forall k :: RefsOf(table, index, k) == Count(regs, k)
  }

  /** Each unit's list holds the positions it registered, in order. */
  ghost predicate UnitsMatch<K(!new), T(!new)>(units: map<T, seq<nat>>, index: map<K, nat>, regs: seq<Reg<K, T>>) {
    forall tu :: Bucket(units, tu) == Positions(regs, tu, index)
  }

  function Keep(s: seq<nat>, dead: set<nat>): seq<nat> {
    if s == [] then []
    else
      var rest := Keep(s[..|s| - 1], dead);
      if s[|s| - 1] in dead then rest else rest + [s[|s| - 1]]
  }

  lemma {:induction false} KeepNone(s: seq<nat>, dead: set<nat>)
    requires forall x :: x in s ==> x !in dead
    ensures Keep(s, dead) == s
    decreases |s|
  {
    if s != [] {
      KeepNone(s[..|s| - 1], dead);
      assert s[|s| - 1] in s;
    }
  }

  lemma CountsCover<K(!new), T(!new)>(table: seq<Stored<K>>, index: map<K, nat>, regs: seq<Reg<K, T>>)
    requires IndexOk(table, index) && CountsMatch(table, index, regs)
    ensures forall i :: 0 <= i < |regs| ==> regs[i].record in index
  {
    forall i | 0 <= i < |regs| ensures regs[i].record in index {
      CountPositive(regs, regs[i].record);
      assert RefsOf(table, index, regs[i].record) == Count(regs, regs[i].record);
    }
  }

  // ---- One registration more.

  /** The table holds `n` more registrations of `e`, and every record that
      was stored is where it was. */
  ghost predicate Raised<K(!new)>(table0: seq<Stored<K>>, index0: map<K, nat>, table: seq<Stored<K>>, index: map<K, nat>,
                         e: K, n: nat)
  {
    && (forall k :: k in index0 ==> k in index && index[k] == index0[k])
    && index.Keys == index0.Keys + {e}
    && (forall k :: RefsOf(table, index, k) == RefsOf(table0, index0, k) + if k == e then n else 0)
  }

  lemma RaiseCount<K(!new)>(table: seq<Stored<K>>, index: map<K, nat>, e: K, n: nat)
    requires IndexOk(table, index) && e in index && n > 0
    ensures index[e] < |table| && table[index[e]].key == e && table[index[e]].refs > 0
    ensures IndexOk(table[index[e] := table[index[e]].(refs := table[index[e]].refs + n)], index)
    ensures Raised(table, index, table[index[e] := table[index[e]].(refs := table[index[e]].refs + n)], index, e, n)
  {
    var idx := index[e];
    var table' := table[idx := table[idx].(refs := table[idx].refs + n)];
    forall k ensures RefsOf(table', index, k) == RefsOf(table, index, k) + if k == e then n else 0 {
    }
  }

  lemma AppendRecord<K(!new)>(table: seq<Stored<K>>, index: map<K, nat>, e: K, n: nat)
    requires IndexOk(table, index) && e !in index && n > 0
    ensures IndexOk(table + [Stored(e, n)], index[e := |table|])
    ensures Raised(table, index, table + [Stored(e, n)], index[e := |table|], e, n)
    ensures |index[e := |table|]| == |index| + 1
  {
    hide IndexOk, RefsOf;
    var table', index' := table + [Stored(e, n)], index[e := |table|];
    assert index'.Keys == index.Keys + {e};
    assert |index'.Keys| == |index.Keys| + 1;
    AppendIndexOk(table, index, e, n);
    forall k ensures RefsOf(table', index', k) == RefsOf(table, index, k) + if k == e then n else 0 {
      AppendRefs(table, index, e, n, k);
    }
  }

  lemma AppendRefs<K(!new)>(table: seq<Stored<K>>, index: map<K, nat>, e: K, n: nat, k: K)
    requires IndexOk(table, index) && e !in index && n > 0
    ensures RefsOf(table + [Stored(e, n)], index[e := |table|], k) ==
            RefsOf(table, index, k) + if k == e then n else 0
  {
  }

  lemma AppendIndexOk<K(!new)>(table: seq<Stored<K>>, index: map<K, nat>, e: K, n: nat)
    requires IndexOk(table, index) && e !in index && n > 0
    ensures IndexOk(table + [Stored(e, n)], index[e := |table|])
  {
    var table', index' := table + [Stored(e, n)], index[e := |table|];
    forall k | k in index' ensures index'[k] < |table'| && table'[index'[k]].key == k && table'[index'[k]].refs > 0 {
      if k != e {
        assert table'[index[k]] == table[index[k]];
      }
    }
    forall i | 0 <= i < |table'| && table'[i].refs > 0 ensures table'[i].key in index' && index'[table'[i].key] == i {
      if i < |table| {
        assert table'[i] == table[i];
      }
    }
  }

  /** Releasing one registration of the record at `idx`. */
  lemma ReleaseOne<K(!new)>(table: seq<Stored<K>>, index: map<K, nat>, idx: nat)
    requires IndexOk(table, index) && idx < |table| && table[idx].refs > 0
    ensures var table' := table[idx := table[idx].(refs := table[idx].refs - 1)];
            var index' := if table'[idx].refs == 0 then index - {table[idx].key} else index;
            && IndexOk(table', index')
            && (table'[idx].refs == 0 ==> |index'| == |index| - 1)
            && forall k :: RefsOf(table', index', k) + (if k == table[idx].key then 1 else 0) == RefsOf(table, index, k)
  {
    hide IndexOk, RefsOf;
    ReleaseIndexOk(table, index, idx);
    var table' := table[idx := table[idx].(refs := table[idx].refs - 1)];
    var index' := if table'[idx].refs == 0 then index - {table[idx].key} else index;
    assert table'[idx].refs == 0 ==> index.Keys == index'.Keys + {table[idx].key} && table[idx].key !in index'.Keys;
    forall k ensures RefsOf(table', index', k) + (if k == table[idx].key then 1 else 0) == RefsOf(table, index, k) {
      ReleaseRefs(table, index, idx, k);
    }
  }

  lemma ReleaseRefs<K(!new)>(table: seq<Stored<K>>, index: map<K, nat>, idx: nat, k: K)
    requires IndexOk(table, index) && idx < |table| && table[idx].refs > 0
    ensures var table' := table[idx := table[idx].(refs := table[idx].refs - 1)];
            var index' := if table'[idx].refs == 0 then index - {table[idx].key} else index;
            RefsOf(table', index', k) + (if k == table[idx].key then 1 else 0) == RefsOf(table, index, k)
  {
  }

  lemma ReleaseIndexOk<K(!new)>(table: seq<Stored<K>>, index: map<K, nat>, idx: nat)
    requires IndexOk(table, index) && idx < |table| && table[idx].refs > 0
    ensures table[idx].key in index
    ensures var table' := table[idx := table[idx].(refs := table[idx].refs - 1)];
            IndexOk(table', if table'[idx].refs == 0 then index - {table[idx].key} else index)
  {
    var table' := table[idx := table[idx].(refs := table[idx].refs - 1)];
    var index' := if table'[idx].refs == 0 then index - {table[idx].key} else index;
    forall k | k in index' ensures index'[k] < |table'| && table'[index'[k]].key == k && table'[index'[k]].refs > 0 {
      assert table[index[k]].key == k;
    }
  }

  lemma AppendMatches<K(!new), T(!new)>(table0: seq<Stored<K>>, index0: map<K, nat>, table: seq<Stored<K>>, index: map<K, nat>,
                      tu0: map<T, seq<nat>>, tu: map<T, seq<nat>>, regs: seq<Reg<K, T>>, r: Reg<K, T>)
    requires IndexOk(table0, index0) && IndexOk(table, index)
    requires CountsMatch(table0, index0, regs) && UnitsMatch(tu0, index0, regs)
    requires Raised(table0, index0, table, index, r.record, 1)
    requires r.tu.None? ==> tu == tu0
    requires r.tu.Some? ==> tu == tu0[r.tu.value := Bucket(tu0, r.tu.value) + [index[r.record]]]
    ensures CountsMatch(table, index, regs + [r]) && UnitsMatch(tu, index, regs + [r])
  {
    hide Count, Positions;
    CountsCover(table0, index0, regs);
    forall k ensures RefsOf(table, index, k) == Count(regs + [r], k) {
      CountSnoc(regs, r, k);
    }
    forall t ensures Bucket(tu, t) == Positions(regs + [r], t, index) {
      PositionsSameIndex(regs, t, index0, index);
      PositionsSnoc(regs, r, t, index);
      assert Bucket(tu0, t) == Positions(regs, t, index0);
    }
  }

  // ---- Release of a unit.

  /** While a unit is being released, the counts are what the rest registered
      plus what is still on the unit's list. */
  ghost predicate Pending<K(!new), T(!new)>(table: seq<Stored<K>>, index: map<K, nat>, index0: map<K, nat>, rest: seq<Reg<K, T>>, list: seq<nat>) {
    && (forall k :: k in index ==> k in index0 && index[k] == index0[k])
    && (forall k :: k in index0 ==> RefsOf(table, index, k) == Count(rest, k) + Occurrences(list, index0[k]))
  }

  ghost predicate OneToOne<K(!new)>(index: map<K, nat>) {
    forall k, l :: k in index && l in index && index[k] == index[l] ==> k == l
  }

  ghost predicate ListOk<K(!new)>(table: seq<Stored<K>>, index0: map<K, nat>, list: seq<nat>) {
    forall j :: 0 <= j < |list| ==>
      list[j] < |table| && table[list[j]].key in index0 && index0[table[list[j]].key] == list[j]
  }

  lemma {:induction false} PositionsInIndex<K(!new), T(!new)>(regs: seq<Reg<K, T>>, tu: T, index: map<K, nat>, j: nat)
    requires j < |Positions(regs, tu, index)|
    ensures exists k :: k in index && index[k] == Positions(regs, tu, index)[j]
    decreases |regs|
  {
    var most := regs[..|regs| - 1];
    if j < |Positions(most, tu, index)| {
      PositionsInIndex(most, tu, index, j);
    }
  }

  lemma PendingStart<K(!new), T(!new)>(table: seq<Stored<K>>, index: map<K, nat>, units: map<T, seq<nat>>, regs: seq<Reg<K, T>>, tu: T, list: seq<nat>)
    requires IndexOk(table, index) && CountsMatch(table, index, regs) && UnitsMatch(units, index, regs)
    requires list == Bucket(units, tu)
    ensures OneToOne(index)
    ensures Pending(table, index, index, Without(regs, {tu}), list)
    ensures ListOk(table, index, list)
  {
    assert list == Positions(regs, tu, index);
    hide Occurrences, Count, Without, Positions;
    CountsCover(table, index, regs);
    forall k | k in index ensures RefsOf(table, index, k) == Count(Without(regs, {tu}), k) + Occurrences(list, index[k]) {
      assert RefsOf(table, index, k) == Count(regs, k);
      CountWithout(regs, tu, index, k);
    }
    forall j | 0 <= j < |list|
      ensures list[j] < |table| && table[list[j]].key in index && index[table[list[j]].key] == list[j]
    {
      PositionsInIndex(regs, tu, index, j);
    }
  }

  /** Releasing the next position: what it leaves behind. */
  lemma PendingNext<K(!new), T(!new)>(table: seq<Stored<K>>, index: map<K, nat>, index0: map<K, nat>, rest: seq<Reg<K, T>>, list: seq<nat>, m: nat)
    requires IndexOk(table, index) && m < |list| && Pending(table, index, index0, rest, list[m..])
    requires ListOk(table, index0, list)
    requires OneToOne(index0)
    ensures list[m] < |table| && table[list[m]].refs > 0
    ensures var table' := table[list[m] := table[list[m]].(refs := table[list[m]].refs - 1)];
            var index' := if table'[list[m]].refs == 0 then index - {table[list[m]].key} else index;
            && IndexOk(table', index') && Pending(table', index', index0, rest, list[m + 1..])
            && ListOk(table', index0, list)
            && (table'[list[m]].refs == 0 ==> |index'| == |index| - 1)
  {
    hide Occurrences, Count, IndexOk;
    var idx := list[m];
    var e := table[idx].key;
    assert list[m..] == [idx] + list[m + 1..];
    OccurrencesCons(idx, list[m + 1..], idx);
    assert RefsOf(table, index, e) == Count(rest, e) + Occurrences(list[m..], idx);
    ReleaseOne(table, index, idx);
    var table' := table[idx := table[idx].(refs := table[idx].refs - 1)];
    var index' := if table'[idx].refs == 0 then index - {e} else index;
    forall k | k in index0 ensures RefsOf(table', index', k) == Count(rest, k) + Occurrences(list[m + 1..], index0[k]) {
      OccurrencesCons(idx, list[m + 1..], index0[k]);
      assert RefsOf(table, index, k) == Count(rest, k) + Occurrences(list[m..], index0[k]);
    }
    forall j | 0 <= j < |list|
      ensures list[j] < |table'| && table'[list[j]].key in index0 && index0[table'[list[j]].key] == list[j]
    {
      assert table'[list[j]].key == table[list[j]].key;
    }
  }

  lemma PendingEnd<K(!new), T(!new)>(table: seq<Stored<K>>, index: map<K, nat>, table0: seq<Stored<K>>, index0: map<K, nat>,
                   units: map<T, seq<nat>>, regs: seq<Reg<K, T>>, tu: T)
    requires IndexOk(table, index) && Pending(table, index, index0, Without(regs, {tu}), [])
    requires IndexOk(table0, index0) && CountsMatch(table0, index0, regs) && UnitsMatch(units, index0, regs)
    ensures CountsMatch(table, index, Without(regs, {tu}))
    ensures UnitsMatch(units - {tu}, index, Without(regs, {tu}))
  {
    var rest := Without(regs, {tu});
    CountsCover(table0, index0, regs);
    forall k ensures RefsOf(table, index, k) == Count(rest, k) {
      if k !in index0 {
        CountPositive(rest, k);
        forall i | 0 <= i < |rest| ensures rest[i].record in index0 {
          WithoutMember(regs, {tu}, rest[i]);
        }
      }
    }
    CountsCover(table, index, rest);
    forall t ensures Bucket(units - {tu}, t) == Positions(rest, t, index) {
      PositionsSameIndex(rest, t, index, index0);
      assert Bucket(units, t) == Positions(regs, t, index0);
      if t == tu {
        PositionsOfRemoved(regs, {tu}, t, index0);
      } else {
        PositionsOfOther(regs, {tu}, t, index0);
      }
    }
  }

  // ---- Compaction.

  /** The live records among the first `n`, in order. */
  ghost function LiveOf<K>(table: seq<Stored<K>>, n: nat): seq<Stored<K>>
    requires n <= |table|
  {
    if n == 0 then []
    else
      var rest := LiveOf(table, n - 1);
      if table[n - 1].refs > 0 then rest + [table[n - 1]] else rest
  }

  /** The live records among the first `n`, with their counts, are the new table. */
  ghost predicate Compacted<K(!new)>(table: seq<Stored<K>>, index: map<K, nat>, n: nat,
                            newTable: seq<Stored<K>>, newIndex: map<K, nat>, remap: map<nat, nat>)
  {
    && (forall k :: k in newIndex <==> k in index && index[k] < n)
    && (forall k :: k in newIndex ==> k in index && index[k] in remap && remap[index[k]] == newIndex[k])
    && (forall i :: i in remap ==> i < n && i < |table| && table[i].refs > 0)
    && (forall k :: k in newIndex ==> RefsOf(newTable, newIndex, k) == RefsOf(table, index, k))
    && (forall i :: 0 <= i < |newTable| ==> newTable[i].refs > 0)
    && |newTable| == |newIndex|
  }

  lemma CompactSkip<K(!new)>(table: seq<Stored<K>>, index: map<K, nat>, n: nat,
                    newTable: seq<Stored<K>>, newIndex: map<K, nat>, remap: map<nat, nat>)
    requires IndexOk(table, index) && n < |table| && table[n].refs == 0
    requires Compacted(table, index, n, newTable, newIndex, remap)
    ensures Compacted(table, index, n + 1, newTable, newIndex, remap)
  {
    hide RefsOf;
    assert forall k :: k in index ==> index[k] != n;
  }

  lemma CompactKeep<K(!new)>(table: seq<Stored<K>>, index: map<K, nat>, n: nat,
                    newTable: seq<Stored<K>>, newIndex: map<K, nat>, remap: map<nat, nat>)
    requires IndexOk(table, index) && IndexOk(newTable, newIndex) && n < |table| && table[n].refs > 0
    requires Compacted(table, index, n, newTable, newIndex, remap)
    ensures table[n].key !in newIndex
    ensures Compacted(table, index, n + 1, newTable + [table[n]], newIndex[table[n].key := |newTable|], remap[n := |newTable|])
  {
    var e := table[n].key;
    assert e in index && index[e] == n;
    assert forall k :: k in index && index[k] == n ==> k == e;
    KeepRefs(table, index, n, newTable, newIndex, remap);
    hide IndexOk, RefsOf;
    var newIndex' := newIndex[e := |newTable|];
    assert newIndex'.Keys == newIndex.Keys + {e};
    assert |newIndex'.Keys| == |newIndex.Keys| + 1;
  }

  lemma KeepRefs<K(!new)>(table: seq<Stored<K>>, index: map<K, nat>, n: nat,
                 newTable: seq<Stored<K>>, newIndex: map<K, nat>, remap: map<nat, nat>)
    requires IndexOk(table, index) && IndexOk(newTable, newIndex) && n < |table| && table[n].refs > 0
    requires Compacted(table, index, n, newTable, newIndex, remap)
    ensures table[n].key !in newIndex
    ensures var newIndex' := newIndex[table[n].key := |newTable|];
            forall k :: k in newIndex' ==> RefsOf(newTable + [table[n]], newIndex', k) == RefsOf(table, index, k)
  {
    var e := table[n].key;
    assert e in index && index[e] == n && RefsOf(table, index, e) == table[n].refs;
    assert e !in newIndex;
    var newIndex' := newIndex[e := |newTable|];
    forall k | k in newIndex' ensures RefsOf(newTable + [table[n]], newIndex', k) == RefsOf(table, index, k) {
      AppendRefs(newTable, newIndex, e, table[n].refs, k);
      assert table[n] == Stored(e, table[n].refs);
      if k != e {
        assert k in newIndex;
      }
    }
  }

  /** The positions that survive, renumbered. */
  function Renumber(s: seq<nat>, remap: map<nat, nat>): seq<nat> {
    if s == [] then []
    else
      var rest := Renumber(s[..|s| - 1], remap);
      if s[|s| - 1] in remap then rest + [remap[s[|s| - 1]]] else rest
  }

  lemma RenumberSnoc(s: seq<nat>, x: nat, remap: map<nat, nat>)
    ensures Renumber(s + [x], remap) == if x in remap then Renumber(s, remap) + [remap[x]] else Renumber(s, remap)
  {
    assert (s + [x])[..|s|] == s;
  }

  method RemapUnits<T(==, !new)>(units: map<T, seq<nat>>, remap: map<nat, nat>) returns (r: map<T, seq<nat>>)
    ensures r.Keys <= units.Keys
    ensures forall tu :: Bucket(r, tu) == Renumber(Bucket(units, tu), remap)
  {
    r := map[];
    var left := units.Keys;
    while left != {}
      invariant left <= units.Keys && r.Keys <= units.Keys
      invariant forall tu :: tu in left ==> tu !in r
      invariant forall tu :: Bucket(r, tu) == if tu in left then [] else Renumber(Bucket(units, tu), remap)
      decreases left
    {
      var tu :| tu in left;
      var list := Renumber(units[tu], remap);
      if list != [] {
        r := r[tu := list];
      }
      left := left - {tu};
    }
  }

  lemma {:induction false} RenumberPositions<K(!new), T(!new)>(regs: seq<Reg<K, T>>, tu: T, index: map<K, nat>, newIndex: map<K, nat>, remap: map<nat, nat>)
    requires forall i :: 0 <= i < |regs| ==>
               regs[i].record in index && regs[i].record in newIndex &&
               index[regs[i].record] in remap && remap[index[regs[i].record]] == newIndex[regs[i].record]
    ensures Renumber(Positions(regs, tu, index), remap) == Positions(regs, tu, newIndex)
    decreases |regs|
  {
    if regs != [] {
      hide Positions, Renumber;
      var r, most := regs[|regs| - 1], regs[..|regs| - 1];
      Split(regs);
      RenumberPositions(most, tu, index, newIndex, remap);
      PositionsSnoc(most, r, tu, index);
      PositionsSnoc(most, r, tu, newIndex);
      RenumberSnoc(Positions(most, tu, index), index[r.record], remap);
    }
  }

  lemma CompactMatches<K(!new), T(!new)>(table: seq<Stored<K>>, index: map<K, nat>, newTable: seq<Stored<K>>, newIndex: map<K, nat>,
                       remap: map<nat, nat>, units: map<T, seq<nat>>, newUnits: map<T, seq<nat>>, regs: seq<Reg<K, T>>)
    requires IndexOk(table, index) && IndexOk(newTable, newIndex)
    requires CountsMatch(table, index, regs) && UnitsMatch(units, index, regs)
    requires Compacted(table, index, |table|, newTable, newIndex, remap)
    requires forall tu :: Bucket(newUnits, tu) == Renumber(Bucket(units, tu), remap)
    ensures CountsMatch(newTable, newIndex, regs) && UnitsMatch(newUnits, newIndex, regs)
    ensures newIndex.Keys == index.Keys && |newIndex| == |index| && |newTable| == |index|
    ensures forall i :: 0 <= i < |newTable| ==> newTable[i].refs > 0
  {
    hide Positions, Renumber, Count;
    assert newIndex.Keys == index.Keys;
    assert |newIndex.Keys| == |index.Keys|;
    forall k ensures RefsOf(newTable, newIndex, k) == Count(regs, k) {
      assert RefsOf(table, index, k) == Count(regs, k);
    }
    CountsCover(table, index, regs);
    forall tu ensures Bucket(newUnits, tu) == Positions(regs, tu, newIndex) {
      assert Bucket(units, tu) == Positions(regs, tu, index);
      RenumberPositions(regs, tu, index, newIndex, remap);
    }
  }
}
