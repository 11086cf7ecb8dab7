/** The stable counting sort behind a snapshot's lookup arrays, and the range of
    equal keys that a binary search finds in its result. */
module CountingSort {
  import opened Registry

  /** The items with key `k`, in their order. */
  ghost function WithKey(items: seq<nat>, keyOf: nat -> nat, k: nat): seq<nat> {
    if items == [] then []
    else
      var rest := WithKey(items[..|items| - 1], keyOf, k);
      if keyOf(items[|items| - 1]) == k then rest + [items[|items| - 1]] else rest
  }

  /** The items with a key below `n`, by key and stably. */
  ghost function Grouped(items: seq<nat>, keyOf: nat -> nat, n: nat): seq<nat> {
    if n == 0 then [] else Grouped(items, keyOf, n - 1) + WithKey(items, keyOf, n - 1)
  }

  ghost function Below(items: seq<nat>, keyOf: nat -> nat, k: nat): nat {
    |Grouped(items, keyOf, k)|
  }

  lemma WithKeySnoc(items: seq<nat>, x: nat, keyOf: nat -> nat, k: nat)
    ensures WithKey(items + [x], keyOf, k) == if keyOf(x) == k then WithKey(items, keyOf, k) + [x] else WithKey(items, keyOf, k)
  {
    assert (items + [x])[..|items|] == items;
  }

  lemma WithKeyNext(items: seq<nat>, i: nat, keyOf: nat -> nat, k: nat)
    requires i < |items|
    ensures WithKey(items[..i + 1], keyOf, k) ==
            if keyOf(items[i]) == k then WithKey(items[..i], keyOf, k) + [items[i]] else WithKey(items[..i], keyOf, k)
  {
    assert items[..i + 1] == items[..i] + [items[i]];
    WithKeySnoc(items[..i], items[i], keyOf, k);
  }

  lemma {:induction false} WithKeyPrefix(items: seq<nat>, i: nat, keyOf: nat -> nat, k: nat)
    requires i <= |items|
    ensures WithKey(items[..i], keyOf, k) <= WithKey(items, keyOf, k)
    decreases |items| - i
  {
    if i == |items| {
      assert items[..i] == items;
    } else {
      WithKeyNext(items, i, keyOf, k);
      WithKeyPrefix(items, i + 1, keyOf, k);
    }
  }

  lemma {:induction false} WithKeyMember(items: seq<nat>, keyOf: nat -> nat, k: nat, j: nat)
    requires j < |WithKey(items, keyOf, k)|
    ensures keyOf(WithKey(items, keyOf, k)[j]) == k && WithKey(items, keyOf, k)[j] in items
    decreases |items|
  {
    var most := items[..|items| - 1];
    Split(items);
    if j < |WithKey(most, keyOf, k)| {
      WithKeyMember(most, keyOf, k, j);
    }
  }

  lemma {:induction false} WithKeyCount(items: seq<nat>, keyOf: nat -> nat, k: nat, x: nat)
    ensures multiset(WithKey(items, keyOf, k))[x] == if keyOf(x) == k then multiset(items)[x] else 0
    decreases |items|
  {
    if items != [] {
      var most, last := items[..|items| - 1], items[|items| - 1];
      Split(items);
      WithKeyCount(most, keyOf, k, x);
      assert multiset(items) == multiset(most) + multiset{last};
    }
  }

  lemma {:induction false} GroupedCount(items: seq<nat>, keyOf: nat -> nat, n: nat, x: nat)
    ensures multiset(Grouped(items, keyOf, n))[x] == if keyOf(x) < n then multiset(items)[x] else 0
  {
    if n > 0 {
      GroupedCount(items, keyOf, n - 1, x);
      WithKeyCount(items, keyOf, n - 1, x);
    }
  }

  /** Nothing is lost or added. */
  lemma GroupedIsAll(items: seq<nat>, keyOf: nat -> nat, n: nat)
    requires forall i :: 0 <= i < |items| ==> keyOf(items[i]) < n
    ensures multiset(Grouped(items, keyOf, n)) == multiset(items) && |Grouped(items, keyOf, n)| == |items|
  {
    var g := Grouped(items, keyOf, n);
    forall x ensures multiset(g)[x] == multiset(items)[x] {
      GroupedCount(items, keyOf, n, x);
      if x in items {
        var i :| 0 <= i < |items| && items[i] == x;
      }
    }
    assert multiset(g) == multiset(items);
    assert |multiset(g)| == |g| && |multiset(items)| == |items|;
  }

  lemma {:induction false} BelowGrows(items: seq<nat>, keyOf: nat -> nat, a: nat, b: nat)
    requires a <= b
    ensures Below(items, keyOf, a) <= Below(items, keyOf, b)
    ensures Grouped(items, keyOf, a) <= Grouped(items, keyOf, b)
    decreases b - a
  {
    if a < b {
      BelowGrows(items, keyOf, a, b - 1);
    }
  }

  /** Where the items with key `k` are. */
  lemma GroupAt(items: seq<nat>, keyOf: nat -> nat, n: nat, k: nat)
    requires k < n
    ensures Below(items, keyOf, k + 1) == Below(items, keyOf, k) + |WithKey(items, keyOf, k)| <= Below(items, keyOf, n)
    ensures Grouped(items, keyOf, n)[Below(items, keyOf, k)..Below(items, keyOf, k + 1)] == WithKey(items, keyOf, k)
  {
    BelowGrows(items, keyOf, k + 1, n);
    var g := Grouped(items, keyOf, k + 1);
    assert g == Grouped(items, keyOf, k) + WithKey(items, keyOf, k);
    assert g[Below(items, keyOf, k)..] == WithKey(items, keyOf, k);
  }

  /** Every place belongs to the group of some key. */
  lemma {:induction false} PlaceHasKey(items: seq<nat>, keyOf: nat -> nat, n: nat, p: nat) returns (k: nat)
    requires p < Below(items, keyOf, n)
    ensures k < n && Below(items, keyOf, k) <= p < Below(items, keyOf, k + 1)
  {
    if p >= Below(items, keyOf, n - 1) {
      k := n - 1;
    } else {
      k := PlaceHasKey(items, keyOf, n - 1, p);
    }
  }

  lemma KeyAtPlace(items: seq<nat>, keyOf: nat -> nat, n: nat, k: nat, p: nat)
    requires k < n && Below(items, keyOf, k) <= p < Below(items, keyOf, k + 1)
    ensures p < |Grouped(items, keyOf, n)| && keyOf(Grouped(items, keyOf, n)[p]) == k
  {
    GroupAt(items, keyOf, n, k);
    var j := p - Below(items, keyOf, k);
    WithKeyMember(items, keyOf, k, j);
    assert Grouped(items, keyOf, n)[Below(items, keyOf, k)..Below(items, keyOf, k + 1)][j] == Grouped(items, keyOf, n)[p];
  }

  // ---- The sort.

  ghost predicate Counted(starts: seq<nat>, items: seq<nat>, keyOf: nat -> nat, n: nat) {
    |starts| == n + 1 && starts[0] == 0 && forall k :: 0 < k <= n ==> starts[k] == |WithKey(items, keyOf, k - 1)|
  }

  ghost predicate Summed(starts: seq<nat>, items: seq<nat>, keyOf: nat -> nat, n: nat, m: nat) {
    && |starts| == n + 1 && m <= n
    && (forall k :: 0 <= k <= m ==> starts[k] == Below(items, keyOf, k))
    && (forall k :: m < k <= n ==> starts[k] == |WithKey(items, keyOf, k - 1)|)
  }

  /** The first `i` items are in their places. */
  ghost predicate Placed(starts: seq<nat>, out: seq<nat>, items: seq<nat>, keyOf: nat -> nat, n: nat, i: nat) {
    && |starts| == n + 1 && i <= |items| && |out| == |items|
    && forall k :: 0 <= k < n ==> GroupPlaced(starts, out, items, keyOf, i, k)
  }

  ghost predicate GroupPlaced(starts: seq<nat>, out: seq<nat>, items: seq<nat>, keyOf: nat -> nat, i: nat, k: nat)
    requires i <= |items| && k < |starts|
  {
    var done := WithKey(items[..i], keyOf, k);
    && starts[k] == Below(items, keyOf, k) + |done| <= |out|
    && out[Below(items, keyOf, k)..starts[k]] == done
  }

  method CountKeys(items: seq<nat>, keyOf: nat -> nat, n: nat) returns (starts: array<nat>)
    requires forall i :: 0 <= i < |items| ==> keyOf(items[i]) < n
    ensures fresh(starts) && Counted(starts[..], items, keyOf, n)
  {
    hide WithKey;
    starts := new nat[n + 1](_ => 0);
    CountedStart(starts[..], items, keyOf, n);
    for i := 0 to |items|
      invariant starts.Length == n + 1 && Counted(starts[..], items[..i], keyOf, n)
    {
      var x := keyOf(items[i]) + 1;
      ghost var before := starts[..];
      starts[x] := starts[x] + 1;
      assert starts[..] == before[x := before[x] + 1];
      CountedNext(before, items, keyOf, n, i);
    }
    assert items[..|items|] == items;
  }

  lemma CountedStart(starts: seq<nat>, items: seq<nat>, keyOf: nat -> nat, n: nat)
    requires |starts| == n + 1 && forall k :: 0 <= k <= n ==> starts[k] == 0
    ensures Counted(starts, items[..0], keyOf, n)
  {
  }

  lemma CountedNext(starts: seq<nat>, items: seq<nat>, keyOf: nat -> nat, n: nat, i: nat)
    requires i < |items| && Counted(starts, items[..i], keyOf, n) && keyOf(items[i]) < n
    ensures Counted(starts[keyOf(items[i]) + 1 := starts[keyOf(items[i]) + 1] + 1], items[..i + 1], keyOf, n)
  {
    hide WithKey;
    var starts' := starts[keyOf(items[i]) + 1 := starts[keyOf(items[i]) + 1] + 1];
    forall k | 0 < k <= n ensures starts'[k] == |WithKey(items[..i + 1], keyOf, k - 1)| {
      WithKeyNext(items, i, keyOf, k - 1);
    }
  }

  method SumKeys(starts: array<nat>, ghost items: seq<nat>, ghost keyOf: nat -> nat, n: nat)
    requires Counted(starts[..], items, keyOf, n)
    modifies starts
    ensures Summed(starts[..], items, keyOf, n, n)
  {
    hide WithKey;
    assert Grouped(items, keyOf, 0) == [];
    for k := 0 to n
      invariant starts.Length == n + 1 && Summed(starts[..], items, keyOf, n, k)
    {
      assert Below(items, keyOf, k + 1) == Below(items, keyOf, k) + |WithKey(items, keyOf, k)|;
      starts[k + 1] := starts[k + 1] + starts[k];
    }
  }

  /** Sort items by key, stably, in one pass over the items and one over the keys. */
  method OrderBy(items: seq<nat>, keyOf: nat -> nat, n: nat) returns (r: seq<nat>)
    requires forall i :: 0 <= i < |items| ==> keyOf(items[i]) < n
    ensures r == Grouped(items, keyOf, n)
    ensures multiset(r) == multiset(items)
  {
    hide WithKey, Grouped, Placed;
    GroupedIsAll(items, keyOf, n);
    var starts := CountKeys(items, keyOf, n);
    SumKeys(starts, items, keyOf, n);
    var out := new nat[|items|](_ => 0);
    PlacedStart(starts[..], out[..], items, keyOf, n);
    for i := 0 to |items|
      invariant starts.Length == n + 1 && Placed(starts[..], out[..], items, keyOf, n, i)
    {
      var k := keyOf(items[i]);
      ghost var starts0, out0 := starts[..], out[..];
      PlaceFree(starts0, out0, items, keyOf, n, i);
      out[starts[k]] := items[i];
      starts[k] := starts[k] + 1;
      assert starts[..] == starts0[k := starts0[k] + 1] && out[..] == out0[starts0[k] := items[i]];
      PlacedNext(starts0, out0, items, keyOf, n, i);
    }
    r := out[..];
    PlacedEnd(starts[..], r, items, keyOf, n);
  }

  lemma PlacedStart(starts: seq<nat>, out: seq<nat>, items: seq<nat>, keyOf: nat -> nat, n: nat)
    requires Summed(starts, items, keyOf, n, n) && |out| == |items| && Below(items, keyOf, n) == |items|
    ensures Placed(starts, out, items, keyOf, n, 0)
  {
    hide Grouped;
    forall k | 0 <= k < n ensures GroupPlaced(starts, out, items, keyOf, 0, k) {
      assert WithKey(items[..0], keyOf, k) == [];
      BelowGrows(items, keyOf, k, n);
    }
  }

  /** The next place of a key is inside its group. */
  lemma PlaceFree(starts: seq<nat>, out: seq<nat>, items: seq<nat>, keyOf: nat -> nat, n: nat, i: nat)
    requires Placed(starts, out, items, keyOf, n, i) && i < |items| && keyOf(items[i]) < n && Below(items, keyOf, n) == |items|
    ensures |starts| == n + 1 && Below(items, keyOf, keyOf(items[i])) <= starts[keyOf(items[i])] < Below(items, keyOf, keyOf(items[i]) + 1) <= |out|
  {
    hide Grouped, WithKey;
    var k := keyOf(items[i]);
    assert GroupPlaced(starts, out, items, keyOf, i, k);
    WithKeyNext(items, i, keyOf, k);
    WithKeyPrefix(items, i + 1, keyOf, k);
    GroupAt(items, keyOf, n, k);
  }

  lemma PlacedNext(starts: seq<nat>, out: seq<nat>, items: seq<nat>, keyOf: nat -> nat, n: nat, i: nat)
    requires Placed(starts, out, items, keyOf, n, i) && i < |items| && keyOf(items[i]) < n && Below(items, keyOf, n) == |items|
    requires |starts| == n + 1 && Below(items, keyOf, keyOf(items[i])) <= starts[keyOf(items[i])] < Below(items, keyOf, keyOf(items[i]) + 1) <= |out|
    ensures var x := keyOf(items[i]);
            Placed(starts[x := starts[x] + 1], out[starts[x] := items[i]], items, keyOf, n, i + 1)
  {
    hide Grouped, WithKey, GroupPlaced;
    var x, next := keyOf(items[i]), i + 1;
    var starts', out' := starts[x := starts[x] + 1], out[starts[x] := items[i]];
    forall k | 0 <= k < n ensures GroupPlaced(starts', out', items, keyOf, next, k) {
      assert GroupPlaced(starts, out, items, keyOf, i, k);
      GroupNext(starts, out, items, keyOf, n, i, k);
    }
  }

  lemma GroupNext(starts: seq<nat>, out: seq<nat>, items: seq<nat>, keyOf: nat -> nat, n: nat, i: nat, k: nat)
    requires |starts| == n + 1 && i < |items| && keyOf(items[i]) < n && k < n && GroupPlaced(starts, out, items, keyOf, i, k)
    requires Below(items, keyOf, keyOf(items[i])) <= starts[keyOf(items[i])] < Below(items, keyOf, keyOf(items[i]) + 1) <= |out|
    ensures var x := keyOf(items[i]);
            GroupPlaced(starts[x := starts[x] + 1], out[starts[x] := items[i]], items, keyOf, i + 1, k)
  {
    hide Grouped, WithKey;
    var x := keyOf(items[i]);
    var p, lo := starts[x], Below(items, keyOf, k);
    var out' := out[p := items[i]];
    WithKeyNext(items, i, keyOf, k);
    OtherGroup(items, keyOf, n, i, x, k);
    if k == x {
      assert out'[lo..p + 1] == out'[lo..p] + [items[i]];
      assert out'[lo..p] == out[lo..p];
    } else {
      assert p < lo || p >= starts[k];
      assert out'[lo..starts[k]] == out[lo..starts[k]];
    }
  }

  /** The places of different keys are apart. */
  lemma OtherGroup(items: seq<nat>, keyOf: nat -> nat, n: nat, i: nat, x: nat, k: nat)
    requires x < n && k < n && i <= |items|
    ensures x < k ==> Below(items, keyOf, x + 1) <= Below(items, keyOf, k)
    ensures k < x ==> Below(items, keyOf, k) + |WithKey(items[..i], keyOf, k)| <= Below(items, keyOf, x)
  {
    if x < k {
      BelowGrows(items, keyOf, x + 1, k);
    } else if k < x {
      WithKeyPrefix(items, i, keyOf, k);
      GroupAt(items, keyOf, n, k);
      BelowGrows(items, keyOf, k + 1, x);
    }
  }

  lemma PlacedEnd(starts: seq<nat>, out: seq<nat>, items: seq<nat>, keyOf: nat -> nat, n: nat)
    requires Placed(starts, out, items, keyOf, n, |items|) && Below(items, keyOf, n) == |items|
    ensures out == Grouped(items, keyOf, n)
  {
    hide WithKey, Grouped;
    assert items[..|items|] == items;
    forall p | 0 <= p < |items| ensures out[p] == Grouped(items, keyOf, n)[p] {
      var k := PlaceHasKey(items, keyOf, n, p);
      assert GroupPlaced(starts, out, items, keyOf, |items|, k);
      GroupAt(items, keyOf, n, k);
      var lo := Below(items, keyOf, k);
      assert out[lo..starts[k]][p - lo] == out[p];
      assert Grouped(items, keyOf, n)[lo..Below(items, keyOf, k + 1)][p - lo] == Grouped(items, keyOf, n)[p];
    }
  }

  // ---- The range of a key.

  ghost predicate SortedKeys(keys: seq<nat>) {
    forall i, j :: 0 <= i < j < |keys| ==> keys[i] <= keys[j]
  }

  /** Two binary searches.  On any array the range is inside it; on a sorted one
      it holds exactly the places of `id`. */
  method Range(keys: seq<nat>, id: nat) returns (first: nat, last: nat)
    ensures first <= last <= |keys|
    ensures SortedKeys(keys) ==> forall i :: 0 <= i < |keys| ==> (first <= i < last <==> keys[i] == id)
  {
    var lo, hi := 0, |keys|;
    while lo < hi
      invariant 0 <= lo <= hi <= |keys|
      invariant SortedKeys(keys) ==> (forall i :: 0 <= i < lo ==> keys[i] < id) && (forall i :: hi <= i < |keys| ==> keys[i] >= id)
    {
      var mid := lo + (hi - lo) / 2;
      if keys[mid] < id {
        lo := mid + 1;
      } else {
        hi := mid;
      }
    }
    first := lo;
    hi := |keys|;
    while lo < hi
      invariant first <= lo <= hi <= |keys|
      invariant SortedKeys(keys) ==> (forall i :: first <= i < lo ==> keys[i] == id) && (forall i :: hi <= i < |keys| ==> keys[i] > id)
    {
      var mid := lo + (hi - lo) / 2;
      if keys[mid] <= id {
        lo := mid + 1;
      } else {
        hi := mid;
      }
    }
    last := lo;
  }

  ghost function KeysOf(s: seq<nat>, keyOf: nat -> nat): (r: seq<nat>)
    ensures |r| == |s| && forall i :: 0 <= i < |s| ==> r[i] == keyOf(s[i])
  {
    seq(|s|, i requires 0 <= i < |s| => keyOf(s[i]))
  }

  /** A sorted array of keys. */
  lemma GroupedSorted(items: seq<nat>, keyOf: nat -> nat, n: nat)
    ensures SortedKeys(KeysOf(Grouped(items, keyOf, n), keyOf))
  {
    hide WithKey, Grouped;
    var g := Grouped(items, keyOf, n);
    forall i, j | 0 <= i < j < |g| ensures keyOf(g[i]) <= keyOf(g[j]) {
      var a := PlaceHasKey(items, keyOf, n, i);
      var b := PlaceHasKey(items, keyOf, n, j);
      KeyAtPlace(items, keyOf, n, a, i);
      KeyAtPlace(items, keyOf, n, b, j);
      if b < a {
        BelowGrows(items, keyOf, b + 1, a);
      }
    }
  }

  /** What lies in the range of a key is the selection of that key. */
  lemma RangeIsSelection(items: seq<nat>, keyOf: nat -> nat, n: nat, id: nat, first: nat, last: nat)
    requires id < n && first <= last <= |Grouped(items, keyOf, n)|
    requires forall i :: 0 <= i < |Grouped(items, keyOf, n)| ==> (first <= i < last <==> keyOf(Grouped(items, keyOf, n)[i]) == id)
    ensures Grouped(items, keyOf, n)[first..last] == WithKey(items, keyOf, id)
  {
    hide WithKey, Grouped;
    var g, lo, hi := Grouped(items, keyOf, n), Below(items, keyOf, id), Below(items, keyOf, id + 1);
    GroupAt(items, keyOf, n, id);
    forall i | 0 <= i < |g| ensures Inside(lo, hi, i) <==> Inside(first, last, i) {
      var k := PlaceHasKey(items, keyOf, n, i);
      KeyAtPlace(items, keyOf, n, k, i);
      if k < id {
        BelowGrows(items, keyOf, k + 1, id);
      } else if id < k {
        BelowGrows(items, keyOf, id + 1, k);
      }
    }
    SameInterval(|g|, lo, hi, first, last);
  }

  predicate Inside(lo: nat, hi: nat, i: int) {
    lo <= i < hi
  }

  lemma SameInterval(n: nat, lo: nat, hi: nat, first: nat, last: nat)
    requires lo <= hi <= n && first <= last <= n
    requires forall i :: 0 <= i < n ==> (Inside(lo, hi, i) <==> Inside(first, last, i))
    ensures (lo == first && hi == last) || (lo == hi && first == last)
  {
    if lo < hi {
      assert Inside(lo, hi, lo) && Inside(lo, hi, hi - 1);
    }
    if first < last {
      assert Inside(first, last, first) && Inside(first, last, last - 1);
    }
  }
}
