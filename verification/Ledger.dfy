/** Ledgers: what an index of records contributed by translation units stands
    for, in terms of strings.  Refreshing an index and merging indexes are
    multiset algebra on ledgers. */
module Ledger {
  import opened GraphTypes
  import opened Interner
  import opened Registry

  /** A registration in terms of strings. */
  type Entry<R> = Reg<R, string>

  /** The records one unit (or nobody, for None) registered. */
  ghost function Part<R>(l: seq<Entry<R>>, tu: Option<string>): multiset<R> {
    if l == [] then multiset{}
    else
      var rest := Part(l[..|l| - 1], tu);
      if l[|l| - 1].tu == tu then rest + multiset{l[|l| - 1].record} else rest
  }

  lemma PartSnoc<R>(l: seq<Entry<R>>, e: Entry<R>, tu: Option<string>)
    ensures Part(l + [e], tu) == if e.tu == tu then Part(l, tu) + multiset{e.record} else Part(l, tu)
  {
    assert (l + [e])[..|l|] == l;
  }

  lemma {:induction false} PartConcat<R>(a: seq<Entry<R>>, b: seq<Entry<R>>, tu: Option<string>)
    ensures Part(a + b, tu) == Part(a, tu) + Part(b, tu)
    decreases |b|
  {
    if b == [] {
      assert a + b == a;
    } else {
      hide Part;
      var e, most := b[|b| - 1], b[..|b| - 1];
      assert a + b == (a + most) + [e] && b == most + [e];
      PartConcat(a, most, tu);
      PartSnoc(a + most, e, tu);
      PartSnoc(most, e, tu);
    }
  }

  lemma {:induction false} PartWithout<R>(l: seq<Entry<R>>, tus: set<string>, tu: Option<string>)
    ensures Part(Without(l, tus), tu) == if tu.Some? && tu.value in tus then multiset{} else Part(l, tu)
    decreases |l|
  {
    if l != [] {
      hide Part, Without;
      var e, most := l[|l| - 1], l[..|l| - 1];
      Split(l);
      PartWithout(most, tus, tu);
      WithoutSnoc(most, e, tus);
      PartSnoc(most, e, tu);
      PartSnoc(Without(most, tus), e, tu);
    } else {
      assert Part(l, tu) == multiset{};
    }
  }

  /** A record's count in a part is its count in the ledger. */
  lemma {:induction false} PartIsCount<R>(l: seq<Entry<R>>, tu: Option<string>, r: R)
    ensures Part(l, tu)[r] == multiset(l)[Reg(r, tu)]
    decreases |l|
  {
    if l != [] {
      hide Part;
      var e, most := l[|l| - 1], l[..|l| - 1];
      Split(l);
      PartIsCount(most, tu, r);
      PartSnoc(most, e, tu);
      assert multiset(l) == multiset(most) + multiset{e};
    }
  }

  lemma SameCounts<T>(a: multiset<T>, b: multiset<T>)
    requires forall x :: a[x] == b[x]
    ensures a == b
  {
  }

  /** Ledgers with the same parts are the same up to order. */
  lemma SameParts<R>(a: seq<Entry<R>>, b: seq<Entry<R>>)
    requires forall tu :: Part(a, tu) == Part(b, tu)
    ensures multiset(a) == multiset(b)
  {
    hide Part;
    forall e: Entry<R> ensures multiset(a)[e] == multiset(b)[e] {
      PartIsCount(a, e.tu, e.record);
      PartIsCount(b, e.tu, e.record);
      assert Part(a, e.tu) == Part(b, e.tu);
    }
    SameCounts(multiset(a), multiset(b));
  }

  lemma PartsOfSame<R>(a: seq<Entry<R>>, b: seq<Entry<R>>, tu: Option<string>)
    requires multiset(a) == multiset(b)
    ensures Part(a, tu) == Part(b, tu)
  {
    hide Part;
    forall r ensures Part(a, tu)[r] == Part(b, tu)[r] {
      PartIsCount(a, tu, r);
      PartIsCount(b, tu, r);
    }
    SameCounts(Part(a, tu), Part(b, tu));
  }

  // ---- Baking.

  /** The ledger of baking each of `units` once, every unit contributing what
      `bake` says. */
  ghost predicate IsBake<R>(l: seq<Entry<R>>, units: set<string>, bake: string -> multiset<R>) {
    && Part(l, None) == multiset{}
    && forall u :: Part(l, Some(u)) == BakedBy(units, bake, u)
  }

  ghost function BakedBy<R>(units: set<string>, bake: string -> multiset<R>, u: string): multiset<R> {
    if u in units then bake(u) else multiset{}
  }

  /** There is one bake of a set of units, up to order. */
  lemma BakeUnique<R>(a: seq<Entry<R>>, b: seq<Entry<R>>, units: set<string>, bake: string -> multiset<R>)
    requires IsBake(a, units, bake) && IsBake(b, units, bake)
    ensures multiset(a) == multiset(b)
  {
    hide Part, BakedBy;
    forall tu ensures Part(a, tu) == Part(b, tu) {
      if tu.Some? {
        assert Part(a, Some(tu.value)) == BakedBy(units, bake, tu.value);
      }
    }
    SameParts(a, b);
  }

  /** Warm refresh: taking out the dropped and the dirty units and adding a bake
      of the dirty ones gives the clean bake of the current units, provided the
      units left alone would bake as they did. */
  lemma RefreshIsBake<R>(l: seq<Entry<R>>, units: set<string>, was: string -> multiset<R>, dropped: set<string>, dirty: set<string>,
                         now: string -> multiset<R>, more: seq<Entry<R>>, removed: set<string>)
    requires IsBake(l, units, was) && IsBake(more, dirty, now)
    requires forall u :: u in units && u !in dropped && u !in dirty ==> was(u) == now(u)
    requires dropped * dirty == {} && dropped + (dirty * units) <= removed <= dropped + dirty
    ensures IsBake(Without(l, removed) + more, (units - dropped) + dirty, now)
  {
    hide Part, Without;
    var r := Without(l, removed) + more;
    PartConcat(Without(l, removed), more, None);
    PartWithout(l, removed, None);
    forall u ensures Part(r, Some(u)) == BakedBy((units - dropped) + dirty, now, u) {
      PartConcat(Without(l, removed), more, Some(u));
      PartWithout(l, removed, Some(u));
      assert Part(l, Some(u)) == BakedBy(units, was, u) && Part(more, Some(u)) == BakedBy(dirty, now, u);
    }
  }

  // ---- Merging shards.

  datatype Shard<R> = Shard(files: seq<string>, ledger: seq<Entry<R>>)

  /** The listed files that were seen before, in this list or an earlier one. */
  function Overlap(files: seq<string>, seen: set<string>): seq<string> {
    if files == [] then []
    else
      var most, f := files[..|files| - 1], files[|files| - 1];
      if f in seen || f in most then Overlap(most, seen) + [f] else Overlap(most, seen)
  }

  function AsSet(s: seq<string>): set<string> {
    set x | x in s
  }

  ghost function MergeNext<R>(seen: set<string>, l: seq<Entry<R>>, s: Shard<R>): (set<string>, seq<Entry<R>>) {
    var overlap := Overlap(s.files, seen);
    if s.files != [] && |overlap| == |s.files| then (seen, l)
    else (seen + AsSet(s.files), l + Without(s.ledger, AsSet(overlap)))
  }

  ghost function Merged<R>(shards: seq<Shard<R>>): (set<string>, seq<Entry<R>>) {
    if shards == [] then ({}, [])
    else
      var before := Merged(shards[..|shards| - 1]);
      MergeNext(before.0, before.1, shards[|shards| - 1])
  }

  /** A file is listed more than once in `files`. */
  ghost predicate Repeated(files: seq<string>, f: string) {
    exists i, j :: 0 <= i < j < |files| && files[i] == f && files[j] == f
  }

  lemma {:induction false} OverlapMember(files: seq<string>, seen: set<string>, f: string)
    ensures f in Overlap(files, seen) <==> f in files && (f in seen || Repeated(files, f))
    ensures |Overlap(files, seen)| <= |files|
    ensures f in files && f !in seen ==> |Overlap(files, seen)| < |files|
    decreases |files|
  {
    if files != [] {
      var most, last := files[..|files| - 1], files[|files| - 1];
      Split(files);
      OverlapMember(most, seen, f);
      assert f in files <==> f in most || f == last;
      RepeatedNext(files, f);
    }
  }

  lemma RepeatedNext(files: seq<string>, f: string)
    requires files != []
    ensures Repeated(files, f) <==> Repeated(files[..|files| - 1], f) || (files[|files| - 1] == f && f in files[..|files| - 1])
  {
    var most := files[..|files| - 1];
    if Repeated(most, f) {
      var i, j :| 0 <= i < j < |most| && most[i] == f && most[j] == f;
      assert files[i] == f && files[j] == f;
    }
    if files[|files| - 1] == f && f in most {
      var i :| 0 <= i < |most| && most[i] == f;
      assert files[i] == f && files[|most|] == f;
    }
    if Repeated(files, f) {
      var i, j :| 0 <= i < j < |files| && files[i] == f && files[j] == f;
      assert most[i] == f;
      if j < |most| {
        assert most[j] == f;
      }
    }
  }

  /** The registrations of a shard come from the files it lists. */
  ghost predicate TagsListed<R>(s: Shard<R>) {
    forall u :: u !in s.files ==> Part(s.ledger, Some(u)) == multiset{}
  }

  /** What the first shard that lists `u` contributes for it: nothing if that
      shard lists it twice. */
  ghost function FirstPart<R>(shards: seq<Shard<R>>, u: string): multiset<R> {
    if shards == [] then multiset{}
    else if Listed(shards[..|shards| - 1], u) then FirstPart(shards[..|shards| - 1], u)
    else
      var s := shards[|shards| - 1];
      if u in s.files && !Repeated(s.files, u) then Part(s.ledger, Some(u)) else multiset{}
  }

  ghost predicate Listed<R>(shards: seq<Shard<R>>, u: string) {
    exists i :: 0 <= i < |shards| && u in shards[i].files
  }

  lemma ListedNext<R>(shards: seq<Shard<R>>, u: string)
    requires shards != []
    ensures Listed(shards, u) <==> Listed(shards[..|shards| - 1], u) || u in shards[|shards| - 1].files
  {
    var most := shards[..|shards| - 1];
    if Listed(most, u) {
      var i :| 0 <= i < |most| && u in most[i].files;
      assert u in shards[i].files;
    }
    if Listed(shards, u) {
      var i :| 0 <= i < |shards| && u in shards[i].files;
      assert i < |most| ==> u in most[i].files;
    }
  }

  lemma {:induction false} MergedSeen<R>(shards: seq<Shard<R>>, u: string)
    ensures u in Merged(shards).0 <==> Listed(shards, u)
    decreases |shards|
  {
    if shards != [] {
      hide Listed, Without, Overlap;
      MergedSeen(shards[..|shards| - 1], u);
      ListedNext(shards, u);
      OverlapMember(shards[|shards| - 1].files, Merged(shards[..|shards| - 1]).0, u);
    }
  }

  /** The merge counts each unit once: it holds for every unit exactly what the
      first shard listing it registered. */
  lemma {:induction false} MergeCountsOnce<R>(shards: seq<Shard<R>>, u: string)
    requires forall i :: 0 <= i < |shards| ==> TagsListed(shards[i])
    ensures Part(Merged(shards).1, Some(u)) == FirstPart(shards, u)
    decreases |shards|
  {
    if shards != [] {
      hide Listed, Without, Overlap, Part, Repeated;
      var most, s := shards[..|shards| - 1], shards[|shards| - 1];
      var before := Merged(most);
      MergeCountsOnce(most, u);
      MergedSeen(most, u);
      ListedNext(shards, u);
      OverlapMember(s.files, before.0, u);
      var overlap := AsSet(Overlap(s.files, before.0));
      PartConcat(before.1, Without(s.ledger, overlap), Some(u));
      PartWithout(s.ledger, overlap, Some(u));
      assert u !in s.files ==> Part(s.ledger, Some(u)) == multiset{};
      if !Listed(most, u) {
        NotListed(most, u);
      }
    } else {
      assert Part(Merged(shards).1, Some(u)) == multiset{};
    }
  }

  lemma {:induction false} NotListed<R>(shards: seq<Shard<R>>, u: string)
    requires !Listed(shards, u)
    ensures FirstPart(shards, u) == multiset{}
    decreases |shards|
  {
    if shards != [] {
      hide Part, Listed, Repeated;
      ListedNext(shards, u);
      NotListed(shards[..|shards| - 1], u);
    }
  }

  /** A shard whose files were all seen changes no ledger. */
  lemma SeenShardIsNoOp<R>(before: seq<Shard<R>>, s: Shard<R>)
    requires s.files != [] && forall f :: f in s.files ==> Listed(before, f)
    ensures Merged(before + [s]) == Merged(before)
  {
    assert (before + [s])[..|before|] == before;
    forall f | f in s.files ensures f in Merged(before).0 {
      MergedSeen(before, f);
    }
    AllOverlap(s.files, Merged(before).0);
  }

  lemma {:induction false} AllOverlap(files: seq<string>, seen: set<string>)
    requires forall f :: f in files ==> f in seen
    ensures |Overlap(files, seen)| == |files|
    decreases |files|
  {
    if files != [] {
      AllOverlap(files[..|files| - 1], seen);
      assert files[|files| - 1] in files;
    }
  }

  /** Listing a file twice in one shard loses its registrations. */
  lemma RepeatedFileIsLost<R>(r: R)
    ensures Merged([Shard(["a", "a"], [Reg(r, Some("a"))])]).1 == []
  {
    var s := Shard(["a", "a"], [Reg(r, Some("a"))]);
    assert [s][..0] == [] && Merged<R>([]) == ({}, []);
    assert ["a", "a"][..1] == ["a"] && ["a"][..0] == [];
    assert Overlap(["a"], {}) == [];
    assert Overlap(["a", "a"], {}) == ["a"];
    assert "a" in AsSet(["a"]);
    WithoutSnoc([], s.ledger[0], AsSet(["a"]));
    assert [] + [s.ledger[0]] == s.ledger;
  }
}
