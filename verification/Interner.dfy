/** The string interner: a dense, injective table from strings to ids that
    never forgets.  Tables are values here; an owner reassigns its field. */
module Interner {
  import opened GraphTypes

  datatype Option<+T> = None | Some(value: T)

  /** No string has two ids. */
  ghost predicate Injective(t: seq<string>) {
    forall i, j :: 0 <= i < j < |t| ==> t[i] != t[j]
  }

  function Find(t: seq<string>, s: string): (r: Option<Id>)
    ensures r.Some? ==> r.value < |t| && t[r.value] == s
    ensures r.None? ==> s !in t
  {
    if t == [] then None
    else if t[|t| - 1] == s then Some(|t| - 1)
    else Find(t[..|t| - 1], s)
  }

  function Intern(t: seq<string>, s: string): (r: (seq<string>, Id))
    ensures t <= r.0 && r.1 < |r.0| && r.0[r.1] == s
    ensures Injective(t) ==> Injective(r.0)
    ensures s in t ==> r.0 == t
    ensures |r.0| <= |t| + 1
  {
    match Find(t, s)
    case Some(id) => (t, id)
    case None => (t + [s], |t|)
  }

  lemma SameText(t: seq<string>, a: Id, b: Id)
    requires Injective(t) && a < |t| && b < |t| && t[a] == t[b]
    ensures a == b
  {
  }

  /** Shard id to master id, by position. */
  method Remap(master: seq<string>, shard: seq<string>) returns (table: seq<string>, remap: seq<Id>)
    requires Injective(master)
    ensures master <= table && Injective(table)
    ensures |remap| == |shard| && |table| <= |master| + |shard|
    ensures forall i :: 0 <= i < |shard| ==> remap[i] < |table| && table[remap[i]] == shard[i]
  {
    table, remap := master, [];
    for k := 0 to |shard|
      invariant master <= table && Injective(table)
      invariant |remap| == k && |table| <= |master| + k
      invariant forall i :: 0 <= i < k ==> remap[i] < |table| && table[remap[i]] == shard[i]
    {
      var r := Intern(table, shard[k]);
      table, remap := r.0, remap + [r.1];
    }
  }

  /** Distinct shard ids stay distinct. */
  lemma RemapInjective(table: seq<string>, shard: seq<string>, remap: seq<Id>, i: Id, j: Id)
    requires Injective(shard) && |remap| == |shard| && i < |shard| && j < |shard|
    requires forall k :: 0 <= k < |shard| ==> remap[k] < |table| && table[remap[k]] == shard[k]
    requires remap[i] == remap[j]
    ensures i == j
  {
    assert table[remap[i]] == shard[i] && table[remap[j]] == shard[j];
  }
}
