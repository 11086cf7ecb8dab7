/** The hierarchy relations of the call graph: method overrides and function
    returns, each kept in both directions, and closures over them. */
module Relations {
  import opened GraphTypes

  function Bucket<T>(m: map<Id, seq<T>>, k: Id): seq<T> {
    if k in m then m[k] else []
  }

  function Members(m: map<Id, set<Id>>, k: Id): set<Id> {
    if k in m then m[k] else {}
  }

  // ---- Reachability.

  ghost predicate StepIn(rel: map<Id, seq<Id>>, p: seq<Id>, i: nat)
    requires i + 1 < |p|
  {
    p[i + 1] in Bucket(rel, p[i])
  }

  ghost predicate Chain(rel: map<Id, seq<Id>>, p: seq<Id>) {
    forall i :: 0 <= i && i + 1 < |p| ==> StepIn(rel, p, i)
  }

  /** `b` can be reached from `a` in zero or more steps. */
  ghost predicate Reach(rel: map<Id, seq<Id>>, a: Id, b: Id) {
    exists p :: |p| > 0 && p[0] == a && p[|p| - 1] == b && Chain(rel, p)
  }

  lemma ReachSelf(rel: map<Id, seq<Id>>, a: Id)
    ensures Reach(rel, a, a)
  {
    assert Chain(rel, [a]);
    assert [a][0] == a && [a][|[a]| - 1] == a;
  }

  lemma ReachStep(rel: map<Id, seq<Id>>, a: Id, b: Id, c: Id)
    requires Reach(rel, a, b) && c in Bucket(rel, b)
    ensures Reach(rel, a, c)
  {
    var p :| |p| > 0 && p[0] == a && p[|p| - 1] == b && Chain(rel, p);
    var q := p + [c];
    forall i | 0 <= i && i + 1 < |q| ensures StepIn(rel, q, i) {
      if i + 1 < |p| {
        assert StepIn(rel, p, i);
      }
    }
    assert q[0] == a && q[|q| - 1] == c;
  }

  /** A set that holds the start and all successors of its members holds
      everything reachable. */
  lemma {:induction false} ClosedHoldsReach(rel: map<Id, seq<Id>>, closed: set<Id>, p: seq<Id>, k: nat)
    requires k < |p| && p[0] in closed && Chain(rel, p)
    requires forall v, x :: v in closed && x in Bucket(rel, v) ==> x in closed
    ensures p[k] in closed
  {
    if k > 0 {
      ClosedHoldsReach(rel, closed, p, k - 1);
      assert StepIn(rel, p, k - 1);
    }
  }

  ghost predicate Transposed(fwd: map<Id, seq<Id>>, rev: map<Id, seq<Id>>) {
    forall a, b :: b in Bucket(fwd, a) <==> a in Bucket(rev, b)
  }

  lemma ReachReversed(fwd: map<Id, seq<Id>>, rev: map<Id, seq<Id>>, a: Id, b: Id)
    requires Transposed(fwd, rev) && Reach(fwd, a, b)
    ensures Reach(rev, b, a)
  {
    var p :| |p| > 0 && p[0] == a && p[|p| - 1] == b && Chain(fwd, p);
    var q := seq(|p|, i requires 0 <= i < |p| => p[|p| - 1 - i]);
    forall i | 0 <= i && i + 1 < |q| ensures StepIn(rev, q, i) {
      assert StepIn(fwd, p, |p| - 2 - i);
    }
    assert q[0] == b && q[|q| - 1] == a;
  }

  /** The closure of a relation against the closure of its transpose. */
  lemma ReachTransposed(fwd: map<Id, seq<Id>>, rev: map<Id, seq<Id>>, a: Id, b: Id)
    requires Transposed(fwd, rev)
    ensures Reach(fwd, a, b) <==> Reach(rev, b, a)
  {
    if Reach(fwd, a, b) {
      ReachReversed(fwd, rev, a, b);
    }
    if Reach(rev, b, a) {
      ReachReversed(rev, fwd, b, a);
    }
  }

  ghost function Targets(rel: map<Id, seq<Id>>): set<Id> {
    set a, x | a in rel && x in rel[a] :: x
  }

  lemma SmallerRest(all: set<Id>, visited: set<Id>, x: Id)
    requires x in all && x !in visited
    ensures |all - (visited + {x})| < |all - visited|
  {
    assert all - (visited + {x}) == (all - visited) - {x};
  }

  /** Everything reachable from `start` other than `start` itself. */
  method TransitiveClosure(start: Id, rel: map<Id, seq<Id>>) returns (result: seq<Id>)
    ensures forall x :: x in result <==> x != start && Reach(rel, start, x)
    ensures NoDuplicates(result)
  {
    hide Reach, Targets, Chain;
    result := [];
    if start !in rel {
      NothingFrom(rel, start);
      return;
    }
    var stack := [start];
    var visited := {start};
    ReachSelf(rel, start);
    while stack != []
      invariant start in visited
      invariant forall x :: x in stack ==> x in visited
      invariant forall x :: x in visited ==> Reach(rel, start, x)
      invariant forall x :: x in result <==> x != start && x in visited
      invariant NoDuplicates(result)
      invariant Settled(rel, visited, stack)
      decreases |Targets(rel) - visited|, |stack|
    {
      var cur := stack[|stack| - 1];
      assert stack == stack[..|stack| - 1] + [cur];
      stack, visited, result := VisitNext(start, rel, cur, stack[..|stack| - 1], visited, result);
    }
    assert Settled(rel, visited, []);
    forall x | Reach(rel, start, x) ensures x in visited {
      AllReached(rel, visited, start, x);
    }
  }

  lemma NothingFrom(rel: map<Id, seq<Id>>, start: Id)
    requires start !in rel
    ensures forall x :: Reach(rel, start, x) ==> x == start
  {
    forall x | Reach(rel, start, x) ensures x == start {
      var p :| |p| > 0 && p[0] == start && p[|p| - 1] == x && Chain(rel, p);
      if |p| > 1 {
        ChainFirst(rel, p);
      }
    }
  }

  lemma ChainFirst(rel: map<Id, seq<Id>>, p: seq<Id>)
    requires Chain(rel, p) && |p| > 1
    ensures p[1] in Bucket(rel, p[0])
  {
    assert StepIn(rel, p, 0);
  }

  lemma AllReached(rel: map<Id, seq<Id>>, visited: set<Id>, start: Id, x: Id)
    requires start in visited && Reach(rel, start, x) && Settled(rel, visited, [])
    ensures x in visited
  {
    var p :| |p| > 0 && p[0] == start && p[|p| - 1] == x && Chain(rel, p);
    ClosedHoldsReach(rel, visited, p, |p| - 1);
  }

  /** The successors of everything visited and not on the stack are visited. */
  ghost predicate Settled(rel: map<Id, seq<Id>>, visited: set<Id>, stack: seq<Id>) {
    forall v, x :: v in visited && v !in stack && x in Bucket(rel, v) ==> x in visited
  }

  lemma SettledNext(rel: map<Id, seq<Id>>, cur: Id, stack0: seq<Id>, visited0: set<Id>, stack: seq<Id>, visited: set<Id>)
    requires Settled(rel, visited0, stack0 + [cur]) && visited0 <= visited
    requires forall x :: x in stack0 ==> x in stack
    requires forall x :: x in visited && x !in visited0 ==> x in stack
    requires forall x :: x in Bucket(rel, cur) ==> x in visited
    ensures Settled(rel, visited, stack)
  {
  }

  /** Push the successors of `cur` that were not visited yet. */
  method VisitNext(ghost start: Id, rel: map<Id, seq<Id>>, cur: Id, stack0: seq<Id>, visited0: set<Id>, result0: seq<Id>)
    returns (stack: seq<Id>, visited: set<Id>, result: seq<Id>)
    requires start in visited0 && cur in visited0 && Reach(rel, start, cur)
    requires forall x :: x in stack0 ==> x in visited0
    requires forall x :: x in visited0 ==> Reach(rel, start, x)
    requires forall x :: x in result0 <==> x != start && x in visited0
    requires NoDuplicates(result0)
    requires Settled(rel, visited0, stack0 + [cur])
    ensures start in visited && visited0 <= visited
    ensures forall x :: x in stack ==> x in visited
    ensures forall x :: x in visited ==> Reach(rel, start, x)
    ensures forall x :: x in result <==> x != start && x in visited
    ensures NoDuplicates(result)
    ensures Settled(rel, visited, stack)
    ensures |Targets(rel) - visited| < |Targets(rel) - visited0| || (visited == visited0 && stack == stack0)
  {
    hide Reach, Targets, NoDuplicates, Settled;
    stack, visited, result := stack0, visited0, result0;
    var succs := Bucket(rel, cur);
    for i := 0 to |succs|
      invariant start in visited && visited0 <= visited
      invariant forall x :: x in stack0 ==> x in stack
      invariant forall x :: x in stack ==> x in visited
      invariant forall x :: x in visited && x !in visited0 ==> x in stack
      invariant forall x :: x in visited ==> Reach(rel, start, x)
      invariant forall x :: x in result <==> x != start && x in visited
      invariant NoDuplicates(result)
      invariant forall j :: 0 <= j < i ==> succs[j] in visited
      invariant |Targets(rel) - visited| < |Targets(rel) - visited0| || (visited == visited0 && stack == stack0)
    {
      var next := succs[i];
      if next !in visited {
        ReachStep(rel, start, cur, next);
        InTargets(rel, cur, next);
        SmallerRest(Targets(rel), visited, next);
        SnocNoDuplicates(result, next);
        visited := visited + {next};
        result := result + [next];
        stack := stack + [next];
      }
    }
    SettledNext(rel, cur, stack0, visited0, stack, visited);
  }

  lemma SnocNoDuplicates(s: seq<Id>, x: Id)
    requires NoDuplicates(s) && x !in s
    ensures NoDuplicates(s + [x])
  {
  }

  lemma InTargets(rel: map<Id, seq<Id>>, a: Id, x: Id)
    requires x in Bucket(rel, a)
    ensures x in Targets(rel)
  {
    assert a in rel && x in rel[a];
  }

  // ---- The stored relations.

  /** Add `x` to the list of `k`. */
  function Push(m: map<Id, seq<Id>>, k: Id, x: Id): map<Id, seq<Id>> {
    m[k := Bucket(m, k) + [x]]
  }

  lemma PushMember(m: map<Id, seq<Id>>, k: Id, x: Id)
    ensures forall a, b :: b in Bucket(Push(m, k, x), a) <==> b in Bucket(m, a) || (a == k && b == x)
  {
    forall a, b ensures b in Bucket(Push(m, k, x), a) <==> b in Bucket(m, a) || (a == k && b == x) {
      if a == k {
        assert Bucket(Push(m, k, x), a) == Bucket(m, k) + [x];
      }
    }
  }

  function Insert(m: map<Id, set<Id>>, k: Id, x: Id): map<Id, set<Id>> {
    m[k := Members(m, k) + {x}]
  }

  lemma InsertMember(m: map<Id, set<Id>>, k: Id, x: Id)
    ensures forall a, b :: b in Members(Insert(m, k, x), a) <==> b in Members(m, a) || (a == k && b == x)
  {
  }

  class Relations {
    var methodOverrides: map<Id, seq<Id>>
    var overrideBases: map<Id, seq<Id>>
    var functionReturns: map<Id, set<Id>>
    var returnedBy: map<Id, seq<Id>>

    /** Each relation and its reverse hold the same pairs. */
    ghost predicate Valid()
      reads this
    {
      && Transposed(methodOverrides, overrideBases)
      && ReturnsTransposed(functionReturns, returnedBy)
    }

    constructor ()
      ensures Valid()
      ensures methodOverrides == map[] && functionReturns == map[]
    {
      methodOverrides, overrideBases, functionReturns, returnedBy := map[], map[], map[], map[];
    }

    method AddMethodOverride(base: Id, overrider: Id)
      requires Valid()
      modifies this`methodOverrides, this`overrideBases
      ensures Valid()
      ensures forall a, b :: b in Bucket(methodOverrides, a) <==>
                b in Bucket(old(methodOverrides), a) || (a == base && b == overrider)
      // At the end of its list, unless it is there.
      ensures methodOverrides == if overrider in Bucket(old(methodOverrides), base) then old(methodOverrides) else Push(old(methodOverrides), base, overrider)
      ensures overrideBases == if base in Bucket(old(overrideBases), overrider) then old(overrideBases) else Push(old(overrideBases), overrider, base)
    {
      hide Bucket, Push, ReturnsTransposed;
      if overrider !in Bucket(methodOverrides, base) {
        PushMember(methodOverrides, base, overrider);
        methodOverrides := Push(methodOverrides, base, overrider);
      }
      if base !in Bucket(overrideBases, overrider) {
        PushMember(overrideBases, overrider, base);
        overrideBases := Push(overrideBases, overrider, base);
      }
    }

    method AddFunctionReturn(func: Id, returned: Id)
      requires Valid()
      modifies this`functionReturns, this`returnedBy
      ensures Valid()
      ensures forall f, r :: r in Members(functionReturns, f) <==>
                r in Members(old(functionReturns), f) || (f == func && r == returned)
      ensures returnedBy == if returned in Members(old(functionReturns), func) then old(returnedBy) else Push(old(returnedBy), returned, func)
    {
      hide Bucket, Push, Members, Insert, Transposed;
      if returned !in Members(functionReturns, func) {
        PushMember(returnedBy, returned, func);
        InsertMember(functionReturns, func, returned);
        functionReturns := Insert(functionReturns, func, returned);
        returnedBy := Push(returnedBy, returned, func);
      }
    }

    /** Take over the overrides of a shard, renamed. */
    method AbsorbOverrides(src: map<Id, seq<Id>>, remap: seq<Id>)
      requires Valid()
      modifies this`methodOverrides, this`overrideBases
      ensures Valid()
      ensures forall a, b :: b in Bucket(methodOverrides, a) <==>
                b in Bucket(old(methodOverrides), a) || PairRenamed(ListPairsOf(src), remap, a, b)
    {
      hide ReturnsTransposed, Transposed, ListPairsOf;
      var left := ListPairsOf(src);
      ghost var all := left;
      while left != {}
        invariant Valid() && left <= all
        invariant forall a, b :: b in Bucket(methodOverrides, a) <==>
                    b in Bucket(old(methodOverrides), a) || PairRenamed(all - left, remap, a, b)
        decreases left
      {
        var pair :| pair in left;
        AddMethodOverride(Name(remap, pair.0), Name(remap, pair.1));
        assert all - (left - {pair}) == (all - left) + {pair};
        left := left - {pair};
      }
      assert all - {} == all;
    }

    /** Take over the function returns of a shard, renamed. */
    method AbsorbReturns(src: map<Id, set<Id>>, remap: seq<Id>)
      requires Valid()
      modifies this`functionReturns, this`returnedBy
      ensures Valid()
      ensures forall f, r :: r in Members(functionReturns, f) <==>
                r in Members(old(functionReturns), f) || PairRenamed(PairsOf(src), remap, f, r)
    {
      hide ReturnsTransposed, Transposed, PairsOf;
      var left := PairsOf(src);
      ghost var all := left;
      while left != {}
        invariant Valid() && left <= all
        invariant forall f, r :: r in Members(functionReturns, f) <==>
                    r in Members(old(functionReturns), f) || PairRenamed(all - left, remap, f, r)
        decreases left
      {
        var pair :| pair in left;
        AddFunctionReturn(Name(remap, pair.0), Name(remap, pair.1));
        assert all - (left - {pair}) == (all - left) + {pair};
        left := left - {pair};
      }
      assert all - {} == all;
    }
  }

  function PairsOf(m: map<Id, set<Id>>): (pairs: set<(Id, Id)>)
    ensures forall x: Id, y: Id :: (x, y) in pairs <==> y in Members(m, x)
  {
    set x, y | x in m && y in m[x] :: (x, y)
  }

  function ListPairsOf(m: map<Id, seq<Id>>): (pairs: set<(Id, Id)>)
    ensures forall x: Id, y: Id :: (x, y) in pairs <==> y in Bucket(m, x)
  {
    set x, y | x in m && y in m[x] :: (x, y)
  }

  ghost predicate PairRenamed(pairs: set<(Id, Id)>, remap: seq<Id>, f: Id, r: Id) {
    exists pair :: pair in pairs && Name(remap, pair.0) == f && Name(remap, pair.1) == r
  }

  /** The id a shard's string has here. */
  function Name(remap: seq<Id>, x: Id): Id {
    if x < |remap| then remap[x] else x
  }

  ghost predicate ReturnsTransposed(forward: map<Id, set<Id>>, reverse: map<Id, seq<Id>>) {
    forall f, r :: r in Members(forward, f) <==> f in Bucket(reverse, r)
  }
}
