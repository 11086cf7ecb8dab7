/** Dead-code liveness: a worklist over call edges in which a virtual dispatch
    counts only once a class that can receive it is constructed.  Liveness and
    construction define each other; the analysis computes their least solution. */
module DeadCode {
  import opened GraphTypes

  /** `implClasses` are the classes a method implements an override for,
      `enclosing` the class a function is a member of, where it has one. */
  datatype Program = Program(graph: QueryGraph, seeds: seq<Id>, implClasses: map<Id, set<Id>>, enclosing: map<Id, Id>)

  /** Pessimistic follows proven edges only. */
  datatype Mode = Pessimistic | Optimistic

  predicate Receivable(p: Program, f: Id, built: set<Id>) {
    || (f in p.implClasses && p.implClasses[f] * built != {})
    || (f in p.enclosing && p.enclosing[f] in built)
  }

  predicate ShouldFollow(p: Program, mode: Mode, e: EdgeRef, built: set<Id>) {
    e.confidence == Proven ||
    (mode.Optimistic? && (e.kind != VirtualDispatch || Receivable(p, e.callee, built)))
  }

  /** A dispatch that waits for a class while none is constructed. */
  predicate Deferrable(mode: Mode, e: EdgeRef) {
    mode.Optimistic? && e.kind == VirtualDispatch && e.confidence == Plausible
  }

  /** A dispatch the analysis looks at once and never again. */
  predicate Undetermined(e: EdgeRef) {
    e.kind == VirtualDispatch && e.confidence == Unknown
  }

  // ---- What liveness means.

  /** One edge out of a live function obeys the two rules. */
  ghost predicate Obeyed(p: Program, mode: Mode, strict: bool, alive: set<Id>, built: set<Id>, e: EdgeRef) {
    && (e.kind == ConstructorCall && e.callee in p.enclosing ==> p.enclosing[e.callee] in built)
    && (ShouldFollow(p, mode, e, built) && !(strict && Undetermined(e)) ==> e.callee in alive)
  }

  /** The sets are closed under the rules; `strict` leaves undetermined
      dispatches out. */
  ghost predicate Closed(p: Program, mode: Mode, strict: bool, alive: set<Id>, built: set<Id>) {
    && (forall s :: s in p.seeds ==> s in alive)
    && (forall u, e :: u in alive && e in p.graph.CalleesOf(u) ==> Obeyed(p, mode, strict, alive, built, e))
  }

  /** Everything in the two sets is forced by the rules. */
  ghost predicate Forced(p: Program, mode: Mode, strict: bool, alive: set<Id>, built: set<Id>) {
    forall a, b {:trigger Closed(p, mode, strict, a, b)} :: Closed(p, mode, strict, a, b) ==> alive <= a && built <= b
  }

  ghost predicate Least(p: Program, mode: Mode, strict: bool, alive: set<Id>, built: set<Id>) {
    Closed(p, mode, strict, alive, built) && Forced(p, mode, strict, alive, built)
  }

  /** Every dispatch edge is proven or plausible. */
  ghost predicate Determined(p: Program) {
    forall u, e :: e in p.graph.CalleesOf(u) ==> !Undetermined(e)
  }

  lemma StrictIsLoose(p: Program, mode: Mode, alive: set<Id>, built: set<Id>)
    requires Determined(p) || mode.Pessimistic?
    ensures Closed(p, mode, true, alive, built) <==> Closed(p, mode, false, alive, built)
  {
    forall u, e | u in alive && e in p.graph.CalleesOf(u)
      ensures Obeyed(p, mode, true, alive, built, e) <==> Obeyed(p, mode, false, alive, built, e)
    {
    }
  }

  /** The least solution does not depend on the order of the walk. */
  lemma LeastUnique(p: Program, mode: Mode, strict: bool, a1: set<Id>, b1: set<Id>, a2: set<Id>, b2: set<Id>)
    requires Least(p, mode, strict, a1, b1) && Least(p, mode, strict, a2, b2)
    ensures a1 == a2 && b1 == b2
  {
  }

  /** Whatever the optimistic analysis finds includes the pessimistic answer. */
  lemma PessimisticWithin(p: Program, a1: set<Id>, b1: set<Id>, a2: set<Id>, b2: set<Id>)
    requires Forced(p, Pessimistic, false, a1, b1) && Closed(p, Optimistic, true, a2, b2)
    ensures a1 <= a2
  {
    forall u, e | u in a2 && e in p.graph.CalleesOf(u) ensures Obeyed(p, Pessimistic, false, a2, b2, e) {
      assert Obeyed(p, Optimistic, true, a2, b2, e);
    }
    assert Closed(p, Pessimistic, false, a2, b2);
  }

  // ---- Liveness by derivation: why a function is alive, step by step.

  datatype Fact = IsAlive(f: Id) | IsBuilt(c: Id)

  /** Class `c` can receive a call of `f`: `f` is its implementation, or `f` is a
      member of `c`. */
  predicate Receives(p: Program, c: Id, f: Id) {
    (f in p.implClasses && c in p.implClasses[f]) || (f in p.enclosing && p.enclosing[f] == c)
  }

  /** A live caller makes its callee live: over a proven edge always; otherwise
      only when being optimistic, and then a dispatch needs a constructed class
      that can receive it.  `strict` leaves out undetermined dispatches. */
  ghost predicate MadeAlive(p: Program, mode: Mode, strict: bool, known: set<Fact>, e: EdgeRef) {
    && !(strict && e.kind == VirtualDispatch && e.confidence == Unknown)
    && (|| e.confidence == Proven
        || (mode == Optimistic && e.kind != VirtualDispatch)
        || (mode == Optimistic && exists c :: IsBuilt(c) in known && Receives(p, c, e.callee)))
  }

  /** A seed, or a consequence of what is known. */
  ghost predicate Follows(p: Program, mode: Mode, strict: bool, known: set<Fact>, fact: Fact) {
    match fact
    case IsAlive(f) =>
      f in p.seeds || exists u, e :: IsAlive(u) in known && e in p.graph.CalleesOf(u) && e.callee == f && MadeAlive(p, mode, strict, known, e)
    case IsBuilt(c) =>
      exists u, e :: IsAlive(u) in known && e in p.graph.CalleesOf(u) && e.kind == ConstructorCall && e.callee in p.enclosing && p.enclosing[e.callee] == c
  }

  ghost function Known(facts: seq<Fact>, n: nat): set<Fact>
    requires n <= |facts|
  {
    set x | x in facts[..n]
  }

  /** Every fact follows from those before it. */
  ghost predicate IsDerivation(p: Program, mode: Mode, strict: bool, facts: seq<Fact>) {
    forall i :: 0 <= i < |facts| ==> Follows(p, mode, strict, Known(facts, i), facts[i])
  }

  ghost predicate Derivable(p: Program, mode: Mode, strict: bool, fact: Fact) {
    exists facts :: IsDerivation(p, mode, strict, facts) && fact in facts
  }

  ghost predicate Holds(fact: Fact, alive: set<Id>, built: set<Id>) {
    match fact
    case IsAlive(f) => f in alive
    case IsBuilt(c) => c in built
  }

  lemma FollowsHolds(p: Program, mode: Mode, strict: bool, alive: set<Id>, built: set<Id>, known: set<Fact>, fact: Fact)
    requires Closed(p, mode, strict, alive, built) && Follows(p, mode, strict, known, fact)
    requires forall x :: x in known ==> Holds(x, alive, built)
    ensures Holds(fact, alive, built)
  {
    if fact.IsBuilt? {
      var u, e :| IsAlive(u) in known && e in p.graph.CalleesOf(u) && e.kind == ConstructorCall && e.callee in p.enclosing && p.enclosing[e.callee] == fact.c;
      assert Holds(IsAlive(u), alive, built);
      assert Obeyed(p, mode, strict, alive, built, e);
    } else if fact.f !in p.seeds {
      var u, e :| IsAlive(u) in known && e in p.graph.CalleesOf(u) && e.callee == fact.f && MadeAlive(p, mode, strict, known, e);
      assert Holds(IsAlive(u), alive, built);
      assert Obeyed(p, mode, strict, alive, built, e);
      if e.confidence != Proven && e.kind == VirtualDispatch {
        var c :| IsBuilt(c) in known && Receives(p, c, e.callee);
        assert Holds(IsBuilt(c), alive, built);
        ReceivedBy(p, c, e.callee, built);
      }
    }
  }

  lemma ReceivedBy(p: Program, c: Id, f: Id, built: set<Id>)
    requires Receives(p, c, f) && c in built
    ensures Receivable(p, f, built)
  {
    if f in p.implClasses && c in p.implClasses[f] {
      assert c in p.implClasses[f] * built;
    }
  }

  /** Whatever is derivable is in every closed solution. */
  lemma {:induction false} DerivedHolds(p: Program, mode: Mode, strict: bool, alive: set<Id>, built: set<Id>, facts: seq<Fact>, n: nat)
    requires Closed(p, mode, strict, alive, built) && IsDerivation(p, mode, strict, facts) && n <= |facts|
    ensures forall i :: 0 <= i < n ==> Holds(facts[i], alive, built)
  {
    hide Closed, Follows, Holds;
    if n > 0 {
      DerivedHolds(p, mode, strict, alive, built, facts, n - 1);
      assert forall x :: x in Known(facts, n - 1) ==> Holds(x, alive, built);
      FollowsHolds(p, mode, strict, alive, built, Known(facts, n - 1), facts[n - 1]);
    }
  }

  lemma FollowsMore(p: Program, mode: Mode, strict: bool, known: set<Fact>, more: set<Fact>, fact: Fact)
    requires Follows(p, mode, strict, known, fact) && known <= more
    ensures Follows(p, mode, strict, more, fact)
  {
    hide Receives;
    if fact.IsAlive? && fact.f !in p.seeds {
      var u, e :| IsAlive(u) in known && e in p.graph.CalleesOf(u) && e.callee == fact.f && MadeAlive(p, mode, strict, known, e);
      assert IsAlive(u) in more && MadeAlive(p, mode, strict, more, e);
    }
  }

  /** Two derivations, one after the other. */
  lemma JoinDerivations(p: Program, mode: Mode, strict: bool, a: seq<Fact>, b: seq<Fact>)
    requires IsDerivation(p, mode, strict, a) && IsDerivation(p, mode, strict, b)
    ensures IsDerivation(p, mode, strict, a + b)
  {
    hide Follows;
    var all := a + b;
    forall i | 0 <= i < |all| ensures Follows(p, mode, strict, Known(all, i), all[i]) {
      if i < |a| {
        assert all[..i] == a[..i];
      } else {
        forall x | x in Known(b, i - |a|) ensures x in Known(all, i) {
          assert all[..i] == a + b[..i - |a|];
        }
        FollowsMore(p, mode, strict, Known(b, i - |a|), Known(all, i), all[i]);
      }
    }
  }

  /** What follows from derivable facts is derivable. */
  lemma Deduce(p: Program, mode: Mode, strict: bool, facts: seq<Fact>, known: set<Fact>, fact: Fact)
    requires IsDerivation(p, mode, strict, facts) && (forall x :: x in known ==> x in facts) && Follows(p, mode, strict, known, fact)
    ensures Derivable(p, mode, strict, fact)
  {
    hide Follows;
    var all := facts + [fact];
    forall i | 0 <= i < |all| ensures Follows(p, mode, strict, Known(all, i), all[i]) {
      assert all[..i] == facts[..i];
      if i == |facts| {
        FollowsMore(p, mode, strict, known, Known(all, i), fact);
      }
    }
    assert IsDerivation(p, mode, strict, all) && all[|facts|] == fact && fact in all;
  }

  lemma Combine(p: Program, mode: Mode, strict: bool, x: Fact, y: Fact) returns (facts: seq<Fact>)
    requires Derivable(p, mode, strict, x) && Derivable(p, mode, strict, y)
    ensures IsDerivation(p, mode, strict, facts) && x in facts && y in facts
  {
    hide IsDerivation;
    var a :| IsDerivation(p, mode, strict, a) && x in a;
    var b :| IsDerivation(p, mode, strict, b) && y in b;
    JoinDerivations(p, mode, strict, a, b);
    facts := a + b;
  }

  lemma DerivedEdge(p: Program, mode: Mode, strict: bool, built: set<Id>, u: Id, e: EdgeRef)
    requires Derivable(p, mode, strict, IsAlive(u)) && e in p.graph.CalleesOf(u)
    requires forall c :: c in built ==> Derivable(p, mode, strict, IsBuilt(c))
    ensures e.kind == ConstructorCall && e.callee in p.enclosing ==> Derivable(p, mode, strict, IsBuilt(p.enclosing[e.callee]))
    ensures ShouldFollow(p, mode, e, built) && !(strict && Undetermined(e)) ==> Derivable(p, mode, strict, IsAlive(e.callee))
  {
    hide Derivable, IsDerivation;
    var facts := Combine(p, mode, strict, IsAlive(u), IsAlive(u));
    if e.kind == ConstructorCall && e.callee in p.enclosing {
      Deduce(p, mode, strict, facts, {IsAlive(u)}, IsBuilt(p.enclosing[e.callee]));
    }
    if ShouldFollow(p, mode, e, built) && !(strict && Undetermined(e)) {
      if e.confidence == Proven || e.kind != VirtualDispatch {
        assert MadeAlive(p, mode, strict, {IsAlive(u)}, e);
        Deduce(p, mode, strict, facts, {IsAlive(u)}, IsAlive(e.callee));
      } else {
        var c := Receiver(p, e.callee, built);
        facts := Combine(p, mode, strict, IsAlive(u), IsBuilt(c));
        var known := {IsAlive(u), IsBuilt(c)};
        assert IsBuilt(c) in known && MadeAlive(p, mode, strict, known, e);
        Deduce(p, mode, strict, facts, known, IsAlive(e.callee));
      }
    }
  }

  lemma Receiver(p: Program, f: Id, built: set<Id>) returns (c: Id)
    requires Receivable(p, f, built)
    ensures c in built && Receives(p, c, f)
  {
    if f in p.implClasses && p.implClasses[f] * built != {} {
      c :| c in p.implClasses[f] * built;
    } else {
      c := p.enclosing[f];
    }
  }

  /** The derivable facts are a closed solution, so what is forced is derivable. */
  lemma ForcedIsDerivable(p: Program, mode: Mode, strict: bool, alive: set<Id>, built: set<Id>)
    requires Forced(p, mode, strict, alive, built)
    ensures forall f :: f in alive ==> Derivable(p, mode, strict, IsAlive(f))
    ensures forall c :: c in built ==> Derivable(p, mode, strict, IsBuilt(c))
  {
    hide Derivable, ShouldFollow, Follows;
    var a := set f | f in Universe(p) && Derivable(p, mode, strict, IsAlive(f));
    var b := set c | c in Classes(p) && Derivable(p, mode, strict, IsBuilt(c));
    forall s | s in p.seeds ensures s in a {
      SeedDerivable(p, mode, strict, s);
    }
    forall u, e | u in a && e in p.graph.CalleesOf(u) ensures Obeyed(p, mode, strict, a, b, e) {
      DerivedEdge(p, mode, strict, b, u, e);
    }
    assert Closed(p, mode, strict, a, b);
  }

  lemma SeedDerivable(p: Program, mode: Mode, strict: bool, s: Id)
    requires s in p.seeds
    ensures Derivable(p, mode, strict, IsAlive(s))
  {
    Deduce(p, mode, strict, [], {}, IsAlive(s));
  }

  /** A closed solution has everything derivable. */
  lemma ClosedHasDerivable(p: Program, mode: Mode, strict: bool, alive: set<Id>, built: set<Id>)
    requires Closed(p, mode, strict, alive, built)
    ensures forall f :: Derivable(p, mode, strict, IsAlive(f)) ==> f in alive
    ensures forall c :: Derivable(p, mode, strict, IsBuilt(c)) ==> c in built
  {
    hide Closed;
    forall x | Derivable(p, mode, strict, x) ensures Holds(x, alive, built) {
      var facts :| IsDerivation(p, mode, strict, facts) && x in facts;
      DerivedHolds(p, mode, strict, alive, built, facts, |facts|);
    }
    assert forall f :: Derivable(p, mode, strict, IsAlive(f)) ==> Holds(IsAlive(f), alive, built);
    assert forall c :: Derivable(p, mode, strict, IsBuilt(c)) ==> Holds(IsBuilt(c), alive, built);
  }

  // ---- The walk.

  function Universe(p: Program): set<Id> {
    (set s | s in p.seeds) + (set u, e | u in p.graph.callees && e in p.graph.callees[u] :: e.callee)
  }

  function Classes(p: Program): set<Id> {
    set f | f in p.enclosing :: p.enclosing[f]
  }

  lemma SmallerRest(all: set<Id>, some: set<Id>, x: Id)
    requires x in all && x !in some
    ensures |all - (some + {x})| < |all - some|
  {
    assert all - some == (all - (some + {x})) + {x};
  }

  /** What one edge out of a processed function has led to. */
  ghost predicate Handled(p: Program, mode: Mode, st: State, e: EdgeRef) {
    && (e.kind == ConstructorCall && e.callee in p.enclosing ==> p.enclosing[e.callee] in st.built)
    && (ShouldFollow(p, mode, e, {}) ==> e.callee in st.alive)
    && (Deferrable(mode, e) ==> e.callee in st.alive || e.callee in st.deferred)
  }

  datatype State = State(alive: set<Id>, built: set<Id>, queue: seq<Id>, deferred: seq<Id>)

  ghost predicate Bounded(p: Program, st: State) {
    st.alive <= Universe(p) && st.built <= Classes(p)
  }

  /** What the walk keeps: sound so far, everything live queued or processed
      except `pending`, whose edges are under way. */
  ghost predicate Inv(p: Program, mode: Mode, st: State, pending: set<Id>) {
    && Bounded(p, st)
    && Forced(p, mode, false, st.alive, st.built)
    && (forall s :: s in p.seeds ==> s in st.alive)
    && (forall x :: x in st.queue ==> x in st.alive)
    && (forall u, e :: u in st.alive && u !in st.queue && u !in pending && e in p.graph.CalleesOf(u) ==> Handled(p, mode, st, e))
  }

  /** Every deferred dispatch still has no class to receive it. */
  ghost predicate Waiting(p: Program, st: State) {
    forall d :: d in st.deferred ==> !Receivable(p, d, st.built)
  }

  /** `st'` knows at least what `st` knows. */
  ghost predicate Grown(st: State, st': State) {
    && st.alive <= st'.alive && st.built <= st'.built
    && (forall x :: x in st.queue ==> x in st'.queue)
    && (forall x :: x in st'.alive && x !in st.alive ==> x in st'.queue)
    && (forall d :: d in st.deferred ==> d in st'.deferred || d in st'.alive)
  }

  lemma HandledGrown(p: Program, mode: Mode, st: State, st': State, e: EdgeRef)
    requires Handled(p, mode, st, e) && Grown(st, st')
    ensures Handled(p, mode, st', e)
  {
  }

  lemma InvGrown(p: Program, mode: Mode, st: State, st': State, pending: set<Id>)
    requires Inv(p, mode, st, pending) && Grown(st, st')
    requires Bounded(p, st') && Forced(p, mode, false, st'.alive, st'.built)
    requires forall x :: x in st'.queue ==> x in st'.alive
    ensures Inv(p, mode, st', pending)
  {
    hide Forced, Bounded, Handled, Grown;
    forall u, e | u in st'.alive && u !in st'.queue && u !in pending && e in p.graph.CalleesOf(u) ensures Handled(p, mode, st', e) {
      GrownMember(st, st', u);
      HandledGrown(p, mode, st, st', e);
    }
    GrownSeeds(p, st, st');
  }

  lemma GrownMember(st: State, st': State, u: Id)
    requires Grown(st, st') && u in st'.alive && u !in st'.queue
    ensures u in st.alive && u !in st.queue
  {
  }

  lemma GrownSeeds(p: Program, st: State, st': State)
    requires Grown(st, st') && forall s :: s in p.seeds ==> s in st.alive
    ensures forall s :: s in p.seeds ==> s in st'.alive
  {
  }

  lemma GrownTrans(a: State, b: State, c: State)
    requires Grown(a, b) && Grown(b, c)
    ensures Grown(a, c)
  {
  }

  lemma ForcedAlive(p: Program, mode: Mode, alive: set<Id>, built: set<Id>, u: Id, e: EdgeRef)
    requires Forced(p, mode, false, alive, built)
    requires u in alive && e in p.graph.CalleesOf(u) && ShouldFollow(p, mode, e, built)
    ensures Forced(p, mode, false, alive + {e.callee}, built)
  {
    forall a, b | Closed(p, mode, false, a, b) ensures alive + {e.callee} <= a {
      assert Obeyed(p, mode, false, a, b, e);
      FollowGrown(p, mode, e, built, b);
    }
  }

  lemma FollowGrown(p: Program, mode: Mode, e: EdgeRef, built: set<Id>, more: set<Id>)
    requires ShouldFollow(p, mode, e, built) && built <= more
    ensures ShouldFollow(p, mode, e, more)
  {
    if e.callee in p.implClasses && p.implClasses[e.callee] * built != {} {
      var c :| c in p.implClasses[e.callee] * built;
      assert c in p.implClasses[e.callee] * more;
    }
  }

  lemma ForcedBuilt(p: Program, mode: Mode, alive: set<Id>, built: set<Id>, u: Id, e: EdgeRef)
    requires Forced(p, mode, false, alive, built)
    requires u in alive && e in p.graph.CalleesOf(u) && e.kind == ConstructorCall && e.callee in p.enclosing
    ensures Forced(p, mode, false, alive, built + {p.enclosing[e.callee]})
  {
    forall a, b | Closed(p, mode, false, a, b) ensures built + {p.enclosing[e.callee]} <= b {
      assert Obeyed(p, mode, false, a, b, e);
    }
  }

  function Alive(st: State, f: Id): State {
    if f in st.alive then st else st.(alive := st.alive + {f}, queue := st.queue + [f])
  }

  /** The functions that some live function would dispatch to. */
  ghost predicate DeferredFrom(p: Program, mode: Mode, st: State) {
    forall d :: d in st.deferred ==> Dispatched(p, mode, st.alive, d)
  }

  ghost predicate Dispatched(p: Program, mode: Mode, alive: set<Id>, d: Id) {
    exists u, e :: u in alive && e in p.graph.CalleesOf(u) && Deferrable(mode, e) && e.callee == d
  }

  lemma DispatchedGrown(p: Program, mode: Mode, alive: set<Id>, more: set<Id>, d: Id)
    requires Dispatched(p, mode, alive, d) && alive <= more
    ensures Dispatched(p, mode, more, d)
  {
  }

  lemma DeferredGrown(p: Program, mode: Mode, st: State, st': State)
    requires DeferredFrom(p, mode, st) && st.alive <= st'.alive
    requires forall d :: d in st'.deferred ==> d in st.deferred || Dispatched(p, mode, st'.alive, d)
    ensures DeferredFrom(p, mode, st')
  {
    hide Dispatched;
    forall d | d in st'.deferred ensures Dispatched(p, mode, st'.alive, d) {
      if d in st.deferred {
        DispatchedGrown(p, mode, st.alive, st'.alive, d);
      }
    }
  }

  /** Look at one edge out of a live function. */
  method VisitEdge(p: Program, mode: Mode, st: State, u: Id, e: EdgeRef) returns (st': State, changed: bool)
    requires Inv(p, mode, st, {u}) && DeferredFrom(p, mode, st) && u in st.alive && e in p.graph.CalleesOf(u)
    ensures Inv(p, mode, st', {u}) && DeferredFrom(p, mode, st') && Grown(st, st') && Handled(p, mode, st', e)
    ensures !changed ==> st'.built == st.built && (Waiting(p, st) ==> Waiting(p, st'))
    ensures changed ==> st.built < st'.built
    ensures st'.alive == st.alive ==> st'.queue == st.queue
  {
    hide Forced, Inv, Universe, Classes, Closed, Receivable, Dispatched;
    InvFacts(p, mode, st, {u});
    changed := false;
    st' := st;
    if e.kind == ConstructorCall && e.callee in p.enclosing && p.enclosing[e.callee] !in st.built {
      changed := true;
      ForcedBuilt(p, mode, st.alive, st.built, u, e);
      st' := st'.(built := st'.built + {p.enclosing[e.callee]});
    }
    EdgeInUniverse(p, u, e);
    if ShouldFollow(p, mode, e, st'.built) {
      ForcedAlive(p, mode, st'.alive, st'.built, u, e);
      st' := Alive(st', e.callee);
      assert st'.alive == st.alive + {e.callee};
    } else if Deferrable(mode, e) {
      st' := st'.(deferred := st'.deferred + [e.callee]);
      assert Dispatched(p, mode, st'.alive, e.callee) by { DispatchedBy(p, mode, st.alive, u, e); }
    }
    NotFollowed(p, mode, e, st'.built);
    DeferredGrown(p, mode, st, st');
    InvGrown(p, mode, st, st', {u});
  }

  lemma DispatchedBy(p: Program, mode: Mode, alive: set<Id>, u: Id, e: EdgeRef)
    requires u in alive && e in p.graph.CalleesOf(u) && Deferrable(mode, e)
    ensures Dispatched(p, mode, alive, e.callee)
  {
  }

  lemma NotFollowed(p: Program, mode: Mode, e: EdgeRef, built: set<Id>)
    ensures ShouldFollow(p, mode, e, {}) ==> ShouldFollow(p, mode, e, built)
  {
    if ShouldFollow(p, mode, e, {}) {
      FollowGrown(p, mode, e, {}, built);
    }
  }

  lemma InvFacts(p: Program, mode: Mode, st: State, pending: set<Id>)
    requires Inv(p, mode, st, pending)
    ensures Bounded(p, st) && Forced(p, mode, false, st.alive, st.built)
    ensures forall x :: x in st.queue ==> x in st.alive
  {
  }

  lemma EdgeInUniverse(p: Program, u: Id, e: EdgeRef)
    requires e in p.graph.CalleesOf(u)
    ensures e.callee in Universe(p)
    ensures e.callee in p.enclosing ==> p.enclosing[e.callee] in Classes(p)
  {
  }

  ghost predicate EdgesHandled(p: Program, mode: Mode, st: State, edges: seq<EdgeRef>, n: nat)
    requires n <= |edges|
  {
    forall i :: 0 <= i < n ==> Handled(p, mode, st, edges[i])
  }

  lemma EdgesHandledNext(p: Program, mode: Mode, st: State, st': State, edges: seq<EdgeRef>, n: nat)
    requires n < |edges| && EdgesHandled(p, mode, st, edges, n) && Grown(st, st') && Handled(p, mode, st', edges[n])
    ensures EdgesHandled(p, mode, st', edges, n + 1)
  {
    hide Handled, Grown;
    forall i | 0 <= i < n ensures Handled(p, mode, st', edges[i]) {
      HandledGrown(p, mode, st, st', edges[i]);
    }
  }

  /** Process the function at the head of the queue. */
  method VisitFunction(p: Program, mode: Mode, st: State) returns (st': State, changed: bool)
    requires Inv(p, mode, st, {}) && DeferredFrom(p, mode, st) && st.queue != []
    ensures Inv(p, mode, st', {}) && DeferredFrom(p, mode, st')
    ensures st.alive <= st'.alive && st.built <= st'.built
    ensures !changed ==> st'.built == st.built && (Waiting(p, st) ==> Waiting(p, st'))
    ensures changed ==> st.built < st'.built
    ensures st'.alive == st.alive ==> |st'.queue| < |st.queue|
  {
    hide Inv, Closed, Forced, Handled, Grown, DeferredFrom, Waiting, Universe, Classes;
    var u := st.queue[0];
    PopHead(p, mode, st);
    var edges := p.graph.CalleesOf(u);
    st' := st.(queue := st.queue[1..]);
    changed := false;
    ghost var st0 := st';
    GrownSelf(st');
    DeferredPopped(p, mode, st);
    for i := 0 to |edges|
      invariant Inv(p, mode, st', {u}) && DeferredFrom(p, mode, st') && Grown(st0, st')
      invariant u in st'.alive && st0.alive <= st'.alive && st0.built <= st'.built
      invariant EdgesHandled(p, mode, st', edges, i)
      invariant !changed ==> st'.built == st.built && (Waiting(p, st0) ==> Waiting(p, st'))
      invariant changed ==> st.built < st'.built
      invariant st'.alive == st0.alive ==> st'.queue == st0.queue
    {
      var st1, more := VisitEdge(p, mode, st', u, edges[i]);
      EdgesHandledNext(p, mode, st', st1, edges, i);
      GrownTrans(st0, st', st1);
      GrownSets(st', st1);
      changed := changed || more;
      st' := st1;
    }
    FinishFunction(p, mode, st', u);
  }

  lemma GrownSets(st: State, st': State)
    requires Grown(st, st')
    ensures st.alive <= st'.alive && st.built <= st'.built
  {
  }

  lemma GrownSelf(st: State)
    ensures Grown(st, st)
  {
  }

  lemma DeferredPopped(p: Program, mode: Mode, st: State)
    requires DeferredFrom(p, mode, st) && st.queue != []
    ensures DeferredFrom(p, mode, st.(queue := st.queue[1..]))
    ensures Waiting(p, st) ==> Waiting(p, st.(queue := st.queue[1..]))
  {
    hide Dispatched, Receivable;
  }

  lemma PopHead(p: Program, mode: Mode, st: State)
    requires Inv(p, mode, st, {}) && st.queue != []
    ensures Inv(p, mode, st.(queue := st.queue[1..]), {st.queue[0]}) && st.queue[0] in st.alive
  {
    hide Forced, Bounded, Handled;
    var st' := st.(queue := st.queue[1..]);
    assert Bounded(p, st') by { BoundedSame(p, st, st'); }
    forall u, e | u in st'.alive && u !in st'.queue && u != st.queue[0] && e in p.graph.CalleesOf(u) ensures Handled(p, mode, st', e) {
      assert u !in st.queue;
      HandledGrown'(p, mode, st, st', e);
    }
  }

  lemma BoundedSame(p: Program, st: State, st': State)
    requires Bounded(p, st) && st'.alive == st.alive && st'.built == st.built
    ensures Bounded(p, st')
  {
  }

  lemma HandledGrown'(p: Program, mode: Mode, st: State, st': State, e: EdgeRef)
    requires Handled(p, mode, st, e) && st' == st.(queue := st'.queue)
    ensures Handled(p, mode, st', e)
  {
  }

  lemma FinishFunction(p: Program, mode: Mode, st: State, u: Id)
    requires Inv(p, mode, st, {u}) && EdgesHandled(p, mode, st, p.graph.CalleesOf(u), |p.graph.CalleesOf(u)|)
    ensures Inv(p, mode, st, {})
  {
    hide Forced, Bounded, Handled;
  }

  /** Look again at the deferred dispatches, now that classes were added. */
  method Recheck(p: Program, mode: Mode, st: State) returns (st': State, grew: bool)
    requires Inv(p, mode, st, {}) && DeferredFrom(p, mode, st) && mode.Optimistic? && st.queue == []
    ensures Inv(p, mode, st', {}) && DeferredFrom(p, mode, st') && Waiting(p, st')
    ensures st'.built == st.built && st.alive <= st'.alive
    ensures grew <==> st.alive < st'.alive
    ensures !grew ==> st'.queue == []
  {
    hide Inv, Closed, Forced, Handled, Grown, DeferredFrom, Waiting, Universe, Classes, Receivable, Dispatched, Bounded;
    var still: seq<Id> := [];
    st' := st;
    grew := false;
    GrownSelf(st);
    for i := 0 to |st.deferred|
      invariant Inv(p, mode, st', {}) && st'.built == st.built && st.alive <= st'.alive
      invariant st'.deferred == st.deferred
      invariant grew <==> st.alive < st'.alive
      invariant !grew ==> st'.queue == []
      invariant forall d :: d in still ==> d in st.deferred && !Receivable(p, d, st.built)
      invariant forall j :: 0 <= j < i ==> st.deferred[j] in st'.alive || st.deferred[j] in still
    {
      var d := st.deferred[i];
      if Receivable(p, d, st.built) {
        AliveDeferred(p, mode, st, st', d);
        grew := grew || d !in st'.alive;
        st' := Alive(st', d);
      } else {
        still := still + [d];
      }
    }
    ghost var st1 := st';
    st' := st'.(deferred := still);
    SwapDeferred(p, mode, st, st1, st');
  }

  /** A deferred function whose class is constructed may be added. */
  lemma AliveDeferred(p: Program, mode: Mode, st0: State, st: State, d: Id)
    requires Inv(p, mode, st, {}) && DeferredFrom(p, mode, st0) && mode.Optimistic?
    requires st0.alive <= st.alive && st.deferred == st0.deferred && d in st0.deferred
    requires Receivable(p, d, st.built)
    ensures Inv(p, mode, Alive(st, d), {})
  {
    hide Handled, Universe, Classes, Receivable, Forced;
    InvFacts(p, mode, st, {});
    assert Dispatched(p, mode, st0.alive, d);
    var u, e :| u in st0.alive && e in p.graph.CalleesOf(u) && Deferrable(mode, e) && e.callee == d;
    EdgeInUniverse(p, u, e);
    ForcedAlive(p, mode, st.alive, st.built, u, e);
    var st' := Alive(st, d);
    assert st'.alive == st.alive + {d};
    assert Grown(st, st');
    InvGrown(p, mode, st, st', {});
  }

  lemma SwapDeferred(p: Program, mode: Mode, st0: State, st: State, st': State)
    requires Inv(p, mode, st, {}) && DeferredFrom(p, mode, st0) && st0.alive <= st.alive
    requires st' == st.(deferred := st'.deferred) && st.deferred == st0.deferred
    requires forall d :: d in st'.deferred ==> d in st0.deferred && !Receivable(p, d, st.built)
    requires forall j :: 0 <= j < |st0.deferred| ==> st0.deferred[j] in st.alive || st0.deferred[j] in st'.deferred
    ensures Inv(p, mode, st', {}) && DeferredFrom(p, mode, st') && Waiting(p, st')
  {
    hide Handled, Universe, Classes, Receivable, Forced, Dispatched;
    InvFacts(p, mode, st, {});
    assert Grown(st, st');
    InvGrown(p, mode, st, st', {});
    DeferredGrown(p, mode, st0, st');
  }

  ghost function Unseen(p: Program, st: State): nat {
    |Universe(p) - st.alive| + |Classes(p) - st.built|
  }

  lemma UnseenShrinks(p: Program, st: State, st': State)
    requires Bounded(p, st') && st.alive <= st'.alive && st.built <= st'.built
    ensures Unseen(p, st') <= Unseen(p, st)
    ensures st.alive < st'.alive || st.built < st'.built ==> Unseen(p, st') < Unseen(p, st)
  {
    hide Universe, Classes;
    RestShrinks(Universe(p), st.alive, st'.alive);
    RestShrinks(Classes(p), st.built, st'.built);
  }

  lemma RestShrinks(all: set<Id>, a: set<Id>, b: set<Id>)
    requires a <= b <= all
    ensures |all - b| <= |all - a| && (a < b ==> |all - b| < |all - a|)
  {
    assert all - a == (all - b) + (b - a);
    assert |all - a| == |all - b| + |b - a|;
    if a < b {
      var x :| x in b && x !in a;
      assert x in b - a;
    }
  }

  /** Drain the queue. */
  method Drain(p: Program, mode: Mode, st: State) returns (st': State, changed: bool)
    requires Inv(p, mode, st, {}) && DeferredFrom(p, mode, st) && Waiting(p, st)
    ensures Inv(p, mode, st', {}) && DeferredFrom(p, mode, st') && st'.queue == []
    ensures st.alive <= st'.alive && st.built <= st'.built
    ensures !changed ==> st'.built == st.built && Waiting(p, st')
    ensures changed ==> st.built < st'.built
  {
    hide Inv, DeferredFrom, Waiting, Unseen, Bounded;
    st', changed := st, false;
    while st'.queue != []
      invariant Inv(p, mode, st', {}) && DeferredFrom(p, mode, st')
      invariant st.alive <= st'.alive && st.built <= st'.built
      invariant !changed ==> st'.built == st.built && Waiting(p, st')
      invariant changed ==> st.built < st'.built
      decreases Unseen(p, st'), |st'.queue|
    {
      var st1, more := VisitFunction(p, mode, st');
      InvFacts(p, mode, st1, {});
      UnseenShrinks(p, st', st1);
      changed := changed || more;
      st' := st1;
    }
  }

  method Seed(p: Program, mode: Mode) returns (st: State)
    ensures Inv(p, mode, st, {}) && DeferredFrom(p, mode, st) && Waiting(p, st)
  {
    st := State({}, {}, [], []);
    for i := 0 to |p.seeds|
      invariant st.alive == (set j | 0 <= j < i :: p.seeds[j]) && st.built == {} && st.deferred == []
      invariant forall x :: x in st.queue <==> x in st.alive
    {
      st := Alive(st, p.seeds[i]);
    }
    SeedsForced(p, mode, st);
  }

  lemma SeedsForced(p: Program, mode: Mode, st: State)
    requires st.alive == (set j | 0 <= j < |p.seeds| :: p.seeds[j]) && st.built == {} && st.deferred == []
    requires forall x :: x in st.queue <==> x in st.alive
    ensures Inv(p, mode, st, {}) && DeferredFrom(p, mode, st) && Waiting(p, st)
  {
    hide Obeyed, Handled;
    forall s | s in p.seeds ensures s in st.alive {
      var j :| 0 <= j < |p.seeds| && p.seeds[j] == s;
    }
  }

  /** The analysis.  For any edges it stays between the solutions without and
      with the undetermined dispatches; where there are none, it is the least
      solution. */
  method Bfs(p: Program, mode: Mode) returns (alive: set<Id>, built: set<Id>)
    ensures Closed(p, mode, true, alive, built) && Forced(p, mode, false, alive, built)
    ensures Determined(p) || mode.Pessimistic? ==> Least(p, mode, true, alive, built) && Least(p, mode, false, alive, built)
    // By derivation: everything that follows without undetermined dispatches is
    // found, and nothing that does not follow with them.
    ensures forall f :: Derivable(p, mode, true, IsAlive(f)) ==> f in alive
    ensures forall f :: f in alive ==> Derivable(p, mode, false, IsAlive(f))
  {
    hide Derivable;
    hide Inv, DeferredFrom, Waiting, Unseen, Bounded, Closed, Forced, Determined;
    var st := Seed(p, mode);
    var changed := true;
    while changed
      invariant Inv(p, mode, st, {}) && DeferredFrom(p, mode, st) && Waiting(p, st)
      invariant !changed ==> st.queue == []
      decreases Unseen(p, st), if changed then 1 else 0
    {
      var st1;
      ghost var st0 := st;
      st1, changed := Drain(p, mode, st);
      if changed && mode.Optimistic? {
        var grew;
        st1, grew := Recheck(p, mode, st1);
        changed := changed || grew;
      } else if changed {
        NothingDeferred(p, mode, st1);
      }
      InvFacts(p, mode, st1, {});
      UnseenShrinks(p, st0, st1);
      st := st1;
    }
    alive, built := st.alive, st.built;
    Finished(p, mode, st);
    ClosedHasDerivable(p, mode, true, alive, built);
    ForcedIsDerivable(p, mode, false, alive, built);
    if Determined(p) || mode.Pessimistic? {
      ExactlyLeast(p, mode, alive, built);
    }
  }

  lemma NothingDeferred(p: Program, mode: Mode, st: State)
    requires DeferredFrom(p, mode, st) && mode.Pessimistic?
    ensures Waiting(p, st)
  {
    hide Receivable;
  }

  lemma ExactlyLeast(p: Program, mode: Mode, alive: set<Id>, built: set<Id>)
    requires Determined(p) || mode.Pessimistic?
    requires Closed(p, mode, true, alive, built) && Forced(p, mode, false, alive, built)
    ensures Least(p, mode, true, alive, built) && Least(p, mode, false, alive, built)
  {
    hide Closed, Determined;
    StrictIsLoose(p, mode, alive, built);
    forall a, b | Closed(p, mode, true, a, b) ensures alive <= a && built <= b {
      StrictIsLoose(p, mode, a, b);
    }
  }

  /** With the queue empty and every deferral waiting, the rules hold. */
  lemma Finished(p: Program, mode: Mode, st: State)
    requires Inv(p, mode, st, {}) && Waiting(p, st) && st.queue == []
    ensures Closed(p, mode, true, st.alive, st.built) && Forced(p, mode, false, st.alive, st.built)
  {
    hide Forced, Universe, Classes, Receivable;
    forall u, e | u in st.alive && e in p.graph.CalleesOf(u) ensures Obeyed(p, mode, true, st.alive, st.built, e) {
      assert Handled(p, mode, st, e);
    }
  }

  /** What a walk may answer, by the rules it follows. */
  ghost predicate Answer(p: Program, alive: set<Id>, built: set<Id>) {
    Closed(p, Optimistic, true, alive, built) && Forced(p, Optimistic, false, alive, built)
  }

  /** The solution without the undetermined dispatches and the one with them both
      are answers, and they are the only one exactly if the first already obeys
      the undetermined dispatches of its live functions. */
  lemma OneAnswerExactly(p: Program, a1: set<Id>, b1: set<Id>, a2: set<Id>, b2: set<Id>)
    requires Least(p, Optimistic, true, a1, b1) && Least(p, Optimistic, false, a2, b2)
    ensures Answer(p, a1, b1) && Answer(p, a2, b2)
    ensures Closed(p, Optimistic, false, a1, b1) <==> forall a, b :: Answer(p, a, b) ==> a == a1 && b == b1
  {
    hide Obeyed;
    forall a, b | Closed(p, Optimistic, false, a, b) ensures Closed(p, Optimistic, true, a, b) {
      LooseIsStrict(p, a, b);
    }
    forall a, b | Answer(p, a, b) && Closed(p, Optimistic, false, a1, b1) ensures a == a1 && b == b1 {
    }
  }

  lemma LooseIsStrict(p: Program, alive: set<Id>, built: set<Id>)
    requires Closed(p, Optimistic, false, alive, built)
    ensures Closed(p, Optimistic, true, alive, built)
  {
    forall u, e | u in alive && e in p.graph.CalleesOf(u) ensures Obeyed(p, Optimistic, true, alive, built, e) {
      assert Obeyed(p, Optimistic, false, alive, built, e);
    }
  }

  /** Undetermined dispatches do make a difference: 0 dispatches to 1 and
      constructs 1's class through 2, and the two solutions disagree on 1. */
  lemma UndeterminedGap(dispatch: EdgeRef, construct: EdgeRef)
    requires dispatch.caller == 0 && dispatch.callee == 1 && Undetermined(dispatch)
    requires construct.caller == 0 && construct.callee == 2 && construct.kind == ConstructorCall && construct.confidence == Proven
    ensures var p := Program(QueryGraph(map[], map[0 := [dispatch, construct]], map[]), [0], map[], map[1 := 9, 2 := 9]);
            Least(p, Optimistic, true, {0, 2}, {9}) && Least(p, Optimistic, false, {0, 1, 2}, {9})
  {
    var p := Program(QueryGraph(map[], map[0 := [dispatch, construct]], map[]), [0], map[], map[1 := 9, 2 := 9]);
    var edges := p.graph.CalleesOf(0);
    assert edges[0] == dispatch && edges[1] == construct;
    assert dispatch in edges && construct in edges;
    assert p.graph.CalleesOf(1) == [] && p.graph.CalleesOf(2) == [];
    assert 0 in p.seeds;
    forall a, b | Closed(p, Optimistic, true, a, b) ensures {0, 2} <= a && {9} <= b {
      assert Obeyed(p, Optimistic, true, a, b, construct);
    }
    forall a, b | Closed(p, Optimistic, false, a, b) ensures {0, 1, 2} <= a && {9} <= b {
      assert Obeyed(p, Optimistic, false, a, b, construct);
      assert Obeyed(p, Optimistic, false, a, b, dispatch);
    }
  }

  // ---- The analyzer keeps both answers.

  class Analyzer {
    const program: Program
    var pessimisticAlive: set<Id>
    var optimisticAlive: set<Id>

    constructor (p: Program)
      ensures program == p && pessimisticAlive == {} && optimisticAlive == {}
    {
      program, pessimisticAlive, optimisticAlive := p, {}, {};
    }

    method AnalyzePessimistic()
      modifies this`pessimisticAlive
      ensures exists b :: Least(program, Pessimistic, false, pessimisticAlive, b)
      ensures forall f :: Derivable(program, Pessimistic, true, IsAlive(f)) ==> f in pessimisticAlive
      ensures forall f :: f in pessimisticAlive ==> Derivable(program, Pessimistic, false, IsAlive(f))
    {
      hide Least, Derivable;
      var built;
      pessimisticAlive, built := Bfs(program, Pessimistic);
    }

    /** Afterwards every proven-alive function is optimistically alive. */
    method AnalyzeOptimistic()
      modifies this`optimisticAlive
      ensures exists b :: Closed(program, Optimistic, true, optimisticAlive, b) && Forced(program, Optimistic, false, optimisticAlive, b)
      ensures Determined(program) ==> exists b :: Least(program, Optimistic, false, optimisticAlive, b)
      ensures forall f :: Derivable(program, Optimistic, true, IsAlive(f)) ==> f in optimisticAlive
      ensures forall f :: f in optimisticAlive ==> Derivable(program, Optimistic, false, IsAlive(f))
      ensures (exists b :: Least(program, Pessimistic, false, pessimisticAlive, b)) ==> pessimisticAlive <= optimisticAlive
    {
      hide Closed, Forced, Determined, Derivable;
      var built;
      optimisticAlive, built := Bfs(program, Optimistic);
      if b :| Least(program, Pessimistic, false, pessimisticAlive, b) {
        PessimisticWithin(program, pessimisticAlive, b, optimisticAlive, built);
      }
    }
  }
}
