/** What the recorded contexts say: where an exception thrown by one call of a
    function ends if a handler passes it on exactly when it is marked as
    rethrowing, and the agreement of the scope loop with that reading.  What
    handlers really do is the subject of `HandlerRuns`. */
module Unwinding {
  import opened Interner
  import opened FlowTypes
  import opened ContextVisitor

  /** How an exception thrown inside a statement leaves it: caught by a handler
      in it, propagating in the same frame, or gone from a nested frame (the
      body of a lambda or of a local function), where the constructs around
      that body no longer apply. */
  datatype Ending = CaughtBy(tryLocation: string, handler: Handler) | Propagates | LeftFrame

  // ---- The calls of a statement, numbered in traversal order.

  function Calls(s: Stmt): nat {
    match s
    case Call(_, _, _, args) => 1 + AllCalls(args)
    case Assertion(_, _, args) => AllCalls(args)
    case Declare(_, init) => AllCalls(init)
    case Throw(args) => AllCalls(args)
    case Rethrow => 0
    case Block(body) => AllCalls(body)
    case Loop(parts) => AllCalls(parts)
    case If(_, _, test, a, b) => AllCalls(test) + Calls(a) + if b.Some? then Calls(b.value) else 0
    case Try(_, body, clauses) => AllCalls(body) + ClauseCalls(clauses)
    case Lambda(_, body) => AllCalls(body)
    case LocalFunction(_, body) => AllCalls(body)
  }

  function AllCalls(ss: Stmts): nat {
    if ss.Nil? then 0 else Calls(ss.head) + AllCalls(ss.tail)
  }

  function ClauseCalls(cs: Clauses): nat {
    if cs.NoMore? then 0 else AllCalls(cs.block) + ClauseCalls(cs.rest)
  }

  // ---- Reading the marks.

  /** An exception leaving a try block: the first matching handler takes it,
      and hands it outward if it is marked. */
  function AtHandlers(sub: Subtype, thrown: string, location: string, clauses: Clauses, e: Ending): Ending {
    if !e.Propagates? then e
    else
      match FirstMatch(sub, thrown, HandlersOf(clauses))
      case None => Propagates
      case Some(h) => if h.rethrows then Propagates else CaughtBy(location, h)
  }

  function OutOfFrame(e: Ending): Ending {
    if e.Propagates? then LeftFrame else e
  }

  /** Call number `k` of `s` throws: how that ends within `s`, by the marks. */
  function ByFlags(sub: Subtype, thrown: string, s: Stmt, k: nat): Ending
    requires k < Calls(s)
  {
    match s
    case Call(_, _, _, args) => if k == 0 then Propagates else AllByFlags(sub, thrown, args, k - 1)
    case Assertion(_, _, args) => AllByFlags(sub, thrown, args, k)
    case Declare(_, init) => AllByFlags(sub, thrown, init, k)
    case Throw(args) => AllByFlags(sub, thrown, args, k)
    case Block(body) => AllByFlags(sub, thrown, body, k)
    case Loop(parts) => AllByFlags(sub, thrown, parts, k)
    case If(_, _, test, a, b) =>
      if k < AllCalls(test) then AllByFlags(sub, thrown, test, k)
      else if k < AllCalls(test) + Calls(a) then ByFlags(sub, thrown, a, k - AllCalls(test))
      else ByFlags(sub, thrown, b.value, k - AllCalls(test) - Calls(a))
    case Try(location, body, clauses) =>
      if k < AllCalls(body) then AtHandlers(sub, thrown, location, clauses, AllByFlags(sub, thrown, body, k))
      else ClausesByFlags(sub, thrown, clauses, k - AllCalls(body))
    case Lambda(_, body) => OutOfFrame(AllByFlags(sub, thrown, body, k))
    case LocalFunction(_, body) => OutOfFrame(AllByFlags(sub, thrown, body, k))
  }

  function AllByFlags(sub: Subtype, thrown: string, ss: Stmts, k: nat): Ending
    requires k < AllCalls(ss)
  {
    if k < Calls(ss.head) then ByFlags(sub, thrown, ss.head, k) else AllByFlags(sub, thrown, ss.tail, k - Calls(ss.head))
  }

  function ClausesByFlags(sub: Subtype, thrown: string, cs: Clauses, k: nat): Ending
    requires k < ClauseCalls(cs)
  {
    if k < AllCalls(cs.block) then AllByFlags(sub, thrown, cs.block, k) else ClausesByFlags(sub, thrown, cs.rest, k - AllCalls(cs.block))
  }

  // ---- How many of the recorded scopes belong to the frame of the call.

  /** `n` tries of the frame already surround `s`. */
  function Own(s: Stmt, k: nat, n: nat): nat
    requires k < Calls(s)
  {
    match s
    case Call(_, _, _, args) => if k == 0 then n else OwnAll(args, k - 1, n)
    case Assertion(_, _, args) => OwnAll(args, k, n)
    case Declare(_, init) => OwnAll(init, k, n)
    case Throw(args) => OwnAll(args, k, n)
    case Block(body) => OwnAll(body, k, n)
    case Loop(parts) => OwnAll(parts, k, n)
    case If(_, _, test, a, b) =>
      if k < AllCalls(test) then OwnAll(test, k, n)
      else if k < AllCalls(test) + Calls(a) then Own(a, k - AllCalls(test), n)
      else Own(b.value, k - AllCalls(test) - Calls(a), n)
    case Try(_, body, clauses) =>
      if k < AllCalls(body) then OwnAll(body, k, n + 1) else OwnClauses(clauses, k - AllCalls(body), n)
    case Lambda(_, body) => OwnAll(body, k, 0)
    case LocalFunction(_, body) => OwnAll(body, k, 0)
  }

  function OwnAll(ss: Stmts, k: nat, n: nat): nat
    requires k < AllCalls(ss)
  {
    if k < Calls(ss.head) then Own(ss.head, k, n) else OwnAll(ss.tail, k - Calls(ss.head), n)
  }

  function OwnClauses(cs: Clauses, k: nat, n: nat): nat
    requires k < ClauseCalls(cs)
  {
    if k < AllCalls(cs.block) then OwnAll(cs.block, k, n) else OwnClauses(cs.rest, k - AllCalls(cs.block), n)
  }

  // ---- One context per call.

  lemma {:induction false} ContextCount(s: Stmt, env: Env, tu: string)
    requires env.funcs != []
    ensures |Contexts(s, env, tu)| == Calls(s)
    decreases s
  {
    hide Snapshot, HandlersOf, Then, AllAssertions, AllLocals, NewLocals, NewAssertions;
    match s
    case Call(_, _, _, args) => AllContextCount(args, env, tu);
    case Assertion(c, site, args) =>
      ThenKeeps(env, if c.Some? then [Guard(c.value, site, true, true)] else [], []);
      AllContextCount(args, if c.Some? then Then(env, [Guard(c.value, site, true, true)], []) else env, tu);
    case Declare(local, init) =>
      ThenKeeps(env, [], [local]);
      AllContextCount(init, Then(env, [], [local]), tu);
    case Throw(args) => AllContextCount(args, env, tu);
    case Rethrow =>
    case Block(body) => AllContextCount(body, Inside(env), tu);
    case Loop(parts) => AllContextCount(parts, env, tu);
    case If(_, _, test, a, b) =>
      var env1 := AfterAll(test, env);
      ThenKeeps(env, AllAssertions(test, true), AllLocals(test));
      AllContextCount(test, env, tu);
      ContextCount(a, Guarded(s, env1, true), tu);
      ThenKeeps(Guarded(s, env1, false), [], NewLocals(a));
      if b.Some? {
        ContextCount(b.value, Then(Guarded(s, env1, false), [], NewLocals(a)), tu);
      }
    case Try(_, body, clauses) =>
      AllContextCount(body, Inside(env.(tries := env.tries + [ScopeOf(s, env)])), tu);
      ClauseContextCount(clauses, env.(insideCatch := true), tu);
    case Lambda(func, body) => AllContextCount(body, Inside(InLambda(func, env)), tu);
    case LocalFunction(func, body) => AllContextCount(body, Inside(env.(funcs := env.funcs + [func])), tu);
  }

  lemma ThenKeeps(env: Env, a: seq<Guard>, l: seq<RaiiLocal>)
    ensures Then(env, a, l).funcs == env.funcs && Then(env, a, l).tries == env.tries
  {
  }

  lemma {:induction false} AllContextCount(ss: Stmts, env: Env, tu: string)
    requires env.funcs != []
    ensures |AllContexts(ss, env, tu)| == AllCalls(ss)
    decreases ss
  {
    hide Contexts, Then, NewLocals, NewAssertions;
    if ss.Cons? {
      ContextCount(ss.head, env, tu);
      ThenKeeps(env, NewAssertions(ss.head, true), NewLocals(ss.head));
      AllContextCount(ss.tail, After(ss.head, env), tu);
    }
  }

  lemma {:induction false} ClauseContextCount(cs: Clauses, env: Env, tu: string)
    requires env.funcs != []
    ensures |ClauseContexts(cs, env, tu)| == ClauseCalls(cs)
    decreases cs
  {
    if cs.Clause? {
      AllContextCount(cs.block, Inside(env), tu);
      ClauseContextCount(cs.rest, env, tu);
    }
  }

  // ---- The agreement.

  /** The scope loop over the own scopes of a call, when `n` of the tries in
      `env` already belong to its frame. */
  ghost predicate Agrees(sub: Subtype, thrown: string, env: Env, n: nat, c: CallContext, m: nat, e: Ending)
    requires n <= |env.tries|
  {
    && m <= |c.scopes|
    && Select(sub, thrown, c.scopes[..m]) ==
       match e
       case CaughtBy(location, h) => Caught(location, h)
       case Propagates => Select(sub, thrown, Reversed(env.tries)[..n])
       case LeftFrame => Escapes
  }

  /** A fresh frame: nothing around it applies. */
  lemma FrameAgrees(sub: Subtype, thrown: string, inner: Env, outer: Env, n: nat, c: CallContext, m: nat, e: Ending)
    requires n <= |outer.tries| && Agrees(sub, thrown, inner, 0, c, m, e)
    ensures Agrees(sub, thrown, outer, n, c, m, OutOfFrame(e))
  {
    assert Reversed(inner.tries)[..0] == [];
  }

  /** One more try around the call. */
  lemma TryAgrees(sub: Subtype, thrown: string, s: Stmt, env: Env, n: nat, c: CallContext, m: nat, e: Ending)
    requires s.Try? && n <= |env.tries|
    requires Agrees(sub, thrown, Inside(env.(tries := env.tries + [ScopeOf(s, env)])), n + 1, c, m, e)
    ensures Agrees(sub, thrown, env, n, c, m, AtHandlers(sub, thrown, s.location, s.clauses, e))
  {
    hide FirstMatch, HandlersOf;
    var inner := Reversed(env.tries + [ScopeOf(s, env)])[..n + 1];
    assert inner[0] == ScopeOf(s, env);
    assert inner[1..] == Reversed(env.tries)[..n];
  }

  lemma SameTries(sub: Subtype, thrown: string, inner: Env, outer: Env, n: nat, c: CallContext, m: nat, e: Ending)
    requires n <= |outer.tries| && inner.tries == outer.tries && Agrees(sub, thrown, inner, n, c, m, e)
    ensures Agrees(sub, thrown, outer, n, c, m, e)
  {
  }

  lemma {:induction false} CallAgrees(sub: Subtype, thrown: string, s: Stmt, env: Env, tu: string, n: nat, k: nat)
    requires env.funcs != [] && n <= |env.tries| && k < Calls(s)
    ensures |Contexts(s, env, tu)| == Calls(s)
    ensures Agrees(sub, thrown, env, n, Contexts(s, env, tu)[k], Own(s, k, n), ByFlags(sub, thrown, s, k))
    decreases s
  {
    hide HandlersOf, Then, AllAssertions, AllLocals, NewLocals, NewAssertions, Agrees, AtHandlers, Flattened, AllContexts, ClauseContexts, AllCalls, ClauseCalls;
    ContextCount(s, env, tu);
    match s
    case Call(display, usr, site, args) =>
      AllContextCount(args, env, tu);
      if k == 0 {
        DirectAgrees(sub, thrown, env, tu, display, usr, site, n);
      } else {
        AllCallAgrees(sub, thrown, args, env, tu, n, k - 1);
      }
    case Assertion(c, site, args) =>
      var env1 := if c.Some? then Then(env, [Guard(c.value, site, true, true)], []) else env;
      ThenKeeps(env, if c.Some? then [Guard(c.value, site, true, true)] else [], []);
      AllCallAgrees(sub, thrown, args, env1, tu, n, k);
      SameTries(sub, thrown, env1, env, n, Contexts(s, env, tu)[k], Own(s, k, n), ByFlags(sub, thrown, s, k));
    case Declare(local, init) =>
      ThenKeeps(env, [], [local]);
      AllCallAgrees(sub, thrown, init, Then(env, [], [local]), tu, n, k);
      SameTries(sub, thrown, Then(env, [], [local]), env, n, Contexts(s, env, tu)[k], Own(s, k, n), ByFlags(sub, thrown, s, k));
    case Throw(args) => AllCallAgrees(sub, thrown, args, env, tu, n, k);
    case Block(body) =>
      AllCallAgrees(sub, thrown, body, Inside(env), tu, n, k);
      SameTries(sub, thrown, Inside(env), env, n, Contexts(s, env, tu)[k], Own(s, k, n), ByFlags(sub, thrown, s, k));
    case Loop(parts) => AllCallAgrees(sub, thrown, parts, env, tu, n, k);
    case If(_, _, _, _, _) => IfAgrees(sub, thrown, s, env, tu, n, k);
    case Try(_, body, clauses) =>
      var inner := Inside(env.(tries := env.tries + [ScopeOf(s, env)]));
      AllContextCount(body, inner, tu);
      if k < AllCalls(body) {
        AllCallAgrees(sub, thrown, body, inner, tu, n + 1, k);
        TryAgrees(sub, thrown, s, env, n, Contexts(s, env, tu)[k], Own(s, k, n), AllByFlags(sub, thrown, body, k));
      } else {
        var marked := env.(insideCatch := true);
        ClauseAgrees(sub, thrown, clauses, marked, tu, n, k - AllCalls(body));
        SameTries(sub, thrown, marked, env, n, Contexts(s, env, tu)[k], Own(s, k, n), ByFlags(sub, thrown, s, k));
      }
    case Lambda(func, body) =>
      var inner := Inside(InLambda(func, env));
      AllCallAgrees(sub, thrown, body, inner, tu, 0, k);
      FrameAgrees(sub, thrown, inner, env, n, Contexts(s, env, tu)[k], Own(s, k, n), AllByFlags(sub, thrown, body, k));
    case LocalFunction(func, body) =>
      var inner := Inside(env.(funcs := env.funcs + [func]));
      AllCallAgrees(sub, thrown, body, inner, tu, 0, k);
      FrameAgrees(sub, thrown, inner, env, n, Contexts(s, env, tu)[k], Own(s, k, n), AllByFlags(sub, thrown, body, k));
  }

  lemma DirectAgrees(sub: Subtype, thrown: string, env: Env, tu: string, display: string, usr: string, site: string, n: nat)
    requires env.funcs != [] && n <= |env.tries|
    ensures Agrees(sub, thrown, env, n, Snapshot(env, tu, display, usr, site), n, Propagates)
  {
    hide Flattened;
  }

  lemma {:induction false} IfAgrees(sub: Subtype, thrown: string, s: Stmt, env: Env, tu: string, n: nat, k: nat)
    requires env.funcs != [] && n <= |env.tries| && s.If? && k < Calls(s)
    ensures |Contexts(s, env, tu)| == Calls(s)
    ensures Agrees(sub, thrown, env, n, Contexts(s, env, tu)[k], Own(s, k, n), ByFlags(sub, thrown, s, k))
    decreases s, 0
  {
    hide HandlersOf, Then, AllAssertions, AllLocals, NewLocals, NewAssertions, Agrees, AllContexts, AllCalls;
    ContextCount(s, env, tu);
    var test, a, b := s.test, s.thenPart, s.elsePart;
    var env1 := AfterAll(test, env);
    ThenKeeps(env, AllAssertions(test, true), AllLocals(test));
    AllContextCount(test, env, tu);
    ContextCount(a, Guarded(s, env1, true), tu);
    var c := Contexts(s, env, tu)[k];
    if k < AllCalls(test) {
      AllCallAgrees(sub, thrown, test, env, tu, n, k);
    } else if k < AllCalls(test) + Calls(a) {
      CallAgrees(sub, thrown, a, Guarded(s, env1, true), tu, n, k - AllCalls(test));
      SameTries(sub, thrown, Guarded(s, env1, true), env, n, c, Own(s, k, n), ByFlags(sub, thrown, s, k));
    } else {
      var env2 := Then(Guarded(s, env1, false), [], NewLocals(a));
      ThenKeeps(Guarded(s, env1, false), [], NewLocals(a));
      CallAgrees(sub, thrown, b.value, env2, tu, n, k - AllCalls(test) - Calls(a));
      SameTries(sub, thrown, env2, env, n, c, Own(s, k, n), ByFlags(sub, thrown, s, k));
    }
  }

  lemma {:induction false} AllCallAgrees(sub: Subtype, thrown: string, ss: Stmts, env: Env, tu: string, n: nat, k: nat)
    requires env.funcs != [] && n <= |env.tries| && k < AllCalls(ss)
    ensures |AllContexts(ss, env, tu)| == AllCalls(ss)
    ensures Agrees(sub, thrown, env, n, AllContexts(ss, env, tu)[k], OwnAll(ss, k, n), AllByFlags(sub, thrown, ss, k))
    decreases ss
  {
    hide Contexts, Then, NewLocals, NewAssertions, Agrees, Calls, Own, ByFlags;
    AllContextCount(ss, env, tu);
    ContextCount(ss.head, env, tu);
    if k < Calls(ss.head) {
      CallAgrees(sub, thrown, ss.head, env, tu, n, k);
    } else {
      var env1 := After(ss.head, env);
      ThenKeeps(env, NewAssertions(ss.head, true), NewLocals(ss.head));
      AllCallAgrees(sub, thrown, ss.tail, env1, tu, n, k - Calls(ss.head));
      SameTries(sub, thrown, env1, env, n, AllContexts(ss, env, tu)[k], OwnAll(ss, k, n), AllByFlags(sub, thrown, ss, k));
    }
  }

  lemma {:induction false} ClauseAgrees(sub: Subtype, thrown: string, cs: Clauses, env: Env, tu: string, n: nat, k: nat)
    requires env.funcs != [] && n <= |env.tries| && k < ClauseCalls(cs)
    ensures |ClauseContexts(cs, env, tu)| == ClauseCalls(cs)
    ensures Agrees(sub, thrown, env, n, ClauseContexts(cs, env, tu)[k], OwnClauses(cs, k, n), ClausesByFlags(sub, thrown, cs, k))
    decreases cs
  {
    hide AllContexts, Agrees, AllCalls, OwnAll, AllByFlags;
    ClauseContextCount(cs, env, tu);
    AllContextCount(cs.block, Inside(env), tu);
    if k < AllCalls(cs.block) {
      AllCallAgrees(sub, thrown, cs.block, Inside(env), tu, n, k);
      SameTries(sub, thrown, Inside(env), env, n, ClauseContexts(cs, env, tu)[k], OwnClauses(cs, k, n), ClausesByFlags(sub, thrown, cs, k));
    } else {
      ClauseAgrees(sub, thrown, cs.rest, env, tu, n, k - AllCalls(cs.block));
    }
  }

  // ---- Whole functions.

  function InFunction(func: Func): Env {
    Env([func], [], [], [], [[]], false)
  }

  /** Where an exception thrown by call `k` of a body ends, by the marks. */
  function FlagHandling(sub: Subtype, thrown: string, body: Stmts, k: nat): Catching
    requires k < AllCalls(body)
  {
    match AllByFlags(sub, thrown, body, k)
    case CaughtBy(location, h) => Caught(location, h)
    case Propagates => Escapes
    case LeftFrame => Escapes
  }

  /** The recorded scopes of a call are first its own frame's, and the loop over
      those finds what the marks say.  The loop over all of them agrees
      exactly if the own scopes catch or the foreign ones do not. */
  lemma ScopeLoopByFlags(sub: Subtype, thrown: string, func: Func, body: Stmts, tu: string, k: nat)
    requires k < AllCalls(body)
    ensures |AllContexts(body, InFunction(func), tu)| == AllCalls(body)
    ensures var scopes, m := AllContexts(body, InFunction(func), tu)[k].scopes, OwnAll(body, k, 0);
            && m <= |scopes|
            && Select(sub, thrown, scopes[..m]) == FlagHandling(sub, thrown, body, k)
            && (Select(sub, thrown, scopes) == FlagHandling(sub, thrown, body, k) <==>
                Select(sub, thrown, scopes[..m]).Caught? || Select(sub, thrown, scopes[m..]).Escapes?)
  {
    hide AllContexts, AllCalls, OwnAll, AllByFlags;
    AllCallAgrees(sub, thrown, body, InFunction(func), tu, 0, k);
    var scopes, m := AllContexts(body, InFunction(func), tu)[k].scopes, OwnAll(body, k, 0);
    assert Reversed(InFunction(func).tries)[..0] == [];
    assert scopes == scopes[..m] + scopes[m..];
    SelectConcat(sub, thrown, scopes[..m], scopes[m..]);
  }

  // ---- Without local functions there are no foreign scopes.

  predicate NoLocals(s: Stmt) {
    match s
    case Call(_, _, _, args) => AllNoLocals(args)
    case Assertion(_, _, args) => AllNoLocals(args)
    case Declare(_, init) => AllNoLocals(init)
    case Throw(args) => AllNoLocals(args)
    case Rethrow => true
    case Block(body) => AllNoLocals(body)
    case Loop(parts) => AllNoLocals(parts)
    case If(_, _, test, a, b) => AllNoLocals(test) && NoLocals(a) && (b.Some? ==> NoLocals(b.value))
    case Try(_, body, clauses) => AllNoLocals(body) && ClausesNoLocals(clauses)
    case Lambda(_, body) => AllNoLocals(body)
    case LocalFunction(_, _) => false
  }

  predicate AllNoLocals(ss: Stmts) {
    ss.Cons? ==> NoLocals(ss.head) && AllNoLocals(ss.tail)
  }

  predicate ClausesNoLocals(cs: Clauses) {
    cs.Clause? ==> AllNoLocals(cs.block) && ClausesNoLocals(cs.rest)
  }

  /** A call inside no local function has only scopes of its own frame. */
  lemma {:induction false} OwnIsAll(s: Stmt, env: Env, tu: string, k: nat)
    requires env.funcs != [] && k < Calls(s) && NoLocals(s)
    ensures |Contexts(s, env, tu)| == Calls(s)
    ensures |Contexts(s, env, tu)[k].scopes| == Own(s, k, |env.tries|)
    decreases s
  {
    hide HandlersOf, Then, AllAssertions, AllLocals, NewLocals, NewAssertions, Flattened, AllContexts, ClauseContexts, AllCalls, ClauseCalls;
    ContextCount(s, env, tu);
    var n := |env.tries|;
    match s
    case Call(_, _, _, args) =>
      AllContextCount(args, env, tu);
      if k > 0 {
        OwnIsAllIn(args, env, tu, k - 1);
      }
    case Assertion(c, site, args) =>
      ThenKeeps(env, if c.Some? then [Guard(c.value, site, true, true)] else [], []);
      OwnIsAllIn(args, if c.Some? then Then(env, [Guard(c.value, site, true, true)], []) else env, tu, k);
    case Declare(local, init) =>
      ThenKeeps(env, [], [local]);
      OwnIsAllIn(init, Then(env, [], [local]), tu, k);
    case Throw(args) => OwnIsAllIn(args, env, tu, k);
    case Block(body) => OwnIsAllIn(body, Inside(env), tu, k);
    case Loop(parts) => OwnIsAllIn(parts, env, tu, k);
    case If(_, _, _, _, _) => OwnIsAllIf(s, env, tu, k);
    case Try(_, body, clauses) =>
      var inner := Inside(env.(tries := env.tries + [ScopeOf(s, env)]));
      AllContextCount(body, inner, tu);
      if k < AllCalls(body) {
        OwnIsAllIn(body, inner, tu, k);
      } else {
        OwnIsAllClauses(clauses, env.(insideCatch := true), tu, k - AllCalls(body));
      }
    case Lambda(func, body) => OwnIsAllIn(body, Inside(InLambda(func, env)), tu, k);
  }

  lemma {:induction false} OwnIsAllIf(s: Stmt, env: Env, tu: string, k: nat)
    requires env.funcs != [] && k < Calls(s) && s.If? && NoLocals(s)
    ensures |Contexts(s, env, tu)| == Calls(s)
    ensures |Contexts(s, env, tu)[k].scopes| == Own(s, k, |env.tries|)
    decreases s, 0
  {
    hide HandlersOf, Then, AllAssertions, AllLocals, NewLocals, NewAssertions, AllContexts, AllCalls;
    ContextCount(s, env, tu);
    var test, a, b := s.test, s.thenPart, s.elsePart;
    var env1 := AfterAll(test, env);
    ThenKeeps(env, AllAssertions(test, true), AllLocals(test));
    AllContextCount(test, env, tu);
    ContextCount(a, Guarded(s, env1, true), tu);
    if k < AllCalls(test) {
      OwnIsAllIn(test, env, tu, k);
    } else if k < AllCalls(test) + Calls(a) {
      OwnIsAll(a, Guarded(s, env1, true), tu, k - AllCalls(test));
    } else {
      ThenKeeps(Guarded(s, env1, false), [], NewLocals(a));
      OwnIsAll(b.value, Then(Guarded(s, env1, false), [], NewLocals(a)), tu, k - AllCalls(test) - Calls(a));
    }
  }

  lemma {:induction false} OwnIsAllIn(ss: Stmts, env: Env, tu: string, k: nat)
    requires env.funcs != [] && k < AllCalls(ss) && AllNoLocals(ss)
    ensures |AllContexts(ss, env, tu)| == AllCalls(ss)
    ensures |AllContexts(ss, env, tu)[k].scopes| == OwnAll(ss, k, |env.tries|)
    decreases ss
  {
    hide Contexts, Then, NewLocals, NewAssertions, Calls, Own, NoLocals;
    AllContextCount(ss, env, tu);
    ContextCount(ss.head, env, tu);
    if k < Calls(ss.head) {
      OwnIsAll(ss.head, env, tu, k);
    } else {
      ThenKeeps(env, NewAssertions(ss.head, true), NewLocals(ss.head));
      OwnIsAllIn(ss.tail, After(ss.head, env), tu, k - Calls(ss.head));
    }
  }

  lemma {:induction false} OwnIsAllClauses(cs: Clauses, env: Env, tu: string, k: nat)
    requires env.funcs != [] && k < ClauseCalls(cs) && ClausesNoLocals(cs)
    ensures |ClauseContexts(cs, env, tu)| == ClauseCalls(cs)
    ensures |ClauseContexts(cs, env, tu)[k].scopes| == OwnClauses(cs, k, |env.tries|)
    decreases cs
  {
    hide AllContexts, AllCalls, OwnAll, AllNoLocals;
    ClauseContextCount(cs, env, tu);
    AllContextCount(cs.block, Inside(env), tu);
    if k < AllCalls(cs.block) {
      OwnIsAllIn(cs.block, Inside(env), tu, k);
    } else {
      OwnIsAllClauses(cs.rest, env, tu, k - AllCalls(cs.block));
    }
  }

  /** Without local functions the loop over all scopes reads the marks. */
  lemma LoopByFlags(sub: Subtype, thrown: string, func: Func, body: Stmts, tu: string, k: nat)
    requires k < AllCalls(body) && AllNoLocals(body)
    ensures |AllContexts(body, InFunction(func), tu)| == AllCalls(body)
    ensures Select(sub, thrown, AllContexts(body, InFunction(func), tu)[k].scopes) == FlagHandling(sub, thrown, body, k)
  {
    hide AllContexts, AllCalls, OwnAll, AllByFlags, FlagHandling;
    ScopeLoopByFlags(sub, thrown, func, body, tu, k);
    OwnIsAllIn(body, InFunction(func), tu, k);
    var scopes := AllContexts(body, InFunction(func), tu)[k].scopes;
    assert scopes[..|scopes|] == scopes;
  }
}
