/** The control-flow context visitor over a small statement syntax: a walk that
    keeps stacks of the constructs it is inside of and snapshots them at every
    call, and the lexical environment those snapshots stand for. */
module ContextVisitor {
  import opened Interner
  import opened FlowTypes

  /** A function or a lambda's call operator. */
  datatype Func = Func(display: string, usr: string, spec: NoexceptSpec)

  datatype Stmt =
    | Call(display: string, usr: string, site: string, args: Stmts)
    | Assertion(claim: Option<string>, site: string, args: Stmts)
    | Declare(local: RaiiLocal, init: Stmts)
    | Throw(args: Stmts)
    | Rethrow
    | Block(body: Stmts)
    | Loop(parts: Stmts)
    | If(condition: string, location: string, test: Stmts, thenPart: Stmt, elsePart: Option<Stmt>)
    | Try(location: string, body: Stmts, clauses: Clauses)
    | Lambda(func: Func, body: Stmts)
    | LocalFunction(func: Func, body: Stmts)

  datatype Stmts = Nil | Cons(head: Stmt, tail: Stmts)

  /** A caught type of None is `catch (...)`. */
  datatype Clauses = NoMore | Clause(caughtType: Option<string>, location: string, summary: string, block: Stmts, rest: Clauses)

  // ---- Catch clauses.

  /** A bare `throw;` anywhere below, even in a branch or a lambda.  The body
      of a local function is not below the statement that declares it. */
  predicate ContainsRethrow(s: Stmt) {
    match s
    case Rethrow => true
    case Call(_, _, _, args) => AnyRethrow(args)
    case Assertion(_, _, args) => AnyRethrow(args)
    case Declare(_, init) => AnyRethrow(init)
    case Throw(args) => AnyRethrow(args)
    case Block(body) => AnyRethrow(body)
    case Loop(parts) => AnyRethrow(parts)
    case If(_, _, test, a, b) => AnyRethrow(test) || ContainsRethrow(a) || (b.Some? && ContainsRethrow(b.value))
    case Try(_, body, clauses) => AnyRethrow(body) || AnyClauseRethrows(clauses)
    case Lambda(_, body) => AnyRethrow(body)
    case LocalFunction(_, _) => false
  }

  predicate AnyRethrow(ss: Stmts) {
    ss.Cons? && (ContainsRethrow(ss.head) || AnyRethrow(ss.tail))
  }

  predicate AnyClauseRethrows(cs: Clauses) {
    cs.Clause? && (AnyRethrow(cs.block) || AnyClauseRethrows(cs.rest))
  }

  function HandlersOf(cs: Clauses): seq<Handler> {
    if cs.NoMore? then []
    else [Handler(if cs.caughtType.Some? then cs.caughtType.value else "", cs.caughtType.None?, AnyRethrow(cs.block),
                  cs.location, cs.summary)] + HandlersOf(cs.rest)
  }

  // ---- The lexical environment of a statement.

  /** Every list is outermost first; `frames` has one entry per open block. */
  datatype Env = Env(funcs: seq<Func>, tries: seq<TryScope>, guards: seq<Guard>, assertions: seq<Guard>,
                     frames: seq<seq<RaiiLocal>>, insideCatch: bool)

  function Reversed<T>(s: seq<T>): (r: seq<T>)
    ensures |r| == |s|
    ensures forall i :: 0 <= i < |s| ==> r[i] == s[|s| - 1 - i]
  {
    seq(|s|, i requires 0 <= i < |s| => s[|s| - 1 - i])
  }

  function Flattened(frames: seq<seq<RaiiLocal>>): seq<RaiiLocal> {
    if frames == [] then [] else Flattened(frames[..|frames| - 1]) + frames[|frames| - 1]
  }

  /** The context of a call in an environment. */
  function Snapshot(env: Env, tu: string, display: string, usr: string, site: string): CallContext
    requires env.funcs != []
  {
    var f := env.funcs[|env.funcs| - 1];
    CallContext(f.display, display, site, f.usr, usr, tu, Reversed(env.tries), Reversed(env.guards) + env.assertions,
                Flattened(env.frames), f.spec, env.insideCatch)
  }

  function Extend(frames: seq<seq<RaiiLocal>>, locals: seq<RaiiLocal>): seq<seq<RaiiLocal>> {
    if frames == [] then [] else frames[..|frames| - 1] + [frames[|frames| - 1] + locals]
  }

  /** The assertions a statement leaves in force for its successors. */
  function NewAssertions(s: Stmt, inFunction: bool): seq<Guard> {
    match s
    case Call(_, _, _, args) => AllAssertions(args, inFunction)
    case Assertion(c, site, args) =>
      (if inFunction && c.Some? then [Guard(c.value, site, true, true)] else []) + AllAssertions(args, inFunction)
    case Declare(_, init) => AllAssertions(init, inFunction)
    case Throw(args) => AllAssertions(args, inFunction)
    case If(_, _, test, _, _) => AllAssertions(test, inFunction)
    case _ => []
  }

  function AllAssertions(ss: Stmts, inFunction: bool): seq<Guard> {
    if ss.Nil? then [] else NewAssertions(ss.head, inFunction) + AllAssertions(ss.tail, inFunction)
  }

  /** The locals a statement leaves alive in the block it stands in. */
  function NewLocals(s: Stmt): seq<RaiiLocal> {
    match s
    case Call(_, _, _, args) => AllLocals(args)
    case Assertion(_, _, args) => AllLocals(args)
    case Declare(local, init) => [local] + AllLocals(init)
    case Throw(args) => AllLocals(args)
    case Loop(parts) => AllLocals(parts)
    case If(_, _, test, a, b) => AllLocals(test) + NewLocals(a) + if b.Some? then NewLocals(b.value) else []
    case _ => []
  }

  function AllLocals(ss: Stmts): seq<RaiiLocal> {
    if ss.Nil? then [] else NewLocals(ss.head) + AllLocals(ss.tail)
  }

  function Then(env: Env, assertions: seq<Guard>, locals: seq<RaiiLocal>): Env {
    env.(assertions := env.assertions + assertions, frames := Extend(env.frames, locals))
  }

  /** What the successors of a statement see: functions, tries, guards and the
      catch mark are as before it. */
  function After(s: Stmt, env: Env): Env {
    Then(env, NewAssertions(s, env.funcs != []), NewLocals(s))
  }

  function AfterAll(ss: Stmts, env: Env): Env {
    Then(env, AllAssertions(ss, env.funcs != []), AllLocals(ss))
  }

  // ---- The contexts of the calls in a statement, in order.

  function Inside(env: Env): Env {
    env.(frames := env.frames + [[]])
  }

  function ScopeOf(s: Stmt, env: Env): TryScope
    requires s.Try?
  {
    TryScope(s.location, if env.funcs == [] then "" else env.funcs[|env.funcs| - 1].display, |env.tries|, HandlersOf(s.clauses))
  }

  function Guarded(s: Stmt, env: Env, branch: bool): Env
    requires s.If?
  {
    env.(guards := env.guards + [Guard(s.condition, s.location, branch, false)])
  }

  /** A lambda body runs elsewhere: it sees no construct around it. */
  function InLambda(func: Func, env: Env): Env {
    Env(env.funcs + [func], [], [], [], [], false)
  }

  function Contexts(s: Stmt, env: Env, tu: string): seq<CallContext> {
    match s
    case Call(display, usr, site, args) =>
      (if env.funcs == [] then [] else [Snapshot(env, tu, display, usr, site)]) + AllContexts(args, env, tu)
    case Assertion(c, site, args) =>
      AllContexts(args, if env.funcs != [] && c.Some? then Then(env, [Guard(c.value, site, true, true)], []) else env, tu)
    case Declare(local, init) => AllContexts(init, Then(env, [], [local]), tu)
    case Throw(args) => AllContexts(args, env, tu)
    case Rethrow => []
    case Block(body) => AllContexts(body, Inside(env), tu)
    case Loop(parts) => AllContexts(parts, env, tu)
    case If(_, _, test, a, b) =>
      var env1 := AfterAll(test, env);
      AllContexts(test, env, tu) + Contexts(a, Guarded(s, env1, true), tu)
      + if b.Some? then Contexts(b.value, Then(Guarded(s, env1, false), [], NewLocals(a)), tu) else []
    case Try(_, body, clauses) =>
      AllContexts(body, Inside(env.(tries := env.tries + [ScopeOf(s, env)])), tu) + ClauseContexts(clauses, env.(insideCatch := true), tu)
    case Lambda(func, body) => AllContexts(body, Inside(InLambda(func, env)), tu)
    case LocalFunction(func, body) => AllContexts(body, Inside(env.(funcs := env.funcs + [func])), tu)
  }

  function AllContexts(ss: Stmts, env: Env, tu: string): seq<CallContext> {
    if ss.Nil? then [] else Contexts(ss.head, env, tu) + AllContexts(ss.tail, After(ss.head, env), tu)
  }

  function ClauseContexts(cs: Clauses, env: Env, tu: string): seq<CallContext> {
    if cs.NoMore? then [] else AllContexts(cs.block, Inside(env), tu) + ClauseContexts(cs.rest, env, tu)
  }

  // ---- Sequencing.

  lemma ExtendTwice(frames: seq<seq<RaiiLocal>>, a: seq<RaiiLocal>, b: seq<RaiiLocal>)
    ensures Extend(Extend(frames, a), b) == Extend(frames, a + b)
  {
    if frames != [] {
      var last := frames[|frames| - 1];
      assert last + a + b == last + (a + b);
    }
  }

  lemma ThenTwice(env: Env, a1: seq<Guard>, l1: seq<RaiiLocal>, a2: seq<Guard>, l2: seq<RaiiLocal>)
    ensures Then(Then(env, a1, l1), a2, l2) == Then(env, a1 + a2, l1 + l2)
  {
    ExtendTwice(env.frames, l1, l2);
    assert env.assertions + a1 + a2 == env.assertions + (a1 + a2);
  }

  lemma ThenNothing(env: Env)
    ensures Then(env, [], []) == env
  {
    if env.frames != [] {
      var last := env.frames[|env.frames| - 1];
      assert last + [] == last;
      assert env.frames == env.frames[..|env.frames| - 1] + [last];
    }
    assert env.assertions + [] == env.assertions;
  }

  lemma AfterCons(ss: Stmts, env: Env)
    requires ss.Cons?
    ensures AfterAll(ss, env) == AfterAll(ss.tail, After(ss.head, env))
  {
    ThenTwice(env, NewAssertions(ss.head, env.funcs != []), NewLocals(ss.head), AllAssertions(ss.tail, env.funcs != []), AllLocals(ss.tail));
  }

  /** Leaving a block drops its frame and nothing else. */
  lemma LeaveBlock(frames: seq<seq<RaiiLocal>>, locals: seq<RaiiLocal>)
    ensures Extend(frames + [[]], locals) == frames + [locals]
  {
    assert (frames + [[]])[..|frames|] == frames;
    assert [] + locals == locals;
  }

  // ---- The walk.

  class Visitor {
    var funcStack: seq<Func>
    var tryStack: seq<TryScope>
    var guardStack: seq<Guard>
    var assertionGuards: seq<Guard>
    var scopeStack: seq<seq<RaiiLocal>>
    var insideCatchBlock: bool
    var recorded: seq<CallContext>
    const tuPath: string

    constructor (tu: string)
      ensures State() == Env([], [], [], [], [], false) && recorded == [] && tuPath == tu
    {
      funcStack, tryStack, guardStack, assertionGuards, scopeStack, insideCatchBlock := [], [], [], [], [], false;
      recorded := [];
      tuPath := tu;
    }

    function State(): Env
      reads this
    {
      Env(funcStack, tryStack, guardStack, assertionGuards, scopeStack, insideCatchBlock)
    }

    /** A traversal records the contexts of its calls and puts back its stacks. */
    method Traverse(s: Stmt)
      modifies this
      ensures State() == After(s, old(State()))
      ensures recorded == old(recorded) + Contexts(s, old(State()), tuPath)
      decreases s, 1
    {
      hide AllContexts, ClauseContexts, Then, Extend, HandlersOf, AllAssertions, AllLocals, Flattened, After, AfterAll, Contexts, NewAssertions, NewLocals, Snapshot, Reversed;
      match s
      case Call(display, usr, site, args) =>
        VisitCall(s);
        TraverseAll(args);
        CallSteps(s, old(State()), tuPath);
      case Assertion(_, _, args) =>
        VisitAssertion(s);
        TraverseAll(args);
        AssertionSteps(s, old(State()), tuPath);
      case Declare(local, init) =>
        VisitVarDecl(local);
        TraverseAll(init);
        DeclareSteps(s, old(State()), tuPath);
      case Throw(args) =>
        TraverseAll(args);
        ThrowSteps(s, old(State()), tuPath);
      case Rethrow =>
        RethrowSteps(old(State()), tuPath);
        assert recorded == old(recorded) + [];
      case Block(body) =>
        TraverseCompound(body);
        BlockSteps(s, old(State()), tuPath);
      case Loop(parts) =>
        var saved := |assertionGuards|;
        TraverseAll(parts);
        LoopSteps(s, old(State()), tuPath, saved);
        assertionGuards := assertionGuards[..saved];
      case If(_, _, _, _, _) => TraverseIf(s);
      case Try(_, _, _) => TraverseTry(s);
      case Lambda(_, _) => TraverseLambda(s);
      case LocalFunction(func, body) =>
        funcStack := funcStack + [func];
        TraverseCompound(body);
        funcStack := funcStack[..|funcStack| - 1];
        LocalSteps(s, old(State()), tuPath);
    }

    method TraverseAll(ss: Stmts)
      modifies this
      ensures State() == AfterAll(ss, old(State()))
      ensures recorded == old(recorded) + AllContexts(ss, old(State()), tuPath)
      decreases ss, 0
    {
      hide Contexts, Then, After, AfterAll, AllAssertions, AllLocals, NewAssertions, NewLocals;
      if ss.Cons? {
        AfterCons(ss, State());
        Traverse(ss.head);
        TraverseAll(ss.tail);
      } else {
        NilSteps(State());
      }
    }

    /** A compound statement: its own frame of locals and assertions. */
    method TraverseCompound(body: Stmts)
      modifies this
      ensures State() == old(State())
      ensures recorded == old(recorded) + AllContexts(body, Inside(old(State())), tuPath)
      decreases body, 1
    {
      hide AllContexts, AllAssertions, AllLocals, Extend;
      var saved := |assertionGuards|;
      scopeStack := scopeStack + [[]];
      LeaveBlock(old(scopeStack), AllLocals(body));
      TraverseAll(body);
      assertionGuards := assertionGuards[..saved];
      scopeStack := scopeStack[..|scopeStack| - 1];
    }

    method TraverseIf(s: Stmt)
      requires s.If?
      modifies this
      ensures State() == After(s, old(State()))
      ensures recorded == old(recorded) + Contexts(s, old(State()), tuPath)
      decreases s, 0
    {
      hide Contexts, AllContexts, AllAssertions, AllLocals, After, AfterAll, Then, NewAssertions, NewLocals, Extend;
      TraverseAll(s.test);
      ghost var env1 := State();
      Branches(s, old(State()), tuPath);
      guardStack := guardStack + [Guard(s.condition, s.location, true, false)];
      var savedThen := |assertionGuards|;
      Traverse(s.thenPart);
      AfterBranch(s.thenPart, Guarded(s, env1, true));
      assertionGuards := assertionGuards[..savedThen];
      guardStack := guardStack[..|guardStack| - 1];
      assert State() == Then(env1, [], NewLocals(s.thenPart)) by { BranchLeft(env1, s.thenPart, Guarded(s, env1, true)); }
      if s.elsePart.Some? {
        ghost var env2 := State();
        guardStack := guardStack + [Guard(s.condition, s.location, false, false)];
        assert State() == Then(Guarded(s, env1, false), [], NewLocals(s.thenPart)) by { ThenGuarded(s, env1, NewLocals(s.thenPart)); }
        var savedElse := |assertionGuards|;
        ghost var env3 := State();
        Traverse(s.elsePart.value);
        AfterBranch(s.elsePart.value, env3);
        assertionGuards := assertionGuards[..savedElse];
        guardStack := guardStack[..|guardStack| - 1];
        assert State() == Then(env2, [], NewLocals(s.elsePart.value)) by { BranchLeft(env2, s.elsePart.value, env3); }
      }
    }

    method TraverseTry(s: Stmt)
      requires s.Try?
      modifies this
      ensures State() == After(s, old(State()))
      ensures recorded == old(recorded) + Contexts(s, old(State()), tuPath)
      decreases s, 0
    {
      hide AllContexts, ClauseContexts, HandlersOf, AllAssertions, AllLocals, Then, NewAssertions, NewLocals, Extend, Contexts, After;
      TrySteps(s, State(), tuPath);
      var entry := ScopeOf(s, State());
      tryStack := tryStack + [entry];
      TraverseCompound(s.body);
      tryStack := tryStack[..|tryStack| - 1];
      var wasInside := insideCatchBlock;
      TraverseHandlers(s.clauses, wasInside);
      insideCatchBlock := wasInside;
    }

    /** The handler bodies, outside their own try. */
    method TraverseHandlers(cs: Clauses, ghost wasInside: bool)
      modifies this
      ensures State().(insideCatch := true) == old(State()).(insideCatch := true)
      ensures recorded == old(recorded) + ClauseContexts(cs, old(State()).(insideCatch := true), tuPath)
      decreases cs, 0
    {
      hide AllContexts;
      if cs.Clause? {
        insideCatchBlock := true;
        TraverseCompound(cs.block);
        TraverseHandlers(cs.rest, wasInside);
      }
    }

    method TraverseLambda(s: Stmt)
      requires s.Lambda?
      modifies this
      ensures State() == After(s, old(State()))
      ensures recorded == old(recorded) + Contexts(s, old(State()), tuPath)
      decreases s, 0
    {
      hide AllContexts, AllAssertions, AllLocals, Then, NewAssertions, NewLocals, Extend, Contexts, After;
      LambdaSteps(s, State(), tuPath);
      var savedScopes, savedTries, savedGuards, savedAssertions, savedInside :=
        scopeStack, tryStack, guardStack, assertionGuards, insideCatchBlock;
      funcStack := funcStack + [s.func];
      scopeStack, tryStack, guardStack, assertionGuards, insideCatchBlock := [], [], [], [], false;
      TraverseCompound(s.body);
      scopeStack, tryStack, guardStack, assertionGuards, insideCatchBlock :=
        savedScopes, savedTries, savedGuards, savedAssertions, savedInside;
      funcStack := funcStack[..|funcStack| - 1];
    }

    method VisitVarDecl(local: RaiiLocal)
      modifies this`scopeStack
      ensures State() == Then(old(State()), [], [local])
    {
      if scopeStack != [] {
        scopeStack := scopeStack[..|scopeStack| - 1] + [scopeStack[|scopeStack| - 1] + [local]];
      }
      assert assertionGuards + [] == assertionGuards;
    }

    method VisitCall(s: Stmt)
      requires s.Call?
      modifies this`recorded
      ensures recorded == old(recorded) + if funcStack == [] then [] else [Snapshot(State(), tuPath, s.display, s.usr, s.site)]
    {
      if funcStack != [] {
        var ctx := BuildContext(s.display, s.usr, s.site);
        recorded := recorded + [ctx];
      }
    }

    method VisitAssertion(s: Stmt)
      requires s.Assertion?
      modifies this`assertionGuards
      ensures State() == if funcStack != [] && s.claim.Some? then Then(old(State()), [Guard(s.claim.value, s.site, true, true)], []) else old(State())
    {
      if funcStack != [] && s.claim.Some? {
        assertionGuards := assertionGuards + [Guard(s.claim.value, s.site, true, true)];
        ThenNothing(old(State()));
      }
    }

    /** Copy the stacks into a context: tries and guards innermost first, then
        the assertions in force, and the live locals outermost first. */
    method BuildContext(display: string, usr: string, site: string) returns (ctx: CallContext)
      requires funcStack != []
      ensures ctx == Snapshot(State(), tuPath, display, usr, site)
    {
      var scopes: seq<TryScope> := [];
      var i := |tryStack|;
      while i > 0
        invariant 0 <= i <= |tryStack| && |scopes| == |tryStack| - i
        invariant forall j :: 0 <= j < |scopes| ==> scopes[j] == tryStack[|tryStack| - 1 - j]
      {
        i := i - 1;
        scopes := scopes + [tryStack[i]];
      }
      var guards := SnapshotGuards();
      var locals: seq<RaiiLocal> := [];
      for k := 0 to |scopeStack|
        invariant locals == Flattened(scopeStack[..k])
      {
        assert scopeStack[..k + 1][..k] == scopeStack[..k];
        locals := locals + scopeStack[k];
      }
      assert scopeStack[..|scopeStack|] == scopeStack;
      assert scopes == Reversed(tryStack);
      var f := funcStack[|funcStack| - 1];
      ctx := CallContext(f.display, display, site, f.usr, usr, tuPath, scopes, guards, locals, f.spec, insideCatchBlock);
    }

    method SnapshotGuards() returns (guards: seq<Guard>)
      ensures guards == Reversed(guardStack) + assertionGuards
    {
      guards := [];
      var i := |guardStack|;
      while i > 0
        invariant 0 <= i <= |guardStack| && |guards| == |guardStack| - i
        invariant forall j :: 0 <= j < |guards| ==> guards[j] == guardStack[|guardStack| - 1 - j]
      {
        i := i - 1;
        guards := guards + [guardStack[i]];
      }
      assert guards == Reversed(guardStack);
      for k := 0 to |assertionGuards|
        invariant guards == Reversed(guardStack) + assertionGuards[..k]
      {
        assert assertionGuards[..k + 1] == assertionGuards[..k] + [assertionGuards[k]];
        guards := guards + [assertionGuards[k]];
      }
      assert assertionGuards[..|assertionGuards|] == assertionGuards;
    }
  }

  // ---- One step of each kind.

  lemma NilSteps(env: Env)
    ensures AfterAll(Nil, env) == env
  {
    ThenNothing(env);
  }

  lemma CallSteps(s: Stmt, env: Env, tu: string)
    requires s.Call?
    ensures After(s, env) == AfterAll(s.args, env)
    ensures Contexts(s, env, tu) == (if env.funcs == [] then [] else [Snapshot(env, tu, s.display, s.usr, s.site)]) + AllContexts(s.args, env, tu)
  {
  }

  lemma AssertionSteps(s: Stmt, env: Env, tu: string)
    requires s.Assertion?
    ensures var env1 := if env.funcs != [] && s.claim.Some? then Then(env, [Guard(s.claim.value, s.site, true, true)], []) else env;
            After(s, env) == AfterAll(s.args, env1) && Contexts(s, env, tu) == AllContexts(s.args, env1, tu)
  {
    var now := env.funcs != [] && s.claim.Some?;
    var own := if now then [Guard(s.claim.value, s.site, true, true)] else [];
    ThenNothing(env);
    ThenTwice(env, own, [], AllAssertions(s.args, env.funcs != []), AllLocals(s.args));
    assert [] + AllLocals(s.args) == AllLocals(s.args);
  }

  lemma DeclareSteps(s: Stmt, env: Env, tu: string)
    requires s.Declare?
    ensures After(s, env) == AfterAll(s.init, Then(env, [], [s.local]))
    ensures Contexts(s, env, tu) == AllContexts(s.init, Then(env, [], [s.local]), tu)
  {
    ThenTwice(env, [], [s.local], AllAssertions(s.init, env.funcs != []), AllLocals(s.init));
    assert [] + AllAssertions(s.init, env.funcs != []) == AllAssertions(s.init, env.funcs != []);
  }

  lemma ThrowSteps(s: Stmt, env: Env, tu: string)
    requires s.Throw?
    ensures After(s, env) == AfterAll(s.args, env) && Contexts(s, env, tu) == AllContexts(s.args, env, tu)
  {
  }

  lemma RethrowSteps(env: Env, tu: string)
    ensures After(Rethrow, env) == env && Contexts(Rethrow, env, tu) == []
  {
    ThenNothing(env);
  }

  lemma BlockSteps(s: Stmt, env: Env, tu: string)
    requires s.Block?
    ensures After(s, env) == env && Contexts(s, env, tu) == AllContexts(s.body, Inside(env), tu)
  {
    ThenNothing(env);
  }

  lemma LoopSteps(s: Stmt, env: Env, tu: string, saved: nat)
    requires s.Loop? && saved == |env.assertions|
    ensures |AfterAll(s.parts, env).assertions| >= saved
    ensures After(s, env) == AfterAll(s.parts, env).(assertions := AfterAll(s.parts, env).assertions[..saved])
    ensures Contexts(s, env, tu) == AllContexts(s.parts, env, tu)
  {
    assert env.assertions + [] == env.assertions;
  }

  lemma LocalSteps(s: Stmt, env: Env, tu: string)
    requires s.LocalFunction?
    ensures After(s, env) == env
    ensures Contexts(s, env, tu) == AllContexts(s.body, Inside(env.(funcs := env.funcs + [s.func])), tu)
  {
    ThenNothing(env);
  }

  lemma LambdaSteps(s: Stmt, env: Env, tu: string)
    requires s.Lambda?
    ensures After(s, env) == env
    ensures Contexts(s, env, tu) == AllContexts(s.body, Inside(InLambda(s.func, env)), tu)
  {
    ThenNothing(env);
  }

  lemma TrySteps(s: Stmt, env: Env, tu: string)
    requires s.Try?
    ensures After(s, env) == env
    ensures Contexts(s, env, tu) ==
            AllContexts(s.body, Inside(env.(tries := env.tries + [ScopeOf(s, env)])), tu) + ClauseContexts(s.clauses, env.(insideCatch := true), tu)
  {
    ThenNothing(env);
  }

  lemma Branches(s: Stmt, env: Env, tu: string)
    requires s.If?
    ensures var env1 := AfterAll(s.test, env);
            && After(s, env) == Then(Then(env1, [], NewLocals(s.thenPart)), [], if s.elsePart.Some? then NewLocals(s.elsePart.value) else [])
            && Then(Then(env1, [], NewLocals(s.thenPart)), [], []) == Then(env1, [], NewLocals(s.thenPart))
            && Contexts(s, env, tu) == AllContexts(s.test, env, tu) + Contexts(s.thenPart, Guarded(s, env1, true), tu)
              + if s.elsePart.Some? then Contexts(s.elsePart.value, Then(Guarded(s, env1, false), [], NewLocals(s.thenPart)), tu) else []
  {
    hide Then, Extend, NewLocals, AllLocals, AllAssertions;
    var env1 := AfterAll(s.test, env);
    var b := if s.elsePart.Some? then NewLocals(s.elsePart.value) else [];
    IfAfter(s, env);
    ThenTwice(env, AllAssertions(s.test, env.funcs != []), AllLocals(s.test), [], NewLocals(s.thenPart));
    ThenTwice(env, AllAssertions(s.test, env.funcs != []) + [], AllLocals(s.test) + NewLocals(s.thenPart), [], b);
    assert AllAssertions(s.test, env.funcs != []) + [] + [] == AllAssertions(s.test, env.funcs != []);
    ThenNothing(Then(env1, [], NewLocals(s.thenPart)));
  }

  lemma IfAfter(s: Stmt, env: Env)
    requires s.If?
    ensures After(s, env) == Then(env, AllAssertions(s.test, env.funcs != []),
                                  AllLocals(s.test) + NewLocals(s.thenPart) + if s.elsePart.Some? then NewLocals(s.elsePart.value) else [])
  {
  }

  /** A branch only adds to the assertions, which are then cut back. */
  lemma AfterBranch(s: Stmt, env: Env)
    ensures |After(s, env).assertions| >= |env.assertions|
    ensures After(s, env).guards == env.guards
    ensures After(s, env).assertions[..|env.assertions|] == env.assertions
  {
  }

  lemma BranchLeft(env: Env, s: Stmt, inside: Env)
    requires inside == env.(guards := inside.guards)
    ensures After(s, inside).(assertions := env.assertions, guards := env.guards) == Then(env, [], NewLocals(s))
  {
    assert env.assertions + [] == env.assertions;
  }

  lemma ThenGuarded(s: Stmt, env: Env, locals: seq<RaiiLocal>)
    requires s.If?
    ensures Then(Guarded(s, env, false), [], locals) ==
            Then(env, [], locals).(guards := env.guards + [Guard(s.condition, s.location, false, false)])
  {
  }
}
