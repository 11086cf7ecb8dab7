/** What the context of a call is, by where the call stands in the tree: the trail
    from the function down to the call tells the constructs around it and the
    statements before it, and the context is read off the trail. */
module LexicalContext {
  import opened Interner
  import opened FlowTypes
  import opened ContextVisitor
  import opened Unwinding

  /** One step of the way down.  `Before` is a statement that ended before in the
      same list, `Beside` the then part next to an else part, `Claimed` and
      `Declared` the assertion or declaration whose own operand is entered. */
  datatype Crumb =
    | Before(s: Stmt)
    | Beside(s: Stmt)
    | Claimed(claim: string, site: string)
    | Declared(local: RaiiLocal)
    | InBlock
    | InThen(condition: string, location: string)
    | InElse(condition: string, location: string)
    | InTry(location: string, clauses: Clauses)
    | InHandler
    | InLambdaBody(func: Func)
    | InLocalBody(func: Func)

  // ---- The trail of call `k`.

  function Trail(s: Stmt, k: nat): seq<Crumb>
    requires k < Calls(s)
  {
    match s
    case Call(_, _, _, args) => if k == 0 then [] else AllTrail(args, k - 1)
    case Assertion(c, site, args) => (if c.Some? then [Claimed(c.value, site)] else []) + AllTrail(args, k)
    case Declare(local, init) => [Declared(local)] + AllTrail(init, k)
    case Throw(args) => AllTrail(args, k)
    case Block(body) => [InBlock] + AllTrail(body, k)
    case Loop(parts) => AllTrail(parts, k)
    case If(condition, location, test, a, b) =>
      if k < AllCalls(test) then AllTrail(test, k)
      else if k < AllCalls(test) + Calls(a) then AllBefore(test) + ([InThen(condition, location)] + Trail(a, k - AllCalls(test)))
      else AllBefore(test) + ([InElse(condition, location), Beside(a)] + Trail(b.value, k - AllCalls(test) - Calls(a)))
    case Try(location, body, clauses) =>
      if k < AllCalls(body) then [InTry(location, clauses)] + AllTrail(body, k)
      else [InHandler] + ClauseTrail(clauses, k - AllCalls(body))
    case Lambda(func, body) => [InLambdaBody(func)] + AllTrail(body, k)
    case LocalFunction(func, body) => [InLocalBody(func)] + AllTrail(body, k)
  }

  function AllTrail(ss: Stmts, k: nat): seq<Crumb>
    requires k < AllCalls(ss)
  {
    if k < Calls(ss.head) then Trail(ss.head, k) else [Before(ss.head)] + AllTrail(ss.tail, k - Calls(ss.head))
  }

  function ClauseTrail(cs: Clauses, k: nat): seq<Crumb>
    requires k < ClauseCalls(cs)
  {
    if k < AllCalls(cs.block) then [InBlock] + AllTrail(cs.block, k) else ClauseTrail(cs.rest, k - AllCalls(cs.block))
  }

  function AllBefore(ss: Stmts): seq<Crumb> {
    if ss.Nil? then [] else [Before(ss.head)] + AllBefore(ss.tail)
  }

  // ---- The call itself.

  function CallAt(s: Stmt, k: nat): (c: Stmt)
    requires k < Calls(s)
    ensures c.Call?
  {
    match s
    case Call(_, _, _, args) => if k == 0 then s else AllCallAt(args, k - 1)
    case Assertion(_, _, args) => AllCallAt(args, k)
    case Declare(_, init) => AllCallAt(init, k)
    case Throw(args) => AllCallAt(args, k)
    case Block(body) => AllCallAt(body, k)
    case Loop(parts) => AllCallAt(parts, k)
    case If(_, _, test, a, b) =>
      if k < AllCalls(test) then AllCallAt(test, k)
      else if k < AllCalls(test) + Calls(a) then CallAt(a, k - AllCalls(test))
      else CallAt(b.value, k - AllCalls(test) - Calls(a))
    case Try(_, body, clauses) => if k < AllCalls(body) then AllCallAt(body, k) else ClauseCallAt(clauses, k - AllCalls(body))
    case Lambda(_, body) => AllCallAt(body, k)
    case LocalFunction(_, body) => AllCallAt(body, k)
  }

  function AllCallAt(ss: Stmts, k: nat): (c: Stmt)
    requires k < AllCalls(ss)
    ensures c.Call?
  {
    if k < Calls(ss.head) then CallAt(ss.head, k) else AllCallAt(ss.tail, k - Calls(ss.head))
  }

  function ClauseCallAt(cs: Clauses, k: nat): (c: Stmt)
    requires k < ClauseCalls(cs)
    ensures c.Call?
  {
    if k < AllCalls(cs.block) then AllCallAt(cs.block, k) else ClauseCallAt(cs.rest, k - AllCalls(cs.block))
  }

  // ---- What a finished statement leaves behind in its block.

  /** The assertions in its operands: those in blocks, branches and loops end
      with them. */
  function Said(s: Stmt): seq<Guard> {
    match s
    case Assertion(c, site, args) => (if c.Some? then [Guard(c.value, site, true, true)] else []) + AllSaid(args)
    case Call(_, _, _, args) => AllSaid(args)
    case Throw(args) => AllSaid(args)
    case Declare(_, init) => AllSaid(init)
    case If(_, _, test, _, _) => AllSaid(test)
    case Rethrow => []
    case Block(_) => []
    case Loop(_) => []
    case Try(_, _, _) => []
    case Lambda(_, _) => []
    case LocalFunction(_, _) => []
  }

  function AllSaid(ss: Stmts): seq<Guard> {
    if ss.Nil? then [] else Said(ss.head) + AllSaid(ss.tail)
  }

  /** The locals that are not in a block of their own. */
  function Left(s: Stmt): seq<RaiiLocal> {
    match s
    case Declare(local, init) => [local] + AllLeft(init)
    case Call(_, _, _, args) => AllLeft(args)
    case Assertion(_, _, args) => AllLeft(args)
    case Throw(args) => AllLeft(args)
    case Loop(parts) => AllLeft(parts)
    case If(_, _, test, a, b) => AllLeft(test) + Left(a) + if b.Some? then Left(b.value) else []
    case Rethrow => []
    case Block(_) => []
    case Try(_, _, _) => []
    case Lambda(_, _) => []
    case LocalFunction(_, _) => []
  }

  function AllLeft(ss: Stmts): seq<RaiiLocal> {
    if ss.Nil? then [] else Left(ss.head) + AllLeft(ss.tail)
  }

  // ---- Reading the trail.

  /** The part inside the innermost lambda. */
  function Frame(trail: seq<Crumb>): seq<Crumb> {
    if trail == [] || trail[|trail| - 1].InLambdaBody? then []
    else Frame(trail[..|trail| - 1]) + [trail[|trail| - 1]]
  }

  /** The ifs around the call, innermost first: true in the then part. */
  function IfsAround(frame: seq<Crumb>): seq<Guard> {
    if frame == [] then []
    else
      var rest := IfsAround(frame[..|frame| - 1]);
      match frame[|frame| - 1]
      case InThen(condition, location) => [Guard(condition, location, true, false)] + rest
      case InElse(condition, location) => [Guard(condition, location, false, false)] + rest
      case _ => rest
  }

  /** The assertions before the call, in order. */
  function AssertionsBefore(frame: seq<Crumb>): seq<Guard> {
    if frame == [] then []
    else
      var rest := AssertionsBefore(frame[..|frame| - 1]);
      match frame[|frame| - 1]
      case Before(s) => rest + Said(s)
      case Claimed(claim, site) => rest + [Guard(claim, site, true, true)]
      case _ => rest
  }

  /** The locals declared before the call, in order. */
  function LocalsBefore(frame: seq<Crumb>): seq<RaiiLocal> {
    if frame == [] then []
    else
      var rest := LocalsBefore(frame[..|frame| - 1]);
      match frame[|frame| - 1]
      case Before(s) => rest + Left(s)
      case Beside(s) => rest + Left(s)
      case Declared(local) => rest + [local]
      case _ => rest
  }

  /** The function the call stands in. */
  function Innermost(func: Func, trail: seq<Crumb>): Func {
    if trail == [] then func
    else
      match trail[|trail| - 1]
      case InLambdaBody(f) => f
      case InLocalBody(f) => f
      case _ => Innermost(func, trail[..|trail| - 1])
  }

  /** The tries around the call, innermost first, numbered from the outermost. */
  function TriesAround(func: Func, trail: seq<Crumb>): seq<TryScope> {
    if trail == [] then []
    else
      var rest := trail[..|trail| - 1];
      match trail[|trail| - 1]
      case InLambdaBody(_) => []
      case InTry(location, clauses) =>
        var outer := TriesAround(func, rest);
        [TryScope(location, Innermost(func, rest).display, |outer|, HandlersOf(clauses))] + outer
      case _ => TriesAround(func, rest)
  }

  predicate InSomeHandler(frame: seq<Crumb>) {
    exists i :: 0 <= i < |frame| && frame[i].InHandler?
  }

  /** The context of a call at the end of a trail in a function. */
  function ContextAt(func: Func, trail: seq<Crumb>, call: Stmt, tu: string): CallContext
    requires call.Call?
  {
    var f, frame := Innermost(func, trail), Frame(trail);
    CallContext(f.display, call.display, call.site, f.usr, call.usr, tu, TriesAround(func, trail),
                IfsAround(frame) + AssertionsBefore(frame), LocalsBefore(frame), f.spec, InSomeHandler(frame))
  }

  // ---- The environments of the walk along a trail.

  function Step(env: Env, c: Crumb): Env {
    match c
    case Before(s) => Then(env, Said(s), Left(s))
    case Beside(s) => Then(env, [], Left(s))
    case Claimed(claim, site) => Then(env, [Guard(claim, site, true, true)], [])
    case Declared(local) => Then(env, [], [local])
    case InBlock => Inside(env)
    case InThen(condition, location) => env.(guards := env.guards + [Guard(condition, location, true, false)])
    case InElse(condition, location) => env.(guards := env.guards + [Guard(condition, location, false, false)])
    case InTry(location, clauses) => Inside(env.(tries := env.tries + [ScopeOf(Try(location, Nil, clauses), env)]))
    case InHandler => env.(insideCatch := true)
    case InLambdaBody(func) => Inside(InLambda(func, env))
    case InLocalBody(func) => Inside(env.(funcs := env.funcs + [func]))
  }

  function Play(env: Env, trail: seq<Crumb>): Env {
    if trail == [] then env else Step(Play(env, trail[..|trail| - 1]), trail[|trail| - 1])
  }

  lemma PlaySnoc(env: Env, trail: seq<Crumb>, c: Crumb)
    ensures Play(env, trail + [c]) == Step(Play(env, trail), c)
  {
    assert (trail + [c])[..|trail|] == trail;
  }

  lemma {:induction false} PlayTwice(env: Env, a: seq<Crumb>, b: seq<Crumb>)
    ensures Play(env, a + b) == Play(Play(env, a), b)
    decreases |b|
  {
    hide Step;
    if b == [] {
      assert a + b == a;
    } else {
      var most, c := b[..|b| - 1], b[|b| - 1];
      assert a + b == (a + most) + [c] && b == most + [c];
      PlayTwice(env, a, most);
      PlaySnoc(env, a + most, c);
      PlaySnoc(Play(env, a), most, c);
    }
  }

  lemma PlayFirst(env: Env, c: Crumb, trail: seq<Crumb>)
    ensures Play(env, [c] + trail) == Play(Step(env, c), trail)
  {
    hide Step;
    PlayTwice(env, [c], trail);
    assert [c][..0] == [];
    assert Play(env, []) == env && Play(env, [c]) == Step(env, c);
  }

  lemma {:induction false} SaidIs(s: Stmt)
    ensures Said(s) == NewAssertions(s, true)
    decreases s
  {
    match s
    case Assertion(_, _, args) => AllSaidIs(args);
    case Call(_, _, _, args) => AllSaidIs(args);
    case Throw(args) => AllSaidIs(args);
    case Declare(_, init) => AllSaidIs(init);
    case If(_, _, test, _, _) => AllSaidIs(test);
    case _ =>
  }

  lemma {:induction false} AllSaidIs(ss: Stmts)
    ensures AllSaid(ss) == AllAssertions(ss, true)
    decreases ss
  {
    if ss.Cons? {
      SaidIs(ss.head);
      AllSaidIs(ss.tail);
    }
  }

  lemma {:induction false} LeftIs(s: Stmt)
    ensures Left(s) == NewLocals(s)
    decreases s
  {
    match s
    case Declare(_, init) => AllLeftIs(init);
    case Call(_, _, _, args) => AllLeftIs(args);
    case Assertion(_, _, args) => AllLeftIs(args);
    case Throw(args) => AllLeftIs(args);
    case Loop(parts) => AllLeftIs(parts);
    case If(_, _, test, a, b) =>
      AllLeftIs(test);
      LeftIs(a);
      if b.Some? {
        LeftIs(b.value);
      }
    case _ =>
  }

  lemma {:induction false} AllLeftIs(ss: Stmts)
    ensures AllLeft(ss) == AllLocals(ss)
    decreases ss
  {
    if ss.Cons? {
      LeftIs(ss.head);
      AllLeftIs(ss.tail);
    }
  }

  lemma StepBefore(env: Env, s: Stmt)
    requires env.funcs != []
    ensures Step(env, Before(s)) == After(s, env)
  {
    SaidIs(s);
    LeftIs(s);
  }

  lemma {:induction false} PlayBefore(env: Env, ss: Stmts)
    requires env.funcs != []
    ensures Play(env, AllBefore(ss)) == AfterAll(ss, env)
    decreases ss
  {
    hide Then, AfterAll, After, Step;
    if ss.Nil? {
      NilSteps(env);
    } else {
      StepBefore(env, ss.head);
      PlayFirst(env, Before(ss.head), AllBefore(ss.tail));
      AfterKeeps(ss.head, env);
      PlayBefore(After(ss.head, env), ss.tail);
      AfterCons(ss, env);
    }
  }

  lemma AfterKeeps(s: Stmt, env: Env)
    ensures After(s, env).funcs == env.funcs
  {
  }

  // ---- The walk records what stands at the end of each trail.

  /** The context at the end of a trail from `env`. */
  function SnapshotAt(env: Env, trail: seq<Crumb>, call: Stmt, tu: string): CallContext
    requires call.Call? && Play(env, trail).funcs != []
  {
    Snapshot(Play(env, trail), tu, call.display, call.usr, call.site)
  }

  /** Context `k` of `s` stands at the end of trail `k`. */
  ghost predicate Recorded(contexts: seq<CallContext>, k: nat, env: Env, trail: seq<Crumb>, call: Stmt, tu: string) {
    call.Call? && k < |contexts| && Play(env, trail).funcs != [] && contexts[k] == SnapshotAt(env, trail, call, tu)
  }

  lemma OneDown(contexts: seq<CallContext>, k: nat, env: Env, c: Crumb, trail: seq<Crumb>, call: Stmt, tu: string)
    requires Recorded(contexts, k, Step(env, c), trail, call, tu)
    ensures Recorded(contexts, k, env, [c] + trail, call, tu)
  {
    hide Step, Snapshot, Play;
    PlayFirst(env, c, trail);
  }

  lemma Later(first: seq<CallContext>, rest: seq<CallContext>, k: nat, env: Env, trail: seq<Crumb>, call: Stmt, tu: string)
    requires Recorded(rest, k, env, trail, call, tu)
    ensures Recorded(first + rest, |first| + k, env, trail, call, tu)
  {
    hide Snapshot, Play;
  }

  lemma Sooner(first: seq<CallContext>, rest: seq<CallContext>, k: nat, env: Env, trail: seq<Crumb>, call: Stmt, tu: string)
    requires Recorded(first, k, env, trail, call, tu)
    ensures Recorded(first + rest, k, env, trail, call, tu)
  {
    hide Snapshot, Play;
  }

  lemma {:induction false} TrailRecorded(s: Stmt, env: Env, tu: string, k: nat)
    requires env.funcs != [] && k < Calls(s)
    ensures Recorded(Contexts(s, env, tu), k, env, Trail(s, k), CallAt(s, k), tu)
    decreases s
  {
    hide HandlersOf, Then, Snapshot, Recorded, Step, Play, AllContexts, ClauseContexts, AllTrail, ClauseTrail, AllCallAt, ClauseCallAt, AllCalls, ClauseCalls;
    match s
    case Call(_, _, _, args) =>
      if k == 0 {
        OwnCall(s, env, tu);
      } else {
        AllTrailRecorded(args, env, tu, k - 1);
        Later([Snapshot(env, tu, s.display, s.usr, s.site)], AllContexts(args, env, tu), k - 1, env, AllTrail(args, k - 1), CallAt(s, k), tu);
      }
    case Assertion(c, site, args) =>
      if c.Some? {
        var env1 := Step(env, Claimed(c.value, site));
        StepClaimed(env, c.value, site);
        AllTrailRecorded(args, env1, tu, k);
        OneDown(Contexts(s, env, tu), k, env, Claimed(c.value, site), AllTrail(args, k), CallAt(s, k), tu);
      } else {
        AllTrailRecorded(args, env, tu, k);
        assert [] + AllTrail(args, k) == AllTrail(args, k);
      }
    case Declare(local, init) =>
      StepDeclared(env, local);
      AllTrailRecorded(init, Step(env, Declared(local)), tu, k);
      OneDown(Contexts(s, env, tu), k, env, Declared(local), AllTrail(init, k), CallAt(s, k), tu);
    case Throw(args) => AllTrailRecorded(args, env, tu, k);
    case Block(body) =>
      StepInBlock(env);
      AllTrailRecorded(body, Step(env, InBlock), tu, k);
      OneDown(Contexts(s, env, tu), k, env, InBlock, AllTrail(body, k), CallAt(s, k), tu);
    case Loop(parts) => AllTrailRecorded(parts, env, tu, k);
    case If(_, _, _, _, _) => IfRecorded(s, env, tu, k);
    case Try(_, _, _) => TryRecorded(s, env, tu, k);
    case Lambda(func, body) =>
      StepInLambda(env, func);
      AllTrailRecorded(body, Step(env, InLambdaBody(func)), tu, k);
      OneDown(Contexts(s, env, tu), k, env, InLambdaBody(func), AllTrail(body, k), CallAt(s, k), tu);
    case LocalFunction(func, body) =>
      StepInLocal(env, func);
      AllTrailRecorded(body, Step(env, InLocalBody(func)), tu, k);
      OneDown(Contexts(s, env, tu), k, env, InLocalBody(func), AllTrail(body, k), CallAt(s, k), tu);
  }

  lemma OwnCall(s: Stmt, env: Env, tu: string)
    requires env.funcs != [] && s.Call?
    ensures Recorded(Contexts(s, env, tu), 0, env, [], s, tu)
  {
    hide Snapshot;
  }

  lemma StepClaimed(env: Env, claim: string, site: string)
    ensures Step(env, Claimed(claim, site)) == Then(env, [Guard(claim, site, true, true)], []) && Step(env, Claimed(claim, site)).funcs == env.funcs
  {
  }

  lemma StepDeclared(env: Env, local: RaiiLocal)
    ensures Step(env, Declared(local)) == Then(env, [], [local]) && Step(env, Declared(local)).funcs == env.funcs
  {
  }

  lemma StepInBlock(env: Env)
    ensures Step(env, InBlock) == Inside(env)
  {
  }

  lemma StepInLambda(env: Env, func: Func)
    ensures Step(env, InLambdaBody(func)) == Inside(InLambda(func, env))
  {
  }

  lemma StepInLocal(env: Env, func: Func)
    ensures Step(env, InLocalBody(func)) == Inside(env.(funcs := env.funcs + [func]))
  {
  }

  /** A branch: after the test, under the guard. */
  lemma BranchSteps(s: Stmt, env: Env)
    requires s.If?
    ensures Step(env, InThen(s.condition, s.location)) == Guarded(s, env, true)
    ensures Step(Step(env, InElse(s.condition, s.location)), Beside(s.thenPart)) == Then(Guarded(s, env, false), [], NewLocals(s.thenPart))
    ensures Guarded(s, env, true).funcs == env.funcs && Then(Guarded(s, env, false), [], NewLocals(s.thenPart)).funcs == env.funcs
  {
    LeftIs(s.thenPart);
  }

  lemma AfterTest(contexts: seq<CallContext>, k: nat, env: Env, test: Stmts, trail: seq<Crumb>, call: Stmt, tu: string)
    requires env.funcs != [] && Recorded(contexts, k, AfterAll(test, env), trail, call, tu)
    ensures Recorded(contexts, k, env, AllBefore(test) + trail, call, tu)
  {
    hide AfterAll, Snapshot, Play;
    PlayBefore(env, test);
    PlayTwice(env, AllBefore(test), trail);
  }

  lemma {:induction false} IfRecorded(s: Stmt, env: Env, tu: string, k: nat)
    requires env.funcs != [] && k < Calls(s) && s.If?
    ensures Recorded(Contexts(s, env, tu), k, env, Trail(s, k), CallAt(s, k), tu)
    decreases s, 1
  {
    hide Then, Snapshot, Recorded, Step, Play, AllContexts, AllTrail, AllCallAt, AllCalls, AllAssertions, AllLocals, NewLocals, Guarded, AllBefore;
    var test, a, b := s.test, s.thenPart, s.elsePart;
    var env1 := AfterAll(test, env);
    ThenKeeps(env, AllAssertions(test, true), AllLocals(test));
    BranchSteps(s, env1);
    AllContextCount(test, env, tu);
    ContextCount(a, Guarded(s, env1, true), tu);
    var first, second := AllContexts(test, env, tu), Contexts(a, Guarded(s, env1, true), tu);
    var third := if b.Some? then Contexts(b.value, Then(Guarded(s, env1, false), [], NewLocals(a)), tu) else [];
    assert Contexts(s, env, tu) == first + second + third;
    if k < AllCalls(test) {
      AllTrailRecorded(test, env, tu, k);
      Sooner(first, second, k, env, AllTrail(test, k), CallAt(s, k), tu);
      Sooner(first + second, third, k, env, AllTrail(test, k), CallAt(s, k), tu);
    } else if k < AllCalls(test) + Calls(a) {
      var j := k - AllCalls(test);
      TrailRecorded(a, Guarded(s, env1, true), tu, j);
      OneDown(second, j, env1, InThen(s.condition, s.location), Trail(a, j), CallAt(s, k), tu);
      AfterTest(second, j, env, test, [InThen(s.condition, s.location)] + Trail(a, j), CallAt(s, k), tu);
      Later(first, second, j, env, Trail(s, k), CallAt(s, k), tu);
      Sooner(first + second, third, k, env, Trail(s, k), CallAt(s, k), tu);
    } else {
      ElseRecorded(s, env, env1, tu, k, first + second, third);
    }
  }

  lemma {:induction false} ElseRecorded(s: Stmt, env: Env, env1: Env, tu: string, k: nat, front: seq<CallContext>, third: seq<CallContext>)
    requires env.funcs != [] && s.If? && k < Calls(s) && AllCalls(s.test) + Calls(s.thenPart) <= k && s.elsePart.Some?
    requires env1 == AfterAll(s.test, env) && env1.funcs == env.funcs && |front| == AllCalls(s.test) + Calls(s.thenPart)
    requires third == Contexts(s.elsePart.value, Then(Guarded(s, env1, false), [], NewLocals(s.thenPart)), tu)
    ensures Recorded(front + third, k, env, Trail(s, k), CallAt(s, k), tu)
    decreases s, 0
  {
    hide Then, Snapshot, Recorded, Step, Play, AllCalls, AllCallAt, AllTrail, NewLocals, Guarded, AllBefore, Contexts, AfterAll;
    var j := k - AllCalls(s.test) - Calls(s.thenPart);
    var inner, call := Trail(s.elsePart.value, j), CallAt(s, k);
    BranchSteps(s, env1);
    TrailRecorded(s.elsePart.value, Then(Guarded(s, env1, false), [], NewLocals(s.thenPart)), tu, j);
    OneDown(third, j, Step(env1, InElse(s.condition, s.location)), Beside(s.thenPart), inner, call, tu);
    OneDown(third, j, env1, InElse(s.condition, s.location), [Beside(s.thenPart)] + inner, call, tu);
    var trail := [InElse(s.condition, s.location), Beside(s.thenPart)] + inner;
    assert [InElse(s.condition, s.location)] + ([Beside(s.thenPart)] + inner) == trail;
    AfterTest(third, j, env, s.test, trail, call, tu);
    Later(front, third, j, env, Trail(s, k), call, tu);
  }

  lemma {:induction false} TryRecorded(s: Stmt, env: Env, tu: string, k: nat)
    requires env.funcs != [] && k < Calls(s) && s.Try?
    ensures Recorded(Contexts(s, env, tu), k, env, Trail(s, k), CallAt(s, k), tu)
    decreases s, 0
  {
    hide Snapshot, Recorded, Play, AllContexts, ClauseContexts, AllTrail, ClauseTrail, AllCallAt, ClauseCallAt, AllCalls, ClauseCalls, HandlersOf;
    var inner, marked := Inside(env.(tries := env.tries + [ScopeOf(s, env)])), env.(insideCatch := true);
    var first, rest := AllContexts(s.body, inner, tu), ClauseContexts(s.clauses, marked, tu);
    AllContextCount(s.body, inner, tu);
    if k < AllCalls(s.body) {
      assert Step(env, InTry(s.location, s.clauses)) == inner;
      AllTrailRecorded(s.body, inner, tu, k);
      OneDown(first, k, env, InTry(s.location, s.clauses), AllTrail(s.body, k), CallAt(s, k), tu);
      Sooner(first, rest, k, env, Trail(s, k), CallAt(s, k), tu);
    } else {
      var j := k - AllCalls(s.body);
      ClauseRecorded(s.clauses, marked, tu, j);
      OneDown(rest, j, env, InHandler, ClauseTrail(s.clauses, j), CallAt(s, k), tu);
      Later(first, rest, j, env, Trail(s, k), CallAt(s, k), tu);
    }
  }

  lemma {:induction false} AllTrailRecorded(ss: Stmts, env: Env, tu: string, k: nat)
    requires env.funcs != [] && k < AllCalls(ss)
    ensures Recorded(AllContexts(ss, env, tu), k, env, AllTrail(ss, k), AllCallAt(ss, k), tu)
    decreases ss
  {
    hide Snapshot, Recorded, Play, Step, Contexts, Trail, CallAt, Calls, After;
    ContextCount(ss.head, env, tu);
    AfterKeeps(ss.head, env);
    var first, rest := Contexts(ss.head, env, tu), AllContexts(ss.tail, After(ss.head, env), tu);
    if k < Calls(ss.head) {
      TrailRecorded(ss.head, env, tu, k);
      Sooner(first, rest, k, env, Trail(ss.head, k), CallAt(ss.head, k), tu);
    } else {
      var j := k - Calls(ss.head);
      AllTrailRecorded(ss.tail, After(ss.head, env), tu, j);
      StepBefore(env, ss.head);
      OneDown(rest, j, env, Before(ss.head), AllTrail(ss.tail, j), AllCallAt(ss, k), tu);
      Later(first, rest, j, env, AllTrail(ss, k), AllCallAt(ss, k), tu);
    }
  }

  lemma {:induction false} ClauseRecorded(cs: Clauses, env: Env, tu: string, k: nat)
    requires env.funcs != [] && k < ClauseCalls(cs)
    ensures Recorded(ClauseContexts(cs, env, tu), k, env, ClauseTrail(cs, k), ClauseCallAt(cs, k), tu)
    decreases cs
  {
    hide Snapshot, Recorded, Play, Step, AllContexts, AllTrail, AllCallAt, AllCalls;
    var first, rest := AllContexts(cs.block, Inside(env), tu), ClauseContexts(cs.rest, env, tu);
    AllContextCount(cs.block, Inside(env), tu);
    if k < AllCalls(cs.block) {
      StepInBlock(env);
      AllTrailRecorded(cs.block, Inside(env), tu, k);
      OneDown(first, k, env, InBlock, AllTrail(cs.block, k), ClauseCallAt(cs, k), tu);
      Sooner(first, rest, k, env, ClauseTrail(cs, k), ClauseCallAt(cs, k), tu);
    } else {
      var j := k - AllCalls(cs.block);
      ClauseRecorded(cs.rest, env, tu, j);
      Later(first, rest, j, env, ClauseTrail(cs, k), ClauseCallAt(cs, k), tu);
    }
  }

  // ---- The stacks at the end of a trail are what is read off it.

  lemma ReversedSnoc<T>(s: seq<T>, x: T)
    ensures Reversed(s + [x]) == [x] + Reversed(s)
  {
  }

  lemma FlattenedSnoc(frames: seq<seq<RaiiLocal>>, last: seq<RaiiLocal>)
    ensures Flattened(frames + [last]) == Flattened(frames) + last
  {
    assert (frames + [last])[..|frames|] == frames;
  }

  lemma FlattenedExtend(frames: seq<seq<RaiiLocal>>, locals: seq<RaiiLocal>)
    requires frames != []
    ensures Extend(frames, locals) != [] && Flattened(Extend(frames, locals)) == Flattened(frames) + locals
  {
    var front, last := frames[..|frames| - 1], frames[|frames| - 1];
    assert frames == front + [last];
    FlattenedSnoc(front, last);
    FlattenedSnoc(front, last + locals);
  }

  ghost predicate Reads(func: Func, trail: seq<Crumb>, env: Env) {
    && env.funcs != [] && env.funcs[|env.funcs| - 1] == Innermost(func, trail) && env.frames != []
    && Reversed(env.tries) == TriesAround(func, trail)
    && Reversed(env.guards) == IfsAround(Frame(trail)) && env.assertions == AssertionsBefore(Frame(trail))
    && Flattened(env.frames) == LocalsBefore(Frame(trail)) && env.insideCatch == InSomeHandler(Frame(trail))
  }

  lemma FrameSnoc(trail: seq<Crumb>, c: Crumb)
    ensures var frame, longer := Frame(trail), Frame(trail + [c]);
            if c.InLambdaBody? then longer == [] else longer == frame + [c]
  {
    assert (trail + [c])[..|trail|] == trail;
  }

  lemma HandlerSnoc(frame: seq<Crumb>, c: Crumb)
    ensures InSomeHandler(frame + [c]) <==> InSomeHandler(frame) || c.InHandler?
  {
    var longer := frame + [c];
    if i :| 0 <= i < |frame| && frame[i].InHandler? {
      assert longer[i].InHandler?;
    }
    assert longer[|frame|] == c;
  }

  // What one crumb adds to each reading.

  function LocalsOf(c: Crumb): seq<RaiiLocal> {
    match c
    case Before(s) => Left(s)
    case Beside(s) => Left(s)
    case Declared(local) => [local]
    case _ => []
  }

  function ClaimsOf(c: Crumb): seq<Guard> {
    match c
    case Before(s) => Said(s)
    case Claimed(claim, site) => [Guard(claim, site, true, true)]
    case _ => []
  }

  function GuardsOf(c: Crumb): seq<Guard> {
    match c
    case InThen(x, y) => [Guard(x, y, true, false)]
    case InElse(x, y) => [Guard(x, y, false, false)]
    case _ => []
  }

  lemma FrameReadings(frame: seq<Crumb>, c: Crumb)
    ensures IfsAround(frame + [c]) == GuardsOf(c) + IfsAround(frame)
    ensures AssertionsBefore(frame + [c]) == AssertionsBefore(frame) + ClaimsOf(c)
    ensures LocalsBefore(frame + [c]) == LocalsBefore(frame) + LocalsOf(c)
  {
    hide Said, Left;
    assert (frame + [c])[..|frame|] == frame;
  }

  lemma TrailReadings(func: Func, trail: seq<Crumb>, c: Crumb)
    requires !c.InLambdaBody?
    ensures Innermost(func, trail + [c]) == if c.InLocalBody? then c.func else Innermost(func, trail)
    ensures TriesAround(func, trail + [c]) ==
            (match c case InTry(x, y) => [TryScope(x, Innermost(func, trail).display, |TriesAround(func, trail)|, HandlersOf(y))] case _ => []) + TriesAround(func, trail)
  {
    hide HandlersOf;
    assert (trail + [c])[..|trail|] == trail;
  }

  lemma ReadsStep(func: Func, trail: seq<Crumb>, env: Env, c: Crumb)
    requires Reads(func, trail, env) && !c.InLambdaBody?
    ensures Reads(func, trail + [c], Step(env, c))
  {
    hide HandlersOf, InSomeHandler, Reversed, Flattened, Step, Frame, IfsAround, AssertionsBefore, LocalsBefore, Innermost, TriesAround, GuardsOf, ClaimsOf, LocalsOf;
    FrameSnoc(trail, c);
    HandlerSnoc(Frame(trail), c);
    FrameReadings(Frame(trail), c);
    TrailReadings(func, trail, c);
    StepReads(env, c);
  }

  /** What one step does to the stacks. */
  lemma StepReads(env: Env, c: Crumb)
    requires env.frames != [] && env.funcs != [] && !c.InLambdaBody?
    ensures var next := Step(env, c);
            && next.frames != []
            && Flattened(next.frames) == Flattened(env.frames) + LocalsOf(c)
            && next.assertions == env.assertions + ClaimsOf(c)
            && Reversed(next.guards) == GuardsOf(c) + Reversed(env.guards)
            && Reversed(next.tries) == (match c case InTry(x, y) => [TryScope(x, env.funcs[|env.funcs| - 1].display, |Reversed(env.tries)|, HandlersOf(y))] case _ => []) + Reversed(env.tries)
            && next.insideCatch == (env.insideCatch || c.InHandler?)
            && next.funcs != [] && next.funcs[|next.funcs| - 1] == if c.InLocalBody? then c.func else env.funcs[|env.funcs| - 1]
  {
    hide HandlersOf, Said, Left, Flattened, Extend;
    FlattenedExtend(env.frames, LocalsOf(c));
    FlattenedSnoc(env.frames, []);
    if c.InThen? || c.InElse? {
      ReversedSnoc(env.guards, Guard(c.condition, c.location, c.InThen?, false));
    }
    if c.InTry? {
      ReversedSnoc(env.tries, ScopeOf(Try(c.location, Nil, c.clauses), env));
    }
  }

  lemma ReadsLambda(func: Func, trail: seq<Crumb>, env: Env, f: Func)
    requires Reads(func, trail, env)
    ensures Reads(func, trail + [InLambdaBody(f)], Step(env, InLambdaBody(f)))
  {
    var c := InLambdaBody(f);
    assert (trail + [c])[..|trail|] == trail;
    FrameSnoc(trail, c);
    FlattenedSnoc([], []);
    assert Step(env, c).frames == [] + [[]];
  }

  lemma {:induction false} TrailReads(func: Func, trail: seq<Crumb>)
    ensures Reads(func, trail, Play(InFunction(func), trail))
    decreases |trail|
  {
    hide Step, Reads;
    if trail == [] {
      NoTrail(func);
    } else {
      var most, c := trail[..|trail| - 1], trail[|trail| - 1];
      TrailReads(func, most);
      assert trail == most + [c];
      if c.InLambdaBody? {
        ReadsLambda(func, most, Play(InFunction(func), most), c.func);
      } else {
        ReadsStep(func, most, Play(InFunction(func), most), c);
      }
    }
  }

  lemma NoTrail(func: Func)
    ensures Play(InFunction(func), []) == InFunction(func) && Reads(func, [], InFunction(func))
  {
    FlattenedSnoc([], []);
    assert InFunction(func).frames == [] + [[]];
  }

  /** The context the walk records for a call is the one its place in the tree
      gives it. */
  lemma ContextIsLexical(func: Func, body: Stmts, tu: string, k: nat)
    requires k < AllCalls(body)
    ensures |AllContexts(body, InFunction(func), tu)| == AllCalls(body)
    ensures AllContexts(body, InFunction(func), tu)[k] == ContextAt(func, AllTrail(body, k), AllCallAt(body, k), tu)
  {
    hide AllContexts, AllTrail, AllCallAt, AllCalls, Play;
    AllContextCount(body, InFunction(func), tu);
    AllTrailRecorded(body, InFunction(func), tu, k);
    TrailReads(func, AllTrail(body, k));
  }

  lemma FunctionContexts(func: Func, body: Stmts, tu: string)
    ensures Contexts(LocalFunction(func, body), Env([], [], [], [], [], false), tu) == AllContexts(body, InFunction(func), tu)
  {
    hide AllContexts;
    var none := Env([], [], [], [], [], false);
    assert Inside(none.(funcs := none.funcs + [func])) == InFunction(func);
  }

  /** Walk one function: a context for each of its calls, as its place says. */
  method VisitFunction(func: Func, body: Stmts, tu: string) returns (contexts: seq<CallContext>)
    ensures |contexts| == AllCalls(body)
    ensures forall k :: 0 <= k < |contexts| ==> contexts[k] == ContextAt(func, AllTrail(body, k), AllCallAt(body, k), tu)
  {
    hide AllContexts, AllTrail, AllCallAt, AllCalls, ContextAt, Contexts, After;
    var v := new Visitor(tu);
    v.Traverse(LocalFunction(func, body));
    FunctionContexts(func, body, tu);
    contexts := v.recorded;
    assert [] + contexts == contexts;
    AllContextCount(body, InFunction(func), tu);
    forall k | 0 <= k < |contexts| ensures contexts[k] == ContextAt(func, AllTrail(body, k), AllCallAt(body, k), tu) {
      ContextIsLexical(func, body, tu, k);
    }
  }
}
