/** What handlers do when they run, and where an exception really ends.  The
    visitor marks a handler as rethrowing if a bare `throw;` stands anywhere in
    it.  Here its block is run while it handles the exception, so the handler may
    pass the exception on, keep it, or replace it by another one. */
module HandlerRuns {
  import opened Interner
  import opened FlowTypes
  import opened ContextVisitor
  import opened Unwinding

  /** How a statement of a handler ends: it is done, the traced exception leaves
      it, or another exception does. */
  datatype Outcome = Done | Passed | Replaced

  // ---- Running a handler block.

  function ClauseHandler(cs: Clauses): Handler
    requires cs.Clause?
  {
    Handler(if cs.caughtType.Some? then cs.caughtType.value else "", cs.caughtType.None?, AnyRethrow(cs.block), cs.location, cs.summary)
  }

  predicate HasCatchAll(cs: Clauses) {
    cs.Clause? && (cs.caughtType.None? || HasCatchAll(cs.rest))
  }

  /** Whether `s` can end like `o`.  Branches are taken either way, loops run any
      number of times, calls return, and a lambda or a local function does not
      run where it is defined.  `mine` says that the exception now handled, which
      a bare `throw;` throws again, is the traced one. */
  predicate Can(sub: Subtype, thrown: string, s: Stmt, mine: bool, o: Outcome) {
    match s
    case Call(_, _, _, args) => CanAll(sub, thrown, args, mine, o)
    case Assertion(_, _, args) => CanAll(sub, thrown, args, mine, o)
    case Declare(_, init) => CanAll(sub, thrown, init, mine, o)
    case Throw(args) => if o.Replaced? then CanAll(sub, thrown, args, mine, Done) || CanAll(sub, thrown, args, mine, o) else o.Passed? && CanAll(sub, thrown, args, mine, o)
    case Rethrow => o == if mine then Passed else Replaced
    case Block(body) => CanAll(sub, thrown, body, mine, o)
    case Loop(parts) => o.Done? || CanAll(sub, thrown, parts, mine, o)
    case If(_, _, test, a, b) =>
      || (!o.Done? && CanAll(sub, thrown, test, mine, o))
      || (CanAll(sub, thrown, test, mine, Done) && (Can(sub, thrown, a, mine, o) || if b.Some? then Can(sub, thrown, b.value, mine, o) else o.Done?))
    case Try(_, body, clauses) =>
      || (o.Done? && CanAll(sub, thrown, body, mine, Done))
      || (CanAll(sub, thrown, body, mine, Passed) && CanMatch(sub, thrown, clauses, o))
      || (CanAll(sub, thrown, body, mine, Replaced) && ((o.Replaced? && !HasCatchAll(clauses)) || CanOther(sub, thrown, clauses, o)))
    case Lambda(_, _) => o.Done?
    case LocalFunction(_, _) => o.Done?
  }

  predicate CanAll(sub: Subtype, thrown: string, ss: Stmts, mine: bool, o: Outcome) {
    if ss.Nil? then o.Done?
    else (!o.Done? && Can(sub, thrown, ss.head, mine, o)) || (Can(sub, thrown, ss.head, mine, Done) && CanAll(sub, thrown, ss.tail, mine, o))
  }

  /** The traced exception meets the handlers of a nested try. */
  predicate CanMatch(sub: Subtype, thrown: string, cs: Clauses, o: Outcome) {
    if cs.NoMore? then o.Passed?
    else if Matches(sub, thrown, ClauseHandler(cs)) then CanAll(sub, thrown, cs.block, true, o)
    else CanMatch(sub, thrown, cs.rest, o)
  }

  /** Another exception, of any type, meets them. */
  predicate CanOther(sub: Subtype, thrown: string, cs: Clauses, o: Outcome) {
    cs.Clause? && (CanAll(sub, thrown, cs.block, false, o) || (cs.caughtType.Some? && CanOther(sub, thrown, cs.rest, o)))
  }

  /** Whether a handler with this block can be where the exception ends. */
  predicate CanKeep(sub: Subtype, thrown: string, block: Stmts) {
    CanAll(sub, thrown, block, true, Done) || CanAll(sub, thrown, block, true, Replaced)
  }

  // ---- A handler without the mark keeps what it catches.

  lemma {:induction false} QuietNeverPasses(sub: Subtype, thrown: string, s: Stmt, mine: bool)
    requires mine ==> !ContainsRethrow(s)
    ensures !Can(sub, thrown, s, mine, Passed)
    decreases s
  {
    match s
    case Call(_, _, _, args) => QuietAll(sub, thrown, args, mine);
    case Assertion(_, _, args) => QuietAll(sub, thrown, args, mine);
    case Declare(_, init) => QuietAll(sub, thrown, init, mine);
    case Throw(args) => QuietAll(sub, thrown, args, mine);
    case Rethrow =>
    case Block(body) => QuietAll(sub, thrown, body, mine);
    case Loop(parts) => QuietAll(sub, thrown, parts, mine);
    case If(_, _, test, a, b) =>
      QuietAll(sub, thrown, test, mine);
      QuietNeverPasses(sub, thrown, a, mine);
      if b.Some? {
        QuietNeverPasses(sub, thrown, b.value, mine);
      }
    case Try(_, body, clauses) =>
      QuietAll(sub, thrown, body, mine);
      QuietOther(sub, thrown, clauses);
    case Lambda(_, _) =>
    case LocalFunction(_, _) =>
  }

  lemma {:induction false} QuietAll(sub: Subtype, thrown: string, ss: Stmts, mine: bool)
    requires mine ==> !AnyRethrow(ss)
    ensures !CanAll(sub, thrown, ss, mine, Passed)
    decreases ss
  {
    if ss.Cons? {
      QuietNeverPasses(sub, thrown, ss.head, mine);
      QuietAll(sub, thrown, ss.tail, mine);
    }
  }

  lemma {:induction false} QuietOther(sub: Subtype, thrown: string, cs: Clauses)
    ensures !CanOther(sub, thrown, cs, Passed)
    decreases cs
  {
    if cs.Clause? {
      QuietAll(sub, thrown, cs.block, false);
      QuietOther(sub, thrown, cs.rest);
    }
  }

  // ---- Every block ends somehow.

  lemma {:induction false} SomeEnd(sub: Subtype, thrown: string, s: Stmt, mine: bool) returns (o: Outcome)
    ensures Can(sub, thrown, s, mine, o)
    decreases s
  {
    match s
    case Call(_, _, _, args) => o := SomeEndAll(sub, thrown, args, mine);
    case Assertion(_, _, args) => o := SomeEndAll(sub, thrown, args, mine);
    case Declare(_, init) => o := SomeEndAll(sub, thrown, init, mine);
    case Throw(args) =>
      o := SomeEndAll(sub, thrown, args, mine);
      o := if o.Done? then Replaced else o;
    case Rethrow => o := if mine then Passed else Replaced;
    case Block(body) => o := SomeEndAll(sub, thrown, body, mine);
    case Loop(_) => o := Done;
    case If(_, _, test, a, _) =>
      o := SomeEndAll(sub, thrown, test, mine);
      if o.Done? {
        o := SomeEnd(sub, thrown, a, mine);
      }
    case Try(_, body, clauses) =>
      o := SomeEndAll(sub, thrown, body, mine);
      if o.Passed? {
        o := SomeMatch(sub, thrown, clauses);
      } else if o.Replaced? && HasCatchAll(clauses) {
        o := SomeOther(sub, thrown, clauses);
      }
    case Lambda(_, _) => o := Done;
    case LocalFunction(_, _) => o := Done;
  }

  lemma {:induction false} SomeEndAll(sub: Subtype, thrown: string, ss: Stmts, mine: bool) returns (o: Outcome)
    ensures CanAll(sub, thrown, ss, mine, o)
    decreases ss
  {
    o := Done;
    if ss.Cons? {
      o := SomeEnd(sub, thrown, ss.head, mine);
      if o.Done? {
        o := SomeEndAll(sub, thrown, ss.tail, mine);
      }
    }
  }

  lemma {:induction false} SomeMatch(sub: Subtype, thrown: string, cs: Clauses) returns (o: Outcome)
    ensures CanMatch(sub, thrown, cs, o)
    decreases cs
  {
    o := Passed;
    if cs.Clause? {
      if Matches(sub, thrown, ClauseHandler(cs)) {
        o := SomeEndAll(sub, thrown, cs.block, true);
      } else {
        o := SomeMatch(sub, thrown, cs.rest);
      }
    }
  }

  lemma {:induction false} SomeOther(sub: Subtype, thrown: string, cs: Clauses) returns (o: Outcome)
    requires HasCatchAll(cs)
    ensures CanOther(sub, thrown, cs, o)
    decreases cs
  {
    o := SomeEndAll(sub, thrown, cs.block, false);
  }

  // ---- Where an exception can end.

  /** An exception at the handlers of a try. */
  function AtClauses(sub: Subtype, thrown: string, location: string, cs: Clauses): set<Ending> {
    if cs.NoMore? then {Propagates}
    else if Matches(sub, thrown, ClauseHandler(cs)) then
      (if CanAll(sub, thrown, cs.block, true, Passed) then {Propagates} else {})
      + (if CanKeep(sub, thrown, cs.block) then {CaughtBy(location, ClauseHandler(cs))} else {})
    else AtClauses(sub, thrown, location, cs.rest)
  }

  function OutOfTry(inner: set<Ending>, handled: set<Ending>): set<Ending> {
    (set e | e in inner && !e.Propagates?) + if Propagates in inner then handled else {}
  }

  /** Call number `k` of `s` throws: every way that can end within `s`. */
  function Runs(sub: Subtype, thrown: string, s: Stmt, k: nat): set<Ending>
    requires k < Calls(s)
  {
    match s
    case Call(_, _, _, args) => if k == 0 then {Propagates} else AllRuns(sub, thrown, args, k - 1)
    case Assertion(_, _, args) => AllRuns(sub, thrown, args, k)
    case Declare(_, init) => AllRuns(sub, thrown, init, k)
    case Throw(args) => AllRuns(sub, thrown, args, k)
    case Block(body) => AllRuns(sub, thrown, body, k)
    case Loop(parts) => AllRuns(sub, thrown, parts, k)
    case If(_, _, test, a, b) =>
      if k < AllCalls(test) then AllRuns(sub, thrown, test, k)
      else if k < AllCalls(test) + Calls(a) then Runs(sub, thrown, a, k - AllCalls(test))
      else Runs(sub, thrown, b.value, k - AllCalls(test) - Calls(a))
    case Try(location, body, clauses) =>
      if k < AllCalls(body) then OutOfTry(AllRuns(sub, thrown, body, k), AtClauses(sub, thrown, location, clauses))
      else ClauseRuns(sub, thrown, clauses, k - AllCalls(body))
    case Lambda(_, body) => set e | e in AllRuns(sub, thrown, body, k) :: OutOfFrame(e)
    case LocalFunction(_, body) => set e | e in AllRuns(sub, thrown, body, k) :: OutOfFrame(e)
  }

  function AllRuns(sub: Subtype, thrown: string, ss: Stmts, k: nat): set<Ending>
    requires k < AllCalls(ss)
  {
    if k < Calls(ss.head) then Runs(sub, thrown, ss.head, k) else AllRuns(sub, thrown, ss.tail, k - Calls(ss.head))
  }

  function ClauseRuns(sub: Subtype, thrown: string, cs: Clauses, k: nat): set<Ending>
    requires k < ClauseCalls(cs)
  {
    if k < AllCalls(cs.block) then AllRuns(sub, thrown, cs.block, k) else ClauseRuns(sub, thrown, cs.rest, k - AllCalls(cs.block))
  }

  // ---- When the marks tell the truth.

  /** The handler that takes the exception, if it is marked, always passes it on. */
  predicate TrueMark(sub: Subtype, thrown: string, cs: Clauses) {
    cs.Clause? ==>
      if Matches(sub, thrown, ClauseHandler(cs)) then AnyRethrow(cs.block) ==> !CanKeep(sub, thrown, cs.block)
      else TrueMark(sub, thrown, cs.rest)
  }

  /** So do all marked handlers on the exception's way out. */
  predicate TrueMarks(sub: Subtype, thrown: string, s: Stmt, k: nat)
    requires k < Calls(s)
  {
    match s
    case Call(_, _, _, args) => k == 0 || AllTrueMarks(sub, thrown, args, k - 1)
    case Assertion(_, _, args) => AllTrueMarks(sub, thrown, args, k)
    case Declare(_, init) => AllTrueMarks(sub, thrown, init, k)
    case Throw(args) => AllTrueMarks(sub, thrown, args, k)
    case Block(body) => AllTrueMarks(sub, thrown, body, k)
    case Loop(parts) => AllTrueMarks(sub, thrown, parts, k)
    case If(_, _, test, a, b) =>
      if k < AllCalls(test) then AllTrueMarks(sub, thrown, test, k)
      else if k < AllCalls(test) + Calls(a) then TrueMarks(sub, thrown, a, k - AllCalls(test))
      else TrueMarks(sub, thrown, b.value, k - AllCalls(test) - Calls(a))
    case Try(_, body, clauses) =>
      if k < AllCalls(body)
      then AllTrueMarks(sub, thrown, body, k) && (AllByFlags(sub, thrown, body, k).Propagates? ==> TrueMark(sub, thrown, clauses))
      else ClauseTrueMarks(sub, thrown, clauses, k - AllCalls(body))
    case Lambda(_, body) => AllTrueMarks(sub, thrown, body, k)
    case LocalFunction(_, body) => AllTrueMarks(sub, thrown, body, k)
  }

  predicate AllTrueMarks(sub: Subtype, thrown: string, ss: Stmts, k: nat)
    requires k < AllCalls(ss)
  {
    if k < Calls(ss.head) then TrueMarks(sub, thrown, ss.head, k) else AllTrueMarks(sub, thrown, ss.tail, k - Calls(ss.head))
  }

  predicate ClauseTrueMarks(sub: Subtype, thrown: string, cs: Clauses, k: nat)
    requires k < ClauseCalls(cs)
  {
    if k < AllCalls(cs.block) then AllTrueMarks(sub, thrown, cs.block, k) else ClauseTrueMarks(sub, thrown, cs.rest, k - AllCalls(cs.block))
  }

  // ---- The marks against the runs.

  predicate Marked(e: Ending) {
    e.CaughtBy? && e.handler.rethrows
  }

  /** What the marks say is the outermost end; a run can only end at it or
      earlier, at a marked handler that kept the exception. */
  predicate Outermost(u: Ending, runs: set<Ending>) {
    runs != {} && !Marked(u) && forall e :: e in runs ==> e == u || Marked(e)
  }

  lemma {:induction false} ClausesRead(sub: Subtype, thrown: string, location: string, cs: Clauses)
    ensures Outermost(AtHandlers(sub, thrown, location, cs, Propagates), AtClauses(sub, thrown, location, cs))
    ensures TrueMark(sub, thrown, cs) <==> AtClauses(sub, thrown, location, cs) == {AtHandlers(sub, thrown, location, cs, Propagates)}
    decreases cs
  {
    hide Can, CanAll, Matches;
    if cs.NoMore? {
      assert HandlersOf(cs) == [];
      assert Propagates in AtClauses(sub, thrown, location, cs);
    } else {
      assert HandlersOf(cs)[0] == ClauseHandler(cs) && HandlersOf(cs)[1..] == HandlersOf(cs.rest);
      if Matches(sub, thrown, ClauseHandler(cs)) {
        FirstTakes(sub, thrown, location, cs);
      } else {
        ClausesRead(sub, thrown, location, cs.rest);
      }
    }
  }

  lemma FirstTakes(sub: Subtype, thrown: string, location: string, cs: Clauses)
    requires cs.Clause? && Matches(sub, thrown, ClauseHandler(cs))
    requires HandlersOf(cs) != [] && HandlersOf(cs)[0] == ClauseHandler(cs)
    ensures Outermost(AtHandlers(sub, thrown, location, cs, Propagates), AtClauses(sub, thrown, location, cs))
    ensures TrueMark(sub, thrown, cs) <==> AtClauses(sub, thrown, location, cs) == {AtHandlers(sub, thrown, location, cs, Propagates)}
  {
    hide Can, CanAll, Matches, HandlersOf, AnyRethrow;
    var u, kept := AtHandlers(sub, thrown, location, cs, Propagates), CaughtBy(location, ClauseHandler(cs));
    var runs := AtClauses(sub, thrown, location, cs);
    assert u == if AnyRethrow(cs.block) then Propagates else kept;
    var o := SomeEndAll(sub, thrown, cs.block, true);
    assert (if o.Passed? then Propagates else kept) in runs;
    if !AnyRethrow(cs.block) {
      QuietAll(sub, thrown, cs.block, true);
    }
  }

  lemma TryRead(inner: set<Ending>, handled: set<Ending>, u: Ending, v: Ending, sure: bool, marks: bool)
    requires Outermost(u, inner) && (sure <==> inner == {u})
    requires u.Propagates? ==> Outermost(v, handled) && (marks <==> handled == {v})
    requires !u.Propagates? ==> v == u
    ensures Outermost(v, OutOfTry(inner, handled))
    ensures sure && (u.Propagates? ==> marks) <==> OutOfTry(inner, handled) == {v}
  {
    var runs := OutOfTry(inner, handled);
    var e :| e in inner;
    assert e.Propagates? || e in runs;
    if u.Propagates? {
      var h :| h in handled;
      assert Propagates in inner ==> h in runs;
    }
    if runs == {v} {
      forall x | x in inner ensures x == u {
        assert !x.Propagates? ==> x in runs;
      }
      assert u in inner;
      assert inner == {u};
      if u.Propagates? {
        assert runs == handled;
      }
    }
    if sure && (u.Propagates? ==> marks) {
      assert u in inner;
      if u.Propagates? {
        assert runs == handled;
      } else {
        assert runs == {u};
      }
    }
  }

  lemma FrameRead(u: Ending, inner: set<Ending>, sure: bool)
    requires Outermost(u, inner) && (sure <==> inner == {u})
    ensures Outermost(OutOfFrame(u), set e | e in inner :: OutOfFrame(e))
    ensures sure <==> (set e | e in inner :: OutOfFrame(e)) == {OutOfFrame(u)}
  {
    var runs := set e | e in inner :: OutOfFrame(e);
    var e :| e in inner;
    assert OutOfFrame(e) in runs;
    forall x | x in inner ensures OutOfFrame(x) in runs && (x == u || (Marked(x) && OutOfFrame(x) == x != OutOfFrame(u))) {
    }
    if runs == {OutOfFrame(u)} {
      assert forall x :: x in inner ==> x == u;
      assert u in inner;
      assert inner == {u};
    }
  }

  lemma {:induction false} RunsRead(sub: Subtype, thrown: string, s: Stmt, k: nat)
    requires k < Calls(s)
    ensures Outermost(ByFlags(sub, thrown, s, k), Runs(sub, thrown, s, k))
    ensures TrueMarks(sub, thrown, s, k) <==> Runs(sub, thrown, s, k) == {ByFlags(sub, thrown, s, k)}
    decreases s
  {
    hide AtHandlers, AtClauses, TrueMark, OutOfTry, Outermost, OutOfFrame, AllRuns, ClauseRuns, AllTrueMarks, ClauseTrueMarks, AllByFlags, ClausesByFlags;
    match s
    case Call(_, _, _, args) =>
      if k == 0 {
        OneEnd(Propagates);
      } else {
        AllRunsRead(sub, thrown, args, k - 1);
      }
    case Assertion(_, _, args) => AllRunsRead(sub, thrown, args, k);
    case Declare(_, init) => AllRunsRead(sub, thrown, init, k);
    case Throw(args) => AllRunsRead(sub, thrown, args, k);
    case Block(body) => AllRunsRead(sub, thrown, body, k);
    case Loop(parts) => AllRunsRead(sub, thrown, parts, k);
    case If(_, _, test, a, b) =>
      if k < AllCalls(test) {
        AllRunsRead(sub, thrown, test, k);
      } else if k < AllCalls(test) + Calls(a) {
        RunsRead(sub, thrown, a, k - AllCalls(test));
      } else {
        RunsRead(sub, thrown, b.value, k - AllCalls(test) - Calls(a));
      }
    case Try(location, body, clauses) =>
      if k < AllCalls(body) {
        AllRunsRead(sub, thrown, body, k);
        ClausesRead(sub, thrown, location, clauses);
        var u := AllByFlags(sub, thrown, body, k);
        NotAtHandlers(sub, thrown, location, clauses, u);
        TryRead(AllRuns(sub, thrown, body, k), AtClauses(sub, thrown, location, clauses), u, AtHandlers(sub, thrown, location, clauses, u),
                AllTrueMarks(sub, thrown, body, k), TrueMark(sub, thrown, clauses));
      } else {
        ClauseRunsRead(sub, thrown, clauses, k - AllCalls(body));
      }
    case Lambda(_, body) =>
      AllRunsRead(sub, thrown, body, k);
      FrameRead(AllByFlags(sub, thrown, body, k), AllRuns(sub, thrown, body, k), AllTrueMarks(sub, thrown, body, k));
    case LocalFunction(_, body) =>
      AllRunsRead(sub, thrown, body, k);
      FrameRead(AllByFlags(sub, thrown, body, k), AllRuns(sub, thrown, body, k), AllTrueMarks(sub, thrown, body, k));
  }

  lemma OneEnd(e: Ending)
    requires !Marked(e)
    ensures Outermost(e, {e})
  {
    assert e in {e};
  }

  lemma NotAtHandlers(sub: Subtype, thrown: string, location: string, cs: Clauses, u: Ending)
    ensures AtHandlers(sub, thrown, location, cs, u) == if u.Propagates? then AtHandlers(sub, thrown, location, cs, Propagates) else u
  {
  }

  lemma {:induction false} AllRunsRead(sub: Subtype, thrown: string, ss: Stmts, k: nat)
    requires k < AllCalls(ss)
    ensures Outermost(AllByFlags(sub, thrown, ss, k), AllRuns(sub, thrown, ss, k))
    ensures AllTrueMarks(sub, thrown, ss, k) <==> AllRuns(sub, thrown, ss, k) == {AllByFlags(sub, thrown, ss, k)}
    decreases ss
  {
    hide Runs, ByFlags, TrueMarks, Outermost;
    if k < Calls(ss.head) {
      RunsRead(sub, thrown, ss.head, k);
    } else {
      AllRunsRead(sub, thrown, ss.tail, k - Calls(ss.head));
    }
  }

  lemma {:induction false} ClauseRunsRead(sub: Subtype, thrown: string, cs: Clauses, k: nat)
    requires k < ClauseCalls(cs)
    ensures Outermost(ClausesByFlags(sub, thrown, cs, k), ClauseRuns(sub, thrown, cs, k))
    ensures ClauseTrueMarks(sub, thrown, cs, k) <==> ClauseRuns(sub, thrown, cs, k) == {ClausesByFlags(sub, thrown, cs, k)}
    decreases cs
  {
    hide AllRuns, AllByFlags, AllTrueMarks, Outermost;
    if k < AllCalls(cs.block) {
      AllRunsRead(sub, thrown, cs.block, k);
    } else {
      ClauseRunsRead(sub, thrown, cs.rest, k - AllCalls(cs.block));
    }
  }

  // ---- Whole functions.

  function AsCatching(e: Ending): Catching {
    if e.CaughtBy? then Caught(e.tryLocation, e.handler) else Escapes
  }

  /** Every way an exception thrown by call `k` of a body can end. */
  function Handling(sub: Subtype, thrown: string, body: Stmts, k: nat): set<Catching>
    requires k < AllCalls(body)
  {
    set e | e in AllRuns(sub, thrown, body, k) :: AsCatching(e)
  }

  lemma HandlingRead(sub: Subtype, thrown: string, body: Stmts, k: nat)
    requires k < AllCalls(body)
    ensures FlagHandling(sub, thrown, body, k) == AsCatching(AllByFlags(sub, thrown, body, k))
    ensures Handling(sub, thrown, body, k) != {}
    ensures var u := FlagHandling(sub, thrown, body, k);
            && !(u.Caught? && u.handler.rethrows)
            && (forall r :: r in Handling(sub, thrown, body, k) ==> r == u || (r.Caught? && r.handler.rethrows))
            && (Handling(sub, thrown, body, k) == {u} <==> AllTrueMarks(sub, thrown, body, k))
  {
    hide AllRuns, AllByFlags, AllTrueMarks;
    AllRunsRead(sub, thrown, body, k);
    var u, runs, all := AllByFlags(sub, thrown, body, k), AllRuns(sub, thrown, body, k), Handling(sub, thrown, body, k);
    forall e | e in runs ensures AsCatching(e) in all && (e == u || AsCatching(e) != AsCatching(u)) {
    }
    var e :| e in runs;
    if all == {AsCatching(u)} {
      assert forall e :: e in runs ==> e == u;
      assert runs == {u};
    }
  }

  /** What the scope loop says of a call, against every run: a handler it reports
      is final, and no run ends outside of what the loop says, only earlier, at a
      marked handler that keeps the exception.  The loop over all recorded
      scopes tells exactly what happens if and only if every marked handler on
      the way always passes the exception on and no foreign scope catches. */
  lemma ScopeLoopAgrees(sub: Subtype, thrown: string, func: Func, body: Stmts, tu: string, k: nat)
    requires k < AllCalls(body)
    ensures |AllContexts(body, InFunction(func), tu)| == AllCalls(body)
    ensures var scopes, m, runs := AllContexts(body, InFunction(func), tu)[k].scopes, OwnAll(body, k, 0), Handling(sub, thrown, body, k);
            && m <= |scopes| && runs != {}
            && (forall r :: r in runs ==> r == Select(sub, thrown, scopes[..m]) || (r.Caught? && r.handler.rethrows))
            && (Select(sub, thrown, scopes[..m]).Caught? ==> Escapes !in runs)
            && (runs == {Select(sub, thrown, scopes)} <==>
                AllTrueMarks(sub, thrown, body, k) && (Select(sub, thrown, scopes[..m]).Caught? || Select(sub, thrown, scopes[m..]).Escapes?))
  {
    hide AllContexts, AllCalls, OwnAll, Handling, FlagHandling, AllTrueMarks;
    ScopeLoopByFlags(sub, thrown, func, body, tu, k);
    HandlingRead(sub, thrown, body, k);
    var scopes, m, runs := AllContexts(body, InFunction(func), tu)[k].scopes, OwnAll(body, k, 0), Handling(sub, thrown, body, k);
    SelectUnmarked(sub, thrown, scopes);
    var x := Select(sub, thrown, scopes);
    if runs == {x} {
      assert x in runs;
    }
  }

  lemma {:induction false} SelectUnmarked(sub: Subtype, thrown: string, scopes: seq<TryScope>)
    ensures Select(sub, thrown, scopes).Caught? ==> !Select(sub, thrown, scopes).handler.rethrows
    decreases |scopes|
  {
    if scopes != [] {
      SelectUnmarked(sub, thrown, scopes[1..]);
    }
  }

  /** Without local functions, what the visitor recorded for a call selects the
      one handler that runs, exactly if no marked handler on the way can keep
      the exception. */
  lemma ScopeLoopIsUnwinding(sub: Subtype, thrown: string, func: Func, body: Stmts, tu: string, k: nat)
    requires k < AllCalls(body) && AllNoLocals(body)
    ensures |AllContexts(body, InFunction(func), tu)| == AllCalls(body)
    ensures var loop, runs := Select(sub, thrown, AllContexts(body, InFunction(func), tu)[k].scopes), Handling(sub, thrown, body, k);
            && (runs == {loop} <==> AllTrueMarks(sub, thrown, body, k))
            && (loop.Caught? ==> Escapes !in runs)
            && (loop.Escapes? ==> forall r :: r in runs && r.Caught? ==> r.handler.rethrows)
  {
    hide AllContexts, AllCalls, FlagHandling, Handling, AllTrueMarks;
    LoopByFlags(sub, thrown, func, body, tu, k);
    HandlingRead(sub, thrown, body, k);
  }

  // ---- Marks that do not tell the truth.

  /** `try { f(); } catch (...) { block }` */
  function Guarding(block: Stmts): Stmts {
    Cons(Try("t", Cons(Call("f", "f", "s", Nil), Nil), Clause(None, "c", "", block, NoMore)), Nil)
  }

  lemma GuardingRuns(sub: Subtype, thrown: string, block: Stmts)
    requires !CanAll(sub, thrown, block, true, Passed)
    ensures AllCalls(Guarding(block)) > 0
    ensures Handling(sub, thrown, Guarding(block), 0) == {Caught("t", Handler("", true, AnyRethrow(block), "c", ""))}
  {
    hide CanAll, AnyRethrow;
    var call := Cons(Call("f", "f", "s", Nil), Nil);
    var cs := Clause(None, "c", "", block, NoMore);
    var kept := CaughtBy("t", ClauseHandler(cs));
    var o := SomeEndAll(sub, thrown, block, true);
    assert AllCalls(call) == 1 && AllRuns(sub, thrown, call, 0) == {Propagates};
    assert CanAll(sub, thrown, block, true, o) && !o.Passed?;
    assert CanKeep(sub, thrown, block) && Matches(sub, thrown, ClauseHandler(cs));
    assert AtClauses(sub, thrown, "t", cs) == {} + {kept} == {kept};
    assert Runs(sub, thrown, Guarding(block).head, 0) == {kept};
    assert AllRuns(sub, thrown, Guarding(block), 0) == {kept};
  }

  lemma GuardingFlags(sub: Subtype, thrown: string, block: Stmts)
    requires AnyRethrow(block)
    ensures AllCalls(Guarding(block)) > 0 && FlagHandling(sub, thrown, Guarding(block), 0) == Escapes
  {
    hide AnyRethrow;
    var call := Cons(Call("f", "f", "s", Nil), Nil);
    var cs := Clause(None, "c", "", block, NoMore);
    assert AllCalls(call) == 1 && AllByFlags(sub, thrown, call, 0) == Propagates;
    assert HandlersOf(NoMore) == [];
    assert HandlersOf(cs)[0] == ClauseHandler(cs);
    assert AtHandlers(sub, thrown, "t", cs, Propagates) == Propagates;
    assert AllByFlags(sub, thrown, Guarding(block), 0) == ByFlags(sub, thrown, Guarding(block).head, 0) == Propagates;
  }

  /** The loop says that an exception of `try { f(); } catch (...) { block }`
      escapes, and every run ends in the handler. */
  ghost predicate Misjudged(sub: Subtype, thrown: string, block: Stmts, func: Func, tu: string) {
    var body := Guarding(block);
    && AllCalls(body) > 0 && |AllContexts(body, InFunction(func), tu)| == AllCalls(body)
    && Select(sub, thrown, AllContexts(body, InFunction(func), tu)[0].scopes) == Escapes
    && Handling(sub, thrown, body, 0) == {Caught("t", Handler("", true, true, "c", ""))}
  }

  /** A marked handler that never passes the exception on: the loop says that the
      exception escapes, and it never does. */
  lemma FalseMark(sub: Subtype, thrown: string, block: Stmts, func: Func, tu: string)
    requires AnyRethrow(block) && AllNoLocals(block) && !CanAll(sub, thrown, block, true, Passed)
    ensures Misjudged(sub, thrown, block, func, tu)
  {
    GuardingRuns(sub, thrown, block);
    GuardingFlags(sub, thrown, block);
    GuardingPlain(block);
    hide AllContexts, AllCalls, FlagHandling, Handling, CanAll, AnyRethrow, AllNoLocals, Guarding;
    LoopByFlags(sub, thrown, func, Guarding(block), tu, 0);
  }

  lemma GuardingPlain(block: Stmts)
    requires AllNoLocals(block)
    ensures AllNoLocals(Guarding(block))
  {
    assert AllNoLocals(Nil) && ClausesNoLocals(NoMore);
    assert NoLocals(Guarding(block).head.body.head);
  }

  /** `try { throw; } catch (...) { }` inside the handler. */
  lemma NestedTryExample(sub: Subtype, thrown: string, func: Func, tu: string)
    ensures Misjudged(sub, thrown, Cons(Try("u", Cons(Rethrow, Nil), Clause(None, "d", "", Nil, NoMore)), Nil), func, tu)
  {
    var inner, cs := Cons(Rethrow, Nil), Clause(None, "d", "", Nil, NoMore);
    var s := Try("u", inner, cs);
    assert ContainsRethrow(Rethrow) && AnyRethrow(inner) && ContainsRethrow(s);
    assert NoLocals(Rethrow) && AllNoLocals(Nil) && AllNoLocals(inner) && ClausesNoLocals(NoMore) && ClausesNoLocals(cs) && NoLocals(s);
    assert !CanAll(sub, thrown, Nil, true, Passed) && !CanAll(sub, thrown, Nil, false, Passed);
    assert !CanMatch(sub, thrown, cs, Passed) && !CanOther(sub, thrown, cs, Passed);
    assert !Can(sub, thrown, s, true, Passed);
    FalseMark(sub, thrown, Cons(s, Nil), func, tu);
  }

  /** A handler that only defines a lambda with a bare `throw;`. */
  lemma LambdaExample(sub: Subtype, thrown: string, inner: Func, func: Func, tu: string)
    ensures Misjudged(sub, thrown, Cons(Lambda(inner, Cons(Rethrow, Nil)), Nil), func, tu)
  {
    var s := Lambda(inner, Cons(Rethrow, Nil));
    assert ContainsRethrow(Rethrow) && AnyRethrow(Cons(Rethrow, Nil)) && ContainsRethrow(s);
    assert NoLocals(Rethrow) && AllNoLocals(Nil) && AllNoLocals(Cons(Rethrow, Nil)) && NoLocals(s);
    assert !CanAll(sub, thrown, Nil, true, Passed);
    FalseMark(sub, thrown, Cons(s, Nil), func, tu);
  }

  // ---- Local functions: recorded under a try that cannot see them.

  lemma OneStatement(s: Stmt, env: Env, tu: string)
    ensures AllCalls(Cons(s, Nil)) == Calls(s) && AllContexts(Cons(s, Nil), env, tu) == Contexts(s, env, tu)
  {
    assert AllCalls(Nil) == 0;
    assert AllContexts(Nil, After(s, env), tu) == [];
  }

  /** `try { struct L { void g() { f(); } }; } catch (...) { }` */
  function LocalInTry(inner: Func): Stmt {
    Try("t", Cons(LocalFunction(inner, Cons(Call("f", "f", "s", Nil), Nil)), Nil), Clause(None, "c", "", Nil, NoMore))
  }

  lemma PlainCall(env: Env, tu: string)
    requires env.funcs != []
    ensures var call := Call("f", "f", "s", Nil); Calls(call) == 1 && Contexts(call, env, tu) == [Snapshot(env, tu, "f", "f", "s")]
  {
    assert AllContexts(Nil, env, tu) == [];
  }

  lemma EmptyClause(env: Env, tu: string)
    ensures var cs := Clause(None, "c", "", Nil, NoMore); ClauseCalls(cs) == 0 && ClauseContexts(cs, env, tu) == []
  {
    assert ClauseContexts(NoMore, env, tu) == [] && AllContexts(Nil, Inside(env), tu) == [];
  }

  lemma ExampleContext(func: Func, inner: Func, tu: string)
    ensures Calls(LocalInTry(inner)) == 1
    ensures var cs := Contexts(LocalInTry(inner), InFunction(func), tu); |cs| == 1 && cs[0].scopes == [ScopeOf(LocalInTry(inner), InFunction(func))]
  {
    hide Flattened, HandlersOf, ScopeOf, Then, After, NewAssertions, NewLocals, ContainsRethrow, AllContexts, ClauseContexts, AllCalls, ClauseCalls;
    var call := Call("f", "f", "s", Nil);
    var s := LocalInTry(inner);
    var local := s.body.head;
    var env := InFunction(func);
    var env1 := Inside(env.(tries := env.tries + [ScopeOf(s, env)]));
    var env2 := Inside(env1.(funcs := env1.funcs + [inner]));
    OneStatement(call, env2, tu);
    OneStatement(local, env1, tu);
    EmptyClause(env.(insideCatch := true), tu);
    PlainCall(env2, tu);
    assert Reversed(env2.tries) == [ScopeOf(s, env)];
  }

  lemma ExampleHandling(sub: Subtype, inner: Func)
    ensures Calls(LocalInTry(inner)) == 1 && Runs(sub, "", LocalInTry(inner), 0) == {LeftFrame}
  {
    var call := Call("f", "f", "s", Nil);
    var s := LocalInTry(inner);
    assert AllCalls(Cons(call, Nil)) == 1 && AllCalls(s.body) == 1 && ClauseCalls(s.clauses) == 0;
    assert AllRuns(sub, "", Cons(call, Nil), 0) == {Propagates};
    assert Runs(sub, "", s.body.head, 0) == {LeftFrame};
    assert AllRuns(sub, "", s.body, 0) == {LeftFrame};
    assert OutOfTry({LeftFrame}, AtClauses(sub, "", "t", s.clauses)) == {LeftFrame};
  }

  lemma ExampleSelect(sub: Subtype, inner: Func, env: Env)
    ensures Select(sub, "", [ScopeOf(LocalInTry(inner), env)]).Caught?
  {
    var h := Handler("", true, false, "c", "");
    assert HandlersOf(LocalInTry(inner).clauses) == [h];
    assert FirstMatch(sub, "", [h]) == Some(h);
  }

  /** The other case is real: a call in a member function of a class declared
      inside a try block is recorded under that try, which never sees it. */
  lemma LocalFunctionExample(sub: Subtype, func: Func, inner: Func, tu: string)
    ensures var body := Cons(LocalInTry(inner), Nil);
            && AllCalls(body) == 1 && |AllContexts(body, InFunction(func), tu)| == 1
            && Handling(sub, "", body, 0) == {Escapes}
            && Select(sub, "", AllContexts(body, InFunction(func), tu)[0].scopes).Caught?
  {
    hide Contexts, Runs, Calls, LocalInTry, Select, ScopeOf;
    OneStatement(LocalInTry(inner), InFunction(func), tu);
    ExampleContext(func, inner, tu);
    ExampleHandling(sub, inner);
    assert AllRuns(sub, "", Cons(LocalInTry(inner), Nil), 0) == {LeftFrame};
    ExampleSelect(sub, inner, InFunction(func));
  }
}
