/** Exceptions across functions: every way a throw can end on a path of calls, by
    running the functions on the path, and what the oracle's outcome of the path
    says about it. */
module ThrowRuns {
  import opened GraphTypes
  import opened Interner
  import opened FlowTypes
  import opened ContextVisitor
  import opened Unwinding
  import opened HandlerRuns
  import opened LexicalContext
  import Orc = Oracle
  import PS = PathSpec
  import CP = CallerPaths

  datatype Function = Function(func: Func, body: Stmts)

  /** The functions of a program, and which call of its caller each hop is. */
  datatype Code = Code(functions: map<Id, Function>, calls: map<Triple, nat>, tu: string, sub: Subtype)

  ghost predicate InCode(code: Code, t: Triple) {
    && t in code.calls && t.caller in code.functions
    && code.calls[t] < AllCalls(code.functions[t.caller].body) && AllNoLocals(code.functions[t.caller].body)
  }

  /** The frame that makes the call: the function, or a lambda in it. */
  ghost function FrameFunction(code: Code, t: Triple): Func
    requires InCode(code, t)
  {
    var f := code.functions[t.caller];
    Innermost(f.func, AllTrail(f.body, code.calls[t]))
  }

  predicate Forbids(spec: NoexceptSpec) {
    spec.Noexcept? || spec.ThrowNone?
  }

  // ---- Running.

  /** Every way an exception can end that leaves the callee of hop `n - 1`, with
      the hops before `n` outside of it. */
  ghost function Ends(code: Code, indexed: set<Triple>, thrown: string, hops: seq<EdgeRef>, n: nat): set<Orc.Outcome>
    requires n <= |hops| && forall t :: t in indexed ==> InCode(code, t)
    decreases n, 1
  {
    if n == 0 then {Orc.OUncaught}
    else
      var hop := hops[n - 1];
      if hop.exec.ThreadSpawn? then {Orc.OTerminates}
      else if hop.exec.AsyncTask? || hop.exec.PackagedTask? || hop.Key() !in indexed then {Orc.OUnknown}
      else
        var t := hop.Key();
        assert InCode(code, t);
        var runs := Handling(code.sub, thrown, code.functions[t.caller].body, code.calls[t]);
        (if exists r :: r in runs && r.Caught? then {Orc.OCaught} else {}) + if Escapes in runs then Outside(code, indexed, thrown, hops, n) else {}
  }

  /** The exception has left the frame of hop `n - 1`. */
  ghost function Outside(code: Code, indexed: set<Triple>, thrown: string, hops: seq<EdgeRef>, n: nat): set<Orc.Outcome>
    requires 0 < n <= |hops| && (forall t :: t in indexed ==> InCode(code, t)) && hops[n - 1].Key() in indexed
    decreases n, 0
  {
    var spec := FrameFunction(code, hops[n - 1].Key()).spec;
    if Forbids(spec) then {Orc.OTerminates}
    else if spec.Unevaluated? then {Orc.OUnknown}
    else Ends(code, indexed, thrown, hops, n - 1)
  }

  /** Every way a throw of the last callee can end on a path. */
  ghost function PathEnds(code: Code, indexed: set<Triple>, thrown: string, hops: seq<EdgeRef>): set<Orc.Outcome>
    requires hops != [] && forall t :: t in indexed ==> InCode(code, t)
  {
    var target := hops[|hops| - 1].callee;
    if target in code.functions && Forbids(code.functions[target].func.spec) then {Orc.OTerminates}
    else Ends(code, indexed, thrown, hops, |hops|)
  }

  // ---- The index of the program.

  /** What the visitor records for the calls, and the specifications of the functions. */
  ghost predicate Indexes(v: Orc.FlowView, code: Code) {
    && v.sub == code.sub && (forall t :: t in v.contexts ==> InCode(code, t))
    && (forall t :: t in v.contexts ==>
          var f := code.functions[t.caller];
          v.contexts[t] == ContextAt(f.func, AllTrail(f.body, code.calls[t]), AllCallAt(f.body, code.calls[t]), code.tu))
    && (forall f :: v.NoThrow(f) <==> f in code.functions && Forbids(code.functions[f].func.spec))
  }

  /** The oracle's scope loop at one hop, against every run of the caller. */
  lemma HopRuns(v: Orc.FlowView, code: Code, thrown: string, t: Triple)
    requires Indexes(v, code) && t in v.contexts
    ensures InCode(code, t)
    ensures var loop, runs := Select(v.sub, thrown, v.contexts[t].scopes), Handling(code.sub, thrown, code.functions[t.caller].body, code.calls[t]);
            && runs != {} && (loop.Caught? ==> Escapes !in runs)
            && v.contexts[t].callerNoexcept == FrameFunction(code, t).spec
            && (AllTrueMarks(code.sub, thrown, code.functions[t.caller].body, code.calls[t]) ==> runs == {loop})
  {
    hide AllContexts, AllTrail, AllCallAt, AllCalls, Handling, Select, AllTrueMarks, TriesAround, Innermost;
    var f := code.functions[t.caller];
    ContextIsLexical(f.func, f.body, code.tu, code.calls[t]);
    ScopeLoopIsUnwinding(code.sub, thrown, f.func, f.body, code.tu, code.calls[t]);
    HandlingRead(code.sub, thrown, f.body, code.calls[t]);
  }

  /** The marks of every hop from `n` inward are true. */
  ghost predicate TruePath(v: Orc.FlowView, code: Code, thrown: string, hops: seq<EdgeRef>)
    requires Indexes(v, code)
  {
    forall i :: 0 <= i < |hops| && hops[i].Key() in v.contexts ==>
      var t := hops[i].Key(); AllTrueMarks(code.sub, thrown, code.functions[t.caller].body, code.calls[t])
  }

  /** One hop: if it stops the exception, so do all runs, or they end in a marked
      handler before; if it passes it on, a run may also end in one. */
  lemma HopEnds(v: Orc.FlowView, code: Code, thrown: string, hops: seq<EdgeRef>, n: nat)
    requires Indexes(v, code) && 0 < n <= |hops|
    ensures var effect, ends := Orc.EffectAt(v, thrown, hops[n - 1]), Ends(code, v.contexts.Keys, thrown, hops, n);
            && (effect.Stops? ==> ends != {} && ends <= {effect.outcome, Orc.OCaught})
            && (effect.Passes? ==> ends <= {Orc.OCaught} + Ends(code, v.contexts.Keys, thrown, hops, n - 1))
            && (effect.Passes? && Ends(code, v.contexts.Keys, thrown, hops, n - 1) != {} ==> ends != {})
            && (TruePath(v, code, thrown, hops) ==> ends == if effect.Stops? then {effect.outcome} else Ends(code, v.contexts.Keys, thrown, hops, n - 1))
  {
    var hop := hops[n - 1];
    if hop.exec.ThreadSpawn? || hop.exec.AsyncTask? || hop.exec.PackagedTask? || hop.Key() !in v.contexts {
      assert Ends(code, v.contexts.Keys, thrown, hops, n) == {Orc.EffectAt(v, thrown, hop).outcome};
    } else {
      IndexedHop(v, code, thrown, hops, n);
    }
  }

  /** A hop whose caller runs in the same thread and is indexed. */
  ghost predicate Plain(v: Orc.FlowView, hop: EdgeRef) {
    !hop.exec.ThreadSpawn? && !hop.exec.AsyncTask? && !hop.exec.PackagedTask? && hop.Key() in v.contexts
  }

  lemma EndsOne(v: Orc.FlowView, code: Code, thrown: string, hops: seq<EdgeRef>, n: nat)
    requires Indexes(v, code) && 0 < n <= |hops| && Plain(v, hops[n - 1])
    ensures InCode(code, hops[n - 1].Key())
    ensures var t := hops[n - 1].Key();
            var runs := Handling(code.sub, thrown, code.functions[t.caller].body, code.calls[t]);
            var spec, outer := FrameFunction(code, t).spec, Ends(code, v.contexts.Keys, thrown, hops, n - 1);
            Ends(code, v.contexts.Keys, thrown, hops, n) ==
            (if exists r :: r in runs && r.Caught? then {Orc.OCaught} else {})
            + if Escapes !in runs then {} else if Forbids(spec) then {Orc.OTerminates} else if spec.Unevaluated? then {Orc.OUnknown} else outer
  {
    hide Handling, FrameFunction;
  }

  lemma IndexedHop(v: Orc.FlowView, code: Code, thrown: string, hops: seq<EdgeRef>, n: nat)
    requires Indexes(v, code) && 0 < n <= |hops| && Plain(v, hops[n - 1])
    ensures var effect, ends := Orc.EffectAt(v, thrown, hops[n - 1]), Ends(code, v.contexts.Keys, thrown, hops, n);
            && (effect.Stops? ==> ends != {} && ends <= {effect.outcome, Orc.OCaught})
            && (effect.Passes? ==> ends <= {Orc.OCaught} + Ends(code, v.contexts.Keys, thrown, hops, n - 1))
            && (effect.Passes? && Ends(code, v.contexts.Keys, thrown, hops, n - 1) != {} ==> ends != {})
            && (TruePath(v, code, thrown, hops) ==> ends == if effect.Stops? then {effect.outcome} else Ends(code, v.contexts.Keys, thrown, hops, n - 1))
  {
    hide Handling, Select, AllTrueMarks, FrameFunction, Ends;
    var t := hops[n - 1].Key();
    EndsOne(v, code, thrown, hops, n);
    HopRuns(v, code, thrown, t);
    var runs := Handling(code.sub, thrown, code.functions[t.caller].body, code.calls[t]);
    SomeRun(runs);
    if TruePath(v, code, thrown, hops) {
      assert runs == {Select(v.sub, thrown, v.contexts[t].scopes)};
    }
  }

  lemma SomeRun(runs: set<Catching>)
    requires runs != {}
    ensures Escapes in runs || exists r :: r in runs && r.Caught?
  {
    var r :| r in runs;
  }

  lemma {:induction false} EndsRead(v: Orc.FlowView, code: Code, thrown: string, hops: seq<EdgeRef>, n: nat, i: nat, o: Orc.Outcome)
    requires Indexes(v, code) && i < n <= |hops| && Orc.EffectAt(v, thrown, hops[i]) == Orc.Stops(o)
    requires forall j :: i < j < n ==> Orc.EffectAt(v, thrown, hops[j]).Passes?
    ensures var ends := Ends(code, v.contexts.Keys, thrown, hops, n);
            ends != {} && ends <= {o, Orc.OCaught} && (TruePath(v, code, thrown, hops) ==> ends == {o})
    decreases n
  {
    hide Ends, Orc.EffectAt, TruePath;
    HopEnds(v, code, thrown, hops, n);
    if i < n - 1 {
      EndsRead(v, code, thrown, hops, n - 1, i, o);
    }
  }

  lemma {:induction false} PassedOut(v: Orc.FlowView, code: Code, thrown: string, hops: seq<EdgeRef>, n: nat)
    requires Indexes(v, code) && n <= |hops| && forall j :: 0 <= j < n ==> Orc.EffectAt(v, thrown, hops[j]).Passes?
    ensures var ends := Ends(code, v.contexts.Keys, thrown, hops, n);
            ends != {} && ends <= {Orc.OUncaught, Orc.OCaught} && (TruePath(v, code, thrown, hops) ==> ends == {Orc.OUncaught})
    decreases n
  {
    hide Ends, Orc.EffectAt, TruePath;
    if n == 0 {
      NoHops(code, v.contexts.Keys, thrown, hops);
    } else {
      HopEnds(v, code, thrown, hops, n);
      PassedOut(v, code, thrown, hops, n - 1);
    }
  }

  lemma NoHops(code: Code, indexed: set<Triple>, thrown: string, hops: seq<EdgeRef>)
    requires forall t :: t in indexed ==> InCode(code, t)
    ensures Ends(code, indexed, thrown, hops, 0) == {Orc.OUncaught}
  {
  }

  /** The outcome of a path: some run ends, and every run ends like that or is
      caught; so a caught path is caught in every run.  Where the marks are true
      the outcome is what happens. */
  lemma OutcomeIsRun(v: Orc.FlowView, code: Code, thrown: string, hops: seq<EdgeRef>, o: Orc.Outcome)
    requires Indexes(v, code) && hops != [] && Orc.EndsAs(v, thrown, hops, o)
    ensures var ends := PathEnds(code, v.contexts.Keys, thrown, hops);
            && ends != {} && ends <= {o, Orc.OCaught}
            && (o == Orc.OCaught ==> ends == {Orc.OCaught})
            && (TruePath(v, code, thrown, hops) ==> ends == {o})
  {
    hide Ends, Orc.EffectAt, TruePath, AllTrueMarks;
    var target := hops[|hops| - 1].callee;
    if v.NoThrow(target) {
    } else if Orc.PassedFrom(v, thrown, hops, 0) {
      PassedOut(v, code, thrown, hops, |hops|);
    } else {
      var i: nat :| Orc.StopsAt(v, thrown, hops, i, o);
      EndsRead(v, code, thrown, hops, |hops|, i, o);
    }
    var ends := PathEnds(code, v.contexts.Keys, thrown, hops);
    if o == Orc.OCaught {
      var e :| e in ends;
      assert ends == {Orc.OCaught};
    }
  }

  /** AlwaysCaught, for the program: on every path of calls from a start, however
      long, no run lets the exception out. */
  lemma AlwaysCaughtIsSafe(v: Orc.FlowView, code: Code, thrown: string, p: PS.Problem, targets: seq<Id>, t: Id, depth: nat, hops: seq<EdgeRef>)
    requires Indexes(v, code) && Orc.EveryPath(p, v, thrown, targets, {Orc.OCaught}) && t in targets && CP.IsCallPath(p, depth, t, hops)
    ensures hops != [] && PathEnds(code, v.contexts.Keys, thrown, hops) == {Orc.OCaught}
  {
    hide PathEnds, Orc.EndsAs;
    var o :| o in {Orc.OCaught} && Orc.EndsAs(v, thrown, hops, o);
    OutcomeIsRun(v, code, thrown, hops, o);
  }
}
