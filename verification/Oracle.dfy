/** What happens to an exception thrown by a function on the way to its entry
    points: the outcome on one path, and the verdict over all of them. */
module Oracle {
  import opened GraphTypes
  import opened Interner
  import opened FlowTypes
  import opened PathSpec
  import opened PathSearch
  import opened CallerPaths

  datatype Outcome = OCaught | OUncaught | OTerminates | OUnknown

  datatype Protection = AlwaysCaught | SometimesCaught | NeverCaught | NoexceptBarrier | Undecided | ObservedCaught | ObservedUncaught

  /** What the control-flow index answers for the analysis. */
  datatype FlowView = FlowView(contexts: map<Triple, CallContext>, specs: map<Id, NoexceptSpec>, sub: Subtype) {
    predicate NoThrow(f: Id) {
      f in specs && (specs[f].Noexcept? || specs[f].ThrowNone?)
    }
  }

  // ---- One hop: either it stops the exception, or its caller passes it on.

  datatype Effect = Passes | Stops(outcome: Outcome)

  function EffectAt(v: FlowView, thrown: string, hop: EdgeRef): Effect {
    if hop.exec.ThreadSpawn? then Stops(OTerminates)
    else if hop.exec.AsyncTask? || hop.exec.PackagedTask? then Stops(OUnknown)
    else if hop.Key() !in v.contexts then Stops(OUnknown)
    else
      var ctx := v.contexts[hop.Key()];
      if Select(v.sub, thrown, ctx.scopes).Caught? then Stops(OCaught)
      else if ctx.callerNoexcept.Noexcept? || ctx.callerNoexcept.ThrowNone? then Stops(OTerminates)
      else if ctx.callerNoexcept.Unevaluated? then Stops(OUnknown)
      else Passes
  }

  /** Everything from hop `i` inward to the target passes the exception on. */
  ghost predicate PassedFrom(v: FlowView, thrown: string, hops: seq<EdgeRef>, i: nat) {
    forall j :: i <= j < |hops| ==> EffectAt(v, thrown, hops[j]).Passes?
  }

  /** Hop `i` is the first, from the target outward, that stops it. */
  ghost predicate StopsAt(v: FlowView, thrown: string, hops: seq<EdgeRef>, i: nat, o: Outcome) {
    i < |hops| && EffectAt(v, thrown, hops[i]) == Stops(o) && PassedFrom(v, thrown, hops, i + 1)
  }

  /** How an exception thrown by the last callee ends on a path. */
  ghost predicate EndsAs(v: FlowView, thrown: string, hops: seq<EdgeRef>, o: Outcome)
    requires hops != []
  {
    if v.NoThrow(hops[|hops| - 1].callee) then o == OTerminates
    else if PassedFrom(v, thrown, hops, 0) then o == OUncaught
    else exists i: nat :: StopsAt(v, thrown, hops, i, o)
  }

  /** A path has one outcome. */
  lemma EndsOnce(v: FlowView, thrown: string, hops: seq<EdgeRef>, a: Outcome, b: Outcome)
    requires hops != [] && EndsAs(v, thrown, hops, a) && EndsAs(v, thrown, hops, b)
    ensures a == b
  {
    hide EffectAt;
    if !v.NoThrow(hops[|hops| - 1].callee) && !PassedFrom(v, thrown, hops, 0) {
      var i: nat :| StopsAt(v, thrown, hops, i, a);
      var j: nat :| StopsAt(v, thrown, hops, j, b);
      StopPlace(v, thrown, hops, i, a, j, b);
    }
  }

  lemma StopPlace(v: FlowView, thrown: string, hops: seq<EdgeRef>, i: nat, a: Outcome, j: nat, b: Outcome)
    requires StopsAt(v, thrown, hops, i, a) && StopsAt(v, thrown, hops, j, b)
    ensures i == j && a == b
  {
    hide EffectAt;
  }

  /** Starting the path further out only matters if the exception got out. */
  lemma OuterHop(v: FlowView, thrown: string, hop: EdgeRef, hops: seq<EdgeRef>, o: Outcome)
    requires hops != [] && EndsAs(v, thrown, hops, o)
    ensures o != OUncaught ==> EndsAs(v, thrown, [hop] + hops, o)
    ensures o == OUncaught ==>
              EndsAs(v, thrown, [hop] + hops, if EffectAt(v, thrown, hop).Passes? then OUncaught else EffectAt(v, thrown, hop).outcome)
  {
    hide EffectAt;
    var longer := [hop] + hops;
    assert longer[|longer| - 1] == hops[|hops| - 1];
    forall i: nat ensures PassedFrom(v, thrown, longer, i + 1) <==> PassedFrom(v, thrown, hops, i) {
      PassedOuter(v, thrown, hop, hops, i);
    }
    if !v.NoThrow(hops[|hops| - 1].callee) {
      if PassedFrom(v, thrown, hops, 0) {
        assert PassedFrom(v, thrown, longer, 0 + 1);
        assert EffectAt(v, thrown, longer[0]).Stops? ==> StopsAt(v, thrown, longer, 0, EffectAt(v, thrown, hop).outcome);
      } else {
        var i: nat :| StopsAt(v, thrown, hops, i, o);
        assert longer[i + 1] == hops[i] && EffectAt(v, thrown, longer[i + 1]).Stops?;
        assert PassedFrom(v, thrown, longer, i + 1 + 1);
        assert StopsAt(v, thrown, longer, i + 1, o);
        NotAllPass(v, thrown, hops, o);
      }
    }
  }

  lemma NotAllPass(v: FlowView, thrown: string, hops: seq<EdgeRef>, o: Outcome)
    requires hops != [] && EndsAs(v, thrown, hops, o) && !v.NoThrow(hops[|hops| - 1].callee) && !PassedFrom(v, thrown, hops, 0)
    ensures o != OUncaught
  {
    var i: nat :| StopsAt(v, thrown, hops, i, o);
    assert EffectAt(v, thrown, hops[i]) == Stops(o);
  }

  lemma PassedOuter(v: FlowView, thrown: string, hop: EdgeRef, hops: seq<EdgeRef>, i: nat)
    ensures PassedFrom(v, thrown, [hop] + hops, i + 1) <==> PassedFrom(v, thrown, hops, i)
  {
    hide EffectAt;
    var longer := [hop] + hops;
    assert forall j :: 0 <= j < |hops| ==> longer[j + 1] == hops[j];
    if PassedFrom(v, thrown, longer, i + 1) {
      forall j | i <= j < |hops| ensures EffectAt(v, thrown, hops[j]).Passes? {
        assert EffectAt(v, thrown, longer[j + 1]).Passes?;
      }
    }
    if PassedFrom(v, thrown, hops, i) {
      forall j | i + 1 <= j < |longer| ensures EffectAt(v, thrown, longer[j]).Passes? {
        assert longer[j] == hops[j - 1];
      }
    }
  }

  // ---- The propagation loop.

  datatype PathInfo = PathInfo(hops: seq<EdgeRef>, outcome: Outcome, caught: Catching, rethrownAt: seq<string>)

  ghost predicate CaughtAt(v: FlowView, thrown: string, hop: EdgeRef, c: Catching) {
    hop.Key() in v.contexts && c == Select(v.sub, thrown, v.contexts[hop.Key()].scopes)
  }

  /** The marked handlers of a hop that see the exception and pass it on; the
      scopes of a hop into another thread or task, or without a context, see
      nothing. */
  function MarkedAt(v: FlowView, thrown: string, hop: EdgeRef): seq<string> {
    if hop.exec.ThreadSpawn? || hop.exec.AsyncTask? || hop.exec.PackagedTask? || hop.Key() !in v.contexts then []
    else RethrownIn(v.sub, thrown, v.contexts[hop.Key()].scopes)
  }

  /** Those of the hops from the target outward to hop `i`. */
  ghost function MarkedFrom(v: FlowView, thrown: string, hops: seq<EdgeRef>, i: nat): seq<string>
    requires i <= |hops|
    decreases |hops| - i
  {
    if i == |hops| then [] else MarkedFrom(v, thrown, hops, i + 1) + MarkedAt(v, thrown, hops[i])
  }

  /** The handlers that passed the exception on before it ended. */
  ghost predicate Rethrown(v: FlowView, thrown: string, hops: seq<EdgeRef>, at: seq<string>)
    requires hops != []
  {
    if v.NoThrow(hops[|hops| - 1].callee) then at == []
    else if PassedFrom(v, thrown, hops, 0) then at == MarkedFrom(v, thrown, hops, 0)
    else exists i: nat, o :: StopsAt(v, thrown, hops, i, o) && at == MarkedFrom(v, thrown, hops, i)
  }

  /** Walk from the target outward. */
  method Propagate(v: FlowView, thrown: string, hops: seq<EdgeRef>) returns (r: PathInfo)
    requires hops != []
    ensures r.hops == hops && EndsAs(v, thrown, hops, r.outcome)
    // A caught exception names the scope and handler the language picks there.
    ensures r.caught.Caught? <==> r.outcome == OCaught
    ensures r.outcome == OCaught ==> exists i: nat :: StopsAt(v, thrown, hops, i, OCaught) && CaughtAt(v, thrown, hops[i], r.caught)
    ensures Rethrown(v, thrown, hops, r.rethrownAt)
  {
    hide Select, FirstMatch, RethrownIn;
    var rethrownAt := [];
    if v.NoThrow(hops[|hops| - 1].callee) {
      return PathInfo(hops, OTerminates, Escapes, rethrownAt);
    }
    var i := |hops|;
    while i > 0
      invariant 0 <= i <= |hops| && PassedFrom(v, thrown, hops, i) && rethrownAt == MarkedFrom(v, thrown, hops, i)
    {
      i := i - 1;
      var hop := hops[i];
      assert MarkedFrom(v, thrown, hops, i) == rethrownAt + MarkedAt(v, thrown, hop);
      if hop.exec.ThreadSpawn? {
        StoppedHere(v, thrown, hops, i, OTerminates);
        return PathInfo(hops, OTerminates, Escapes, rethrownAt);
      }
      if hop.exec.AsyncTask? || hop.exec.PackagedTask? || hop.Key() !in v.contexts {
        StoppedHere(v, thrown, hops, i, OUnknown);
        return PathInfo(hops, OUnknown, Escapes, rethrownAt);
      }
      var ctx := v.contexts[hop.Key()];
      var caught, more := UnwindScopes(v.sub, thrown, ctx.scopes);
      rethrownAt := rethrownAt + more;
      if caught.Caught? {
        StoppedHere(v, thrown, hops, i, OCaught);
        return PathInfo(hops, OCaught, caught, rethrownAt);
      }
      if ctx.callerNoexcept.Noexcept? || ctx.callerNoexcept.ThrowNone? {
        StoppedHere(v, thrown, hops, i, OTerminates);
        return PathInfo(hops, OTerminates, Escapes, rethrownAt);
      }
      if ctx.callerNoexcept.Unevaluated? {
        StoppedHere(v, thrown, hops, i, OUnknown);
        return PathInfo(hops, OUnknown, Escapes, rethrownAt);
      }
    }
    r := PathInfo(hops, OUncaught, Escapes, rethrownAt);
  }

  lemma StoppedHere(v: FlowView, thrown: string, hops: seq<EdgeRef>, i: nat, o: Outcome)
    requires i < |hops| && !v.NoThrow(hops[|hops| - 1].callee)
    requires PassedFrom(v, thrown, hops, i + 1) && EffectAt(v, thrown, hops[i]) == Stops(o)
    ensures StopsAt(v, thrown, hops, i, o) && EndsAs(v, thrown, hops, o)
  {
    hide EffectAt;
  }

  // ---- The verdict.

  datatype ProtectionResult = ProtectionResult(
    paths: seq<PathInfo>, search: SearchResult, indexComplete: bool, verdictExhaustive: bool, protection: Protection)

  /** Every call path of any length from a start to a target ends as one of `os`. */
  ghost predicate EveryPath(p: Problem, v: FlowView, thrown: string, targets: seq<Id>, os: set<Outcome>) {
    forall t, depth, hops :: t in targets && IsCallPath(p, depth, t, hops) ==>
      exists o :: o in os && EndsAs(v, thrown, hops, o)
  }

  ghost predicate SomePath(p: Problem, v: FlowView, thrown: string, targets: seq<Id>, os: set<Outcome>) {
    exists t, depth, hops, o :: t in targets && IsCallPath(p, depth, t, hops) && o in os && EndsAs(v, thrown, hops, o)
  }

  /** No target that is also a start hides a later target, at any depth. */
  ghost predicate Unshadowed(p: Problem, targets: seq<Id>) {
    forall depth :: depth >= p.limits.maxDepth ==> !Shadowed(p, false, depth, targets)
  }

  /** What is said about one path: its outcome, the catch and the rethrows. */
  ghost predicate Told(v: FlowView, thrown: string, hops: seq<EdgeRef>, info: PathInfo) {
    && info.hops == hops && hops != [] && EndsAs(v, thrown, hops, info.outcome) && Rethrown(v, thrown, hops, info.rethrownAt)
    && (info.caught.Caught? <==> info.outcome == OCaught)
    && (info.outcome == OCaught ==> exists i: nat :: StopsAt(v, thrown, hops, i, OCaught) && CaughtAt(v, thrown, hops[i], info.caught))
  }

  /** The listed infos carry one outcome each, which is that of their path. */
  ghost predicate Annotated(v: FlowView, thrown: string, paths: seq<seq<EdgeRef>>, infos: seq<PathInfo>) {
    |infos| == |paths| && forall i :: 0 <= i < |infos| ==> Told(v, thrown, paths[i], infos[i])
  }

  function OutcomeCount(infos: seq<PathInfo>, o: Outcome): nat {
    if infos == [] then 0
    else OutcomeCount(infos[..|infos| - 1], o) + if infos[|infos| - 1].outcome == o then 1 else 0
  }

  lemma OutcomeCountSnoc(infos: seq<PathInfo>, x: PathInfo, o: Outcome)
    ensures OutcomeCount(infos + [x], o) == OutcomeCount(infos, o) + if x.outcome == o then 1 else 0
  {
    assert (infos + [x])[..|infos|] == infos;
  }

  lemma {:induction false} OutcomePresent(infos: seq<PathInfo>, o: Outcome)
    ensures OutcomeCount(infos, o) > 0 <==> exists i :: 0 <= i < |infos| && infos[i].outcome == o
    decreases |infos|
  {
    if infos != [] {
      OutcomePresent(infos[..|infos| - 1], o);
    }
  }

  /** Some listed path ends like `o`. */
  ghost predicate Listed(r: ProtectionResult, o: Outcome) {
    exists i :: 0 <= i < |r.paths| && r.paths[i].outcome == o
  }

  /** What each verdict says about the listed paths. */
  ghost predicate VerdictMeans(r: ProtectionResult) {
    var caught, uncaught, terminates, all := Listed(r, OCaught), Listed(r, OUncaught), Listed(r, OTerminates), r.verdictExhaustive;
    && (r.protection == SometimesCaught <==> caught && (uncaught || terminates))
    && (r.protection == AlwaysCaught <==> caught && !uncaught && !terminates && all)
    && (r.protection == ObservedCaught <==> caught && !uncaught && !terminates && !all)
    && (r.protection == NeverCaught <==> !caught && uncaught && all)
    && (r.protection == ObservedUncaught <==> !caught && uncaught && !all)
    && (r.protection == NoexceptBarrier <==> !caught && !uncaught && terminates && all)
    && (r.protection == Undecided <==> !caught && !uncaught && (!terminates || !all))
  }

  lemma VerdictIs(r: ProtectionResult, caught: nat, uncaught: nat, terminates: nat, unknown: nat)
    requires Counted(r.paths, caught, uncaught, terminates, unknown)
    requires r.protection == if r.paths == [] then Undecided else Verdict(r.verdictExhaustive, caught, uncaught, terminates)
    ensures VerdictMeans(r) && (unknown > 0 <==> Listed(r, OUnknown))
  {
    hide OutcomeCount;
    OutcomePresent(r.paths, OCaught);
    OutcomePresent(r.paths, OUncaught);
    OutcomePresent(r.paths, OTerminates);
    OutcomePresent(r.paths, OUnknown);
  }

  function Verdict(exhaustive: bool, caught: nat, uncaught: nat, terminates: nat): Protection {
    if caught > 0 && (uncaught > 0 || terminates > 0) then SometimesCaught
    else if uncaught > 0 then if exhaustive then NeverCaught else ObservedUncaught
    else if caught > 0 then if exhaustive then AlwaysCaught else ObservedCaught
    else if terminates > 0 then if exhaustive then NoexceptBarrier else Undecided
    else Undecided
  }

  method QueryExceptionProtection(p0: Problem, targets: seq<Id>, v: FlowView, thrown: string, indexComplete: bool)
    returns (r: ProtectionResult)
    requires p0.graph.WellFormed() && p0.AdmitsByTriple() && NoDuplicates(targets)
    ensures IsAnswer(p0, targets, r.search) && r.indexComplete == indexComplete
    ensures Annotated(v, thrown, r.search.paths, r.paths)
    ensures VerdictMeans(r) && (r.verdictExhaustive <==> r.search.Exhaustive() && indexComplete && !Listed(r, OUnknown))
    // The universal verdicts speak about every call path, listed or not.
    ensures Unshadowed(Bounded(p0), targets) ==>
              && (r.protection == AlwaysCaught ==> EveryPath(Bounded(p0), v, thrown, targets, {OCaught}))
              && (r.protection == NeverCaught ==> EveryPath(Bounded(p0), v, thrown, targets, {OUncaught, OTerminates}))
              && (r.protection == NoexceptBarrier ==> EveryPath(Bounded(p0), v, thrown, targets, {OTerminates}))
    // Each verdict has its witnesses.
    ensures r.protection == AlwaysCaught || r.protection == ObservedCaught ==>
              SomePath(Bounded(p0), v, thrown, targets, {OCaught})
    ensures r.protection == NeverCaught || r.protection == ObservedUncaught ==>
              SomePath(Bounded(p0), v, thrown, targets, {OUncaught})
    ensures r.protection == NoexceptBarrier ==> SomePath(Bounded(p0), v, thrown, targets, {OTerminates})
    ensures r.protection == SometimesCaught ==>
              SomePath(Bounded(p0), v, thrown, targets, {OCaught}) && SomePath(Bounded(p0), v, thrown, targets, {OUncaught, OTerminates})
    // And nothing universal is held back.
    ensures r.search.Exhaustive() && indexComplete && r.paths != [] ==>
              && (EveryPath(Bounded(p0), v, thrown, targets, {OCaught}) ==> r.protection == AlwaysCaught)
              && (EveryPath(Bounded(p0), v, thrown, targets, {OTerminates}) ==> r.protection == NoexceptBarrier)
              && (EveryPath(Bounded(p0), v, thrown, targets, {OUncaught}) ==> r.protection == NeverCaught)
  {
    hide EndsAs, IsCallPath, AllCallPaths, Shadowed, QueryGraph.WellFormed, LongWalk, Everything, EveryPath, SomePath, Problem.AdmitsByTriple, NoDuplicates, Annotated;
    var found := FindCallerPaths(p0, targets);
    var infos, caught, uncaught, terminates, unknown := Annotate(p0, targets, v, thrown, found.paths);
    var exhaustive := found.Exhaustive() && unknown == 0 && indexComplete;
    var protection := if infos == [] then Undecided else Verdict(exhaustive, caught, uncaught, terminates);
    r := ProtectionResult(infos, found, indexComplete, exhaustive, protection);
    VerdictIs(r, caught, uncaught, terminates, unknown);
    ghost var p := Bounded(p0);
    ListedWitness(p, targets, v, thrown, found.paths, infos, caught, uncaught, terminates, unknown);
    if exhaustive && Unshadowed(p, targets) {
      forall depth | depth >= p.limits.maxDepth ensures AllCallPaths(p, depth, targets, found.paths) {
        assert !Shadowed(p, false, depth, targets);
      }
      ListedEvery(p, targets, v, thrown, found.paths, infos, caught, uncaught, terminates);
    }
    if found.Exhaustive() && indexComplete && infos != [] {
      EveryListed(p, targets, v, thrown, found.paths, infos, caught, uncaught, terminates, unknown);
    }
  }

  ghost predicate Counted(infos: seq<PathInfo>, caught: nat, uncaught: nat, terminates: nat, unknown: nat) {
    && caught == OutcomeCount(infos, OCaught) && uncaught == OutcomeCount(infos, OUncaught)
    && terminates == OutcomeCount(infos, OTerminates) && unknown == OutcomeCount(infos, OUnknown)
  }

  method Annotate(ghost p: Problem, ghost targets: seq<Id>, v: FlowView, thrown: string, paths: seq<seq<EdgeRef>>)
    returns (infos: seq<PathInfo>, caught: nat, uncaught: nat, terminates: nat, unknown: nat)
    requires forall i :: 0 <= i < |paths| ==> IsPathToOneOf(Bounded(p), targets, paths[i])
    ensures Annotated(v, thrown, paths, infos)
    ensures Counted(infos, caught, uncaught, terminates, unknown)
  {
    hide EndsAs, OutcomeCount, Rethrown, StopsAt, CaughtAt;
    infos, caught, uncaught, terminates, unknown := [], 0, 0, 0, 0;
    NothingCounted();
    for k := 0 to |paths|
      invariant |infos| == k
      invariant forall i :: 0 <= i < k ==> Told(v, thrown, paths[i], infos[i])
      invariant Counted(infos, caught, uncaught, terminates, unknown)
    {
      PathNotEmpty(Bounded(p), targets, paths[k]);
      var info := Propagate(v, thrown, paths[k]);
      match info.outcome {
        case OCaught => caught := caught + 1;
        case OUncaught => uncaught := uncaught + 1;
        case OTerminates => terminates := terminates + 1;
        case OUnknown => unknown := unknown + 1;
      }
      forall o ensures OutcomeCount(infos + [info], o) == OutcomeCount(infos, o) + if info.outcome == o then 1 else 0 {
        OutcomeCountSnoc(infos, info, o);
      }
      infos := infos + [info];
    }
  }

  lemma NothingCounted()
    ensures Counted([], 0, 0, 0, 0)
  {
  }

  lemma PathNotEmpty(p: Problem, targets: seq<Id>, hops: seq<EdgeRef>)
    requires IsPathToOneOf(p, targets, hops)
    ensures hops != []
  {
  }

  /** A counted outcome is the outcome of some call path. */
  lemma ListedWitness(p: Problem, targets: seq<Id>, v: FlowView, thrown: string, paths: seq<seq<EdgeRef>>, infos: seq<PathInfo>,
                      caught: nat, uncaught: nat, terminates: nat, unknown: nat)
    requires Annotated(v, thrown, paths, infos) && Counted(infos, caught, uncaught, terminates, unknown)
    requires forall i :: 0 <= i < |paths| ==> IsPathToOneOf(p, targets, paths[i])
    ensures caught > 0 ==> SomePath(p, v, thrown, targets, {OCaught})
    ensures uncaught > 0 ==> SomePath(p, v, thrown, targets, {OUncaught})
    ensures terminates > 0 ==> SomePath(p, v, thrown, targets, {OTerminates})
    ensures uncaught > 0 || terminates > 0 ==> SomePath(p, v, thrown, targets, {OUncaught, OTerminates})
  {
    hide EndsAs, OutcomeCount, SomePath;
    forall o | OutcomeCount(infos, o) > 0 ensures SomePath(p, v, thrown, targets, {o}) && SomePath(p, v, thrown, targets, {o, OTerminates}) && SomePath(p, v, thrown, targets, {OUncaught, o}) {
      OutcomePresent(infos, o);
      var i :| 0 <= i < |infos| && infos[i].outcome == o;
      WitnessPath(p, targets, v, thrown, paths[i], o, {o});
      WitnessPath(p, targets, v, thrown, paths[i], o, {o, OTerminates});
      WitnessPath(p, targets, v, thrown, paths[i], o, {OUncaught, o});
    }
  }

  lemma WitnessPath(p: Problem, targets: seq<Id>, v: FlowView, thrown: string, hops: seq<EdgeRef>, o: Outcome, os: set<Outcome>)
    requires IsPathToOneOf(p, targets, hops) && hops != [] && EndsAs(v, thrown, hops, o) && o in os
    ensures SomePath(p, v, thrown, targets, os)
  {
    hide EndsAs, IsCallPath;
    var t :| t in targets && IsCallPath(p, p.limits.maxDepth, t, hops);
  }

  /** What holds of every listed path holds of every path. */
  lemma ListedEvery(p: Problem, targets: seq<Id>, v: FlowView, thrown: string, paths: seq<seq<EdgeRef>>, infos: seq<PathInfo>,
                    caught: nat, uncaught: nat, terminates: nat)
    requires Annotated(v, thrown, paths, infos) && Counted(infos, caught, uncaught, terminates, 0)
    requires forall depth :: depth >= p.limits.maxDepth ==> AllCallPaths(p, depth, targets, paths)
    ensures uncaught == 0 && terminates == 0 ==> EveryPath(p, v, thrown, targets, {OCaught})
    ensures caught == 0 ==> EveryPath(p, v, thrown, targets, {OUncaught, OTerminates})
    ensures caught == 0 && uncaught == 0 ==> EveryPath(p, v, thrown, targets, {OTerminates})
  {
    hide EndsAs, OutcomeCount, EveryPath, IsCallPath;
    forall i, o | 0 <= i < |infos| && OutcomeCount(infos, o) == 0 ensures infos[i].outcome != o {
      OutcomePresent(infos, o);
    }
    assert forall i :: 0 <= i < |infos| ==> infos[i].outcome.OCaught? || infos[i].outcome.OUncaught? || infos[i].outcome.OTerminates? || infos[i].outcome.OUnknown?;
    if uncaught == 0 && terminates == 0 {
      EveryFromListed(p, targets, v, thrown, paths, infos, {OCaught});
    }
    if caught == 0 {
      EveryFromListed(p, targets, v, thrown, paths, infos, {OUncaught, OTerminates});
    }
    if caught == 0 && uncaught == 0 {
      EveryFromListed(p, targets, v, thrown, paths, infos, {OTerminates});
    }
  }

  lemma EveryFromListed(p: Problem, targets: seq<Id>, v: FlowView, thrown: string, paths: seq<seq<EdgeRef>>, infos: seq<PathInfo>, os: set<Outcome>)
    requires Annotated(v, thrown, paths, infos) && forall i :: 0 <= i < |infos| ==> infos[i].outcome in os
    requires forall depth :: depth >= p.limits.maxDepth ==> AllCallPaths(p, depth, targets, paths)
    ensures EveryPath(p, v, thrown, targets, os)
  {
    hide EndsAs;
    forall t, depth: nat, hops | t in targets && IsCallPath(p, depth, t, hops)
      ensures exists o :: o in os && EndsAs(v, thrown, hops, o)
    {
      var d := if depth >= p.limits.maxDepth then depth else p.limits.maxDepth;
      assert AllCallPaths(p, d, targets, paths) && IsCallPath(p, d, t, hops);
      assert hops in paths;
      var i :| 0 <= i < |paths| && paths[i] == hops;
      assert EndsAs(v, thrown, hops, infos[i].outcome);
    }
  }

  /** What holds of every path holds of every listed one. */
  lemma EveryListed(p: Problem, targets: seq<Id>, v: FlowView, thrown: string, paths: seq<seq<EdgeRef>>, infos: seq<PathInfo>,
                    caught: nat, uncaught: nat, terminates: nat, unknown: nat)
    requires Annotated(v, thrown, paths, infos) && Counted(infos, caught, uncaught, terminates, unknown) && infos != []
    requires forall i :: 0 <= i < |paths| ==> IsPathToOneOf(p, targets, paths[i])
    ensures EveryPath(p, v, thrown, targets, {OCaught}) ==> caught > 0 && uncaught == 0 && terminates == 0 && unknown == 0
    ensures EveryPath(p, v, thrown, targets, {OTerminates}) ==> caught == 0 && uncaught == 0 && terminates > 0 && unknown == 0
    ensures EveryPath(p, v, thrown, targets, {OUncaught}) ==> caught == 0 && uncaught > 0 && terminates == 0 && unknown == 0
  {
    hide EndsAs, OutcomeCount, EveryPath, IsCallPath;
    forall o | EveryPath(p, v, thrown, targets, {o})
      ensures OutcomeCount(infos, o) > 0 && forall x :: x != o ==> OutcomeCount(infos, x) == 0
    {
      AllListedAs(p, targets, v, thrown, paths, infos, o);
      OutcomePresent(infos, o);
      forall x | x != o ensures OutcomeCount(infos, x) == 0 {
        OutcomePresent(infos, x);
      }
      assert infos[0].outcome == o;
    }
  }

  lemma AllListedAs(p: Problem, targets: seq<Id>, v: FlowView, thrown: string, paths: seq<seq<EdgeRef>>, infos: seq<PathInfo>, o: Outcome)
    requires Annotated(v, thrown, paths, infos) && EveryPath(p, v, thrown, targets, {o})
    requires forall i :: 0 <= i < |paths| ==> IsPathToOneOf(p, targets, paths[i])
    ensures forall i :: 0 <= i < |infos| ==> infos[i].outcome == o
  {
    hide EndsAs, IsCallPath;
    forall i | 0 <= i < |infos| ensures infos[i].outcome == o {
      var t :| t in targets && IsCallPath(p, p.limits.maxDepth, t, paths[i]);
      var x :| x in {o} && EndsAs(v, thrown, paths[i], x);
      EndsOnce(v, thrown, paths[i], x, infos[i].outcome);
    }
  }
}
