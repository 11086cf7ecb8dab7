/** Publishing an index file: writers fill a temp file and rename it over the
    index, under a lock that also guards the sweep of temps left by killed
    writers.  A state machine over the single steps, with crashes anywhere. */
module Publication {
  import opened Interner

  type Writer = nat

  datatype Name = IndexFile | Temp(suffix: nat)

  /** Where a writer is.  A temp is known by its name and by the open file. */
  datatype Phase =
    | Idle
    | Holding
    | Sweeping(todo: set<Name>)
    | Ready
    | Writing(tmp: Name, file: nat)
    | Complete(tmp: Name, file: nat)
    | Finished
    | Gone

  /** Names point to files; a file lives on while a writer has it open. */
  datatype State = State(names: map<Name, nat>, files: map<nat, string>, lock: Option<Writer>, phases: map<Writer, Phase>) {
    function PhaseOf(w: Writer): Phase {
      if w in phases then phases[w] else Idle
    }

    predicate Saving(w: Writer) {
      PhaseOf(w).Writing? || PhaseOf(w).Complete?
    }

    function TempOf(w: Writer): Name
      requires Saving(w)
    {
      PhaseOf(w).tmp
    }

    function FileOf(w: Writer): nat
      requires Saving(w)
    {
      PhaseOf(w).file
    }

    function At(w: Writer, p: Phase): State {
      this.(phases := phases[w := p])
    }
  }

  datatype Step =
    | Acquire(w: Writer)
    | SkipLock(w: Writer)
    | ListTemps(w: Writer)
    | RemoveStale(w: Writer, tmp: Name)
    | EndSweep(w: Writer)
    | Create(w: Writer, tmp: Name, file: nat)
    | Write(w: Writer, upTo: nat)
    | Close(w: Writer)
    | Fail(w: Writer)
    | Rename(w: Writer)
    | Exit(w: Writer)
    | Crash(w: Writer)

  function Unlocked(s: State, w: Writer): State {
    s.(lock := if s.lock == Some(w) then None else s.lock)
  }

  /** What each step does, where it is possible.  `body` is what a writer writes. */
  ghost predicate Next(body: Writer -> string, s: State, step: Step, s': State) {
    match step
    case Acquire(w) => s.PhaseOf(w).Idle? && s.lock == None && s' == s.(lock := Some(w)).At(w, Holding)
    case SkipLock(w) => s.PhaseOf(w).Idle? && s' == s.At(w, Ready)
    case ListTemps(w) => s.PhaseOf(w).Holding? && s' == s.At(w, Sweeping(set t | t in s.names && t.Temp?))
    case RemoveStale(w, t) =>
      && s.PhaseOf(w).Sweeping? && t in s.PhaseOf(w).todo
      && s' == s.(names := s.names - {t}).At(w, Sweeping(s.PhaseOf(w).todo - {t}))
    case EndSweep(w) => s.PhaseOf(w).Sweeping? && s' == s.At(w, Ready)
    case Create(w, t, f) =>
      && s.PhaseOf(w).Ready? && t.Temp? && t !in s.names && f !in s.files
      && s' == s.(names := s.names[t := f], files := s.files[f := ""]).At(w, Writing(t, f))
    case Write(w, n) =>
      && s.PhaseOf(w).Writing? && s.FileOf(w) in s.files && |s.files[s.FileOf(w)]| <= n <= |body(w)|
      && s' == s.(files := s.files[s.FileOf(w) := body(w)[..n]])
    case Close(w) =>
      && s.PhaseOf(w).Writing? && s.FileOf(w) in s.files && s.files[s.FileOf(w)] == body(w)
      && s' == s.At(w, Complete(s.TempOf(w), s.FileOf(w)))
    case Fail(w) => s.Saving(w) && s' == s.(names := s.names - {s.TempOf(w)}).At(w, Finished)
    case Rename(w) =>
      && s.PhaseOf(w).Complete? && s.TempOf(w) in s.names
      && s' == s.(names := s.names[IndexFile := s.names[s.TempOf(w)]] - {s.TempOf(w)}).At(w, Finished)
    case Exit(w) => s.PhaseOf(w).Finished? && s' == Unlocked(s, w).At(w, Gone)
    case Crash(w) => s' == Unlocked(s, w).At(w, Gone)
  }

  /** A new temp does not take a name that a running writer still goes by. */
  ghost predicate NoClash(s: State, step: Step) {
    step.Create? ==> forall w: Writer :: s.Saving(w) ==> s.TempOf(w) != step.tmp
  }

  // ---- What always holds.

  /** The index holds the contents it had at the start, or one writer's body. */
  ghost predicate Published(body: Writer -> string, start: Option<string>, s: State) {
    if IndexFile in s.names
    then s.names[IndexFile] in s.files && (start == Some(s.files[s.names[IndexFile]]) || exists w: Writer :: s.files[s.names[IndexFile]] == body(w))
    else start == None
  }

  /** A saving writer's open file is its own, and its temp name, while it
      exists, means that file. */
  ghost predicate Owned(body: Writer -> string, s: State, w: Writer)
    requires s.Saving(w)
  {
    && s.TempOf(w).Temp? && s.FileOf(w) in s.files
    && (s.TempOf(w) in s.names ==> s.names[s.TempOf(w)] == s.FileOf(w))
    && (IndexFile in s.names ==> s.names[IndexFile] != s.FileOf(w))
    && (s.PhaseOf(w).Complete? ==> s.files[s.FileOf(w)] == body(w)) && |s.files[s.FileOf(w)]| <= |body(w)|
    && (s.lock == Some(w) ==> s.TempOf(w) in s.names)
  }

  /** Two saving writers never have the same file open. */
  ghost predicate FilesApart(s: State) {
    forall v: Writer, w: Writer :: v != w && s.Saving(v) && s.Saving(w) ==> s.FileOf(v) != s.FileOf(w)
  }

  /** Only the holder of the lock sweeps, and only temps. */
  ghost predicate LockOk(s: State) {
    && (forall w: Writer :: s.PhaseOf(w).Holding? || s.PhaseOf(w).Sweeping? ==> s.lock == Some(w))
    && (forall w: Writer :: s.PhaseOf(w).Sweeping? ==> forall t :: t in s.PhaseOf(w).todo ==> t.Temp?)
    && (s.lock.Some? ==> !s.PhaseOf(s.lock.value).Idle? && !s.PhaseOf(s.lock.value).Gone?)
  }

  ghost predicate AllOwned(body: Writer -> string, s: State) {
    && (forall n :: n in s.names ==> s.names[n] in s.files)
    && (forall w: Writer :: s.Saving(w) ==> Owned(body, s, w))
  }

  ghost predicate Inv(body: Writer -> string, start: Option<string>, s: State) {
    Published(body, start, s) && AllOwned(body, s) && FilesApart(s) && LockOk(s)
  }

  /** No writer has done anything, and the index is whatever it was. */
  ghost predicate Start(start: Option<string>, s: State) {
    && s.lock == None && s.phases == map[]
    && (forall n :: n in s.names ==> s.names[n] in s.files)
    && (if IndexFile in s.names then start == Some(s.files[s.names[IndexFile]]) else start == None)
  }

  lemma StartInv(body: Writer -> string, start: Option<string>, s: State)
    requires Start(start, s)
    ensures Inv(body, start, s)
  {
  }

  /** The lock is handled alike by every step. */
  lemma LockKept(body: Writer -> string, s: State, step: Step, s': State)
    requires LockOk(s) && Next(body, s, step, s')
    ensures LockOk(s')
  {
    forall w: Writer ensures s'.PhaseOf(w) == s.PhaseOf(w) || w == step.w {
    }
  }

  /** A writer that saves was saving before, with the same temp, or creates it now. */
  lemma SavingBefore(body: Writer -> string, s: State, step: Step, s': State, v: Writer)
    requires Next(body, s, step, s') && s'.Saving(v)
    ensures (step.Create? && step.w == v) || (s.Saving(v) && s'.TempOf(v) == s.TempOf(v) && s'.FileOf(v) == s.FileOf(v))
    ensures step.Create? && step.w == v ==> s'.TempOf(v) == step.tmp && s'.FileOf(v) == step.file
  {
  }

  lemma FilesKept(body: Writer -> string, s: State, step: Step, s': State)
    requires FilesApart(s) && AllOwned(body, s) && Next(body, s, step, s')
    ensures FilesApart(s')
  {
    forall v: Writer, w: Writer | v != w && s'.Saving(v) && s'.Saving(w) ensures s'.FileOf(v) != s'.FileOf(w) {
      SavingBefore(body, s, step, s', v);
      SavingBefore(body, s, step, s', w);
      assert s.Saving(v) ==> Owned(body, s, v);
      assert s.Saving(w) ==> Owned(body, s, w);
    }
  }

  /** No step makes a name mean something else to a running writer. */
  lemma OwnedKept(body: Writer -> string, s: State, step: Step, s': State, v: Writer)
    requires AllOwned(body, s) && FilesApart(s) && LockOk(s) && Next(body, s, step, s') && NoClash(s, step) && s'.Saving(v)
    ensures Owned(body, s', v)
  {
    SavingBefore(body, s, step, s', v);
    assert s.Saving(v) ==> Owned(body, s, v);
    if s.Saving(step.w) {
      assert Owned(body, s, step.w);
    }
  }

  lemma NamesKept(body: Writer -> string, s: State, step: Step, s': State)
    requires AllOwned(body, s) && Next(body, s, step, s')
    ensures forall n :: n in s'.names ==> s'.names[n] in s'.files
  {
    if s.Saving(step.w) {
      assert Owned(body, s, step.w);
    }
  }

  lemma PublishedKept(body: Writer -> string, start: Option<string>, s: State, step: Step, s': State)
    requires Published(body, start, s) && AllOwned(body, s) && LockOk(s) && Next(body, s, step, s')
    ensures Published(body, start, s')
  {
    if s.Saving(step.w) {
      assert Owned(body, s, step.w);
    }
  }

  lemma NextKeeps(body: Writer -> string, start: Option<string>, s: State, step: Step, s': State)
    requires Inv(body, start, s) && Next(body, s, step, s') && NoClash(s, step)
    ensures Inv(body, start, s')
  {
    hide Published, FilesApart, LockOk, Next, NoClash, Owned;
    LockKept(body, s, step, s');
    FilesKept(body, s, step, s');
    NamesKept(body, s, step, s');
    PublishedKept(body, start, s, step, s');
    forall v: Writer | s'.Saving(v) ensures Owned(body, s', v) {
      OwnedKept(body, s, step, s', v);
    }
  }

  // ---- Runs.

  /** Any interleaving of any writers' steps. */
  ghost predicate IsRun(body: Writer -> string, states: seq<State>, steps: seq<Step>) {
    |states| == |steps| + 1 && forall i :: 0 <= i < |steps| ==> StepAt(body, states, steps, i)
  }

  ghost predicate StepAt(body: Writer -> string, states: seq<State>, steps: seq<Step>, i: nat)
    requires |states| == |steps| + 1 && i < |steps|
  {
    Next(body, states[i], steps[i], states[i + 1])
  }

  ghost predicate NeverClashes(states: seq<State>, steps: seq<Step>)
    requires |states| == |steps| + 1
  {
    forall i :: 0 <= i < |steps| ==> NoClash(states[i], steps[i])
  }

  lemma {:induction false} RunInv(body: Writer -> string, start: Option<string>, states: seq<State>, steps: seq<Step>, k: nat)
    requires IsRun(body, states, steps) && Start(start, states[0]) && NeverClashes(states, steps) && k < |states|
    ensures Inv(body, start, states[k])
  {
    hide Inv, Next, NoClash;
    if k == 0 {
      StartInv(body, start, states[0]);
    } else {
      RunInv(body, start, states, steps, k - 1);
      assert StepAt(body, states, steps, k - 1);
      NextKeeps(body, start, states[k - 1], steps[k - 1], states[k]);
    }
  }

  /** Readers never see a partial index, whatever was interleaved or killed. */
  lemma AlwaysPublished(body: Writer -> string, start: Option<string>, states: seq<State>, steps: seq<Step>, k: nat)
    requires IsRun(body, states, steps) && Start(start, states[0]) && NeverClashes(states, steps) && k < |states|
    ensures Published(body, start, states[k])
  {
    RunInv(body, start, states, steps, k);
  }

  lemma {:induction false} RunLock(body: Writer -> string, start: Option<string>, states: seq<State>, steps: seq<Step>, k: nat)
    requires IsRun(body, states, steps) && Start(start, states[0]) && k < |states|
    ensures LockOk(states[k])
  {
    if k > 0 {
      hide LockOk, Next;
      RunLock(body, start, states, steps, k - 1);
      assert StepAt(body, states, steps, k - 1);
      LockKept(body, states[k - 1], steps[k - 1], states[k]);
    }
  }

  /** Whatever names are reused, a sweep goes on only while the writer that holds
      the lock is the one that sweeps, so it takes no temp of a lock holder. */
  lemma SweepSparesHolders(body: Writer -> string, start: Option<string>, states: seq<State>, steps: seq<Step>, k: nat, w: Writer)
    requires IsRun(body, states, steps) && Start(start, states[0])
    requires k < |steps| && steps[k].RemoveStale? && states[k].lock == Some(w)
    ensures steps[k].w == w && !states[k].Saving(w)
  {
    assert StepAt(body, states, steps, k);
    RunLock(body, start, states, steps, k);
  }

  /** The temp of a running lock holder is there, if names are not reused. */
  lemma HolderKeepsTemp(body: Writer -> string, start: Option<string>, states: seq<State>, steps: seq<Step>, k: nat, w: Writer)
    requires IsRun(body, states, steps) && Start(start, states[0]) && NeverClashes(states, steps)
    requires k < |states| && states[k].Saving(w) && states[k].lock == Some(w)
    ensures states[k].TempOf(w) in states[k].names && states[k].names[states[k].TempOf(w)] == states[k].FileOf(w)
  {
    RunInv(body, start, states, steps, k);
    assert Owned(body, states[k], w);
  }

  // ---- When names cannot clash.

  /** Every save is made under the lock. */
  ghost predicate SavesLocked(states: seq<State>, steps: seq<Step>)
    requires |states| == |steps| + 1
  {
    forall i :: 0 <= i < |steps| && steps[i].Create? ==> states[i].lock == Some(steps[i].w)
  }

  ghost predicate HoldersOnly(s: State) {
    forall w: Writer :: s.Saving(w) ==> s.lock == Some(w)
  }

  lemma HoldersKept(body: Writer -> string, s: State, step: Step, s': State)
    requires HoldersOnly(s) && Next(body, s, step, s') && (step.Create? ==> s.lock == Some(step.w))
    ensures HoldersOnly(s')
  {
    forall w: Writer | s'.Saving(w) ensures s'.lock == Some(w) {
      if !(step.Create? && step.w == w) {
        assert s.Saving(w);
      }
    }
  }

  lemma {:induction false} LockedNeverClash(body: Writer -> string, start: Option<string>, states: seq<State>, steps: seq<Step>, k: nat)
    requires IsRun(body, states, steps) && Start(start, states[0]) && SavesLocked(states, steps) && k < |states|
    ensures HoldersOnly(states[k])
    ensures k < |steps| ==> NoClash(states[k], steps[k])
  {
    hide NoClash;
    if k > 0 {
      hide Next;
      LockedNeverClash(body, start, states, steps, k - 1);
      assert StepAt(body, states, steps, k - 1);
      HoldersKept(body, states[k - 1], steps[k - 1], states[k]);
    }
    if k < |steps| {
      assert StepAt(body, states, steps, k);
      HolderCreates(body, states[k], steps[k], states[k + 1]);
    }
  }

  lemma HolderCreates(body: Writer -> string, s: State, step: Step, s': State)
    requires HoldersOnly(s) && Next(body, s, step, s') && (step.Create? ==> s.lock == Some(step.w))
    ensures NoClash(s, step)
  {
  }

  /** With every save under the lock, names need not be fresh. */
  lemma LockedAlwaysPublished(body: Writer -> string, start: Option<string>, states: seq<State>, steps: seq<Step>, k: nat)
    requires IsRun(body, states, steps) && Start(start, states[0]) && SavesLocked(states, steps) && k < |states|
    ensures Published(body, start, states[k])
  {
    hide Next, NoClash, Published, Start;
    forall i | 0 <= i < |steps| ensures NoClash(states[i], steps[i]) {
      LockedNeverClash(body, start, states, steps, i);
    }
    AlwaysPublished(body, start, states, steps, k);
  }

  // ---- Not reusing names is necessary.

  /** After a clash the file under the temp name is empty, and it is not the
      one writer `v` has open. */
  ghost predicate Usurped(body: Writer -> string, s: State, v: Writer) {
    && s.Saving(v) && s.TempOf(v).Temp? && s.TempOf(v) in s.names && s.names[s.TempOf(v)] in s.files
    && s.files[s.names[s.TempOf(v)]] == "" && s.FileOf(v) in s.files && s.names[s.TempOf(v)] != s.FileOf(v)
    && |s.files[s.FileOf(v)]| <= |body(v)| && (s.PhaseOf(v).Complete? ==> s.files[s.FileOf(v)] == body(v))
  }

  lemma ClashUsurps(body: Writer -> string, start: Option<string>, s: State, step: Step, s': State) returns (v: Writer)
    requires Inv(body, start, s) && Next(body, s, step, s') && !NoClash(s, step)
    ensures Usurped(body, s', v)
  {
    v :| s.Saving(v) && s.TempOf(v) == step.tmp;
    assert Owned(body, s, v);
  }

  /** What `v` still has to do before it renames. */
  ghost function Finishing(body: Writer -> string, s: State, v: Writer): seq<Step>
    requires s.Saving(v)
  {
    if s.PhaseOf(v).Complete? then [Rename(v)] else [Write(v, |body(v)|), Close(v), Rename(v)]
  }

  ghost function Renamed(s: State, v: Writer): State
    requires s.Saving(v) && s.TempOf(v) in s.names
  {
    s.(names := s.names[IndexFile := s.names[s.TempOf(v)]] - {s.TempOf(v)}).At(v, Finished)
  }

  ghost predicate BodiesPlain(body: Writer -> string, start: Option<string>) {
    start != Some("") && forall w: Writer :: body(w) != ""
  }

  lemma EmptyPublished(body: Writer -> string, start: Option<string>, s: State, v: Writer)
    requires Usurped(body, s, v) && BodiesPlain(body, start)
    ensures !Published(body, start, Renamed(s, v))
  {
  }

  lemma WrittenOut(body: Writer -> string, s: State, v: Writer) returns (w: State, c: State)
    requires Usurped(body, s, v) && s.PhaseOf(v).Writing?
    ensures Next(body, s, Write(v, |body(v)|), w) && Next(body, w, Close(v), c) && Usurped(body, c, v) && c.PhaseOf(v).Complete?
  {
    assert body(v)[..|body(v)|] == body(v);
    w := s.(files := s.files[s.FileOf(v) := body(v)]);
    c := w.At(v, Complete(s.TempOf(v), s.FileOf(v)));
  }

  /** The writer finishes and publishes the empty file. */
  lemma Usurper(body: Writer -> string, start: Option<string>, s: State, v: Writer) returns (states: seq<State>)
    requires Usurped(body, s, v) && BodiesPlain(body, start)
    ensures IsRun(body, states, Finishing(body, s, v)) && states[0] == s && !Published(body, start, states[|states| - 1])
  {
    hide Usurped, Published, BodiesPlain;
    UsurpedTemp(body, s, v);
    if s.PhaseOf(v).Complete? {
      EmptyPublished(body, start, s, v);
      states := [s, Renamed(s, v)];
    } else {
      var w, c := WrittenOut(body, s, v);
      UsurpedTemp(body, c, v);
      EmptyPublished(body, start, c, v);
      states := [s, w, c, Renamed(c, v)];
    }
    var steps := Finishing(body, s, v);
    forall i | 0 <= i < |steps| ensures StepAt(body, states, steps, i) {
    }
  }

  lemma UsurpedTemp(body: Writer -> string, s: State, v: Writer)
    requires Usurped(body, s, v)
    ensures s.Saving(v) && s.TempOf(v) in s.names
  {
  }

  ghost predicate AllPublished(body: Writer -> string, start: Option<string>, states: seq<State>) {
    forall k :: 0 <= k < |states| ==> Published(body, start, states[k])
  }

  lemma {:induction false} InvGoesOn(body: Writer -> string, start: Option<string>, states: seq<State>, steps: seq<Step>, k: nat)
    requires IsRun(body, states, steps) && Inv(body, start, states[0]) && NeverClashes(states, steps) && k < |states|
    ensures Inv(body, start, states[k])
  {
    if k > 0 {
      hide Inv, Next, NoClash;
      InvGoesOn(body, start, states, steps, k - 1);
      assert StepAt(body, states, steps, k - 1);
      NextKeeps(body, start, states[k - 1], steps[k - 1], states[k]);
    }
  }

  /** A step is safe exactly if it does not clash: what goes on from it without
      another clash then stays published, and otherwise need not. */
  lemma SafeExactlyWithoutClash(body: Writer -> string, start: Option<string>, s: State, step: Step, s': State)
    requires Inv(body, start, s) && Next(body, s, step, s') && BodiesPlain(body, start)
    ensures NoClash(s, step) <==>
            forall states, steps :: IsRun(body, states, steps) && states[0] == s' && NeverClashes(states, steps) ==> AllPublished(body, start, states)
  {
    hide Inv, Next, NoClash, Published, BodiesPlain, Usurped;
    if NoClash(s, step) {
      NextKeeps(body, start, s, step, s');
      forall states, steps | IsRun(body, states, steps) && states[0] == s' && NeverClashes(states, steps) ensures AllPublished(body, start, states) {
        forall k | 0 <= k < |states| ensures Published(body, start, states[k]) {
          InvGoesOn(body, start, states, steps, k);
          InvPublished(body, start, states[k]);
        }
      }
    } else {
      var v := ClashUsurps(body, start, s, step, s');
      UsurpedTemp(body, s', v);
      var states := Usurper(body, start, s', v);
      var steps := Finishing(body, s', v);
      NoCreates(states, steps);
      assert IsRun(body, states, steps) && states[0] == s' && !AllPublished(body, start, states);
    }
  }

  lemma InvPublished(body: Writer -> string, start: Option<string>, s: State)
    requires Inv(body, start, s)
    ensures Published(body, start, s)
  {
  }

  lemma NoCreates(states: seq<State>, steps: seq<Step>)
    requires |states| == |steps| + 1 && forall i :: 0 <= i < |steps| ==> !steps[i].Create?
    ensures NeverClashes(states, steps)
  {
  }

  // ---- Over all runs: how temp names may be chosen.

  /** A way to choose temp names: which creations may happen where.  Nothing
      else is restricted. */
  type Naming = (State, Step) -> bool

  ghost predicate RestrictsNames(naming: Naming) {
    forall s: State, step: Step :: !step.Create? ==> naming(s, step)
  }

  ghost predicate RunUnder(body: Writer -> string, start: Option<string>, naming: Naming, states: seq<State>, steps: seq<Step>) {
    IsRun(body, states, steps) && Start(start, states[0]) && forall i :: 0 <= i < |steps| ==> naming(states[i], steps[i])
  }

  ghost predicate AlwaysSafe(body: Writer -> string, start: Option<string>, naming: Naming) {
    forall states, steps :: RunUnder(body, start, naming, states, steps) ==> AllPublished(body, start, states)
  }

  ghost predicate ClashFree(body: Writer -> string, start: Option<string>, naming: Naming) {
    forall states, steps :: RunUnder(body, start, naming, states, steps) ==> NeverClashes(states, steps)
  }

  /** A run up to a step, then a run from there. */
  lemma JoinRuns(body: Writer -> string, start: Option<string>, naming: Naming, states: seq<State>, steps: seq<Step>, n: nat,
                 more: seq<State>, moreSteps: seq<Step>)
    requires RunUnder(body, start, naming, states, steps) && n <= |steps| && IsRun(body, more, moreSteps) && more[0] == states[n]
    requires RestrictsNames(naming) && forall i :: 0 <= i < |moreSteps| ==> !moreSteps[i].Create?
    ensures RunUnder(body, start, naming, states[..n] + more, steps[..n] + moreSteps)
  {
    hide Next, Start;
    var all, allSteps := states[..n] + more, steps[..n] + moreSteps;
    assert forall i :: 0 <= i <= n ==> all[i] == states[i];
    assert forall i :: n <= i < |all| ==> all[i] == more[i - n];
    forall i | 0 <= i < |allSteps| ensures StepAt(body, all, allSteps, i) && naming(all[i], allSteps[i]) {
      if i < n {
        assert StepAt(body, states, steps, i) && naming(states[i], steps[i]);
      } else {
        assert StepAt(body, more, moreSteps, i - n);
      }
    }
  }

  /** The state before the first clash of a run still has every invariant. */
  lemma {:induction false} FirstClash(body: Writer -> string, start: Option<string>, states: seq<State>, steps: seq<Step>, n: nat) returns (i: nat)
    requires IsRun(body, states, steps) && Start(start, states[0]) && n < |steps| && !NoClash(states[n], steps[n])
    ensures i < |steps| && !NoClash(states[i], steps[i]) && Inv(body, start, states[i])
  {
    hide Next, NoClash, Inv, Start;
    if j :| 0 <= j < n && !NoClash(states[j], steps[j]) {
      i := FirstClash(body, start, states, steps, j);
    } else {
      i := n;
      forall j | 0 <= j < n ensures StepAt(body, states[..n + 1], steps[..n], j) && NoClash(states[..n + 1][j], steps[..n][j]) {
        assert StepAt(body, states, steps, j);
      }
      RunInv(body, start, states[..n + 1], steps[..n], n);
    }
  }

  /** Every run under a naming keeps the index whole exactly if no run under it
      ever takes the temp name of a running writer. */
  lemma PublishedExactlyWithoutClash(body: Writer -> string, start: Option<string>, naming: Naming)
    requires RestrictsNames(naming) && BodiesPlain(body, start)
    ensures AlwaysSafe(body, start, naming) <==> ClashFree(body, start, naming)
  {
    hide Next, NoClash, Inv, Start, Published, BodiesPlain, Usurped, RestrictsNames;
    if ClashFree(body, start, naming) {
      forall states, steps | RunUnder(body, start, naming, states, steps) ensures AllPublished(body, start, states) {
        forall k | 0 <= k < |states| ensures Published(body, start, states[k]) {
          AlwaysPublished(body, start, states, steps, k);
        }
      }
    }
    forall states, steps | RunUnder(body, start, naming, states, steps) && !NeverClashes(states, steps) ensures !AlwaysSafe(body, start, naming) {
      var n :| 0 <= n < |steps| && !NoClash(states[n], steps[n]);
      ClashIsUnsafe(body, start, naming, states, steps, n);
    }
  }

  lemma ClashIsUnsafe(body: Writer -> string, start: Option<string>, naming: Naming, states: seq<State>, steps: seq<Step>, n: nat)
    requires RestrictsNames(naming) && BodiesPlain(body, start) && RunUnder(body, start, naming, states, steps)
    requires n < |steps| && !NoClash(states[n], steps[n])
    ensures !AlwaysSafe(body, start, naming)
  {
    hide Next, NoClash, Inv, Start, Published, BodiesPlain, Usurped, RestrictsNames;
    var i := FirstClash(body, start, states, steps, n);
    assert StepAt(body, states, steps, i);
    var v := ClashUsurps(body, start, states[i], steps[i], states[i + 1]);
    UsurpedTemp(body, states[i + 1], v);
    var more := Usurper(body, start, states[i + 1], v);
    var moreSteps := Finishing(body, states[i + 1], v);
    JoinRuns(body, start, naming, states, steps, i + 1, more, moreSteps);
    var all := states[..i + 1] + more;
    assert all[|all| - 1] == more[|more| - 1];
    assert !AllPublished(body, start, all);
  }

  // ---- A clash.

  const T0: Name := Temp(0)

  /** Writer 0 saves without the lock, a sweep takes its temp, writer 1 creates
      one of the same name, and writer 0 publishes the empty file of writer 1. */
  ghost function ClashState(body: Writer -> string, k: nat): State {
    match k
    case 0 => State(map[], map[], None, map[])
    case 1 => State(map[], map[], None, map[0 := Ready])
    case 2 => State(map[T0 := 0], map[0 := ""], None, map[0 := Writing(T0, 0)])
    case 3 => State(map[T0 := 0], map[0 := ""], Some(1), map[0 := Writing(T0, 0), 1 := Holding])
    case 4 => State(map[T0 := 0], map[0 := ""], Some(1), map[0 := Writing(T0, 0), 1 := Sweeping({T0})])
    case 5 => State(map[], map[0 := ""], Some(1), map[0 := Writing(T0, 0), 1 := Sweeping({})])
    case 6 => State(map[], map[0 := ""], Some(1), map[0 := Writing(T0, 0), 1 := Ready])
    case 7 => State(map[T0 := 1], map[0 := "", 1 := ""], Some(1), map[0 := Writing(T0, 0), 1 := Writing(T0, 1)])
    case 8 => State(map[T0 := 1], map[0 := body(0), 1 := ""], Some(1), map[0 := Writing(T0, 0), 1 := Writing(T0, 1)])
    case 9 => State(map[T0 := 1], map[0 := body(0), 1 := ""], Some(1), map[0 := Complete(T0, 0), 1 := Writing(T0, 1)])
    case _ => State(map[IndexFile := 1], map[0 := body(0), 1 := ""], Some(1), map[0 := Finished, 1 := Writing(T0, 1)])
  }

  ghost function ClashStep(body: Writer -> string, k: nat): Step {
    match k
    case 0 => SkipLock(0)
    case 1 => Create(0, T0, 0)
    case 2 => Acquire(1)
    case 3 => ListTemps(1)
    case 4 => RemoveStale(1, T0)
    case 5 => EndSweep(1)
    case 6 => Create(1, T0, 1)
    case 7 => Write(0, |body(0)|)
    case 8 => Close(0)
    case _ => Rename(0)
  }

  lemma ClashNext(body: Writer -> string, k: nat)
    requires k < 10
    ensures Next(body, ClashState(body, k), ClashStep(body, k), ClashState(body, k + 1))
  {
    var s, s' := ClashState(body, k), ClashState(body, k + 1);
    if k == 3 {
      assert (set n | n in s.names && n.Temp?) == {T0};
    } else if k == 4 {
      assert s.names - {T0} == map[] && {T0} - {T0} == {};
    } else if k == 7 {
      assert body(0)[..|body(0)|] == body(0);
      assert s.files[0 := body(0)] == s'.files;
    } else if k == 9 {
      assert s.names[IndexFile := s.names[T0]] - {T0} == s'.names;
    }
    assert s'.phases == s.phases[ClashStep(body, k).w := s'.phases[ClashStep(body, k).w]];
  }

  /** Without fresh names and without the lock, a partial index can be published. */
  lemma ClashExample(body: Writer -> string)
    requires forall w: Writer :: body(w) != ""
    ensures exists states: seq<State>, steps: seq<Step> ::
              IsRun(body, states, steps) && Start(None, states[0]) && !Published(body, None, states[|steps|])
  {
    hide Next;
    var states := seq(11, k requires 0 <= k < 11 => ClashState(body, k));
    var steps := seq(10, k requires 0 <= k < 10 => ClashStep(body, k));
    forall i | 0 <= i < |steps| ensures StepAt(body, states, steps, i) {
      ClashNext(body, i);
    }
    assert states[0] == ClashState(body, 0) && states[|steps|] == ClashState(body, 10);
    assert IsRun(body, states, steps);
  }
}
