/** The control-flow section of a snapshot, byte for byte: what a save emits, and
    a loader that accepts any bytes and gives back what was saved. */
module FlowSnapshot {
  import opened GraphTypes
  import opened Interner
  import opened Registry
  import opened FlowTypes
  import opened Codec
  import opened SetTables
  import opened FlowIndex
  import opened MappedIndex
  import opened CountingSort
  import CO = CanonicalOrder

  /** The stored id that stands for no unit. */
  const NO_STRING: nat := 0xFFFF_FFFF

  // ---- What a save emits.

  function StringsKey(xs: seq<string>): string {
    if xs == [] then "" else PutLenStr(xs[0]) + StringsKey(xs[1..])
  }

  function ScopeList(xs: seq<TryScope>): string {
    PutU32(|xs|) + ScopeSetKey(xs)
  }

  function ScopeTable(xs: seq<seq<TryScope>>): string {
    if xs == [] then "" else ScopeList(xs[0]) + ScopeTable(xs[1..])
  }

  function GuardList(xs: seq<Guard>): string {
    PutU32(|xs|) + GuardSetKey(xs)
  }

  function GuardTable(xs: seq<seq<Guard>>): string {
    if xs == [] then "" else GuardList(xs[0]) + GuardTable(xs[1..])
  }

  function LocalList(xs: seq<StoredLocal>): string {
    PutU32(|xs|) + LocalSetKey(xs)
  }

  function LocalTable(xs: seq<seq<StoredLocal>>): string {
    if xs == [] then "" else LocalList(xs[0]) + LocalTable(xs[1..])
  }

  function PutSpec(s: NoexceptSpec): (r: string)
    ensures |r| == 1
  {
    match s
    case NoSpec => [0 as char]
    case Noexcept => [1 as char]
    case NoexceptFalse => [2 as char]
    case ThrowNone => [3 as char]
    case Unevaluated => [4 as char]
  }

  function TuWord(tu: Option<Id>): nat {
    if tu.Some? then tu.value else NO_STRING
  }

  /** A record is nine words and two bytes. */
  function RecordKey(c: StoredContext): string {
    RecordFront(c) + RecordBack(c)
  }

  function RecordFront(c: StoredContext): string {
    PutU32(c.caller) + (PutU32(c.callee) + (PutU32(c.callerDisplay) + (PutU32(c.calleeDisplay) + PutU32(c.site))))
  }

  function RecordBack(c: StoredContext): string {
    PutU32(TuWord(c.tu)) + (PutU32(c.scopeSet) + (PutU32(c.guardSet) + (PutU32(c.raiiSet) + (PutSpec(c.spec) + PutFlag(c.insideCatch)))))
  }

  function RecordsKey(xs: seq<StoredContext>): string {
    if xs == [] then "" else RecordKey(xs[0]) + RecordsKey(xs[1..])
  }

  function Numbers(xs: seq<nat>): string {
    if xs == [] then "" else PutU32(xs[0]) + Numbers(xs[1..])
  }

  // ---- What fits.

  ghost predicate TextFits(isText: string -> bool, x: string) {
    |x| < U32 && isText(x)
  }

  ghost predicate HandlerReads(isText: string -> bool, h: Handler) {
    TextFits(isText, h.caughtType) && TextFits(isText, h.location) && TextFits(isText, h.bodySummary)
  }

  ghost predicate ScopeReads(isText: string -> bool, s: TryScope) {
    TextFits(isText, s.tryLocation) && TextFits(isText, s.enclosingFunction) && s.nestingDepth < U32 && |s.handlers| < U32 &&
    forall i :: 0 <= i < |s.handlers| ==> HandlerReads(isText, s.handlers[i])
  }

  ghost predicate ScopesRead(isText: string -> bool, xs: seq<TryScope>) {
    |xs| < U32 && forall i :: 0 <= i < |xs| ==> ScopeReads(isText, xs[i])
  }

  ghost predicate GuardReads(isText: string -> bool, g: Guard) {
    TextFits(isText, g.conditionText) && TextFits(isText, g.location)
  }

  ghost predicate GuardsRead(isText: string -> bool, xs: seq<Guard>) {
    |xs| < U32 && forall i :: 0 <= i < |xs| ==> GuardReads(isText, xs[i])
  }

  predicate LocalNamed(n: nat, l: StoredLocal) {
    l.typeName < n && l.varName < n && l.declLocation < n
  }

  ghost predicate LocalReads(n: nat, l: StoredLocal) {
    n <= U32 && LocalNamed(n, l)
  }

  ghost predicate LocalsRead(n: nat, xs: seq<StoredLocal>) {
    |xs| < U32 && forall i :: 0 <= i < |xs| ==> LocalReads(n, xs[i])
  }

  /** Sizes against which the ids of a record are checked. */
  datatype Sizes = Sizes(strings: nat, scopes: nat, guards: nat, locals: nat)

  predicate RecordOk(z: Sizes, c: StoredContext) {
    && c.live && c.caller < z.strings && c.callee < z.strings && c.callerDisplay < z.strings && c.calleeDisplay < z.strings && c.site < z.strings
    && (c.tu.Some? ==> c.tu.value < z.strings) && c.scopeSet < z.scopes && c.guardSet < z.guards && c.raiiSet < z.locals
  }

  ghost predicate RecordReads(z: Sizes, c: StoredContext) {
    z.strings < U32 && z.scopes <= U32 && z.guards <= U32 && z.locals <= U32 && RecordOk(z, c)
  }

  // ---- Lists: a count, then the items.

  method ReadText(rd: Reader, ghost x: string, ghost tail: string) returns (r: string)
    requires rd.Valid()
    modifies rd`p, rd`ok
    ensures rd.Valid() && rd.p >= old(rd.p) && (rd.ok ==> old(rd.ok))
    ensures old(rd.Sees(PutLenStr(x), tail)) && TextFits(rd.isText, x) ==> rd.ok && r == x && rd.Rest() == tail
  {
    r := rd.Text(x, tail);
  }

  lemma StringsNext(xs: seq<string>, i: nat, tail: string)
    requires i < |xs|
    ensures StringsKey(xs[i..]) + tail == PutLenStr(xs[i]) + (StringsKey(xs[i + 1..]) + tail)
  {
    assert xs[i..][1..] == xs[i + 1..];
    Regroup(PutLenStr(xs[i]), StringsKey(xs[i + 1..]), tail);
  }

  lemma {:induction false} StringsLong(xs: seq<string>)
    ensures |StringsKey(xs)| >= |xs|
    decreases |xs|
  {
    if xs != [] {
      StringsLong(xs[1..]);
      assert |PutLenStr(xs[0])| >= 1;
    }
  }

  lemma StringsEnds(xs: seq<string>, tail: string)
    ensures StringsKey(xs[|xs|..]) + tail == tail
  {
    assert xs[|xs|..] == [];
  }

  method ReadStrings(rd: Reader, ghost xs: seq<string>, ghost tail: string) returns (r: seq<string>)
    requires rd.Valid()
    modifies rd`p, rd`ok
    ensures rd.Valid() && rd.p >= old(rd.p) && (rd.ok ==> old(rd.ok))
    ensures old(rd.Sees(PutU32(|xs|) + StringsKey(xs), tail)) && |xs| < U32 && (forall i :: 0 <= i < |xs| ==> TextFits(rd.isText, xs[i])) ==>
              rd.ok && r == xs && rd.Rest() == tail
  {
    hide StringsKey, PutLenStr, TextFits, PutU32;
    ghost var good := rd.Sees(PutU32(|xs|) + StringsKey(xs), tail) && |xs| < U32 && (forall i :: 0 <= i < |xs| ==> TextFits(rd.isText, xs[i]));
    Regroup(PutU32(|xs|), StringsKey(xs), tail);
    StringsLong(xs);
    var n := rd.Count(|xs|, StringsKey(xs) + tail);
    r := [];
    assert xs[0..] == xs;
    var i := 0;
    while rd.ok && i < n
      invariant rd.Valid() && rd.p >= old(rd.p) && (rd.ok ==> old(rd.ok)) && i <= n
      invariant good ==> rd.ok && n == |xs| && r == xs[..i] && rd.Rest() == StringsKey(xs[i..]) + tail
      decreases n - i
    {
      ghost var x, t := "", "";
      if good {
        StringsNext(xs, i, tail);
        x, t := xs[i], StringsKey(xs[i + 1..]) + tail;
      }
      var v := ReadText(rd, x, t);
      r := r + [v];
      i := i + 1;
    }
    if good {
      StringsEnds(xs, tail);
      assert xs[..|xs|] == xs;
    }
  }

  method ReadHandler(rd: Reader, ghost x: Handler, ghost tail: string) returns (r: Handler)
    requires rd.Valid()
    modifies rd`p, rd`ok
    ensures rd.Valid() && rd.p >= old(rd.p) && (rd.ok ==> old(rd.ok))
    ensures old(rd.Sees(HandlerKey(x), tail)) && HandlerReads(rd.isText, x) ==> rd.ok && r == x && rd.Rest() == tail
  {
    hide PutLenStr, PutFlag;
    ghost var k4 := PutLenStr(x.bodySummary);
    ghost var k3 := PutLenStr(x.location) + k4;
    ghost var k2 := PutFlag(x.rethrows) + k3;
    ghost var k1 := PutFlag(x.isCatchAll) + k2;
    Regroup(PutLenStr(x.caughtType), k1, tail);
    Regroup(PutFlag(x.isCatchAll), k2, tail);
    Regroup(PutFlag(x.rethrows), k3, tail);
    Regroup(PutLenStr(x.location), k4, tail);
    var caught := rd.Text(x.caughtType, k1 + tail);
    var all := rd.Flag(x.isCatchAll, k2 + tail);
    var rethrows := rd.Flag(x.rethrows, k3 + tail);
    var location := rd.Text(x.location, k4 + tail);
    var summary := rd.Text(x.bodySummary, tail);
    r := Handler(caught, all, rethrows, location, summary);
  }

  lemma HandlersNext(xs: seq<Handler>, i: nat, tail: string)
    requires i < |xs|
    ensures HandlersKey(xs[i..]) + tail == HandlerKey(xs[i]) + (HandlersKey(xs[i + 1..]) + tail)
  {
    assert xs[i..][1..] == xs[i + 1..];
    Regroup(HandlerKey(xs[i]), HandlersKey(xs[i + 1..]), tail);
  }

  lemma {:induction false} HandlersLong(xs: seq<Handler>)
    ensures |HandlersKey(xs)| >= |xs|
    decreases |xs|
  {
    if xs != [] {
      HandlersLong(xs[1..]);
      assert |HandlerKey(xs[0])| >= 1;
    }
  }

  lemma HandlersEnds(xs: seq<Handler>, tail: string)
    ensures HandlersKey(xs[|xs|..]) + tail == tail
  {
    assert xs[|xs|..] == [];
  }

  method ReadHandlers(rd: Reader, ghost xs: seq<Handler>, ghost tail: string) returns (r: seq<Handler>)
    requires rd.Valid()
    modifies rd`p, rd`ok
    ensures rd.Valid() && rd.p >= old(rd.p) && (rd.ok ==> old(rd.ok))
    ensures old(rd.Sees(PutU32(|xs|) + HandlersKey(xs), tail)) && |xs| < U32 && (forall i :: 0 <= i < |xs| ==> HandlerReads(rd.isText, xs[i])) ==>
              rd.ok && r == xs && rd.Rest() == tail
  {
    hide HandlersKey, HandlerKey, HandlerReads, PutU32;
    ghost var good := rd.Sees(PutU32(|xs|) + HandlersKey(xs), tail) && |xs| < U32 && (forall i :: 0 <= i < |xs| ==> HandlerReads(rd.isText, xs[i]));
    Regroup(PutU32(|xs|), HandlersKey(xs), tail);
    HandlersLong(xs);
    var n := rd.Count(|xs|, HandlersKey(xs) + tail);
    r := [];
    assert xs[0..] == xs;
    var i := 0;
    while rd.ok && i < n
      invariant rd.Valid() && rd.p >= old(rd.p) && (rd.ok ==> old(rd.ok)) && i <= n
      invariant good ==> rd.ok && n == |xs| && r == xs[..i] && rd.Rest() == HandlersKey(xs[i..]) + tail
      decreases n - i
    {
      ghost var x, t := Handler("", false, false, "", ""), "";
      if good {
        HandlersNext(xs, i, tail);
        x, t := xs[i], HandlersKey(xs[i + 1..]) + tail;
      }
      var v := ReadHandler(rd, x, t);
      r := r + [v];
      i := i + 1;
    }
    if good {
      HandlersEnds(xs, tail);
      assert xs[..|xs|] == xs;
    }
  }

  method ReadScope(rd: Reader, ghost x: TryScope, ghost tail: string) returns (r: TryScope)
    requires rd.Valid()
    modifies rd`p, rd`ok
    ensures rd.Valid() && rd.p >= old(rd.p) && (rd.ok ==> old(rd.ok))
    ensures old(rd.Sees(ScopeKey(x), tail)) && ScopeReads(rd.isText, x) ==> rd.ok && r == x && rd.Rest() == tail
  {
    hide PutLenStr, PutU32, HandlersKey;
    ghost var k3 := PutU32(|x.handlers|) + HandlersKey(x.handlers);
    ghost var k2 := PutU32(x.nestingDepth) + k3;
    ghost var k1 := PutLenStr(x.enclosingFunction) + k2;
    Regroup(PutLenStr(x.tryLocation), k1, tail);
    Regroup(PutLenStr(x.enclosingFunction), k2, tail);
    Regroup(PutU32(x.nestingDepth), k3, tail);
    var location := rd.Text(x.tryLocation, k1 + tail);
    var func := rd.Text(x.enclosingFunction, k2 + tail);
    var depth := rd.ReadU32(x.nestingDepth, k3 + tail);
    var handlers := ReadHandlers(rd, x.handlers, tail);
    r := TryScope(location, func, depth, handlers);
  }

  lemma ScopesNext(xs: seq<TryScope>, i: nat, tail: string)
    requires i < |xs|
    ensures ScopeSetKey(xs[i..]) + tail == ScopeKey(xs[i]) + (ScopeSetKey(xs[i + 1..]) + tail)
  {
    assert xs[i..][1..] == xs[i + 1..];
    Regroup(ScopeKey(xs[i]), ScopeSetKey(xs[i + 1..]), tail);
  }

  lemma {:induction false} ScopesLong(xs: seq<TryScope>)
    ensures |ScopeSetKey(xs)| >= |xs|
    decreases |xs|
  {
    if xs != [] {
      ScopesLong(xs[1..]);
      assert |ScopeKey(xs[0])| >= 1;
    }
  }

  lemma ScopesEnds(xs: seq<TryScope>, tail: string)
    ensures ScopeSetKey(xs[|xs|..]) + tail == tail
  {
    assert xs[|xs|..] == [];
  }

  method ReadScopes(rd: Reader, ghost xs: seq<TryScope>, ghost tail: string) returns (r: seq<TryScope>)
    requires rd.Valid()
    modifies rd`p, rd`ok
    ensures rd.Valid() && rd.p >= old(rd.p) && (rd.ok ==> old(rd.ok))
    ensures old(rd.Sees(PutU32(|xs|) + ScopeSetKey(xs), tail)) && |xs| < U32 && (forall i :: 0 <= i < |xs| ==> ScopeReads(rd.isText, xs[i])) ==>
              rd.ok && r == xs && rd.Rest() == tail
  {
    hide ScopeSetKey, ScopeKey, ScopeReads, PutU32;
    ghost var good := rd.Sees(PutU32(|xs|) + ScopeSetKey(xs), tail) && |xs| < U32 && (forall i :: 0 <= i < |xs| ==> ScopeReads(rd.isText, xs[i]));
    Regroup(PutU32(|xs|), ScopeSetKey(xs), tail);
    ScopesLong(xs);
    var n := rd.Count(|xs|, ScopeSetKey(xs) + tail);
    r := [];
    assert xs[0..] == xs;
    var i := 0;
    while rd.ok && i < n
      invariant rd.Valid() && rd.p >= old(rd.p) && (rd.ok ==> old(rd.ok)) && i <= n
      invariant good ==> rd.ok && n == |xs| && r == xs[..i] && rd.Rest() == ScopeSetKey(xs[i..]) + tail
      decreases n - i
    {
      ghost var x, t := TryScope("", "", 0, []), "";
      if good {
        ScopesNext(xs, i, tail);
        x, t := xs[i], ScopeSetKey(xs[i + 1..]) + tail;
      }
      var v := ReadScope(rd, x, t);
      r := r + [v];
      i := i + 1;
    }
    if good {
      ScopesEnds(xs, tail);
      assert xs[..|xs|] == xs;
    }
  }

  method ReadScopeSet(rd: Reader, ghost x: seq<TryScope>, ghost tail: string) returns (r: seq<TryScope>)
    requires rd.Valid()
    modifies rd`p, rd`ok
    ensures rd.Valid() && rd.p >= old(rd.p) && (rd.ok ==> old(rd.ok))
    ensures old(rd.Sees(ScopeList(x), tail)) && ScopesRead(rd.isText, x) ==> rd.ok && r == x && rd.Rest() == tail
  {
    r := ReadScopes(rd, x, tail);
  }

  lemma ScopeSetsNext(xs: seq<seq<TryScope>>, i: nat, tail: string)
    requires i < |xs|
    ensures ScopeTable(xs[i..]) + tail == ScopeList(xs[i]) + (ScopeTable(xs[i + 1..]) + tail)
  {
    assert xs[i..][1..] == xs[i + 1..];
    Regroup(ScopeList(xs[i]), ScopeTable(xs[i + 1..]), tail);
  }

  lemma {:induction false} ScopeSetsLong(xs: seq<seq<TryScope>>)
    ensures |ScopeTable(xs)| >= |xs|
    decreases |xs|
  {
    if xs != [] {
      ScopeSetsLong(xs[1..]);
      assert |ScopeList(xs[0])| >= 1;
    }
  }

  lemma ScopeSetsEnds(xs: seq<seq<TryScope>>, tail: string)
    ensures ScopeTable(xs[|xs|..]) + tail == tail
  {
    assert xs[|xs|..] == [];
  }

  method ReadScopeSets(rd: Reader, ghost xs: seq<seq<TryScope>>, ghost tail: string) returns (r: seq<seq<TryScope>>)
    requires rd.Valid()
    modifies rd`p, rd`ok
    ensures rd.Valid() && rd.p >= old(rd.p) && (rd.ok ==> old(rd.ok))
    ensures old(rd.Sees(PutU32(|xs|) + ScopeTable(xs), tail)) && |xs| < U32 && (forall i :: 0 <= i < |xs| ==> ScopesRead(rd.isText, xs[i])) ==>
              rd.ok && r == xs && rd.Rest() == tail
  {
    hide ScopeTable, ScopeList, ScopesRead, PutU32;
    ghost var good := rd.Sees(PutU32(|xs|) + ScopeTable(xs), tail) && |xs| < U32 && (forall i :: 0 <= i < |xs| ==> ScopesRead(rd.isText, xs[i]));
    Regroup(PutU32(|xs|), ScopeTable(xs), tail);
    ScopeSetsLong(xs);
    var n := rd.Count(|xs|, ScopeTable(xs) + tail);
    r := [];
    assert xs[0..] == xs;
    var i := 0;
    while rd.ok && i < n
      invariant rd.Valid() && rd.p >= old(rd.p) && (rd.ok ==> old(rd.ok)) && i <= n
      invariant good ==> rd.ok && n == |xs| && r == xs[..i] && rd.Rest() == ScopeTable(xs[i..]) + tail
      decreases n - i
    {
      ghost var x, t := [], "";
      if good {
        ScopeSetsNext(xs, i, tail);
        x, t := xs[i], ScopeTable(xs[i + 1..]) + tail;
      }
      var v := ReadScopeSet(rd, x, t);
      r := r + [v];
      i := i + 1;
    }
    if good {
      ScopeSetsEnds(xs, tail);
      assert xs[..|xs|] == xs;
    }
  }

  method ReadGuard(rd: Reader, ghost x: Guard, ghost tail: string) returns (r: Guard)
    requires rd.Valid()
    modifies rd`p, rd`ok
    ensures rd.Valid() && rd.p >= old(rd.p) && (rd.ok ==> old(rd.ok))
    ensures old(rd.Sees(GuardKey(x), tail)) && GuardReads(rd.isText, x) ==> rd.ok && r == x && rd.Rest() == tail
  {
    hide PutLenStr, PutFlag;
    ghost var k3 := PutFlag(x.isAssertion);
    ghost var k2 := PutFlag(x.inTrueBranch) + k3;
    ghost var k1 := PutLenStr(x.location) + k2;
    Regroup(PutLenStr(x.conditionText), k1, tail);
    Regroup(PutLenStr(x.location), k2, tail);
    Regroup(PutFlag(x.inTrueBranch), k3, tail);
    var text := rd.Text(x.conditionText, k1 + tail);
    var location := rd.Text(x.location, k2 + tail);
    var branch := rd.Flag(x.inTrueBranch, k3 + tail);
    var assertion := rd.Flag(x.isAssertion, tail);
    r := Guard(text, location, branch, assertion);
  }

  lemma GuardsNext(xs: seq<Guard>, i: nat, tail: string)
    requires i < |xs|
    ensures GuardSetKey(xs[i..]) + tail == GuardKey(xs[i]) + (GuardSetKey(xs[i + 1..]) + tail)
  {
    assert xs[i..][1..] == xs[i + 1..];
    Regroup(GuardKey(xs[i]), GuardSetKey(xs[i + 1..]), tail);
  }

  lemma {:induction false} GuardsLong(xs: seq<Guard>)
    ensures |GuardSetKey(xs)| >= |xs|
    decreases |xs|
  {
    if xs != [] {
      GuardsLong(xs[1..]);
      assert |GuardKey(xs[0])| >= 1;
    }
  }

  lemma GuardsEnds(xs: seq<Guard>, tail: string)
    ensures GuardSetKey(xs[|xs|..]) + tail == tail
  {
    assert xs[|xs|..] == [];
  }

  method ReadGuards(rd: Reader, ghost xs: seq<Guard>, ghost tail: string) returns (r: seq<Guard>)
    requires rd.Valid()
    modifies rd`p, rd`ok
    ensures rd.Valid() && rd.p >= old(rd.p) && (rd.ok ==> old(rd.ok))
    ensures old(rd.Sees(PutU32(|xs|) + GuardSetKey(xs), tail)) && |xs| < U32 && (forall i :: 0 <= i < |xs| ==> GuardReads(rd.isText, xs[i])) ==>
              rd.ok && r == xs && rd.Rest() == tail
  {
    hide GuardSetKey, GuardKey, GuardReads, PutU32;
    ghost var good := rd.Sees(PutU32(|xs|) + GuardSetKey(xs), tail) && |xs| < U32 && (forall i :: 0 <= i < |xs| ==> GuardReads(rd.isText, xs[i]));
    Regroup(PutU32(|xs|), GuardSetKey(xs), tail);
    GuardsLong(xs);
    var n := rd.Count(|xs|, GuardSetKey(xs) + tail);
    r := [];
    assert xs[0..] == xs;
    var i := 0;
    while rd.ok && i < n
      invariant rd.Valid() && rd.p >= old(rd.p) && (rd.ok ==> old(rd.ok)) && i <= n
      invariant good ==> rd.ok && n == |xs| && r == xs[..i] && rd.Rest() == GuardSetKey(xs[i..]) + tail
      decreases n - i
    {
      ghost var x, t := Guard("", "", false, false), "";
      if good {
        GuardsNext(xs, i, tail);
        x, t := xs[i], GuardSetKey(xs[i + 1..]) + tail;
      }
      var v := ReadGuard(rd, x, t);
      r := r + [v];
      i := i + 1;
    }
    if good {
      GuardsEnds(xs, tail);
      assert xs[..|xs|] == xs;
    }
  }

  method ReadGuardSet(rd: Reader, ghost x: seq<Guard>, ghost tail: string) returns (r: seq<Guard>)
    requires rd.Valid()
    modifies rd`p, rd`ok
    ensures rd.Valid() && rd.p >= old(rd.p) && (rd.ok ==> old(rd.ok))
    ensures old(rd.Sees(GuardList(x), tail)) && GuardsRead(rd.isText, x) ==> rd.ok && r == x && rd.Rest() == tail
  {
    r := ReadGuards(rd, x, tail);
  }

  lemma GuardSetsNext(xs: seq<seq<Guard>>, i: nat, tail: string)
    requires i < |xs|
    ensures GuardTable(xs[i..]) + tail == GuardList(xs[i]) + (GuardTable(xs[i + 1..]) + tail)
  {
    assert xs[i..][1..] == xs[i + 1..];
    Regroup(GuardList(xs[i]), GuardTable(xs[i + 1..]), tail);
  }

  lemma {:induction false} GuardSetsLong(xs: seq<seq<Guard>>)
    ensures |GuardTable(xs)| >= |xs|
    decreases |xs|
  {
    if xs != [] {
      GuardSetsLong(xs[1..]);
      assert |GuardList(xs[0])| >= 1;
    }
  }

  lemma GuardSetsEnds(xs: seq<seq<Guard>>, tail: string)
    ensures GuardTable(xs[|xs|..]) + tail == tail
  {
    assert xs[|xs|..] == [];
  }

  method ReadGuardSets(rd: Reader, ghost xs: seq<seq<Guard>>, ghost tail: string) returns (r: seq<seq<Guard>>)
    requires rd.Valid()
    modifies rd`p, rd`ok
    ensures rd.Valid() && rd.p >= old(rd.p) && (rd.ok ==> old(rd.ok))
    ensures old(rd.Sees(PutU32(|xs|) + GuardTable(xs), tail)) && |xs| < U32 && (forall i :: 0 <= i < |xs| ==> GuardsRead(rd.isText, xs[i])) ==>
              rd.ok && r == xs && rd.Rest() == tail
  {
    hide GuardTable, GuardList, GuardsRead, PutU32;
    ghost var good := rd.Sees(PutU32(|xs|) + GuardTable(xs), tail) && |xs| < U32 && (forall i :: 0 <= i < |xs| ==> GuardsRead(rd.isText, xs[i]));
    Regroup(PutU32(|xs|), GuardTable(xs), tail);
    GuardSetsLong(xs);
    var n := rd.Count(|xs|, GuardTable(xs) + tail);
    r := [];
    assert xs[0..] == xs;
    var i := 0;
    while rd.ok && i < n
      invariant rd.Valid() && rd.p >= old(rd.p) && (rd.ok ==> old(rd.ok)) && i <= n
      invariant good ==> rd.ok && n == |xs| && r == xs[..i] && rd.Rest() == GuardTable(xs[i..]) + tail
      decreases n - i
    {
      ghost var x, t := [], "";
      if good {
        GuardSetsNext(xs, i, tail);
        x, t := xs[i], GuardTable(xs[i + 1..]) + tail;
      }
      var v := ReadGuardSet(rd, x, t);
      r := r + [v];
      i := i + 1;
    }
    if good {
      GuardSetsEnds(xs, tail);
      assert xs[..|xs|] == xs;
    }
  }

  /** A byte that is no kind reads as the last one. */
  function KindOf(n: nat): RaiiKind {
    if n == 0 then Lock else if n == 1 then SmartPtr else Other
  }

  /** An id, checked against the string table. */
  method ReadId(rd: Reader, n: nat, ghost x: nat, ghost tail: string) returns (v: nat)
    requires rd.Valid()
    modifies rd`p, rd`ok
    ensures rd.Valid() && rd.p >= old(rd.p) && (rd.ok ==> old(rd.ok) && v < n)
    ensures old(rd.Sees(PutU32(x), tail)) && x < U32 && x < n ==> rd.ok && v == x && rd.Rest() == tail
  {
    v := rd.ReadU32(x, tail);
    if v >= n {
      rd.ok := false;
    }
  }

  method ReadLocal(rd: Reader, n: nat, ghost x: StoredLocal, ghost tail: string) returns (r: StoredLocal)
    requires rd.Valid()
    modifies rd`p, rd`ok
    ensures rd.Valid() && rd.p >= old(rd.p) && (rd.ok ==> old(rd.ok))
    ensures rd.ok ==> LocalNamed(n, r)
    ensures old(rd.Sees(LocalKey(x), tail)) && LocalReads(n, x) ==> rd.ok && r == x && rd.Rest() == tail
  {
    hide PutU32;
    ghost var k3 := PutKind(x.kind);
    ghost var k2 := PutU32(x.declLocation) + k3;
    ghost var k1 := PutU32(x.varName) + k2;
    Regroup(PutU32(x.typeName), k1, tail);
    Regroup(PutU32(x.varName), k2, tail);
    Regroup(PutU32(x.declLocation), k3, tail);
    var a := ReadId(rd, n, x.typeName, k1 + tail);
    var b := ReadId(rd, n, x.varName, k2 + tail);
    var c := ReadId(rd, n, x.declLocation, k3 + tail);
    var kind := rd.ReadU8(k3, tail);
    r := StoredLocal(a, b, c, KindOf(kind));
  }

  lemma LocalsNext(xs: seq<StoredLocal>, i: nat, tail: string)
    requires i < |xs|
    ensures LocalSetKey(xs[i..]) + tail == LocalKey(xs[i]) + (LocalSetKey(xs[i + 1..]) + tail)
  {
    assert xs[i..][1..] == xs[i + 1..];
    Regroup(LocalKey(xs[i]), LocalSetKey(xs[i + 1..]), tail);
  }

  lemma {:induction false} LocalsLong(xs: seq<StoredLocal>)
    ensures |LocalSetKey(xs)| >= |xs|
    decreases |xs|
  {
    if xs != [] {
      LocalsLong(xs[1..]);
      assert |LocalKey(xs[0])| >= 1;
    }
  }

  lemma LocalsEnds(xs: seq<StoredLocal>, tail: string)
    ensures LocalSetKey(xs[|xs|..]) + tail == tail
  {
    assert xs[|xs|..] == [];
  }

  method ReadLocals(rd: Reader, ids: nat, ghost xs: seq<StoredLocal>, ghost tail: string) returns (r: seq<StoredLocal>)
    requires rd.Valid()
    modifies rd`p, rd`ok
    ensures rd.Valid() && rd.p >= old(rd.p) && (rd.ok ==> old(rd.ok))
    ensures rd.ok ==> LocalsNamed(ids, r)
    ensures old(rd.Sees(PutU32(|xs|) + LocalSetKey(xs), tail)) && |xs| < U32 && (forall i :: 0 <= i < |xs| ==> LocalReads(ids, xs[i])) ==>
              rd.ok && r == xs && rd.Rest() == tail
  {
    hide LocalSetKey, LocalKey, LocalReads, PutU32;
    ghost var good := rd.Sees(PutU32(|xs|) + LocalSetKey(xs), tail) && |xs| < U32 && (forall i :: 0 <= i < |xs| ==> LocalReads(ids, xs[i]));
    Regroup(PutU32(|xs|), LocalSetKey(xs), tail);
    LocalsLong(xs);
    var n := rd.Count(|xs|, LocalSetKey(xs) + tail);
    r := [];
    assert xs[0..] == xs;
    var i := 0;
    while rd.ok && i < n
      invariant rd.Valid() && rd.p >= old(rd.p) && (rd.ok ==> old(rd.ok)) && i <= n
      invariant good ==> rd.ok && n == |xs| && r == xs[..i] && rd.Rest() == LocalSetKey(xs[i..]) + tail
      invariant rd.ok ==> LocalsNamed(ids, r)
      decreases n - i
    {
      ghost var x, t := StoredLocal(0, 0, 0, Other), "";
      if good {
        LocalsNext(xs, i, tail);
        x, t := xs[i], LocalSetKey(xs[i + 1..]) + tail;
      }
      var v := ReadLocal(rd, ids, x, t);
      r := r + [v];
      i := i + 1;
    }
    if good {
      LocalsEnds(xs, tail);
      assert xs[..|xs|] == xs;
    }
  }

  method ReadLocalSet(rd: Reader, n: nat, ghost x: seq<StoredLocal>, ghost tail: string) returns (r: seq<StoredLocal>)
    requires rd.Valid()
    modifies rd`p, rd`ok
    ensures rd.Valid() && rd.p >= old(rd.p) && (rd.ok ==> old(rd.ok))
    ensures rd.ok ==> LocalsNamed(n, r)
    ensures old(rd.Sees(LocalList(x), tail)) && LocalsRead(n, x) ==> rd.ok && r == x && rd.Rest() == tail
  {
    r := ReadLocals(rd, n, x, tail);
  }

  lemma LocalSetsNext(xs: seq<seq<StoredLocal>>, i: nat, tail: string)
    requires i < |xs|
    ensures LocalTable(xs[i..]) + tail == LocalList(xs[i]) + (LocalTable(xs[i + 1..]) + tail)
  {
    assert xs[i..][1..] == xs[i + 1..];
    Regroup(LocalList(xs[i]), LocalTable(xs[i + 1..]), tail);
  }

  lemma {:induction false} LocalSetsLong(xs: seq<seq<StoredLocal>>)
    ensures |LocalTable(xs)| >= |xs|
    decreases |xs|
  {
    if xs != [] {
      LocalSetsLong(xs[1..]);
      assert |LocalList(xs[0])| >= 1;
    }
  }

  lemma LocalSetsEnds(xs: seq<seq<StoredLocal>>, tail: string)
    ensures LocalTable(xs[|xs|..]) + tail == tail
  {
    assert xs[|xs|..] == [];
  }

  method ReadLocalSets(rd: Reader, ids: nat, ghost xs: seq<seq<StoredLocal>>, ghost tail: string) returns (r: seq<seq<StoredLocal>>)
    requires rd.Valid()
    modifies rd`p, rd`ok
    ensures rd.Valid() && rd.p >= old(rd.p) && (rd.ok ==> old(rd.ok))
    ensures rd.ok ==> forall i :: 0 <= i < |r| ==> LocalsNamed(ids, r[i])
    ensures old(rd.Sees(PutU32(|xs|) + LocalTable(xs), tail)) && |xs| < U32 && (forall i :: 0 <= i < |xs| ==> LocalsRead(ids, xs[i])) ==>
              rd.ok && r == xs && rd.Rest() == tail
  {
    hide LocalTable, LocalList, LocalsRead, PutU32;
    ghost var good := rd.Sees(PutU32(|xs|) + LocalTable(xs), tail) && |xs| < U32 && (forall i :: 0 <= i < |xs| ==> LocalsRead(ids, xs[i]));
    Regroup(PutU32(|xs|), LocalTable(xs), tail);
    LocalSetsLong(xs);
    var n := rd.Count(|xs|, LocalTable(xs) + tail);
    r := [];
    assert xs[0..] == xs;
    var i := 0;
    while rd.ok && i < n
      invariant rd.Valid() && rd.p >= old(rd.p) && (rd.ok ==> old(rd.ok)) && i <= n
      invariant good ==> rd.ok && n == |xs| && r == xs[..i] && rd.Rest() == LocalTable(xs[i..]) + tail
      invariant rd.ok ==> forall j :: 0 <= j < |r| ==> LocalsNamed(ids, r[j])
      decreases n - i
    {
      ghost var x, t := [], "";
      if good {
        LocalSetsNext(xs, i, tail);
        x, t := xs[i], LocalTable(xs[i + 1..]) + tail;
      }
      var v := ReadLocalSet(rd, ids, x, t);
      r := r + [v];
      i := i + 1;
    }
    if good {
      LocalSetsEnds(xs, tail);
      assert xs[..|xs|] == xs;
    }
  }

  function SpecOf(n: nat): NoexceptSpec {
    match n
    case 0 => NoSpec
    case 1 => Noexcept
    case 2 => NoexceptFalse
    case 3 => ThrowNone
    case _ => Unevaluated
  }

  /** The unit of a record: the sentinel, or a checked id. */
  method ReadUnit(rd: Reader, n: nat, ghost x: Option<Id>, ghost tail: string) returns (v: Option<Id>)
    requires rd.Valid()
    modifies rd`p, rd`ok
    ensures rd.Valid() && rd.p >= old(rd.p) && (rd.ok ==> old(rd.ok) && (v.Some? ==> v.value < n))
    ensures old(rd.Sees(PutU32(TuWord(x)), tail)) && n < U32 && (x.Some? ==> x.value < n) ==> rd.ok && v == x && rd.Rest() == tail
  {
    var w := rd.ReadU32(TuWord(x), tail);
    if w == NO_STRING {
      return None;
    }
    if w >= n {
      rd.ok := false;
    }
    v := Some(w);
  }

  method ReadFront(rd: Reader, n: nat, ghost x: StoredContext, ghost tail: string)
    returns (caller: nat, callee: nat, callerDisplay: nat, calleeDisplay: nat, site: nat)
    requires rd.Valid()
    modifies rd`p, rd`ok
    ensures rd.Valid() && rd.p >= old(rd.p)
    ensures rd.ok ==> old(rd.ok) && caller < n && callee < n && callerDisplay < n && calleeDisplay < n && site < n
    ensures old(rd.Sees(RecordFront(x), tail)) && n < U32 && x.caller < n && x.callee < n && x.callerDisplay < n && x.calleeDisplay < n && x.site < n ==>
              rd.ok && rd.Rest() == tail && caller == x.caller && callee == x.callee && callerDisplay == x.callerDisplay
              && calleeDisplay == x.calleeDisplay && site == x.site
  {
    hide PutU32;
    ghost var k4 := PutU32(x.site);
    ghost var k3 := PutU32(x.calleeDisplay) + k4;
    ghost var k2 := PutU32(x.callerDisplay) + k3;
    ghost var k1 := PutU32(x.callee) + k2;
    Regroup(PutU32(x.caller), k1, tail);
    Regroup(PutU32(x.callee), k2, tail);
    Regroup(PutU32(x.callerDisplay), k3, tail);
    Regroup(PutU32(x.calleeDisplay), k4, tail);
    caller := ReadId(rd, n, x.caller, k1 + tail);
    callee := ReadId(rd, n, x.callee, k2 + tail);
    callerDisplay := ReadId(rd, n, x.callerDisplay, k3 + tail);
    calleeDisplay := ReadId(rd, n, x.calleeDisplay, k4 + tail);
    site := ReadId(rd, n, x.site, tail);
  }

  method ReadBack(rd: Reader, z: Sizes, ghost x: StoredContext, ghost tail: string)
    returns (tu: Option<Id>, scopeSet: nat, guardSet: nat, raiiSet: nat, spec: NoexceptSpec, inside: bool)
    requires rd.Valid()
    modifies rd`p, rd`ok
    ensures rd.Valid() && rd.p >= old(rd.p)
    ensures rd.ok ==> old(rd.ok) && (tu.Some? ==> tu.value < z.strings) && scopeSet < z.scopes && guardSet < z.guards && raiiSet < z.locals
    ensures old(rd.Sees(RecordBack(x), tail)) && RecordReads(z, x) ==>
              rd.ok && rd.Rest() == tail && tu == x.tu && scopeSet == x.scopeSet && guardSet == x.guardSet && raiiSet == x.raiiSet
              && spec == x.spec && inside == x.insideCatch
  {
    hide PutU32, TuWord;
    ghost var k5 := PutFlag(x.insideCatch);
    ghost var k4 := PutSpec(x.spec) + k5;
    ghost var k3 := PutU32(x.raiiSet) + k4;
    ghost var k2 := PutU32(x.guardSet) + k3;
    ghost var k1 := PutU32(x.scopeSet) + k2;
    Regroup(PutU32(TuWord(x.tu)), k1, tail);
    Regroup(PutU32(x.scopeSet), k2, tail);
    Regroup(PutU32(x.guardSet), k3, tail);
    Regroup(PutU32(x.raiiSet), k4, tail);
    Regroup(PutSpec(x.spec), k5, tail);
    tu := ReadUnit(rd, z.strings, x.tu, k1 + tail);
    scopeSet := ReadId(rd, z.scopes, x.scopeSet, k2 + tail);
    guardSet := ReadId(rd, z.guards, x.guardSet, k3 + tail);
    raiiSet := ReadId(rd, z.locals, x.raiiSet, k4 + tail);
    var s := rd.ReadU8(PutSpec(x.spec), k5 + tail);
    spec := SpecOf(s);
    inside := rd.Flag(x.insideCatch, tail);
  }

  method ReadRecord(rd: Reader, z: Sizes, ghost x: StoredContext, ghost tail: string) returns (r: StoredContext)
    requires rd.Valid()
    modifies rd`p, rd`ok
    ensures rd.Valid() && rd.p >= old(rd.p) && (rd.ok ==> old(rd.ok))
    ensures rd.ok ==> RecordOk(z, r)
    ensures old(rd.Sees(RecordKey(x), tail)) && RecordReads(z, x) ==> rd.ok && r == x && rd.Rest() == tail
  {
    hide RecordFront, RecordBack;
    Regroup(RecordFront(x), RecordBack(x), tail);
    var caller, callee, callerDisplay, calleeDisplay, site := ReadFront(rd, z.strings, x, RecordBack(x) + tail);
    var tu, scopeSet, guardSet, raiiSet, spec, inside := ReadBack(rd, z, x, tail);
    r := StoredContext(caller, callee, callerDisplay, calleeDisplay, site, tu, scopeSet, guardSet, raiiSet, spec, inside, true);
  }

  lemma RecordsNext(xs: seq<StoredContext>, i: nat, tail: string)
    requires i < |xs|
    ensures RecordsKey(xs[i..]) + tail == RecordKey(xs[i]) + (RecordsKey(xs[i + 1..]) + tail)
  {
    assert xs[i..][1..] == xs[i + 1..];
    Regroup(RecordKey(xs[i]), RecordsKey(xs[i + 1..]), tail);
  }

  lemma {:induction false} RecordsLong(xs: seq<StoredContext>)
    ensures |RecordsKey(xs)| >= |xs|
    decreases |xs|
  {
    if xs != [] {
      RecordsLong(xs[1..]);
      assert |RecordKey(xs[0])| >= 1;
    }
  }

  lemma RecordsEnds(xs: seq<StoredContext>, tail: string)
    ensures RecordsKey(xs[|xs|..]) + tail == tail
  {
    assert xs[|xs|..] == [];
  }

  method ReadRecords(rd: Reader, z: Sizes, ghost xs: seq<StoredContext>, ghost tail: string) returns (r: seq<StoredContext>)
    requires rd.Valid()
    modifies rd`p, rd`ok
    ensures rd.Valid() && rd.p >= old(rd.p) && (rd.ok ==> old(rd.ok))
    ensures rd.ok ==> forall i :: 0 <= i < |r| ==> RecordOk(z, r[i])
    ensures old(rd.Sees(PutU32(|xs|) + RecordsKey(xs), tail)) && |xs| < U32 && (forall i :: 0 <= i < |xs| ==> RecordReads(z, xs[i])) ==>
              rd.ok && r == xs && rd.Rest() == tail
  {
    hide RecordsKey, RecordKey, RecordReads, PutU32;
    ghost var good := rd.Sees(PutU32(|xs|) + RecordsKey(xs), tail) && |xs| < U32 && (forall i :: 0 <= i < |xs| ==> RecordReads(z, xs[i]));
    Regroup(PutU32(|xs|), RecordsKey(xs), tail);
    RecordsLong(xs);
    var n := rd.Count(|xs|, RecordsKey(xs) + tail);
    r := [];
    assert xs[0..] == xs;
    var i := 0;
    while rd.ok && i < n
      invariant rd.Valid() && rd.p >= old(rd.p) && (rd.ok ==> old(rd.ok)) && i <= n
      invariant good ==> rd.ok && n == |xs| && r == xs[..i] && rd.Rest() == RecordsKey(xs[i..]) + tail
      invariant rd.ok ==> forall j :: 0 <= j < |r| ==> RecordOk(z, r[j])
      decreases n - i
    {
      ghost var x, t := StoredContext(0, 0, 0, 0, 0, None, 0, 0, 0, NoSpec, false, true), "";
      if good {
        RecordsNext(xs, i, tail);
        x, t := xs[i], RecordsKey(xs[i + 1..]) + tail;
      }
      var v := ReadRecord(rd, z, x, t);
      r := r + [v];
      i := i + 1;
    }
    if good {
      RecordsEnds(xs, tail);
      assert xs[..|xs|] == xs;
    }
  }

  /** Step over an array of words. */
  method Skip(rd: Reader, n: nat, ghost xs: seq<nat>, ghost tail: string)
    requires rd.Valid()
    modifies rd`p, rd`ok
    ensures rd.Valid() && rd.p >= old(rd.p) && (rd.ok ==> old(rd.ok))
    ensures old(rd.Sees(Numbers(xs), tail)) && n == |xs| ==> rd.ok && rd.Rest() == tail
  {
    NumbersLength(xs);
    if rd.ok && n * 4 > |rd.data| - rd.p {
      rd.ok := false;
    }
    if rd.ok {
      assert rd.data[rd.p..][n * 4..] == rd.data[rd.p + n * 4..];
      assert (Numbers(xs) + tail)[4 * |xs|..] == tail;
      rd.p := rd.p + n * 4;
    }
  }

  lemma {:induction false} NumbersLength(xs: seq<nat>)
    ensures |Numbers(xs)| == 4 * |xs|
    decreases |xs|
  {
    if xs != [] {
      NumbersLength(xs[1..]);
    }
  }

  // ---- The whole section.

  /** The string table, with its length in bytes in front. */
  function StringBody(strings: seq<string>): string {
    PutU32(|strings|) + StringsKey(strings)
  }

  function SetPart(t: Tables): string {
    (PutU32(|t.scopes|) + ScopeTable(t.scopes)) + ((PutU32(|t.guards|) + GuardTable(t.guards)) + (PutU32(|t.locals|) + LocalTable(t.locals)))
  }

  /** The arrays only the mapped form reads. */
  function ArrayPart(m: Mapped): string {
    Numbers(OffsetsOf(m.strings) + m.sortedIds) + (Numbers(m.byCaller + m.byCallee)
    + ((PutU32(|m.byCallerDisplay|) + Numbers(m.byCallerDisplay)) + (PutU32(|m.byCalleeDisplay|) + Numbers(m.byCalleeDisplay))))
  }

  function FlowBytes(m: Mapped): string {
    PutU32(|StringBody(m.strings)|) + (StringBody(m.strings) + (SetPart(m.tables) + ((PutU32(|m.records|) + RecordsKey(m.records)) + ArrayPart(m))))
  }

  function SizesOf(m: Mapped): Sizes {
    Sizes(|m.strings|, |m.tables.scopes|, |m.tables.guards|, |m.tables.locals|)
  }

  /** Everything fits the 32-bit fields, and every string is text. */
  ghost predicate Writable(isText: string -> bool, m: Mapped) {
    && |m.strings| < U32 - 1 && StringsWritable(isText, m.strings)
    && SetsWritable(isText, |m.strings|, m.tables)
    && |m.records| < U32 && (forall i :: 0 <= i < |m.records| ==> RecordReads(SizesOf(m), m.records[i]))
    && ArraysMatch(|m.strings|, |m.records|, m)
  }

  ghost predicate ArraysMatch(strings: nat, records: nat, m: Mapped) {
    && |OffsetsOf(m.strings)| == |m.sortedIds| == strings && |m.byCaller| == |m.byCallee| == records
    && |m.byCallerDisplay| < U32 && |m.byCalleeDisplay| < U32
  }

  ghost predicate StringsWritable(isText: string -> bool, xs: seq<string>) {
    |xs| < U32 && |StringBody(xs)| < U32 && forall i :: 0 <= i < |xs| ==> TextFits(isText, xs[i])
  }

  ghost predicate SetsWritable(isText: string -> bool, n: nat, t: Tables) {
    && |t.scopes| < U32 && (forall i :: 0 <= i < |t.scopes| ==> ScopesRead(isText, t.scopes[i]))
    && |t.guards| < U32 && (forall i :: 0 <= i < |t.guards| ==> GuardsRead(isText, t.guards[i]))
    && |t.locals| < U32 && (forall i :: 0 <= i < |t.locals| ==> LocalsRead(n, t.locals[i]))
    && EmptyFirst(t.scopes) && EmptyFirst(t.guards) && EmptyFirst(t.locals)
  }

  /** The empty set is at index 0. */
  predicate EmptyFirst<X(==)>(sets: seq<seq<X>>) {
    |sets| > 0 && sets[0] == []
  }

  datatype LoadedFlow = LoadedFlow(
    strings: seq<string>, scopes: seq<seq<TryScope>>, guards: seq<seq<Guard>>, locals: seq<seq<StoredLocal>>, records: seq<StoredContext>)
  {
    function SetTables(): Tables {
      Tables(scopes, map[], guards, map[], locals, map[])
    }
  }

  /** The string table.  It must take exactly the bytes it announces. */
  method ReadStringTable(rd: Reader, ghost xs: seq<string>, ghost tail: string) returns (r: seq<string>)
    requires rd.Valid()
    modifies rd`p, rd`ok
    ensures rd.Valid() && rd.p >= old(rd.p) && (rd.ok ==> old(rd.ok))
    ensures old(rd.Sees(PutU32(|StringBody(xs)|) + StringBody(xs), tail)) && StringsWritable(rd.isText, xs) ==> rd.ok && r == xs && rd.Rest() == tail
  {
    hide StringsKey, TextFits, PutU32;
    Regroup(PutU32(|StringBody(xs)|), StringBody(xs), tail);
    Regroup(PutU32(|xs|), StringsKey(xs), tail);
    ghost var body := StringBody(xs);
    var tableBytes := rd.ReadU32(|body|, body + tail);
    var tableStart := rd.p;
    ghost var good := rd.ok && rd.Rest() == body + tail && tableBytes == |body|;
    var stringCount := rd.ReadU32(|xs|, StringsKey(xs) + tail);
    if rd.ok && (tableBytes < 4 || tableBytes > |rd.data| - tableStart) {
      rd.ok := false;
    }
    rd.p := tableStart;
    r := ReadStrings(rd, xs, tail);
    if rd.ok && rd.p != tableStart + tableBytes {
      rd.ok := false;
    }
  }

  method ReadSets(rd: Reader, n: nat, ghost t: Tables, ghost tail: string)
    returns (scopes: seq<seq<TryScope>>, guards: seq<seq<Guard>>, locals: seq<seq<StoredLocal>>)
    requires rd.Valid()
    modifies rd`p, rd`ok
    ensures rd.Valid() && rd.p >= old(rd.p) && (rd.ok ==> old(rd.ok))
    ensures rd.ok ==> EmptyFirst(scopes) && EmptyFirst(guards) && EmptyFirst(locals) && forall i :: 0 <= i < |locals| ==> LocalsNamed(n, locals[i])
    ensures old(rd.Sees(SetPart(t), tail)) && SetsWritable(rd.isText, n, t) ==>
              rd.ok && rd.Rest() == tail && scopes == t.scopes && guards == t.guards && locals == t.locals
  {
    hide ScopeTable, GuardTable, LocalTable, ScopesRead, GuardsRead, LocalsRead, PutU32;
    ghost var a, b, c := PutU32(|t.scopes|) + ScopeTable(t.scopes), PutU32(|t.guards|) + GuardTable(t.guards), PutU32(|t.locals|) + LocalTable(t.locals);
    Regroup(a, b + c, tail);
    Regroup(b, c, tail);
    scopes := ReadScopeSets(rd, t.scopes, (b + c) + tail);
    guards := ReadGuardSets(rd, t.guards, c + tail);
    locals := ReadLocalSets(rd, n, t.locals, tail);
    if !EmptyFirst(scopes) || !EmptyFirst(guards) || !EmptyFirst(locals) {
      rd.ok := false;
    }
  }

  method SkipArrays(rd: Reader, strings: nat, records: nat, ghost m: Mapped, ghost tail: string)
    requires rd.Valid()
    modifies rd`p, rd`ok
    ensures rd.Valid() && rd.p >= old(rd.p) && (rd.ok ==> old(rd.ok))
    ensures old(rd.Sees(ArrayPart(m), tail)) && ArraysMatch(strings, records, m) ==> rd.ok && rd.Rest() == tail
  {
    hide Numbers, PutU32;
    ghost var c, d := PutU32(|m.byCallerDisplay|) + Numbers(m.byCallerDisplay), PutU32(|m.byCalleeDisplay|) + Numbers(m.byCalleeDisplay);
    ghost var b := Numbers(m.byCaller + m.byCallee);
    ghost var offsets := OffsetsOf(m.strings);
    ghost var a := Numbers(offsets + m.sortedIds);
    Regroup(a, b + (c + d), tail);
    Regroup(b, c + d, tail);
    Regroup(c, d, tail);
    Regroup(PutU32(|m.byCallerDisplay|), Numbers(m.byCallerDisplay), d + tail);
    Regroup(PutU32(|m.byCalleeDisplay|), Numbers(m.byCalleeDisplay), tail);
    NumbersLength(m.byCallerDisplay);
    NumbersLength(m.byCalleeDisplay);
    Skip(rd, 2 * strings, offsets + m.sortedIds, (b + (c + d)) + tail);
    Skip(rd, 2 * records, m.byCaller + m.byCallee, (c + d) + tail);
    var n := rd.Count(|m.byCallerDisplay|, Numbers(m.byCallerDisplay) + (d + tail));
    Skip(rd, n, m.byCallerDisplay, d + tail);
    n := rd.Count(|m.byCalleeDisplay|, Numbers(m.byCalleeDisplay) + tail);
    Skip(rd, n, m.byCalleeDisplay, tail);
  }

  /** Load the section for an index that will be changed.  Whatever the bytes,
      an accepted load has only ids that mean something; the bytes a save emits
      give back what was saved, and are refused if anything follows them. */
  method LoadFlow(data: string, isText: string -> bool, ghost m: Mapped, ghost rest: string) returns (r: Option<LoadedFlow>)
    ensures r.Some? ==> EmptyFirst(r.value.scopes) && EmptyFirst(r.value.guards) && EmptyFirst(r.value.locals)
    ensures r.Some? ==> AllReadable(r.value.strings, r.value.SetTables(), r.value.records) && forall i :: 0 <= i < |r.value.records| ==> r.value.records[i].live
    ensures data == FlowBytes(m) + rest && Writable(isText, m) ==>
              r == if rest == "" then Some(LoadedFlow(m.strings, m.tables.scopes, m.tables.guards, m.tables.locals, m.records)) else None
  {
    hide StringBody, SetPart, ArrayPart, RecordsKey, PutU32, TextFits, SetsWritable, RecordReads, RecordOk;
    var rd := new Reader(data, isText);
    ghost var good := data == FlowBytes(m) + rest && Writable(isText, m);
    ghost var body := StringBody(m.strings);
    ghost var records := PutU32(|m.records|) + RecordsKey(m.records);
    ghost var sets, arrays := SetPart(m.tables), ArrayPart(m);
    ghost var k2 := arrays + rest;
    ghost var k1 := records + k2;
    FlowParts(m, rest);
    assert good ==> rd.Sees(PutU32(|body|) + body, sets + k1);
    var strings := ReadStringTable(rd, m.strings, sets + k1);
    if !rd.ok {
      return None;
    }
    var n := |strings|;
    var scopes, guards, locals := ReadSets(rd, n, m.tables, k1);
    var z := Sizes(n, |scopes|, |guards|, |locals|);
    var rs := ReadRecords(rd, z, m.records, k2);
    SkipArrays(rd, n, |rs|, m, rest);
    if !rd.ok || rd.p != |data| {
      return None;
    }
    r := Some(LoadedFlow(strings, scopes, guards, locals, rs));
    LoadedReadable(r.value, z);
  }

  lemma FlowParts(m: Mapped, rest: string)
    ensures FlowBytes(m) + rest ==
            (PutU32(|StringBody(m.strings)|) + StringBody(m.strings)) + (SetPart(m.tables) + ((PutU32(|m.records|) + RecordsKey(m.records)) + (ArrayPart(m) + rest)))
  {
    hide StringBody, SetPart, ArrayPart, RecordsKey, PutU32;
    var a, b, c := PutU32(|StringBody(m.strings)|), StringBody(m.strings), SetPart(m.tables);
    var d, e := PutU32(|m.records|) + RecordsKey(m.records), ArrayPart(m);
    Regroup(a, b + (c + (d + e)), rest);
    Regroup(b, c + (d + e), rest);
    Regroup(c, d + e, rest);
    Regroup(d, e, rest);
    Regroup(a, b, c + (d + (e + rest)));
  }

  lemma LoadedReadable(l: LoadedFlow, z: Sizes)
    requires z == Sizes(|l.strings|, |l.scopes|, |l.guards|, |l.locals|)
    requires forall i :: 0 <= i < |l.records| ==> RecordOk(z, l.records[i])
    requires forall i :: 0 <= i < |l.locals| ==> LocalsNamed(|l.strings|, l.locals[i])
    ensures AllReadable(l.strings, l.SetTables(), l.records) && forall i :: 0 <= i < |l.records| ==> l.records[i].live
  {
  }

  // ---- Installing what was loaded.

  /** Rebuild the key map of a table.  The sets are distinct and nonempty but the first. */
  method RebuildIds<X(==, !new)>(sets: seq<seq<X>>, key: seq<X> -> string, ghost fits: seq<X> -> bool) returns (ids: map<string, nat>)
    requires EmptyFirst(sets) && KeyInjective(key, fits)
    requires forall i :: 0 < i < |sets| ==> sets[i] != [] && fits(sets[i])
    requires forall i, j :: 0 < i < j < |sets| ==> sets[i] != sets[j]
    ensures TableOk(sets, ids, key, fits)
  {
    ids := map[];
    for i := 1 to |sets|
      invariant forall j :: 0 < j < i ==> key(sets[j]) in ids && ids[key(sets[j])] == j
      invariant forall k :: k in ids ==> 0 < ids[k] < i && key(sets[ids[k]]) == k
    {
      KeyIsNew(sets, ids, key, fits, i);
      ids := ids[key(sets[i]) := i];
    }
  }

  lemma KeyIsNew<X(!new)>(sets: seq<seq<X>>, ids: map<string, nat>, key: seq<X> -> string, fits: seq<X> -> bool, i: nat)
    requires KeyInjective(key, fits) && 0 < i < |sets|
    requires forall j :: 0 < j < |sets| ==> fits(sets[j])
    requires forall a, b :: 0 < a < b < |sets| ==> sets[a] != sets[b]
    requires forall k :: k in ids ==> 0 < ids[k] < i && key(sets[ids[k]]) == k
    ensures key(sets[i]) !in ids
  {
  }

  /** The loaded tables are tables of a valid index. */
  ghost predicate Installable(l: LoadedFlow) {
    && Injective(l.strings) && |l.strings| < U32
    && TablesInstallable(l.scopes, FitScopes()) && TablesInstallable(l.guards, FitGuards()) && TablesInstallable(l.locals, FitLocals())
    && (forall i :: 0 <= i < |l.locals| ==> LocalsNamed(|l.strings|, l.locals[i]))
    && AllReadable(l.strings, l.SetTables(), l.records) && forall i :: 0 <= i < |l.records| ==> l.records[i].live
  }

  ghost predicate TablesInstallable<X(!new)>(sets: seq<seq<X>>, fits: seq<X> -> bool) {
    && |sets| > 0 && sets[0] == [] && (forall i :: 0 < i < |sets| ==> sets[i] != [] && fits(sets[i]))
    && (forall i, j :: 0 < i < j < |sets| ==> sets[i] != sets[j])
  }

  method BuildTables(l: LoadedFlow) returns (t: Tables)
    requires Installable(l)
    ensures TablesOk(|l.strings|, t) && t.scopes == l.scopes && t.guards == l.guards && t.locals == l.locals
  {
    hide Injective, TablesInstallable, AllReadable, TableOk, KeyInjective, FitScopes, FitGuards, FitLocals, ScopeSetKey, GuardSetKey, LocalSetKey;
    KeysInjective();
    InstallableSets(l.scopes, FitScopes());
    InstallableSets(l.guards, FitGuards());
    InstallableSets(l.locals, FitLocals());
    var scopeIds := RebuildIds(l.scopes, ScopeSetKey, FitScopes());
    var guardIds := RebuildIds(l.guards, GuardSetKey, FitGuards());
    var localIds := RebuildIds(l.locals, LocalSetKey, FitLocals());
    t := Tables(l.scopes, scopeIds, l.guards, guardIds, l.locals, localIds);
  }

  method InstallFlow(l: LoadedFlow) returns (ix: ControlFlowIndex)
    requires Installable(l)
    ensures fresh(ix) && ix.Valid() && ix.strings == l.strings && ix.contexts == l.records
    ensures ix.tables.scopes == l.scopes && ix.tables.guards == l.guards && ix.tables.locals == l.locals
  {
    hide Injective, TablesInstallable, AllReadable, Readable, TablesOk, ControlFlowIndex.Valid, EntryOf;
    var t := BuildTables(l);
    ix := NewIndex(l.strings, t);
    for i := 0 to |l.records|
      invariant ix.Valid() && fresh(ix) && ix.strings == l.strings && ix.contexts == l.records[..i] && ix.tables == t
    {
      SameReadable(l.strings, l.SetTables(), t, l.records, i);
      ix.InsertStored(l.records[i]);
    }
  }

  /** An index with the given tables and no contexts. */
  method NewIndex(strings: seq<string>, t: Tables) returns (ix: ControlFlowIndex)
    requires Injective(strings) && |strings| < U32 && TablesOk(|strings|, t)
    ensures fresh(ix) && ix.Valid() && ix.strings == strings && ix.tables == t && ix.contexts == []
  {
    hide Injective, TablesOk, Entries, AllListed, LiveWhere;
    ix := new ControlFlowIndex();
    NoContexts(ix);
    ix.strings := strings;
    ix.tables := t;
    NoEntries(strings, t);
  }

  lemma NoContexts(ix: ControlFlowIndex)
    requires ix.Valid() && ix.Contents() == [] && ix.contexts == []
    ensures AllListed([], ix.lookup) && ix.noProvenance == LiveWhere([], 0, ByTu, None) && ix.liveCount == 0
  {
  }

  lemma InstallableSets<X(!new)>(sets: seq<seq<X>>, fits: seq<X> -> bool)
    requires TablesInstallable(sets, fits)
    ensures |sets| > 0 && sets[0] == [] && (forall i :: 0 < i < |sets| ==> sets[i] != [] && fits(sets[i]))
    ensures forall i, j :: 0 < i < j < |sets| ==> sets[i] != sets[j]
  {
  }

  lemma SameReadable(strings: seq<string>, t: Tables, t': Tables, cs: seq<StoredContext>, i: nat)
    requires AllReadable(strings, t, cs) && i < |cs| && t.scopes == t'.scopes && t.guards == t'.guards && t.locals == t'.locals
    ensures Readable(strings, t', cs[i])
  {
  }

  // ---- Save, then load.

  /** What was saved can be installed. */
  lemma SavedInstallable(ix: ControlFlowIndex, m: Mapped)
    requires ix.Valid() && IsImage(m, ix.strings, ix.tables, ix.contexts)
    ensures Installable(LoadedFlow(m.strings, m.tables.scopes, m.tables.guards, m.tables.locals, m.records))
  {
    hide Readable, Entries, LiveWhere, AllListed, IsImage, ScopeSetKey, GuardSetKey, LocalSetKey;
    RecordsLive(m, ix.strings, ix.tables, ix.contexts);
    ImageTables(m, ix.strings, ix.tables, ix.contexts);
    var l := LoadedFlow(m.strings, m.tables.scopes, m.tables.guards, m.tables.locals, m.records);
    forall i | 0 <= i < |l.records| ensures Readable(l.strings, l.SetTables(), l.records[i]) {
      SameReadable(m.strings, m.tables, l.SetTables(), m.records, i);
    }
    DistinctSets(m.tables.scopes, m.tables.scopeIds, ScopeSetKey, FitScopes());
    DistinctSets(m.tables.guards, m.tables.guardIds, GuardSetKey, FitGuards());
    DistinctSets(m.tables.locals, m.tables.localIds, LocalSetKey, FitLocals());
  }

  lemma ImageTables(m: Mapped, strings: seq<string>, t: Tables, cs: seq<StoredContext>)
    requires IsImage(m, strings, t, cs)
    ensures m.strings == strings && m.tables == t
  {
  }

  lemma DistinctSets<X(!new)>(sets: seq<seq<X>>, ids: map<string, nat>, key: seq<X> -> string, fits: seq<X> -> bool)
    requires TableOk(sets, ids, key, fits)
    ensures TablesInstallable(sets, fits)
  {
  }

  // ---- The order of a saved index.

  lemma {:induction false} WithKeyConcat(a: seq<nat>, b: seq<nat>, keyOf: nat -> nat, k: nat)
    ensures WithKey(a + b, keyOf, k) == WithKey(a, keyOf, k) + WithKey(b, keyOf, k)
    decreases |b|
  {
    if b == [] {
      assert a + b == a;
    } else {
      hide WithKey;
      var most, last := b[..|b| - 1], b[|b| - 1];
      assert a + b == (a + most) + [last] && b == most + [last];
      WithKeyConcat(a, most, keyOf, k);
      WithKeySnoc(a + most, last, keyOf, k);
      WithKeySnoc(most, last, keyOf, k);
    }
  }

  lemma {:induction false} WithKeyTwice(items: seq<nat>, keyOf: nat -> nat, j: nat, k: nat)
    ensures WithKey(WithKey(items, keyOf, j), keyOf, k) == if j == k then WithKey(items, keyOf, k) else []
    decreases |items|
  {
    if items != [] {
      hide WithKey;
      var most, last := items[..|items| - 1], items[|items| - 1];
      Split(items);
      WithKeyTwice(most, keyOf, j, k);
      WithKeySnoc(most, last, keyOf, j);
      WithKeySnoc(most, last, keyOf, k);
      WithKeySnoc(WithKey(most, keyOf, j), last, keyOf, k);
    }
  }

  /** Sorting is stable: it keeps the order within each key. */
  lemma {:induction false} SortKeepsOrder(items: seq<nat>, keyOf: nat -> nat, n: nat, k: nat)
    ensures WithKey(Grouped(items, keyOf, n), keyOf, k) == if k < n then WithKey(items, keyOf, k) else []
  {
    hide WithKey, Grouped;
    if n == 0 {
      NothingGrouped(items, keyOf, k);
    } else {
      GroupedStep(items, keyOf, n);
      SortKeepsOrder(items, keyOf, n - 1, k);
      var a, b := Grouped(items, keyOf, n - 1), WithKey(items, keyOf, n - 1);
      WithKeyConcat(a, b, keyOf, k);
      WithKeyTwice(items, keyOf, n - 1, k);
      JoinOne(WithKey(a, keyOf, k), WithKey(b, keyOf, k));
    }
  }

  lemma NothingGrouped(items: seq<nat>, keyOf: nat -> nat, k: nat)
    ensures WithKey(Grouped(items, keyOf, 0), keyOf, k) == []
  {
  }

  lemma GroupedStep(items: seq<nat>, keyOf: nat -> nat, n: nat)
    requires n > 0
    ensures Grouped(items, keyOf, n) == Grouped(items, keyOf, n - 1) + WithKey(items, keyOf, n - 1)
  {
  }

  lemma JoinOne(a: seq<nat>, b: seq<nat>)
    ensures a == [] ==> a + b == b
    ensures b == [] ==> a + b == a
  {
  }

  lemma {:induction false} PickAt(cs: seq<StoredContext>, ps: seq<nat>, id: Id)
    requires forall i :: 0 <= i < |ps| ==> ps[i] < |cs| && cs[ps[i]].live
    ensures forall i :: 0 <= i < |WithKey(ps, KeyFn(cs, BySite), id)| ==> WithKey(ps, KeyFn(cs, BySite), id)[i] < |cs|
    ensures Pick(At(cs, ps), BySite, id) == At(cs, WithKey(ps, KeyFn(cs, BySite), id))
    decreases |ps|
  {
    if ps != [] {
      var most, p := ps[..|ps| - 1], ps[|ps| - 1];
      Split(ps);
      PickSnoc(At(cs, most), cs[p], BySite, id);
      hide WithKey, Pick, At;
      PickAt(cs, most, id);
      WithKeySnoc(most, p, KeyFn(cs, BySite), id);
      AtOneMore(cs, most, p);
      AtOneMore(cs, WithKey(most, KeyFn(cs, BySite), id), p);
    }
  }

  lemma PickSnoc(xs: seq<StoredContext>, x: StoredContext, s: Selector, id: Id)
    ensures Pick(xs + [x], s, id) == if x.live && KeyIn(s, x) == Some(id) then Pick(xs, s, id) + [x] else Pick(xs, s, id)
  {
    assert (xs + [x])[..|xs|] == xs;
  }

  lemma AtOneMore(cs: seq<StoredContext>, ps: seq<nat>, p: nat)
    requires p < |cs| && forall i :: 0 <= i < |ps| ==> ps[i] < |cs|
    ensures At(cs, ps + [p]) == At(cs, ps) + [cs[p]]
  {
  }

  /** A site's contexts are saved in their order. */
  lemma SitesKept(m: Mapped, strings: seq<string>, t: Tables, cs: seq<StoredContext>, id: Id)
    requires IsImage(m, strings, t, cs) && id < |strings|
    ensures Pick(m.records, BySite, id) == Pick(cs, BySite, id)
  {
    hide Grouped, Items, Readable, IdsSorted, LiveWhere, Pick, WithKey;
    var items, keyOf := Items(cs, |cs|, BySite), KeyFn(cs, BySite);
    var order := Order(cs, BySite, |strings|);
    RecordsLive(m, strings, t, cs);
    forall i | 0 <= i < |order| ensures order[i] < |cs| && cs[order[i]].live {
      assert m.records[i] == cs[order[i]];
    }
    PickAt(cs, order, id);
    SortKeepsOrder(items, keyOf, |strings|, id);
    SelectItems(cs, |cs|, BySite, id);
    LiveWherePick(cs, |cs|, BySite, id);
    assert cs[..|cs|] == cs;
  }

  lemma {:induction false} EntriesPermuted(strings: seq<string>, t: Tables, a: seq<StoredContext>, b: seq<StoredContext>)
    requires AllReadable(strings, t, a) && AllReadable(strings, t, b) && multiset(a) == multiset(b) && forall i :: 0 <= i < |a| ==> a[i].live
    ensures multiset(Entries(strings, t, a)) == multiset(Entries(strings, t, b))
    decreases |a|
  {
    if a == [] {
      assert |multiset(b)| == 0;
      assert b == [];
    } else {
      hide Readable, EntryOf, Entries;
      var last, most := a[|a| - 1], a[..|a| - 1];
      var i := TakeOut(a, b);
      Split(a);
      assert AllReadable(strings, t, b[..i]) && AllReadable(strings, t, b[i + 1..]) && AllReadable(strings, t, b[..i] + b[i + 1..]);
      assert last == b[i];
      EntriesPermuted(strings, t, most, b[..i] + b[i + 1..]);
      EntriesSnoc(strings, t, most, last);
      EntriesSnoc(strings, t, b[..i], last);
      EntriesConcat(strings, t, b[..i] + [last], b[i + 1..]);
      EntriesConcat(strings, t, b[..i], b[i + 1..]);
    }
  }

  lemma {:induction false} EntriesConcat(strings: seq<string>, t: Tables, a: seq<StoredContext>, b: seq<StoredContext>)
    requires AllReadable(strings, t, a) && AllReadable(strings, t, b)
    ensures AllReadable(strings, t, a + b) && Entries(strings, t, a + b) == Entries(strings, t, a) + Entries(strings, t, b)
    decreases |b|
  {
    if b == [] {
      assert a + b == a;
    } else {
      hide Readable, EntryOf, Entries;
      var last, most := b[|b| - 1], b[..|b| - 1];
      Split(b);
      assert a + b == (a + most) + [last];
      EntriesConcat(strings, t, a, most);
      EntriesSnoc(strings, t, a + most, last);
      EntriesSnoc(strings, t, most, last);
    }
  }

  lemma {:induction false} EntriesOfLive(strings: seq<string>, t: Tables, cs: seq<StoredContext>, n: nat)
    requires AllReadable(strings, t, cs) && n <= |cs|
    ensures forall i :: 0 <= i < |Items(cs, n, BySite)| ==> Items(cs, n, BySite)[i] < |cs|
    ensures AllReadable(strings, t, cs[..n]) && AllReadable(strings, t, At(cs, Items(cs, n, BySite)))
    ensures Entries(strings, t, At(cs, Items(cs, n, BySite))) == Entries(strings, t, cs[..n])
  {
    hide Readable, EntryOf, Entries;
    if n > 0 {
      EntriesOfLive(strings, t, cs, n - 1);
      assert cs[..n] == cs[..n - 1] + [cs[n - 1]];
      EntriesSnoc(strings, t, cs[..n - 1], cs[n - 1]);
      var rest := Items(cs, n - 1, BySite);
      if cs[n - 1].live {
        assert At(cs, rest + [n - 1]) == At(cs, rest) + [cs[n - 1]];
        EntriesSnoc(strings, t, At(cs, rest), cs[n - 1]);
      }
    } else {
      NoEntries(strings, t);
      assert cs[..0] == [] && At(cs, Items(cs, 0, BySite)) == [];
    }
  }

  /** The saved contexts are the live ones, up to order. */
  lemma ContentsKept(m: Mapped, strings: seq<string>, t: Tables, cs: seq<StoredContext>)
    requires IsImage(m, strings, t, cs)
    ensures AllReadable(strings, t, m.records) && multiset(Entries(strings, t, m.records)) == multiset(Entries(strings, t, cs))
  {
    hide Grouped, Items, Readable, IdsSorted, Entries;
    RecordsLive(m, strings, t, cs);
    EntriesOfLive(strings, t, cs, |cs|);
    assert cs[..|cs|] == cs;
    var order, items := Order(cs, BySite, |strings|), Items(cs, |cs|, BySite);
    AtPermuted(cs, order, items);
    EntriesPermuted(strings, t, m.records, At(cs, items));
  }

  // ---- The round trip.

  /** The loaded index gives the same answers for every site, holds the same
      contexts, and has the same tables. */
  ghost predicate Recovered(ix: ControlFlowIndex, again: ControlFlowIndex)
    reads ix, again
    requires ix.Valid() && again.Valid()
  {
    && again.strings == ix.strings && again.tables.scopes == ix.tables.scopes && again.tables.guards == ix.tables.guards && again.tables.locals == ix.tables.locals
    && multiset(again.Contents()) == multiset(ix.Contents())
    && (forall site :: AtSite(again.strings, again.tables, again.contexts, site) == AtSite(ix.strings, ix.tables, ix.contexts, site))
    && (forall i :: 0 <= i < |again.contexts| ==> again.contexts[i].live)
  }

  /** The index fits the format. */
  ghost predicate Fits(ix: ControlFlowIndex, isText: string -> bool)
    reads ix
  {
    && |ix.strings| < U32 - 1 && StringsWritable(isText, ix.strings) && SetsWritable(isText, |ix.strings|, ix.tables)
    && |ix.contexts| < U32
  }

  lemma SavedWritable(ix: ControlFlowIndex, m: Mapped, isText: string -> bool)
    requires ix.Valid() && Fits(ix, isText) && IsImage(m, ix.strings, ix.tables, ix.contexts)
    ensures Writable(isText, m)
  {
    hide Entries, LiveWhere, AllListed, StringsWritable, SetsWritable, TablesOk, Grouped, Items, CO.TextLess;
    RecordsLive(m, ix.strings, ix.tables, ix.contexts);
    OffsetsLength(m.strings);
    ItemsAtMost(ix.contexts, |ix.contexts|, BySite);
    assert |multiset(Order(ix.contexts, BySite, |ix.strings|))| == |Order(ix.contexts, BySite, |ix.strings|)|;
    assert |multiset(Items(ix.contexts, |ix.contexts|, BySite))| == |Items(ix.contexts, |ix.contexts|, BySite)|;
    OrderSize(m, ix.strings, ix.tables, ix.contexts, ByCaller);
    OrderSize(m, ix.strings, ix.tables, ix.contexts, ByCallee);
    OrderSize(m, ix.strings, ix.tables, ix.contexts, ByCallerDisplay);
    OrderSize(m, ix.strings, ix.tables, ix.contexts, ByCalleeDisplay);
    forall i | 0 <= i < |m.records| ensures RecordReads(SizesOf(m), m.records[i]) {
      assert Readable(ix.strings, ix.tables, m.records[i]) && m.records[i].live;
      SizesSmall(isText, |ix.strings|, ix.tables);
    }
  }

  lemma SizesSmall(isText: string -> bool, n: nat, t: Tables)
    requires SetsWritable(isText, n, t)
    ensures |t.scopes| < U32 && |t.guards| < U32 && |t.locals| < U32
  {
  }

  lemma {:induction false} ItemsAtMost(xs: seq<StoredContext>, n: nat, s: Selector)
    requires n <= |xs|
    ensures |Items(xs, n, s)| <= n
    ensures (forall i :: 0 <= i < n ==> xs[i].live) && (s == ByCaller || s == ByCallee) ==> |Items(xs, n, s)| == n
  {
    if n > 0 {
      ItemsAtMost(xs, n - 1, s);
    }
  }

  lemma OrderSize(m: Mapped, strings: seq<string>, t: Tables, cs: seq<StoredContext>, s: Selector)
    requires IsImage(m, strings, t, cs)
    ensures |Order(m.records, s, |strings|)| <= |m.records|
    ensures s == ByCaller || s == ByCallee ==> |Order(m.records, s, |strings|)| == |m.records|
  {
    hide Grouped, Items, Readable, IdsSorted, KeysBelow;
    RecordsLive(m, strings, t, cs);
    ReadableKeys(strings, t, m.records);
    var items, keyOf := Items(m.records, |m.records|, s), KeyFn(m.records, s);
    forall i | 0 <= i < |items| ensures keyOf(items[i]) < |strings| {
      ItemsInRange(m.records, |m.records|, s, i);
      KeyBelow(m.records, |strings|, items[i], s);
    }
    GroupedIsAll(items, keyOf, |strings|);
    ItemsAtMost(m.records, |m.records|, s);
  }

  /** Save an index, emit it, load the bytes and install them. */
  method RoundTrip(ix: ControlFlowIndex, isText: string -> bool) returns (again: Option<ControlFlowIndex>)
    requires ix.Valid() && Fits(ix, isText)
    ensures again.Some? && again.value.Valid() && Recovered(ix, again.value)
  {
    hide IsImage, Writable, FlowBytes, Installable, Entries, AllListed, LiveWhere, Fits, AtSite, TablesOk, Injective, Readable;
    var m := Save(ix);
    SavedWritable(ix, m, isText);
    var bytes := FlowBytes(m);
    assert bytes + "" == bytes;
    var loaded := LoadFlow(bytes, isText, m, "");
    SavedInstallable(ix, m);
    var installed := InstallFlow(loaded.value);
    ImageTables(m, ix.strings, ix.tables, ix.contexts);
    SameAnswers(ix, installed, m);
    again := Some(installed);
  }

  lemma SameAnswers(ix: ControlFlowIndex, again: ControlFlowIndex, m: Mapped)
    requires ix.Valid() && again.Valid() && IsImage(m, ix.strings, ix.tables, ix.contexts)
    requires again.strings == ix.strings && again.contexts == m.records
    requires again.tables.scopes == ix.tables.scopes && again.tables.guards == ix.tables.guards && again.tables.locals == ix.tables.locals
    ensures Recovered(ix, again)
  {
    hide IsImage, Entries, AllListed, LiveWhere, TablesOk, Injective, Readable, Pick, Values, Find;
    ContentsKept(m, ix.strings, ix.tables, ix.contexts);
    RecordsLive(m, ix.strings, ix.tables, ix.contexts);
    SameEntries(ix.strings, ix.tables, again.tables, m.records);
    forall site ensures AtSite(again.strings, again.tables, again.contexts, site) == AtSite(ix.strings, ix.tables, ix.contexts, site) {
      var id := Find(ix.strings, site);
      if id.Some? {
        SitesKept(m, ix.strings, ix.tables, ix.contexts, id.value);
        PickReadable(ix.strings, ix.tables, ix.contexts, BySite, id.value);
        SameValues(ix.strings, ix.tables, again.tables, Pick(ix.contexts, BySite, id.value));
      }
    }
  }

  lemma {:induction false} SameEntries(strings: seq<string>, t: Tables, t': Tables, cs: seq<StoredContext>)
    requires AllReadable(strings, t, cs) && t.scopes == t'.scopes && t.guards == t'.guards && t.locals == t'.locals
    ensures AllReadable(strings, t', cs) && Entries(strings, t', cs) == Entries(strings, t, cs)
    decreases |cs|
  {
    if cs != [] {
      SameEntries(strings, t, t', cs[..|cs| - 1]);
      SameReadable(strings, t, t', cs, |cs| - 1);
    }
  }

  lemma SameValues(strings: seq<string>, t: Tables, t': Tables, cs: seq<StoredContext>)
    requires AllReadable(strings, t, cs) && t.scopes == t'.scopes && t.guards == t'.guards && t.locals == t'.locals
    ensures AllReadable(strings, t', cs) && Values(strings, t', cs) == Values(strings, t, cs)
  {
    forall i | 0 <= i < |cs| ensures Readable(strings, t', cs[i]) && Materialize(strings, t', cs[i]) == Materialize(strings, t, cs[i]) {
      SameReadable(strings, t, t', cs, i);
    }
  }

  // ---- String offsets.

  /** Where each string's entry starts. */
  function OffsetsOf(xs: seq<string>): seq<nat> {
    if xs == [] then [] else OffsetsOf(xs[..|xs| - 1]) + [|StringsKey(xs[..|xs| - 1])|]
  }

  lemma {:induction false} OffsetsLength(xs: seq<string>)
    ensures |OffsetsOf(xs)| == |xs|
    decreases |xs|
  {
    if xs != [] {
      OffsetsLength(xs[..|xs| - 1]);
    }
  }

  lemma {:induction false} StringsConcat(a: seq<string>, b: seq<string>)
    ensures StringsKey(a + b) == StringsKey(a) + StringsKey(b)
    decreases |a|
  {
    if a == [] {
      assert a + b == b;
    } else {
      hide PutLenStr;
      StringsConcat(a[1..], b);
      assert (a + b)[1..] == a[1..] + b;
      Regroup(PutLenStr(a[0]), StringsKey(a[1..]), StringsKey(b));
    }
  }

  lemma {:induction false} OffsetAt(xs: seq<string>, i: nat)
    requires i < |xs|
    ensures |OffsetsOf(xs)| == |xs| && OffsetsOf(xs)[i] == |StringsKey(xs[..i])|
    decreases |xs|
  {
    hide StringsKey;
    OffsetsLength(xs);
    OffsetsLength(xs[..|xs| - 1]);
    if i < |xs| - 1 {
      OffsetAt(xs[..|xs| - 1], i);
      assert xs[..|xs| - 1][..i] == xs[..i];
    }
  }

  /** Reading the table at a string's offset gives that string. */
  lemma OffsetFinds(xs: seq<string>, i: nat)
    requires i < |xs|
    ensures |OffsetsOf(xs)| == |xs| && OffsetsOf(xs)[i] <= |StringsKey(xs)|
    ensures StringsKey(xs)[OffsetsOf(xs)[i]..] == PutLenStr(xs[i]) + StringsKey(xs[i + 1..])
  {
    hide StringsKey, OffsetsOf, PutLenStr;
    OffsetAt(xs, i);
    StringsConcat(xs[..i], xs[i..]);
    Halves(xs, i);
    FirstEntry(xs, i);
    DropFront(StringsKey(xs[..i]), StringsKey(xs[i..]));
  }

  lemma Halves<X>(xs: seq<X>, i: nat)
    requires i <= |xs|
    ensures xs[..i] + xs[i..] == xs
  {
  }

  lemma DropFront(a: string, b: string)
    ensures (a + b)[|a|..] == b
  {
  }

  lemma FirstEntry(xs: seq<string>, i: nat)
    requires i < |xs|
    ensures StringsKey(xs[i..]) == PutLenStr(xs[i]) + StringsKey(xs[i + 1..])
  {
    hide PutLenStr;
    assert xs[i..][1..] == xs[i + 1..];
  }
}
