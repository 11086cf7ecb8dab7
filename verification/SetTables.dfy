/** The shared set tables of the control-flow index: try scopes, guards and
    RAII locals are stored once per distinct set and found by a canonical key.
    The keys are injective, so two contexts share a set id exactly if their
    sets are equal. */
module SetTables {
  import opened FlowTypes
  import opened Codec

  /** An RAII local with interned strings. */
  datatype StoredLocal = StoredLocal(typeName: nat, varName: nat, declLocation: nat, kind: RaiiKind)

  // ---- The keys.

  function HandlerKey(h: Handler): string {
    PutLenStr(h.caughtType) + (PutFlag(h.isCatchAll) + (PutFlag(h.rethrows) + (PutLenStr(h.location) + PutLenStr(h.bodySummary))))
  }

  function HandlersKey(hs: seq<Handler>): string {
    if hs == [] then "" else HandlerKey(hs[0]) + HandlersKey(hs[1..])
  }

  function ScopeKey(s: TryScope): string {
    PutLenStr(s.tryLocation) + (PutLenStr(s.enclosingFunction) + (PutU32(s.nestingDepth) + (PutU32(|s.handlers|) + HandlersKey(s.handlers))))
  }

  function ScopeSetKey(ss: seq<TryScope>): string {
    if ss == [] then "" else ScopeKey(ss[0]) + ScopeSetKey(ss[1..])
  }

  function GuardKey(g: Guard): string {
    PutLenStr(g.conditionText) + (PutLenStr(g.location) + (PutFlag(g.inTrueBranch) + PutFlag(g.isAssertion)))
  }

  function GuardSetKey(gs: seq<Guard>): string {
    if gs == [] then "" else GuardKey(gs[0]) + GuardSetKey(gs[1..])
  }

  function PutKind(k: RaiiKind): (r: string)
    ensures |r| == 1
  {
    match k
    case Lock => [0 as char]
    case SmartPtr => [1 as char]
    case Other => [2 as char]
  }

  function LocalKey(l: StoredLocal): string {
    PutU32(l.typeName) + (PutU32(l.varName) + (PutU32(l.declLocation) + PutKind(l.kind)))
  }

  function LocalSetKey(ls: seq<StoredLocal>): string {
    if ls == [] then "" else LocalKey(ls[0]) + LocalSetKey(ls[1..])
  }

  // ---- What fits the 32-bit lengths.

  predicate Short(s: string) {
    |s| < U32
  }

  predicate HandlerFits(h: Handler) {
    Short(h.caughtType) && Short(h.location) && Short(h.bodySummary)
  }

  ghost predicate ScopeFits(s: TryScope) {
    Short(s.tryLocation) && Short(s.enclosingFunction) && s.nestingDepth < U32 && |s.handlers| < U32 &&
    forall i :: 0 <= i < |s.handlers| ==> HandlerFits(s.handlers[i])
  }

  ghost predicate ScopesFit(ss: seq<TryScope>) {
    forall i :: 0 <= i < |ss| ==> ScopeFits(ss[i])
  }

  ghost predicate GuardsFit(gs: seq<Guard>) {
    forall i :: 0 <= i < |gs| ==> Short(gs[i].conditionText) && Short(gs[i].location)
  }

  ghost predicate LocalsFit(ls: seq<StoredLocal>) {
    forall i :: 0 <= i < |ls| ==> ls[i].typeName < U32 && ls[i].varName < U32 && ls[i].declLocation < U32
  }

  // ---- The keys are uniquely decodable.

  lemma Regroup(a: string, b: string, r: string)
    ensures (a + b) + r == a + (b + r)
  {
  }

  lemma HandlerApart(a: Handler, b: Handler, r: string, s: string)
    requires HandlerFits(a) && HandlerFits(b) && HandlerKey(a) + r == HandlerKey(b) + s
    ensures a == b && r == s
  {
    hide PutLenStr, PutFlag;
    var a4, b4 := PutLenStr(a.bodySummary), PutLenStr(b.bodySummary);
    var a3, b3 := PutLenStr(a.location) + a4, PutLenStr(b.location) + b4;
    var a2, b2 := PutFlag(a.rethrows) + a3, PutFlag(b.rethrows) + b3;
    var a1, b1 := PutFlag(a.isCatchAll) + a2, PutFlag(b.isCatchAll) + b2;
    Regroup(PutLenStr(a.caughtType), a1, r); Regroup(PutLenStr(b.caughtType), b1, s);
    StrApart(a.caughtType, b.caughtType, a1 + r, b1 + s);
    Regroup(PutFlag(a.isCatchAll), a2, r); Regroup(PutFlag(b.isCatchAll), b2, s);
    FlagApart(a.isCatchAll, b.isCatchAll, a2 + r, b2 + s);
    Regroup(PutFlag(a.rethrows), a3, r); Regroup(PutFlag(b.rethrows), b3, s);
    FlagApart(a.rethrows, b.rethrows, a3 + r, b3 + s);
    Regroup(PutLenStr(a.location), a4, r); Regroup(PutLenStr(b.location), b4, s);
    StrApart(a.location, b.location, a4 + r, b4 + s);
    StrApart(a.bodySummary, b.bodySummary, r, s);
  }

  lemma {:induction false} HandlersApart(a: seq<Handler>, b: seq<Handler>, r: string, s: string)
    requires |a| == |b| && (forall i :: 0 <= i < |a| ==> HandlerFits(a[i]) && HandlerFits(b[i]))
    requires HandlersKey(a) + r == HandlersKey(b) + s
    ensures a == b && r == s
    decreases |a|
  {
    if a == [] {
      assert HandlersKey(a) + r == r && HandlersKey(b) + s == s;
    } else {
      hide HandlerKey;
      Regroup(HandlerKey(a[0]), HandlersKey(a[1..]), r);
      Regroup(HandlerKey(b[0]), HandlersKey(b[1..]), s);
      HandlerApart(a[0], b[0], HandlersKey(a[1..]) + r, HandlersKey(b[1..]) + s);
      HandlersApart(a[1..], b[1..], r, s);
      assert a == [a[0]] + a[1..] && b == [b[0]] + b[1..];
    }
  }

  lemma ScopeApart(a: TryScope, b: TryScope, r: string, s: string)
    requires ScopeFits(a) && ScopeFits(b) && ScopeKey(a) + r == ScopeKey(b) + s
    ensures a == b && r == s
  {
    hide PutLenStr, PutU32, HandlersKey;
    var a4, b4 := HandlersKey(a.handlers), HandlersKey(b.handlers);
    var a3, b3 := PutU32(|a.handlers|) + a4, PutU32(|b.handlers|) + b4;
    var a2, b2 := PutU32(a.nestingDepth) + a3, PutU32(b.nestingDepth) + b3;
    var a1, b1 := PutLenStr(a.enclosingFunction) + a2, PutLenStr(b.enclosingFunction) + b2;
    Regroup(PutLenStr(a.tryLocation), a1, r); Regroup(PutLenStr(b.tryLocation), b1, s);
    StrApart(a.tryLocation, b.tryLocation, a1 + r, b1 + s);
    Regroup(PutLenStr(a.enclosingFunction), a2, r); Regroup(PutLenStr(b.enclosingFunction), b2, s);
    StrApart(a.enclosingFunction, b.enclosingFunction, a2 + r, b2 + s);
    Regroup(PutU32(a.nestingDepth), a3, r); Regroup(PutU32(b.nestingDepth), b3, s);
    U32Apart(a.nestingDepth, b.nestingDepth, a3 + r, b3 + s);
    Regroup(PutU32(|a.handlers|), a4, r); Regroup(PutU32(|b.handlers|), b4, s);
    U32Apart(|a.handlers|, |b.handlers|, a4 + r, b4 + s);
    HandlersApart(a.handlers, b.handlers, r, s);
  }

  lemma {:induction false} ScopeKeyInjective(a: seq<TryScope>, b: seq<TryScope>)
    requires ScopesFit(a) && ScopesFit(b) && ScopeSetKey(a) == ScopeSetKey(b)
    ensures a == b
    decreases |a|
  {
    hide ScopeKey, ScopeFits;
    if a != [] { ScopeKeyLong(a[0]); }
    if b != [] { ScopeKeyLong(b[0]); }
    if a != [] {
      assert b != [];
      ScopeApart(a[0], b[0], ScopeSetKey(a[1..]), ScopeSetKey(b[1..]));
      ScopeKeyInjective(a[1..], b[1..]);
      assert a == [a[0]] + a[1..] && b == [b[0]] + b[1..];
    }
  }

  lemma ScopeKeyLong(s: TryScope)
    ensures |ScopeKey(s)| > 0
  {
    assert |PutLenStr(s.tryLocation)| >= 4;
  }

  lemma GuardApart(a: Guard, b: Guard, r: string, s: string)
    requires Short(a.conditionText) && Short(a.location) && Short(b.conditionText) && Short(b.location)
    requires GuardKey(a) + r == GuardKey(b) + s
    ensures a == b && r == s
  {
    hide PutLenStr, PutFlag;
    var a3, b3 := PutFlag(a.isAssertion), PutFlag(b.isAssertion);
    var a2, b2 := PutFlag(a.inTrueBranch) + a3, PutFlag(b.inTrueBranch) + b3;
    var a1, b1 := PutLenStr(a.location) + a2, PutLenStr(b.location) + b2;
    Regroup(PutLenStr(a.conditionText), a1, r); Regroup(PutLenStr(b.conditionText), b1, s);
    StrApart(a.conditionText, b.conditionText, a1 + r, b1 + s);
    Regroup(PutLenStr(a.location), a2, r); Regroup(PutLenStr(b.location), b2, s);
    StrApart(a.location, b.location, a2 + r, b2 + s);
    Regroup(PutFlag(a.inTrueBranch), a3, r); Regroup(PutFlag(b.inTrueBranch), b3, s);
    FlagApart(a.inTrueBranch, b.inTrueBranch, a3 + r, b3 + s);
    FlagApart(a.isAssertion, b.isAssertion, r, s);
  }

  lemma {:induction false} GuardKeyInjective(a: seq<Guard>, b: seq<Guard>)
    requires GuardsFit(a) && GuardsFit(b) && GuardSetKey(a) == GuardSetKey(b)
    ensures a == b
    decreases |a|
  {
    hide GuardKey;
    if a != [] { GuardKeyLong(a[0]); }
    if b != [] { GuardKeyLong(b[0]); }
    if a != [] {
      assert b != [];
      GuardApart(a[0], b[0], GuardSetKey(a[1..]), GuardSetKey(b[1..]));
      GuardKeyInjective(a[1..], b[1..]);
      assert a == [a[0]] + a[1..] && b == [b[0]] + b[1..];
    }
  }

  lemma GuardKeyLong(g: Guard)
    ensures |GuardKey(g)| > 0
  {
    assert |PutLenStr(g.conditionText)| >= 4;
  }

  lemma LocalApart(a: StoredLocal, b: StoredLocal, r: string, s: string)
    requires a.typeName < U32 && a.varName < U32 && a.declLocation < U32
    requires b.typeName < U32 && b.varName < U32 && b.declLocation < U32
    requires LocalKey(a) + r == LocalKey(b) + s
    ensures a == b && r == s
  {
    hide PutU32;
    var a3, b3 := PutKind(a.kind), PutKind(b.kind);
    var a2, b2 := PutU32(a.declLocation) + a3, PutU32(b.declLocation) + b3;
    var a1, b1 := PutU32(a.varName) + a2, PutU32(b.varName) + b2;
    Regroup(PutU32(a.typeName), a1, r); Regroup(PutU32(b.typeName), b1, s);
    U32Apart(a.typeName, b.typeName, a1 + r, b1 + s);
    Regroup(PutU32(a.varName), a2, r); Regroup(PutU32(b.varName), b2, s);
    U32Apart(a.varName, b.varName, a2 + r, b2 + s);
    Regroup(PutU32(a.declLocation), a3, r); Regroup(PutU32(b.declLocation), b3, s);
    U32Apart(a.declLocation, b.declLocation, a3 + r, b3 + s);
    SplitFront(a3, b3, r, s);
    assert PutKind(a.kind)[0] == PutKind(b.kind)[0];
  }

  lemma {:induction false} LocalKeyInjective(a: seq<StoredLocal>, b: seq<StoredLocal>)
    requires LocalsFit(a) && LocalsFit(b) && LocalSetKey(a) == LocalSetKey(b)
    ensures a == b
    decreases |a|
  {
    hide LocalKey;
    if a != [] { LocalKeyLong(a[0]); }
    if b != [] { LocalKeyLong(b[0]); }
    if a != [] {
      assert b != [];
      LocalApart(a[0], b[0], LocalSetKey(a[1..]), LocalSetKey(b[1..]));
      LocalKeyInjective(a[1..], b[1..]);
      assert a == [a[0]] + a[1..] && b == [b[0]] + b[1..];
    }
  }

  lemma LocalKeyLong(l: StoredLocal)
    ensures |LocalKey(l)| > 0
  {
  }

  // ---- The tables.

  /** Set 0 is the empty set; every other set is nonempty and found by its key. */
  ghost predicate TableOk<X(!new)>(sets: seq<seq<X>>, ids: map<string, nat>, key: seq<X> -> string, fits: seq<X> -> bool) {
    && |sets| > 0 && sets[0] == []
    && (forall i :: 0 < i < |sets| ==> sets[i] != [] && fits(sets[i]) && key(sets[i]) in ids && ids[key(sets[i])] == i)
    && (forall k :: k in ids ==> 0 < ids[k] < |sets| && key(sets[ids[k]]) == k)
  }

  ghost predicate KeyInjective<X(!new)>(key: seq<X> -> string, fits: seq<X> -> bool) {
    forall a, b {:trigger key(a), key(b)} :: fits(a) && fits(b) && key(a) == key(b) ==> a == b
  }

  /** Sets are equal exactly if their ids are. */
  lemma TableCanonical<X(!new)>(sets: seq<seq<X>>, ids: map<string, nat>, key: seq<X> -> string, fits: seq<X> -> bool, i: nat, j: nat)
    requires TableOk(sets, ids, key, fits) && i < |sets| && j < |sets|
    ensures sets[i] == sets[j] <==> i == j
  {
  }

  /** The id of a set, adding it if it is new.  Known ids keep their meaning. */
  method InternSet<X(==, !new)>(sets: seq<seq<X>>, ids: map<string, nat>, k: string, s: seq<X>, ghost key: seq<X> -> string, ghost fits: seq<X> -> bool)
    returns (sets': seq<seq<X>>, ids': map<string, nat>, id: nat)
    requires TableOk(sets, ids, key, fits) && KeyInjective(key, fits) && fits(s) && (s != [] ==> k == key(s))
    ensures TableOk(sets', ids', key, fits) && sets <= sets'
    ensures id < |sets'| && sets'[id] == s
    ensures (exists i :: 0 <= i < |sets| && sets[i] == s) ==> sets' == sets
    ensures sets' == sets || (sets' == sets + [s] && id == |sets|)
  {
    sets', ids', id := sets, ids, 0;
    if s == [] {
      return;
    }
    if k in ids {
      id := ids[k];
      assert fits(sets[id]) && key(sets[id]) == key(s);
    } else {
      id := |sets|;
      NotStored(sets, ids, key, fits, s);
      sets', ids' := sets + [s], ids[k := id];
      TableAppend(sets, ids, key, fits, s);
    }
  }

  lemma NotStored<X(!new)>(sets: seq<seq<X>>, ids: map<string, nat>, key: seq<X> -> string, fits: seq<X> -> bool, s: seq<X>)
    requires TableOk(sets, ids, key, fits) && s != [] && key(s) !in ids
    ensures forall i :: 0 <= i < |sets| ==> sets[i] != s
  {
  }

  lemma TableAppend<X(!new)>(sets: seq<seq<X>>, ids: map<string, nat>, key: seq<X> -> string, fits: seq<X> -> bool, s: seq<X>)
    requires TableOk(sets, ids, key, fits) && s != [] && fits(s) && key(s) !in ids
    ensures TableOk(sets + [s], ids[key(s) := |sets|], key, fits)
  {
  }

  // ---- The three keys.

  ghost function FitScopes(): seq<TryScope> -> bool {
    s => ScopesFit(s)
  }

  ghost function FitGuards(): seq<Guard> -> bool {
    s => GuardsFit(s)
  }

  ghost function FitLocals(): seq<StoredLocal> -> bool {
    s => LocalsFit(s)
  }

  /** Each of the three keys determines its set. */
  lemma KeysInjective()
    ensures KeyInjective(ScopeSetKey, FitScopes()) && KeyInjective(GuardSetKey, FitGuards()) && KeyInjective(LocalSetKey, FitLocals())
  {
    forall a, b | FitScopes()(a) && FitScopes()(b) && ScopeSetKey(a) == ScopeSetKey(b) ensures a == b {
      ScopeKeyInjective(a, b);
    }
    forall a, b | FitGuards()(a) && FitGuards()(b) && GuardSetKey(a) == GuardSetKey(b) ensures a == b {
      GuardKeyInjective(a, b);
    }
    forall a, b | FitLocals()(a) && FitLocals()(b) && LocalSetKey(a) == LocalSetKey(b) ensures a == b {
      LocalKeyInjective(a, b);
    }
  }
}
