/** Values of the exception analysis: what the index records about one call
    site, and how a thrown type picks a handler. */
module FlowTypes {
  import opened Interner

  datatype Handler = Handler(caughtType: string, isCatchAll: bool, rethrows: bool, location: string, bodySummary: string)

  /** `nestingDepth` 0 is the outermost try of its function. */
  datatype TryScope = TryScope(tryLocation: string, enclosingFunction: string, nestingDepth: nat, handlers: seq<Handler>)

  datatype Guard = Guard(conditionText: string, location: string, inTrueBranch: bool, isAssertion: bool)

  datatype RaiiKind = Lock | SmartPtr | Other

  datatype RaiiLocal = RaiiLocal(typeName: string, varName: string, declLocation: string, kind: RaiiKind)

  datatype NoexceptSpec = NoSpec | Noexcept | NoexceptFalse | ThrowNone | Unevaluated

  /** Scopes and guards are innermost first, locals innermost last. */
  datatype CallContext = CallContext(
    callerName: string, calleeName: string, callSite: string, callerUsr: string, calleeUsr: string, tuPath: string,
    scopes: seq<TryScope>, guards: seq<Guard>, locals: seq<RaiiLocal>,
    callerNoexcept: NoexceptSpec, insideCatch: bool)

  /** Whether the first type is the second or derives from it. */
  type Subtype = (string, string) -> bool

  /** An empty type stands for an unknown exception and matches everything. */
  predicate Matches(sub: Subtype, thrown: string, h: Handler) {
    h.isCatchAll || thrown == "" || sub(thrown, h.caughtType)
  }

  /** The handler the language picks: the first that matches. */
  function FirstMatch(sub: Subtype, thrown: string, handlers: seq<Handler>): Option<Handler> {
    if handlers == [] then None
    else if Matches(sub, thrown, handlers[0]) then Some(handlers[0])
    else FirstMatch(sub, thrown, handlers[1..])
  }

  ghost predicate IsFirstMatch(sub: Subtype, thrown: string, handlers: seq<Handler>, i: nat)
    requires i < |handlers|
  {
    Matches(sub, thrown, handlers[i]) && forall j :: 0 <= j < i ==> !Matches(sub, thrown, handlers[j])
  }

  method MatchingHandler(sub: Subtype, thrown: string, scope: TryScope) returns (r: Option<Handler>)
    ensures r == FirstMatch(sub, thrown, scope.handlers)
    ensures r.None? <==> forall i :: 0 <= i < |scope.handlers| ==> !Matches(sub, thrown, scope.handlers[i])
    ensures r.Some? ==> exists i :: 0 <= i < |scope.handlers| && IsFirstMatch(sub, thrown, scope.handlers, i) && r.value == scope.handlers[i]
  {
    assert scope.handlers[0..] == scope.handlers;
    for i := 0 to |scope.handlers|
      invariant FirstMatch(sub, thrown, scope.handlers) == FirstMatch(sub, thrown, scope.handlers[i..])
      invariant forall j :: 0 <= j < i ==> !Matches(sub, thrown, scope.handlers[j])
    {
      if Matches(sub, thrown, scope.handlers[i]) {
        return Some(scope.handlers[i]);
      }
      assert scope.handlers[i..][1..] == scope.handlers[i + 1..];
    }
    return None;
  }

  /** Where an exception ends among nested try scopes. */
  datatype Catching = Caught(tryLocation: string, handler: Handler) | Escapes

  /** Innermost scope first: the first handler that does not rethrow. */
  function Select(sub: Subtype, thrown: string, scopes: seq<TryScope>): Catching {
    if scopes == [] then Escapes
    else
      match FirstMatch(sub, thrown, scopes[0].handlers)
      case None => Select(sub, thrown, scopes[1..])
      case Some(h) => if h.rethrows then Select(sub, thrown, scopes[1..]) else Caught(scopes[0].tryLocation, h)
  }

  lemma {:induction false} SelectConcat(sub: Subtype, thrown: string, a: seq<TryScope>, b: seq<TryScope>)
    ensures Select(sub, thrown, a + b) ==
            if Select(sub, thrown, a).Caught? then Select(sub, thrown, a) else Select(sub, thrown, b)
    decreases |a|
  {
    if a == [] {
      assert a + b == b;
    } else {
      assert (a + b)[1..] == a[1..] + b;
      SelectConcat(sub, thrown, a[1..], b);
    }
  }

  /** The places that pass the exception on before it ends. */
  function RethrownIn(sub: Subtype, thrown: string, scopes: seq<TryScope>): seq<string> {
    if scopes == [] then []
    else
      match FirstMatch(sub, thrown, scopes[0].handlers)
      case None => RethrownIn(sub, thrown, scopes[1..])
      case Some(h) => if h.rethrows then [h.location] + RethrownIn(sub, thrown, scopes[1..]) else []
  }

  /** The scope loop over one call site. */
  method UnwindScopes(sub: Subtype, thrown: string, scopes: seq<TryScope>) returns (r: Catching, rethrownAt: seq<string>)
    ensures r == Select(sub, thrown, scopes) && rethrownAt == RethrownIn(sub, thrown, scopes)
  {
    rethrownAt := [];
    assert scopes[0..] == scopes;
    for i := 0 to |scopes|
      invariant Select(sub, thrown, scopes) == Select(sub, thrown, scopes[i..])
      invariant RethrownIn(sub, thrown, scopes) == rethrownAt + RethrownIn(sub, thrown, scopes[i..])
    {
      assert scopes[i..][1..] == scopes[i + 1..];
      var h := MatchingHandler(sub, thrown, scopes[i]);
      if h.Some? {
        if h.value.rethrows {
          rethrownAt := rethrownAt + [h.value.location];
        } else {
          return Caught(scopes[i].tryLocation, h.value), rethrownAt;
        }
      }
    }
    r := Escapes;
  }
}
