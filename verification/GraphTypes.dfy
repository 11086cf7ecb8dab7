/** Values shared by the call-graph components: interned ids, edge attributes
    and the edge views that queries hand out. */
module GraphTypes {

  /** An interned string id. */
  type Id = nat

  datatype EdgeKind =
    | DirectCall
    | VirtualDispatch
    | FunctionPointer
    | ConstructorCall
    | DestructorCall
    | OperatorCall
    | TemplateInstantiation
    | LambdaCall
    | ThreadEntry
    | FunctionPointerReturn

  datatype Confidence = Proven | Plausible | Unknown

  datatype ExecContext = Synchronous | ThreadSpawn | AsyncTask | PackagedTask | Invoke

  /** What makes two edges through the same pair of functions the same hop. */
  datatype Triple = Triple(caller: Id, callee: Id, site: Id)

  /** An edge as a query returns it, in id space. */
  datatype EdgeRef = EdgeRef(
    caller: Id, callee: Id, site: Id,
    kind: EdgeKind, confidence: Confidence, exec: ExecContext, indirection: nat)
  {
    function Key(): Triple {
      Triple(caller, callee, site)
    }
  }

  ghost predicate NoDuplicates<T>(s: seq<T>) {
    forall i, j :: 0 <= i < j < |s| ==> s[i] != s[j]
  }

  /** The set of triples a query result shows. */
  ghost function TriplesOf(s: seq<EdgeRef>): set<Triple> {
    set e | e in s :: e.Key()
  }

  /** The members of a set, in some order. */
  method ListOf(s: set<Id>) returns (r: seq<Id>)
    ensures forall x :: x in r <==> x in s
  {
    r := [];
    var left := s;
    while left != {}
      invariant left <= s
      invariant forall x :: x in r <==> x in s && x !in left
      decreases left
    {
      var x :| x in left;
      r := r + [x];
      left := left - {x};
    }
  }

  /** What the path search reads from the call graph: the answers of its three
      queries.  The callers of a node are in canonical order. */
  datatype QueryGraph = QueryGraph(
    callers: map<Id, seq<EdgeRef>>,
    callees: map<Id, seq<EdgeRef>>,
    inDegree: map<Id, nat>)
  {
    function CallersOf(n: Id): seq<EdgeRef> {
      if n in callers then callers[n] else []
    }

    function CalleesOf(n: Id): seq<EdgeRef> {
      if n in callees then callees[n] else []
    }

    function InDegree(n: Id): nat {
      if n in inDegree then inDegree[n] else 0
    }

    /** Each answer is about the node asked for, lists no edge twice, and the
        forward and the reverse query show the same triples. */
    ghost predicate WellFormed() {
      && (forall n, e | e in CallersOf(n) :: e.callee == n)
      && (forall n, e | e in CalleesOf(n) :: e.caller == n)
      && (forall n :: NoDuplicates(CallersOf(n)))
      && (forall n, e | e in CallersOf(n) :: e.Key() in TriplesOf(CalleesOf(e.caller)))
      && (forall n, e | e in CalleesOf(n) :: e.Key() in TriplesOf(CallersOf(e.callee)))
    }
  }
}
