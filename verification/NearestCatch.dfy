/** The nearest try scopes around a function: a breadth-first walk up the
    callers that reports every call made under a try and goes on through the
    calls that are not. */
module NearestCatch {
  import opened GraphTypes
  import opened FlowTypes
  import opened Orc = Oracle

  /** The call is indexed and made under a try. */
  predicate Protected(v: FlowView, e: EdgeRef) {
    e.Key() in v.contexts && v.contexts[e.Key()].scopes != []
  }

  // ---- What is to be found.

  /** A chain of calls from `n` down to a target, none of them under a try. */
  ghost predicate QuietChain(g: QueryGraph, v: FlowView, targets: seq<Id>, n: Id, hops: seq<EdgeRef>)
    decreases |hops|
  {
    if hops == [] then n in targets
    else
      && hops[0].caller == n && hops[0] in g.CallersOf(hops[0].callee) && !Protected(v, hops[0])
      && QuietChain(g, v, targets, hops[0].callee, hops[1..])
  }

  /** The fewest calls from `n` to a target outside every try. */
  ghost predicate QuietDistance(g: QueryGraph, v: FlowView, targets: seq<Id>, n: Id, d: nat) {
    && (exists hops :: QuietChain(g, v, targets, n, hops) && |hops| == d)
    && (forall hops :: QuietChain(g, v, targets, n, hops) ==> d <= |hops|)
  }

  /** A report: the protected call and a shortest quiet chain below it. */
  ghost predicate IsReport(g: QueryGraph, v: FlowView, targets: seq<Id>, c: Catch) {
    && c.hops != [] && Protected(v, c.hops[0]) && c.hops[0] in g.CallersOf(c.hops[0].callee)
    && QuietChain(g, v, targets, c.hops[0].callee, c.hops[1..])
    && QuietDistance(g, v, targets, c.hops[0].callee, |c.hops| - 1)
    && c.frames == |c.hops| && c.scope == v.contexts[c.hops[0].Key()].scopes[0]
  }

  /** `scope` is the innermost try around the first hop. */
  datatype Catch = Catch(hops: seq<EdgeRef>, scope: TryScope, frames: nat)

  datatype CatchResult = CatchResult(catches: seq<Catch>, depthLimit: bool)

  ghost predicate Reported(catches: seq<Catch>, e: EdgeRef) {
    exists i :: 0 <= i < |catches| && catches[i].hops != [] && catches[i].hops[0] == e
  }

  // ---- The state of the walk.

  /** `level` is the number of frames each visited function lies above the
      targets; the walk stores it with the queue entries. */
  datatype State = State(parent: map<Id, EdgeRef>, level: map<Id, nat>, queue: seq<Id>, catches: seq<Catch>, depthLimit: bool)

  ghost predicate TreeStep(g: QueryGraph, v: FlowView, targets: seq<Id>, st: State, n: Id)
    requires n in st.level
  {
    if n in st.parent then
      && st.parent[n].caller == n && st.parent[n] in g.CallersOf(st.parent[n].callee) && !Protected(v, st.parent[n])
      && st.parent[n].callee in st.level && st.level[n] == st.level[st.parent[n].callee] + 1
    else n in targets && st.level[n] == 0
  }

  /** The parents form a tree over the visited functions, rooted in targets. */
  ghost predicate Tree(g: QueryGraph, v: FlowView, targets: seq<Id>, st: State) {
    && (forall t :: t in targets ==> t in st.level && st.level[t] == 0)
    && (forall n :: n in st.level ==> TreeStep(g, v, targets, st, n))
    && (forall n :: n in st.parent ==> n in st.level)
  }

  /** The queue is first in, first out over nondecreasing levels. */
  ghost predicate Fifo(st: State, low: nat) {
    && (forall i :: 0 <= i < |st.queue| ==> st.queue[i] in st.level)
    && (forall i :: 0 <= i < |st.queue| ==> low <= st.level[st.queue[i]])
    && (forall i, j :: 0 <= i < j < |st.queue| ==> st.level[st.queue[i]] <= st.level[st.queue[j]])
    && (forall n :: n in st.level ==> st.level[n] <= low + 1)
    && NoDuplicates(st.queue)
  }

  /** What processing `n` along `e` has led to. */
  ghost predicate Handled(v: FlowView, st: State, n: Id, e: EdgeRef)
    requires n in st.level
  {
    if Protected(v, e) then Reported(st.catches, e)
    else e.caller in st.level && st.level[e.caller] <= st.level[n] + 1
  }

  ghost predicate Processed(g: QueryGraph, v: FlowView, max: nat, st: State, n: Id)
    requires n in st.level
  {
    if st.level[n] >= max then g.CallersOf(n) != [] ==> st.depthLimit
    else forall e :: e in g.CallersOf(n) ==> Handled(v, st, n, e)
  }

  ghost predicate AllProcessed(g: QueryGraph, v: FlowView, max: nat, st: State, pending: set<Id>) {
    forall n :: n in st.level && n !in st.queue && n !in pending ==> Processed(g, v, max, st, n)
  }

  /** Every report so far has the tree chain below its protected call. */
  ghost predicate Reports(g: QueryGraph, v: FlowView, targets: seq<Id>, max: nat, st: State) {
    forall i :: 0 <= i < |st.catches| ==> ReportSoFar(g, v, targets, max, st, st.catches[i])
  }

  ghost predicate ReportSoFar(g: QueryGraph, v: FlowView, targets: seq<Id>, max: nat, st: State, c: Catch) {
    && c.hops != [] && Protected(v, c.hops[0]) && c.hops[0] in g.CallersOf(c.hops[0].callee)
    && QuietChain(g, v, targets, c.hops[0].callee, c.hops[1..])
    && c.hops[0].callee in st.level && st.level[c.hops[0].callee] == |c.hops| - 1
    && |c.hops| <= max
    && c.frames == |c.hops| && c.scope == v.contexts[c.hops[0].Key()].scopes[0]
  }

  ghost predicate Limited(g: QueryGraph, max: nat, st: State) {
    && (forall n :: n in st.level ==> st.level[n] <= max)
    && (st.depthLimit ==> exists n :: n in st.level && st.level[n] == max && g.CallersOf(n) != [])
  }

  ghost predicate Inv(g: QueryGraph, v: FlowView, targets: seq<Id>, max: nat, st: State, low: nat, pending: set<Id>) {
    && Tree(g, v, targets, st) && Fifo(st, low) && AllProcessed(g, v, max, st, pending)
    && Reports(g, v, targets, max, st) && Limited(g, max, st) && st.level.Keys <= Universe(g, targets)
  }

  function Universe(g: QueryGraph, targets: seq<Id>): set<Id> {
    (set t | t in targets) + (set n, e | n in g.callers && e in g.callers[n] :: e.caller)
  }

  // ---- Rebuilding a chain.

  method ChainFrom(ghost g: QueryGraph, ghost v: FlowView, ghost targets: seq<Id>, parent: map<Id, EdgeRef>, ghost st: State, first: EdgeRef)
    returns (hops: seq<EdgeRef>)
    requires Tree(g, v, targets, st) && parent == st.parent && first.callee in st.level
    ensures |hops| == st.level[first.callee] + 1 && hops[0] == first
    ensures QuietChain(g, v, targets, first.callee, hops[1..])
  {
    hide Protected, QuietChain;
    hops := [first];
    var cur := first.callee;
    ghost var below := TreeChain(g, v, targets, st, cur);
    assert hops[1..] + below == below;
    while cur in parent
      invariant cur in st.level && |hops| + st.level[cur] == st.level[first.callee] + 1
      invariant hops[0] == first && below == TreeChain(g, v, targets, st, cur)
      invariant QuietChain(g, v, targets, first.callee, hops[1..] + below)
      decreases st.level[cur]
    {
      assert TreeStep(g, v, targets, st, cur);
      ghost var next := TreeChain(g, v, targets, st, parent[cur].callee);
      assert below == [parent[cur]] + next by { TreeChainStep(g, v, targets, st, cur, below, next); }
      ghost var old1 := hops[1..];
      hops := hops + [parent[cur]];
      assert hops[1..] + next == old1 + below;
      below := next;
      cur := parent[cur].callee;
    }
    assert TreeStep(g, v, targets, st, cur);
    assert below == [];
    assert hops[1..] + below == hops[1..];
  }

  ghost function TreeChain(g: QueryGraph, v: FlowView, targets: seq<Id>, st: State, n: Id): (r: seq<EdgeRef>)
    requires Tree(g, v, targets, st) && n in st.level
    ensures |r| == st.level[n] && QuietChain(g, v, targets, n, r)
    decreases st.level[n]
  {
    assert TreeStep(g, v, targets, st, n);
    if n in st.parent then
      var rest := TreeChain(g, v, targets, st, st.parent[n].callee);
      assert ([st.parent[n]] + rest)[1..] == rest;
      [st.parent[n]] + rest
    else []
  }

  lemma TreeChainStep(g: QueryGraph, v: FlowView, targets: seq<Id>, st: State, n: Id, below: seq<EdgeRef>, next: seq<EdgeRef>)
    requires Tree(g, v, targets, st) && n in st.level && n in st.parent && st.parent[n].callee in st.level
    requires below == TreeChain(g, v, targets, st, n) && next == TreeChain(g, v, targets, st, st.parent[n].callee)
    ensures below == [st.parent[n]] + next
  {
  }

  // ---- One step of the walk.

  /** `st'` has visited at least what `st` has. */
  ghost predicate Grown(st: State, st': State) {
    && (forall n :: n in st.level ==> n in st'.level && st'.level[n] == st.level[n])
    && (forall n :: n in st.parent ==> n in st'.parent && st'.parent[n] == st.parent[n])
    && (forall n :: n in st'.parent && n in st.level ==> n in st.parent)
    && (forall n :: n in st.queue ==> n in st'.queue)
    && (forall n :: n in st'.level && n !in st.level ==> n in st'.queue)
    && st.catches <= st'.catches && (st.depthLimit ==> st'.depthLimit)
  }

  lemma HandledGrown(v: FlowView, st: State, st': State, n: Id, e: EdgeRef)
    requires n in st.level && n in st'.level && Handled(v, st, n, e) && Grown(st, st')
    ensures Handled(v, st', n, e)
  {
    if Protected(v, e) {
      var i :| 0 <= i < |st.catches| && st.catches[i].hops != [] && st.catches[i].hops[0] == e;
      assert st'.catches[i] == st.catches[i];
    }
  }

  lemma ProcessedGrown(g: QueryGraph, v: FlowView, max: nat, st: State, st': State, n: Id)
    requires n in st.level && n in st'.level && Processed(g, v, max, st, n) && Grown(st, st')
    ensures Processed(g, v, max, st', n)
  {
    hide Handled;
    assert st'.level[n] == st.level[n] && (st.depthLimit ==> st'.depthLimit);
    if st.level[n] < max {
      forall e | e in g.CallersOf(n) ensures Handled(v, st', n, e) {
        HandledGrown(v, st, st', n, e);
      }
    }
  }

  lemma AllProcessedGrown(g: QueryGraph, v: FlowView, max: nat, st: State, st': State, pending: set<Id>)
    requires AllProcessed(g, v, max, st, pending) && Grown(st, st')
    ensures AllProcessed(g, v, max, st', pending)
  {
    hide Processed;
    forall n | n in st'.level && n !in st'.queue && n !in pending ensures Processed(g, v, max, st', n) {
      assert n in st.level && n !in st.queue;
      ProcessedGrown(g, v, max, st, st', n);
    }
  }

  lemma ReportsGrown(g: QueryGraph, v: FlowView, targets: seq<Id>, max: nat, st: State, st': State)
    requires Reports(g, v, targets, max, st) && Grown(st, st')
    requires forall i :: |st.catches| <= i < |st'.catches| ==> ReportSoFar(g, v, targets, max, st', st'.catches[i])
    ensures Reports(g, v, targets, max, st')
  {
    hide QuietChain, Protected;
    forall i | 0 <= i < |st'.catches| ensures ReportSoFar(g, v, targets, max, st', st'.catches[i]) {
      if i < |st.catches| {
        assert st'.catches[i] == st.catches[i];
        assert ReportSoFar(g, v, targets, max, st, st.catches[i]);
      }
    }
  }

  /** Report a protected call. */
  method Report(g: QueryGraph, v: FlowView, targets: seq<Id>, max: nat, st: State, ghost low: nat, n: Id, e: EdgeRef) returns (st': State)
    requires Inv(g, v, targets, max, st, low, {n}) && n in st.level && st.level[n] == low < max
    requires e in g.CallersOf(n) && e.callee == n && Protected(v, e)
    ensures Inv(g, v, targets, max, st', low, {n}) && Grown(st, st') && Handled(v, st', n, e) && st'.level == st.level && st'.queue == st.queue
    ensures exists c :: st'.catches == st.catches + [c] && c.hops != [] && c.hops[0] == e
  {
    hide QuietChain, AllProcessed, Universe, Tree, Fifo, Limited, Reports;
    var hops := ChainFrom(g, v, targets, st.parent, st, e);
    var c := Catch(hops, v.contexts[e.Key()].scopes[0], st.level[n] + 1);
    st' := st.(catches := st.catches + [c]);
    assert st'.catches[|st.catches|] == c;
    ReportsGrown(g, v, targets, max, st, st');
    AllProcessedGrown(g, v, max, st, st', {n});
    SameShape(g, v, targets, max, st, st', low);
  }

  lemma SameShape(g: QueryGraph, v: FlowView, targets: seq<Id>, max: nat, st: State, st': State, low: nat)
    requires Tree(g, v, targets, st) && Fifo(st, low) && Limited(g, max, st) && st' == st.(catches := st'.catches)
    ensures Tree(g, v, targets, st') && Fifo(st', low) && Limited(g, max, st')
  {
    hide Protected;
    forall n | n in st'.level ensures TreeStep(g, v, targets, st', n) {
      assert TreeStep(g, v, targets, st, n);
    }
  }

  /** Go on through an unprotected call, unless its caller was visited. */
  method Climb(g: QueryGraph, v: FlowView, targets: seq<Id>, max: nat, st: State, ghost low: nat, n: Id, e: EdgeRef) returns (st': State)
    requires Inv(g, v, targets, max, st, low, {n}) && n in st.level && st.level[n] == low < max
    requires e in g.CallersOf(n) && e.callee == n && !Protected(v, e)
    ensures Inv(g, v, targets, max, st', low, {n}) && Grown(st, st') && Handled(v, st', n, e)
    ensures st'.catches == st.catches
    ensures st'.level == st.level ==> st'.queue == st.queue
    ensures forall x :: x in st'.queue ==> x in st.queue || x !in st.level
  {
    hide AllProcessed, Universe, Tree, Fifo, Limited, Reports, Protected;
    st' := st;
    if e.caller !in st.level {
      st' := st.(parent := st.parent[e.caller := e], level := st.level[e.caller := st.level[n] + 1], queue := st.queue + [e.caller]);
      ParentsVisited(g, v, targets, st, e.caller);
      assert Grown(st, st') by { GrownByOne(st, st', e.caller); }
      ReportsGrown(g, v, targets, max, st, st');
      AllProcessedGrown(g, v, max, st, st', {n});
      ClimbTree(g, v, targets, st, st', n, e);
      ClimbFifo(g, max, st, st', low, n, e.caller);
      CallerInUniverse(g, targets, n, e);
    } else {
      VisitedLevel(st, low, e.caller);
    }
  }

  lemma VisitedLevel(st: State, low: nat, n: Id)
    requires Fifo(st, low) && n in st.level
    ensures st.level[n] <= low + 1
  {
  }

  lemma ParentsVisited(g: QueryGraph, v: FlowView, targets: seq<Id>, st: State, n: Id)
    requires Tree(g, v, targets, st) && n !in st.level
    ensures n !in st.parent
  {
  }

  lemma GrownByOne(st: State, st': State, n: Id)
    requires n !in st.level && n !in st.parent && n in st'.level && n in st'.parent
    requires st' == st.(parent := st.parent[n := st'.parent[n]], level := st.level[n := st'.level[n]], queue := st.queue + [n])
    ensures Grown(st, st')
  {
  }

  lemma CallerInUniverse(g: QueryGraph, targets: seq<Id>, n: Id, e: EdgeRef)
    requires e in g.CallersOf(n)
    ensures e.caller in Universe(g, targets)
  {
  }

  lemma ClimbTree(g: QueryGraph, v: FlowView, targets: seq<Id>, st: State, st': State, n: Id, e: EdgeRef)
    requires Tree(g, v, targets, st) && n in st.level && e.caller !in st.level && e in g.CallersOf(n) && e.callee == n && !Protected(v, e)
    requires st' == st.(parent := st.parent[e.caller := e], level := st.level[e.caller := st.level[n] + 1], queue := st.queue + [e.caller])
    ensures Tree(g, v, targets, st')
  {
    hide Protected;
    forall m | m in st'.level ensures TreeStep(g, v, targets, st', m) {
      if m != e.caller {
        assert TreeStep(g, v, targets, st, m);
      }
    }
  }

  lemma ClimbFifo(g: QueryGraph, max: nat, st: State, st': State, low: nat, n: Id, x: Id)
    requires Fifo(st, low) && Limited(g, max, st) && n in st.level && st.level[n] == low < max && x !in st.level
    requires st'.level == st.level[x := low + 1] && st'.queue == st.queue + [x] && st'.depthLimit == st.depthLimit
    ensures Fifo(st', low) && Limited(g, max, st')
  {
    if st.depthLimit {
      var m :| m in st.level && st.level[m] == max && g.CallersOf(m) != [];
      assert m in st'.level && st'.level[m] == max;
    }
  }

  // ---- One function.

  ghost predicate EdgesHandled(v: FlowView, st: State, n: Id, edges: seq<EdgeRef>, k: nat)
    requires n in st.level && k <= |edges|
  {
    forall i :: 0 <= i < k ==> Handled(v, st, n, edges[i])
  }

  lemma EdgesHandledNext(v: FlowView, st: State, st': State, n: Id, edges: seq<EdgeRef>, k: nat)
    requires n in st.level && n in st'.level && k < |edges| && EdgesHandled(v, st, n, edges, k)
    requires Grown(st, st') && Handled(v, st', n, edges[k])
    ensures EdgesHandled(v, st', n, edges, k + 1)
  {
    hide Handled, Grown;
    forall i | 0 <= i < k ensures Handled(v, st', n, edges[i]) {
      HandledGrown(v, st, st', n, edges[i]);
    }
  }

  lemma GrownTrans(a: State, b: State, c: State)
    requires Grown(a, b) && Grown(b, c)
    ensures Grown(a, c)
  {
    forall n | n in c.level && n !in a.level ensures n in c.queue {
      assert n in b.level ==> n in b.queue;
    }
  }

  lemma GrownSelf(st: State)
    ensures Grown(st, st)
  {
  }

  lemma LevelKept(st: State, st': State, n: Id)
    requires Grown(st, st') && n in st.level
    ensures n in st'.level && st'.level[n] == st.level[n] && st.level.Keys <= st'.level.Keys
  {
  }

  /** Each protected call is reported once: the reports are about calls into
      functions taken off the queue, and into the one under way only about the
      first `k` of its edges. */
  ghost predicate Once(st: State, n: Id, edges: seq<EdgeRef>, k: nat) {
    && (forall i, j :: 0 <= i < j < |st.catches| ==> DifferentCalls(st.catches[i], st.catches[j]))
    && (forall i :: 0 <= i < |st.catches| ==> AboutDone(st, n, edges, k, st.catches[i]))
  }

  ghost predicate DifferentCalls(a: Catch, b: Catch) {
    a.hops != [] && b.hops != [] && a.hops[0] != b.hops[0]
  }

  ghost predicate AboutDone(st: State, n: Id, edges: seq<EdgeRef>, k: nat, c: Catch) {
    && c.hops != [] && c.hops[0].callee in st.level && c.hops[0].callee !in st.queue
    && (c.hops[0].callee == n ==> exists m :: 0 <= m < k && m < |edges| && edges[m] == c.hops[0])
  }

  lemma OnceReported(st: State, st': State, n: Id, edges: seq<EdgeRef>, k: nat)
    requires Once(st, n, edges, k) && k < |edges| && NoDuplicates(edges) && edges[k].callee == n && n in st.level && n !in st.queue
    requires st'.level == st.level && st'.queue == st.queue
    requires exists c :: st'.catches == st.catches + [c] && c.hops != [] && c.hops[0] == edges[k]
    ensures Once(st', n, edges, k + 1)
  {
    forall i | 0 <= i < |st'.catches| ensures AboutDone(st', n, edges, k + 1, st'.catches[i]) {
      if i < |st.catches| {
        assert AboutDone(st, n, edges, k, st.catches[i]);
      }
    }
    forall i, j | 0 <= i < j < |st'.catches| ensures DifferentCalls(st'.catches[i], st'.catches[j]) {
      assert AboutDone(st, n, edges, k, st.catches[i]);
      if j < |st.catches| {
        assert DifferentCalls(st.catches[i], st.catches[j]);
      }
    }
  }

  lemma OnceClimbed(st: State, st': State, n: Id, edges: seq<EdgeRef>, k: nat)
    requires Once(st, n, edges, k) && Grown(st, st') && st'.catches == st.catches
    requires forall x :: x in st'.queue ==> x in st.queue || x !in st.level
    ensures Once(st', n, edges, k + 1)
  {
    forall i | 0 <= i < |st'.catches| ensures AboutDone(st', n, edges, k + 1, st'.catches[i]) {
      assert AboutDone(st, n, edges, k, st.catches[i]);
    }
  }

  /** No function is under way. */
  ghost predicate Settled(st: State) {
    && (forall i, j :: 0 <= i < j < |st.catches| ==> DifferentCalls(st.catches[i], st.catches[j]))
    && (forall i :: 0 <= i < |st.catches| ==> st.catches[i].hops != [] && st.catches[i].hops[0].callee in st.level && st.catches[i].hops[0].callee !in st.queue)
  }

  lemma OnceStart(st: State, st': State, edges: seq<EdgeRef>)
    requires Settled(st) && st.queue != [] && st' == st.(queue := st.queue[1..])
    ensures Once(st', st.queue[0], edges, 0)
  {
    hide DifferentCalls;
    forall i | 0 <= i < |st'.catches| ensures AboutDone(st', st.queue[0], edges, 0, st'.catches[i]) {
      assert st.catches[i].hops[0].callee != st.queue[0];
    }
  }

  lemma OnceEnd(st: State, n: Id, edges: seq<EdgeRef>, k: nat)
    requires Once(st, n, edges, k)
    ensures Settled(st)
  {
    hide DifferentCalls;
    forall i | 0 <= i < |st.catches|
      ensures st.catches[i].hops != [] && st.catches[i].hops[0].callee in st.level && st.catches[i].hops[0].callee !in st.queue
    {
      assert AboutDone(st, n, edges, k, st.catches[i]);
    }
  }

  /** Process the function at the head of the queue. */
  method Visit(g: QueryGraph, v: FlowView, targets: seq<Id>, max: nat, st: State, ghost low: nat) returns (st': State, ghost low': nat)
    requires Inv(g, v, targets, max, st, low, {}) && st.queue != []
    requires forall e :: e in g.CallersOf(st.queue[0]) ==> e.callee == st.queue[0]
    requires NoDuplicates(g.CallersOf(st.queue[0])) && Settled(st)
    ensures Inv(g, v, targets, max, st', low', {}) && Settled(st')
    ensures st.level.Keys <= st'.level.Keys
    ensures st'.level.Keys == st.level.Keys ==> |st'.queue| < |st.queue|
  {
    hide Inv, EdgesHandled, Grown, Handled, Settled, Once, NoDuplicates;
    var n := st.queue[0];
    OnceStart(st, st.(queue := st.queue[1..]), g.CallersOf(n));
    assert n !in st.queue[1..] by { HeadOnce(g, v, targets, max, st, low); }
    Pop(g, v, targets, max, st, low);
    low' := st.level[n];
    st' := st.(queue := st.queue[1..]);
    var edges := g.CallersOf(n);
    if st.level[n] >= max {
      st' := st'.(depthLimit := st'.depthLimit || edges != []);
      AtLimit(g, v, targets, max, st.(queue := st.queue[1..]), st', low', n);
      OnceEnd(st.(queue := st.queue[1..]), n, edges, 0);
      SettledSame(st.(queue := st.queue[1..]), st');
      return;
    }
    ghost var st0 := st';
    GrownSelf(st0);
    NoneHandled(v, st', n, edges);
    for i := 0 to |edges|
      invariant Inv(g, v, targets, max, st', low', {n}) && Grown(st0, st')
      invariant n in st'.level && st'.level[n] == low' < max && st0.level.Keys <= st'.level.Keys
      invariant EdgesHandled(v, st', n, edges, i)
      invariant st'.level == st0.level ==> st'.queue == st0.queue
      invariant st'.level.Keys == st0.level.Keys ==> st'.level == st0.level
      invariant Once(st', n, edges, i) && n !in st'.queue
    {
      var st1;
      assert edges[i] in g.CallersOf(n);
      if Protected(v, edges[i]) {
        st1 := Report(g, v, targets, max, st', low', n, edges[i]);
        OnceReported(st', st1, n, edges, i);
      } else {
        st1 := Climb(g, v, targets, max, st', low', n, edges[i]);
        OnceClimbed(st', st1, n, edges, i);
      }
      LevelKept(st', st1, n);
      EdgesHandledNext(v, st', st1, n, edges, i);
      GrownTrans(st0, st', st1);
      SameKeys(st0, st1);
      SameKeys(st', st1);
      st' := st1;
    }
    Finish(g, v, targets, max, st', low', n);
    OnceEnd(st', n, edges, |edges|);
  }

  lemma HeadOnce(g: QueryGraph, v: FlowView, targets: seq<Id>, max: nat, st: State, low: nat)
    requires Inv(g, v, targets, max, st, low, {}) && st.queue != []
    ensures st.queue[0] !in st.queue[1..]
  {
  }

  lemma SettledSame(st: State, st': State)
    requires Settled(st) && st'.catches == st.catches && st'.level == st.level && st'.queue == st.queue
    ensures Settled(st')
  {
  }

  lemma SameKeys(st: State, st': State)
    requires Grown(st, st')
    ensures st'.level.Keys == st.level.Keys ==> st'.level == st.level
    ensures st.level.Keys <= st'.level.Keys
  {
  }

  lemma NoneHandled(v: FlowView, st: State, n: Id, edges: seq<EdgeRef>)
    requires n in st.level
    ensures EdgesHandled(v, st, n, edges, 0)
  {
  }

  lemma Pop(g: QueryGraph, v: FlowView, targets: seq<Id>, max: nat, st: State, low: nat)
    requires Inv(g, v, targets, max, st, low, {}) && st.queue != []
    ensures st.queue[0] in st.level
    ensures Inv(g, v, targets, max, st.(queue := st.queue[1..]), st.level[st.queue[0]], {st.queue[0]})
  {
    hide Protected, Universe, Processed, TreeStep, ReportSoFar;
    var st', n := st.(queue := st.queue[1..]), st.queue[0];
    assert Tree(g, v, targets, st') && Reports(g, v, targets, max, st') by { PopShape(g, v, targets, max, st, st'); }
    forall m | m in st'.level && m !in st'.queue && m !in {n} ensures Processed(g, v, max, st', m) {
      assert m !in st.queue;
      PopProcessed(g, v, max, st, st', m);
    }
    assert Fifo(st', st.level[n]) by { PopFifo(st, low); }
    if st.depthLimit {
      var m :| m in st.level && st.level[m] == max && g.CallersOf(m) != [];
      assert m in st'.level && st'.level[m] == max;
    }
  }

  lemma PopFifo(st: State, low: nat)
    requires Fifo(st, low) && st.queue != []
    ensures Fifo(st.(queue := st.queue[1..]), st.level[st.queue[0]])
  {
  }

  lemma PopShape(g: QueryGraph, v: FlowView, targets: seq<Id>, max: nat, st: State, st': State)
    requires Tree(g, v, targets, st) && Reports(g, v, targets, max, st) && st' == st.(queue := st'.queue)
    ensures Tree(g, v, targets, st') && Reports(g, v, targets, max, st')
  {
    hide Protected, QuietChain;
    forall n | n in st'.level ensures TreeStep(g, v, targets, st', n) {
      assert TreeStep(g, v, targets, st, n);
    }
    forall i | 0 <= i < |st'.catches| ensures ReportSoFar(g, v, targets, max, st', st'.catches[i]) {
      assert ReportSoFar(g, v, targets, max, st, st.catches[i]);
    }
  }

  lemma PopProcessed(g: QueryGraph, v: FlowView, max: nat, st: State, st': State, m: Id)
    requires m in st.level && Processed(g, v, max, st, m) && st' == st.(queue := st'.queue)
    ensures Processed(g, v, max, st', m)
  {
    hide Protected, Reported;
    if st.level[m] < max {
      forall e | e in g.CallersOf(m) ensures Handled(v, st', m, e) {
        assert Handled(v, st, m, e);
      }
    }
  }

  lemma AtLimit(g: QueryGraph, v: FlowView, targets: seq<Id>, max: nat, st: State, st': State, low: nat, n: Id)
    requires Inv(g, v, targets, max, st, low, {n}) && n in st.level && st.level[n] >= max
    requires st' == st.(depthLimit := st.depthLimit || g.CallersOf(n) != [])
    ensures Inv(g, v, targets, max, st', low, {})
  {
    hide Protected, Universe, ReportSoFar, QuietChain, Handled;
    assert Grown(st, st');
    AllProcessedGrown(g, v, max, st, st', {n});
    assert AllProcessed(g, v, max, st', {});
    ReportsGrown(g, v, targets, max, st, st');
    assert Fifo(st', low);
    assert Tree(g, v, targets, st') by { LimitTree(g, v, targets, st, st'); }
    assert st.level[n] == max;
    assert Limited(g, max, st') by { LimitSet(g, max, st, st', n); }
  }

  lemma LimitSet(g: QueryGraph, max: nat, st: State, st': State, n: Id)
    requires Limited(g, max, st) && n in st.level && st.level[n] == max && st' == st.(depthLimit := st.depthLimit || g.CallersOf(n) != [])
    ensures Limited(g, max, st')
  {
  }

  lemma LimitTree(g: QueryGraph, v: FlowView, targets: seq<Id>, st: State, st': State)
    requires Tree(g, v, targets, st) && st' == st.(depthLimit := st'.depthLimit)
    ensures Tree(g, v, targets, st')
  {
    hide Protected;
    forall n | n in st'.level ensures TreeStep(g, v, targets, st', n) {
      assert TreeStep(g, v, targets, st, n);
    }
  }

  lemma Finish(g: QueryGraph, v: FlowView, targets: seq<Id>, max: nat, st: State, low: nat, n: Id)
    requires Inv(g, v, targets, max, st, low, {n}) && n in st.level && st.level[n] < max
    requires EdgesHandled(v, st, n, g.CallersOf(n), |g.CallersOf(n)|)
    ensures Inv(g, v, targets, max, st, low, {})
  {
    hide Protected, Universe, Tree, Fifo, Reports, Limited, Handled;
    assert Processed(g, v, max, st, n);
  }

  // ---- The whole walk.

  lemma RestShrinks(all: set<Id>, a: set<Id>, b: set<Id>)
    requires a <= b <= all
    ensures |all - b| <= |all - a| && (a != b ==> |all - b| < |all - a|)
  {
    assert all - a == (all - b) + (b - a);
    if a != b {
      var x :| x in b && x !in a;
      assert x in b - a;
    }
  }

  /** At the end every quiet chain within the bound has been climbed. */
  lemma {:induction false} Climbed(g: QueryGraph, v: FlowView, targets: seq<Id>, max: nat, st: State, low: nat, n: Id, hops: seq<EdgeRef>)
    requires Inv(g, v, targets, max, st, low, {}) && st.queue == []
    requires QuietChain(g, v, targets, n, hops) && (|hops| <= max || !st.depthLimit)
    ensures n in st.level && st.level[n] <= |hops|
    decreases |hops|
  {
    hide Protected, Reports, Fifo, Universe;
    if hops != [] {
      var e := hops[0];
      Climbed(g, v, targets, max, st, low, e.callee, hops[1..]);
      assert Processed(g, v, max, st, e.callee);
      assert e in g.CallersOf(e.callee);
      if st.level[e.callee] < max {
        assert Handled(v, st, e.callee, e);
      }
    }
  }

  lemma LevelIsDistance(g: QueryGraph, v: FlowView, targets: seq<Id>, max: nat, st: State, low: nat, n: Id)
    requires Inv(g, v, targets, max, st, low, {}) && st.queue == [] && n in st.level
    ensures QuietDistance(g, v, targets, n, st.level[n])
  {
    hide QuietChain, Reports, Fifo, AllProcessed, Tree;
    var own := TreeChain(g, v, targets, st, n);
    forall hops | QuietChain(g, v, targets, n, hops) ensures st.level[n] <= |hops| {
      if |hops| <= max {
        Climbed(g, v, targets, max, st, low, n, hops);
      }
    }
  }

  /** What the finished walk reports. */
  lemma Finished(g: QueryGraph, v: FlowView, targets: seq<Id>, max: nat, st: State, low: nat)
    requires Inv(g, v, targets, max, st, low, {}) && st.queue == []
    ensures forall i :: 0 <= i < |st.catches| ==> IsReport(g, v, targets, st.catches[i]) && st.catches[i].frames <= max
    ensures forall n, e, d: nat :: e in g.CallersOf(n) && Protected(v, e) && QuietDistance(g, v, targets, n, d) && (d < max || !st.depthLimit) ==>
              Reported(st.catches, e)
    ensures st.depthLimit <==> exists n :: QuietDistance(g, v, targets, n, max) && g.CallersOf(n) != []
  {
    hide QuietChain, Fifo, Protected, Universe, AllProcessed, QuietDistance, Tree, Reported;
    forall i | 0 <= i < |st.catches| ensures IsReport(g, v, targets, st.catches[i]) && st.catches[i].frames <= max {
      assert ReportSoFar(g, v, targets, max, st, st.catches[i]);
      LevelIsDistance(g, v, targets, max, st, low, st.catches[i].hops[0].callee);
    }
    forall n, e, d: nat | e in g.CallersOf(n) && Protected(v, e) && QuietDistance(g, v, targets, n, d) && (d < max || !st.depthLimit)
      ensures Reported(st.catches, e)
    {
      NothingMissed(g, v, targets, max, st, low, n, e, d);
    }
    if st.depthLimit {
      var n :| n in st.level && st.level[n] == max && g.CallersOf(n) != [];
      LevelIsDistance(g, v, targets, max, st, low, n);
    }
    if n :| QuietDistance(g, v, targets, n, max) && g.CallersOf(n) != [] {
      AtTheBound(g, v, targets, max, st, low, n);
    }
  }

  lemma AtTheBound(g: QueryGraph, v: FlowView, targets: seq<Id>, max: nat, st: State, low: nat, n: Id)
    requires Inv(g, v, targets, max, st, low, {}) && st.queue == [] && QuietDistance(g, v, targets, n, max) && g.CallersOf(n) != []
    ensures st.depthLimit
  {
    var hops :| QuietChain(g, v, targets, n, hops) && |hops| == max;
    hide QuietChain, Fifo, Protected, Universe, Tree, Reports;
    Climbed(g, v, targets, max, st, low, n, hops);
    LevelIsDistance(g, v, targets, max, st, low, n);
    assert Processed(g, v, max, st, n);
  }

  lemma NothingMissed(g: QueryGraph, v: FlowView, targets: seq<Id>, max: nat, st: State, low: nat, n: Id, e: EdgeRef, d: nat)
    requires Inv(g, v, targets, max, st, low, {}) && st.queue == []
    requires e in g.CallersOf(n) && Protected(v, e) && QuietDistance(g, v, targets, n, d) && (d < max || !st.depthLimit)
    ensures Reported(st.catches, e)
  {
    hide QuietChain, Fifo, Protected, Universe, Tree, Reports;
    var hops :| QuietChain(g, v, targets, n, hops) && |hops| == d;
    Climbed(g, v, targets, max, st, low, n, hops);
    assert Processed(g, v, max, st, n);
    if st.level[n] < max {
      assert Handled(v, st, n, e);
    }
  }

  method Start(g: QueryGraph, v: FlowView, targets: seq<Id>, max: nat) returns (st: State)
    ensures Inv(g, v, targets, max, st, 0, {}) && Settled(st)
  {
    st := State(map[], map[], [], [], false);
    for i := 0 to |targets|
      invariant st.parent == map[] && st.catches == [] && !st.depthLimit
      invariant forall n :: n in st.level <==> n in targets[..i]
      invariant forall n :: n in st.level <==> n in st.queue
      invariant forall n :: n in st.level ==> st.level[n] == 0
      invariant NoDuplicates(st.queue)
    {
      if targets[i] !in st.level {
        st := st.(level := st.level[targets[i] := 0], queue := st.queue + [targets[i]]);
      }
    }
    assert targets[..|targets|] == targets;
    Started(g, v, targets, max, st);
  }

  lemma Started(g: QueryGraph, v: FlowView, targets: seq<Id>, max: nat, st: State)
    requires st.parent == map[] && st.catches == [] && !st.depthLimit && NoDuplicates(st.queue)
    requires forall n :: n in st.level <==> n in targets
    requires forall n :: n in st.level <==> n in st.queue
    requires forall n :: n in st.level ==> st.level[n] == 0
    ensures Inv(g, v, targets, max, st, 0, {})
  {
    hide Protected, Processed;
  }

  /** The query.  Every report is a shortest one; every protected call into a
      function closer than the bound is reported; without the depth stop the
      bound hides nothing. */
  method QueryNearestCatches(g: QueryGraph, v: FlowView, targets: seq<Id>, max: nat) returns (r: CatchResult)
    requires g.WellFormed()
    ensures forall i :: 0 <= i < |r.catches| ==> IsReport(g, v, targets, r.catches[i]) && r.catches[i].frames <= max
    ensures forall i, j :: 0 <= i < j < |r.catches| ==> DifferentCalls(r.catches[i], r.catches[j])
    ensures forall n, e, d: nat :: e in g.CallersOf(n) && Protected(v, e) && QuietDistance(g, v, targets, n, d) && (d < max || !r.depthLimit) ==>
              Reported(r.catches, e)
    ensures r.depthLimit <==> exists n :: QuietDistance(g, v, targets, n, max) && g.CallersOf(n) != []
  {
    hide Inv, QuietDistance, Reported, Protected, IsReport, Universe;
    var st := Start(g, v, targets, max);
    ghost var low := 0;
    while st.queue != []
      invariant Inv(g, v, targets, max, st, low, {}) && Settled(st)
      decreases |Universe(g, targets) - st.level.Keys|, |st.queue|
    {
      ghost var before := st;
      st, low := Visit(g, v, targets, max, st, low);
      InUniverse(g, v, targets, max, st, low);
      RestShrinks(Universe(g, targets), before.level.Keys, st.level.Keys);
    }
    Finished(g, v, targets, max, st, low);
    r := CatchResult(st.catches, st.depthLimit);
  }

  lemma InUniverse(g: QueryGraph, v: FlowView, targets: seq<Id>, max: nat, st: State, low: nat)
    requires Inv(g, v, targets, max, st, low, {})
    ensures st.level.Keys <= Universe(g, targets)
  {
  }
}
