/** The control-flow index: call-site contexts in a compact form (interned
    strings, shared set tables) with lookup lists, updated in place.  It
    refines the ledger of the contexts it can give back. */
module FlowIndex {
  import opened GraphTypes
  import opened Interner
  import opened Registry
  import opened RefTable
  import opened FlowTypes
  import opened Codec
  import opened SetTables
  import L = Ledger

  datatype StoredContext = StoredContext(
    caller: Id, callee: Id, callerDisplay: Id, calleeDisplay: Id, site: Id, tu: Option<Id>,
    scopeSet: nat, guardSet: nat, raiiSet: nat, spec: NoexceptSpec, insideCatch: bool, live: bool)

  datatype Tables = Tables(
    scopes: seq<seq<TryScope>>, scopeIds: map<string, nat>, guards: seq<seq<Guard>>, guardIds: map<string, nat>,
    locals: seq<seq<StoredLocal>>, localIds: map<string, nat>)

  type Entry = L.Entry<CallContext>

  // ---- Giving a context back.

  ghost predicate LocalsNamed(n: nat, ls: seq<StoredLocal>) {
    forall i :: 0 <= i < |ls| ==> ls[i].typeName < n && ls[i].varName < n && ls[i].declLocation < n
  }

  function LocalOf(strings: seq<string>, l: StoredLocal): RaiiLocal
    requires l.typeName < |strings| && l.varName < |strings| && l.declLocation < |strings|
  {
    RaiiLocal(strings[l.typeName], strings[l.varName], strings[l.declLocation], l.kind)
  }

  function LocalsOf(strings: seq<string>, ls: seq<StoredLocal>): (r: seq<RaiiLocal>)
    requires LocalsNamed(|strings|, ls)
    ensures |r| == |ls|
  {
    seq(|ls|, i requires 0 <= i < |ls| => LocalOf(strings, ls[i]))
  }

  ghost predicate TablesOk(n: nat, t: Tables) {
    && TableOk(t.scopes, t.scopeIds, ScopeSetKey, FitScopes())
    && TableOk(t.guards, t.guardIds, GuardSetKey, FitGuards())
    && TableOk(t.locals, t.localIds, LocalSetKey, FitLocals())
    && (forall i :: 0 <= i < |t.locals| ==> LocalsNamed(n, t.locals[i]))
  }

  /** The ids of a stored context mean something. */
  ghost predicate Readable(strings: seq<string>, t: Tables, c: StoredContext) {
    && c.caller < |strings| && c.callee < |strings| && c.callerDisplay < |strings| && c.calleeDisplay < |strings|
    && c.site < |strings| && (c.tu.Some? ==> c.tu.value < |strings|)
    && c.scopeSet < |t.scopes| && c.guardSet < |t.guards| && c.raiiSet < |t.locals| && LocalsNamed(|strings|, t.locals[c.raiiSet])
  }

  function Materialize(strings: seq<string>, t: Tables, c: StoredContext): CallContext
    requires Readable(strings, t, c)
  {
    CallContext(strings[c.callerDisplay], strings[c.calleeDisplay], strings[c.site], strings[c.caller], strings[c.callee],
                if c.tu.Some? then strings[c.tu.value] else "", t.scopes[c.scopeSet], t.guards[c.guardSet],
                LocalsOf(strings, t.locals[c.raiiSet]), c.spec, c.insideCatch)
  }

  ghost predicate AllReadable(strings: seq<string>, t: Tables, cs: seq<StoredContext>) {
    forall i :: 0 <= i < |cs| ==> Readable(strings, t, cs[i])
  }

  function EntryOf(strings: seq<string>, t: Tables, c: StoredContext): Entry
    requires Readable(strings, t, c)
  {
    Reg(Materialize(strings, t, c), if c.tu.Some? then Some(strings[c.tu.value]) else None)
  }

  /** The live contexts, oldest first, with their units. */
  ghost function Entries(strings: seq<string>, t: Tables, cs: seq<StoredContext>): seq<Entry>
    requires AllReadable(strings, t, cs)
  {
    if cs == [] then []
    else
      var rest := Entries(strings, t, cs[..|cs| - 1]);
      if cs[|cs| - 1].live then rest + [EntryOf(strings, t, cs[|cs| - 1])] else rest
  }

  lemma EntriesSnoc(strings: seq<string>, t: Tables, cs: seq<StoredContext>, c: StoredContext)
    requires AllReadable(strings, t, cs) && Readable(strings, t, c)
    ensures AllReadable(strings, t, cs + [c])
    ensures Entries(strings, t, cs + [c]) == if c.live then Entries(strings, t, cs) + [EntryOf(strings, t, c)] else Entries(strings, t, cs)
  {
    assert (cs + [c])[..|cs|] == cs;
  }

  /** The tables only ever grow at the end. */
  ghost predicate TablesGrow(t: Tables, t': Tables) {
    t.scopes <= t'.scopes && t.guards <= t'.guards && t.locals <= t'.locals
  }

  lemma MaterializeGrows(strings: seq<string>, t: Tables, strings': seq<string>, t': Tables, c: StoredContext)
    requires Readable(strings, t, c) && strings <= strings' && TablesGrow(t, t')
    ensures Readable(strings', t', c) && EntryOf(strings', t', c) == EntryOf(strings, t, c)
  {
    var ls := t.locals[c.raiiSet];
    assert t'.locals[c.raiiSet] == ls;
    assert LocalsOf(strings', ls) == LocalsOf(strings, ls);
  }

  /** What the index gives back does not change when its tables grow. */
  lemma {:induction false} EntriesGrow(strings: seq<string>, t: Tables, strings': seq<string>, t': Tables, cs: seq<StoredContext>)
    requires AllReadable(strings, t, cs) && strings <= strings' && TablesGrow(t, t')
    ensures AllReadable(strings', t', cs) && Entries(strings', t', cs) == Entries(strings, t, cs)
    decreases |cs|
  {
    if cs != [] {
      hide Readable, EntryOf, TablesGrow;
      EntriesGrow(strings, t, strings', t', cs[..|cs| - 1]);
      MaterializeGrows(strings, t, strings', t', cs[|cs| - 1]);
      Split(cs);
      EntriesSnoc(strings, t, cs[..|cs| - 1], cs[|cs| - 1]);
      EntriesSnoc(strings', t', cs[..|cs| - 1], cs[|cs| - 1]);
    }
  }

  // ---- The lookup lists.

  datatype Selector = ByCaller | ByCallee | ByCallerDisplay | ByCalleeDisplay | BySite | ByTu

  /** The key a context is listed under.  Display names only where they differ. */
  function KeyIn(s: Selector, c: StoredContext): Option<Id> {
    match s
    case ByCaller => Some(c.caller)
    case ByCallee => Some(c.callee)
    case ByCallerDisplay => if c.callerDisplay != c.caller then Some(c.callerDisplay) else None
    case ByCalleeDisplay => if c.calleeDisplay != c.callee then Some(c.calleeDisplay) else None
    case BySite => Some(c.site)
    case ByTu => c.tu
  }

  datatype Lookup = Lookup(
    byCaller: map<Id, seq<nat>>, byCallee: map<Id, seq<nat>>, byCallerDisplay: map<Id, seq<nat>>,
    byCalleeDisplay: map<Id, seq<nat>>, bySite: map<Id, seq<nat>>, byTu: map<Id, seq<nat>>)
  {
    function Get(s: Selector): map<Id, seq<nat>> {
      match s
      case ByCaller => byCaller
      case ByCallee => byCallee
      case ByCallerDisplay => byCallerDisplay
      case ByCalleeDisplay => byCalleeDisplay
      case BySite => bySite
      case ByTu => byTu
    }
  }

  /** The live contexts among the first `n` listed under `id`, oldest first. */
  ghost function LiveWhere(cs: seq<StoredContext>, n: nat, s: Selector, id: Option<Id>): seq<nat>
    requires n <= |cs|
  {
    if n == 0 then []
    else
      var rest := LiveWhere(cs, n - 1, s, id);
      if cs[n - 1].live && KeyIn(s, cs[n - 1]) == id then rest + [n - 1] else rest
  }

  ghost predicate Listed(cs: seq<StoredContext>, m: map<Id, seq<nat>>, s: Selector) {
    forall id :: Bucket(m, id) == LiveWhere(cs, |cs|, s, Some(id))
  }

  ghost predicate AllListed(cs: seq<StoredContext>, l: Lookup) {
    forall s :: Listed(cs, l.Get(s), s)
  }

  lemma {:induction false} LiveWhereSame(a: seq<StoredContext>, b: seq<StoredContext>, n: nat, s: Selector, id: Option<Id>)
    requires n <= |a| && n <= |b| && forall i :: 0 <= i < n ==> a[i] == b[i]
    ensures LiveWhere(a, n, s, id) == LiveWhere(b, n, s, id)
  {
    if n > 0 {
      LiveWhereSame(a, b, n - 1, s, id);
    }
  }

  lemma {:induction false} LiveWhereMember(cs: seq<StoredContext>, n: nat, s: Selector, id: Option<Id>, i: nat)
    requires n <= |cs|
    ensures i in LiveWhere(cs, n, s, id) <==> i < n && cs[i].live && KeyIn(s, cs[i]) == id
  {
    if n > 0 {
      LiveWhereMember(cs, n - 1, s, id, i);
    }
  }

  function Push(m: map<Id, seq<nat>>, k: Option<Id>, idx: nat): map<Id, seq<nat>> {
    if k.Some? then m[k.value := Bucket<Id, nat>(m, k.value) + [idx]] else m
  }

  /** List a context under each of its keys. */
  function Pushed(l: Lookup, c: StoredContext, idx: nat): Lookup {
    Lookup(Push(l.byCaller, KeyIn(ByCaller, c), idx), Push(l.byCallee, KeyIn(ByCallee, c), idx),
           Push(l.byCallerDisplay, KeyIn(ByCallerDisplay, c), idx), Push(l.byCalleeDisplay, KeyIn(ByCalleeDisplay, c), idx),
           Push(l.bySite, KeyIn(BySite, c), idx), Push(l.byTu, KeyIn(ByTu, c), idx))
  }

  lemma ListedPush(cs: seq<StoredContext>, m: map<Id, seq<nat>>, s: Selector, c: StoredContext)
    requires Listed(cs, m, s) && c.live
    ensures Listed(cs + [c], Push(m, KeyIn(s, c), |cs|), s)
  {
    var cs', m' := cs + [c], Push(m, KeyIn(s, c), |cs|);
    forall id ensures Bucket(m', id) == LiveWhere(cs', |cs'|, s, Some(id)) {
      LiveWhereSame(cs, cs', |cs|, s, Some(id));
      assert Bucket(m, id) == LiveWhere(cs, |cs|, s, Some(id));
    }
  }

  lemma AllListedPush(cs: seq<StoredContext>, l: Lookup, c: StoredContext)
    requires AllListed(cs, l) && c.live
    ensures AllListed(cs + [c], Pushed(l, c, |cs|))
  {
    hide Listed, Push, KeyIn;
    forall s ensures Listed(cs + [c], Pushed(l, c, |cs|).Get(s), s) {
      ListedPush(cs, l.Get(s), s, c);
      assert Pushed(l, c, |cs|).Get(s) == Push(l.Get(s), KeyIn(s, c), |cs|);
    }
  }

  // ---- The index.

  class ControlFlowIndex {
    var strings: seq<string>
    var tables: Tables
    var contexts: seq<StoredContext>
    var lookup: Lookup
    var noProvenance: seq<nat>
    var liveCount: nat

    ghost predicate Valid()
      reads this
    {
      && Injective(strings) && |strings| < U32
      && TablesOk(|strings|, tables) && AllReadable(strings, tables, contexts)
      && AllListed(contexts, lookup) && noProvenance == LiveWhere(contexts, |contexts|, ByTu, None)
      && liveCount == |Entries(strings, tables, contexts)|
    }

    /** What the index holds, as values. */
    ghost function Contents(): seq<Entry>
      reads this
      requires Valid()
    {
      Entries(strings, tables, contexts)
    }

    constructor ()
      ensures Valid() && Contents() == [] && strings == [] && contexts == []
    {
      strings, contexts, noProvenance, liveCount := [], [], [], 0;
      tables := Tables([[]], map[], [[]], map[], [[]], map[]);
      lookup := Lookup(map[], map[], map[], map[], map[], map[]);
    }

    /** Store a context whose ids and set ids are known. */
    method InsertStored(c: StoredContext)
      requires Valid() && c.live && Readable(strings, tables, c)
      modifies this`contexts, this`lookup, this`noProvenance, this`liveCount
      ensures Valid() && Contents() == old(Contents()) + [EntryOf(strings, tables, c)]
      ensures contexts == old(contexts) + [c]
    {
      hide Injective, TablesOk, Readable, AllListed, Entries, LiveWhere, Pushed, EntryOf;
      AllListedPush(contexts, lookup, c);
      EntriesSnoc(strings, tables, contexts, c);
      NoProvenancePush(contexts, c);
      lookup := Pushed(lookup, c, |contexts|);
      if c.tu.None? {
        noProvenance := noProvenance + [|contexts|];
      }
      contexts := contexts + [c];
      liveCount := liveCount + 1;
    }

    /** Add a context: intern its strings and sets and list it. */
    method AddCallSiteContext(ctx: CallContext)
      requires Valid() && ScopesFit(ctx.scopes) && GuardsFit(ctx.guards)
      requires |strings| + 6 + 3 * |ctx.locals| < U32
      modifies this
      ensures Valid()
      ensures Contents() == old(Contents()) + [Reg(Normalized(ctx), if ctx.tuPath == "" then None else Some(ctx.tuPath))]
    {
      hide Injective, TablesOk, Readable, AllListed, Entries, LiveWhere, EntryOf, Intern, Find, ScopesFit, GuardsFit, LocalsNamed, AllReadable, TablesGrow;
      var table, ids, tuId := InternContext(strings, ctx);
      var locals;
      ghost var table0 := table;
      table, locals := InternLocals(table, ctx.locals);
      NamesGrow(table0, table, ids, tuId, ctx);
      var t, scopeSet, guardSet, raiiSet := InternSets(|strings|, |table|, tables, ctx.scopes, ctx.guards, locals);
      EntriesGrow(strings, tables, table, t, contexts);
      strings, tables := table, t;
      var c := StoredContext(ids.caller, ids.callee, ids.callerDisplay, ids.calleeDisplay, ids.site, tuId,
                             scopeSet, guardSet, raiiSet, ctx.callerNoexcept, ctx.insideCatch, true);
      StoredMeans(strings, tables, c, ctx, locals);
      InsertStored(c);
    }

    // ---- Shard merge.

    /** Merge another index: its strings and sets are interned here and each of
        its live contexts is inserted with the new ids. */
    method Absorb(shard: ControlFlowIndex)
      requires Valid() && shard.Valid() && |strings| + |shard.strings| < U32
      modifies this
      ensures Valid()
      ensures shard == this ==> unchanged(this)
      ensures shard != this ==> Contents() == old(Contents()) + shard.Contents()
      ensures |strings| <= old(|strings| + |shard.strings|)
    {
      hide Injective, TablesOk, Readable, AllListed, Entries, LiveWhere, EntryOf, Intern, Find, AllReadable, TablesGrow, Moved, MovedContext;
      if shard == this {
        return;
      }
      var table, remap := Remap(strings, shard.strings);
      var t, scopeRemap, guardRemap, raiiRemap := RemapTables(|strings|, table, tables, shard.strings, shard.tables, remap);
      EntriesGrow(strings, tables, table, t, contexts);
      strings, tables := table, t;
      assert shard.contexts[..0] == [];
      NoEntries(shard.strings, shard.tables);
      assert Contents() + [] == Contents();
      for i := 0 to |shard.contexts|
        invariant Valid() && strings == table && tables == t
        invariant AllReadable(shard.strings, shard.tables, shard.contexts[..i])
        invariant Contents() == old(Contents()) + Entries(shard.strings, shard.tables, shard.contexts[..i])
      {
        var c := shard.contexts[i];
        assert shard.contexts[..i + 1] == shard.contexts[..i] + [c];
        ReadableAt(shard.strings, shard.tables, shard.contexts, i);
        EntriesSnoc(shard.strings, shard.tables, shard.contexts[..i], c);
        MoveContext(table, t, shard.strings, shard.tables, remap, scopeRemap, guardRemap, raiiRemap, c);
        if c.live {
          InsertStored(MovedContext(remap, scopeRemap, guardRemap, raiiRemap, c));
        }
      }
      assert shard.contexts[..|shard.contexts|] == shard.contexts;
    }

    // ---- Removal.

    /** Tombstone the contexts of the given units.  A context without a unit goes
        if its call site starts with one of the paths and a colon. */
    method RemoveTUs(tuPaths: seq<string>) returns (removed: nat)
      requires Valid()
      modifies this`contexts, this`lookup, this`noProvenance, this`liveCount
      ensures Valid() && Contents() == Remaining(old(Contents()), tuPaths)
      ensures removed == old(liveCount) - liveCount
      ensures forall s :: s != BySite && s != ByTu ==> lookup.Get(s).Keys == old(lookup.Get(s)).Keys
      ensures exists dead :: Killed(strings, tables, old(contexts), contexts, dead, tuPaths)
    {
      hide Injective, TablesOk, Readable, AllListed, Entries, LiveWhere, EntryOf, Find, AllReadable, Killed, Remaining, Goes, Tombstoned;
      var tagged := Provenanced(tuPaths);
      ghost var cs0 := contexts;
      var cs, dead;
      cs, dead, removed := Tombstone(tagged, tuPaths);
      KilledEntries(strings, tables, cs0, cs, dead, tuPaths);
      KilledShape(strings, tables, cs0, cs, dead, tuPaths);
      var byCaller := Scrub(cs0, cs, lookup.byCaller, ByCaller, dead, lookup);
      var byCallee := Scrub(cs0, cs, lookup.byCallee, ByCallee, dead, lookup);
      var byCallerDisplay := Scrub(cs0, cs, lookup.byCallerDisplay, ByCallerDisplay, dead, lookup);
      var byCalleeDisplay := Scrub(cs0, cs, lookup.byCalleeDisplay, ByCalleeDisplay, dead, lookup);
      var bySite := Scrub(cs0, cs, lookup.bySite, BySite, dead, lookup);
      bySite := EraseEmpty(cs, bySite, BySite);
      var byTu := Scrub(cs0, cs, lookup.byTu, ByTu, dead, lookup);
      byTu := EraseEmpty(cs, byTu, ByTu);
      KilledWhere(cs0, cs, |cs0|, ByTu, None, dead);
      noProvenance := Keep(noProvenance, dead);
      lookup := Lookup(byCaller, byCallee, byCallerDisplay, byCalleeDisplay, bySite, byTu);
      AllScrubbed(cs, lookup);
      contexts := cs;
      liveCount := liveCount - removed;
    }

    /** The contexts of the given units. */
    method Provenanced(tuPaths: seq<string>) returns (tagged: seq<nat>)
      requires Valid()
      ensures forall i :: i in tagged <==> 0 <= i < |contexts| && contexts[i].live && TaggedIn(strings, tables, contexts[i], tuPaths)
    {
      hide Injective, TablesOk, AllListed, Entries, LiveWhere, Find, Readable;
      tagged := [];
      for t := 0 to |tuPaths|
        invariant forall i :: i in tagged <==> 0 <= i < |contexts| && contexts[i].live && TaggedIn(strings, tables, contexts[i], tuPaths[..t])
      {
        var id := Find(strings, tuPaths[t]);
        ghost var before := tagged;
        if id.Some? {
          UnitList(contexts, lookup, id.value);
          tagged := tagged + Bucket(lookup.byTu, id.value);
        }
        forall i | 0 <= i < |contexts|
          ensures TaggedIn(strings, tables, contexts[i], tuPaths[..t + 1]) <==>
                  TaggedIn(strings, tables, contexts[i], tuPaths[..t]) || (id.Some? && contexts[i].tu == Some(id.value))
        {
          TaggedNext(strings, tables, contexts[i], tuPaths, t, id);
        }
      }
      assert tuPaths[..|tuPaths|] == tuPaths;
    }

    /** Kill the candidates that go: the tagged ones, and of those without a unit
        the ones in a removed file. */
    method Tombstone(tagged: seq<nat>, tuPaths: seq<string>) returns (cs: seq<StoredContext>, dead: set<nat>, removed: nat)
      requires Valid()
      requires forall i :: i in tagged <==> 0 <= i < |contexts| && contexts[i].live && TaggedIn(strings, tables, contexts[i], tuPaths)
      ensures AllReadable(strings, tables, cs) && Killed(strings, tables, contexts, cs, dead, tuPaths)
      ensures removed <= liveCount && |Entries(strings, tables, cs)| == liveCount - removed
    {
      hide Injective, TablesOk, AllListed, Entries, LiveWhere, Readable, Goes, EntryOf, TaggedIn, InSomeFile;
      var candidates := tagged + noProvenance;
      UntrackedList(contexts);
      forall j | 0 <= j < |candidates| ensures candidates[j] < |contexts| {
        if j < |tagged| {
          assert candidates[j] == tagged[j] && tagged[j] in tagged;
        } else {
          assert candidates[j] == noProvenance[j - |tagged|] && noProvenance[j - |tagged|] in noProvenance;
        }
      }
      cs, dead, removed := contexts, {}, 0;
      for n := 0 to |candidates|
        invariant AllReadable(strings, tables, cs) && Tombstoned(contexts, cs, dead)
        invariant forall i :: i in dead ==> i < |contexts| && contexts[i].live && Goes(EntryOf(strings, tables, contexts[i]), tuPaths)
        invariant forall j :: 0 <= j < n && Goes(EntryOf(strings, tables, contexts[candidates[j]]), tuPaths) ==> candidates[j] in dead
        invariant removed <= liveCount && |Entries(strings, tables, cs)| == liveCount - removed
      {
        var i := candidates[n];
        assert n < |tagged| ==> i in tagged;
        assert n >= |tagged| ==> i in noProvenance;
        GoesStored(strings, tables, contexts[i], tuPaths);
        if cs[i].live {
          var goes := true;
          if n >= |tagged| {
            ReadableSite(strings, tables, cs[i]);
            goes := FromRemoved(strings[cs[i].site], tuPaths);
          }
          if goes {
            KillOne(strings, tables, cs, i);
            dead := dead + {i};
            cs := cs[i := cs[i].(live := false)];
            removed := removed + 1;
          }
        }
      }
      forall i | 0 <= i < |contexts| && contexts[i].live && Goes(EntryOf(strings, tables, contexts[i]), tuPaths) ensures i in dead {
        GoesStored(strings, tables, contexts[i], tuPaths);
        assert i in candidates;
        var j :| 0 <= j < |candidates| && candidates[j] == i;
      }
    }

    // ---- Compaction.

    /** Rebuild the storage without tombstones. */
    method Compact()
      requires Valid()
      modifies this`contexts, this`lookup, this`noProvenance
      ensures Valid() && Contents() == old(Contents())
      ensures forall i :: 0 <= i < |contexts| ==> contexts[i].live
      ensures NoEmptyBucket(lookup)
    {
      hide Injective, TablesOk, Readable, AllListed, Entries, LiveWhere, EntryOf, AllReadable, Pushed, NoEmptyBucket;
      var cs: seq<StoredContext> := [];
      var l := Lookup(map[], map[], map[], map[], map[], map[]);
      var np: seq<nat> := [];
      var stored := contexts;
      NothingListed(l);
      NoEntries(strings, tables);
      assert stored[..0] == [];
      for i := 0 to |stored|
        invariant AllReadable(strings, tables, cs) && AllListed(cs, l) && NoEmptyBucket(l)
        invariant AllReadable(strings, tables, stored[..i])
        invariant Entries(strings, tables, cs) == Entries(strings, tables, stored[..i])
        invariant np == LiveWhere(cs, |cs|, ByTu, None)
        invariant forall j :: 0 <= j < |cs| ==> cs[j].live
      {
        var c := stored[i];
        assert stored[..i + 1] == stored[..i] + [c];
        ReadableAt(strings, tables, stored, i);
        EntriesSnoc(strings, tables, stored[..i], c);
        if c.live {
          EntriesSnoc(strings, tables, cs, c);
          AllListedPush(cs, l, c);
          NoEmptyPush(l, c, |cs|);
          NoProvenancePush(cs, c);
          l := Pushed(l, c, |cs|);
          if c.tu.None? {
            np := np + [|cs|];
          }
          cs := cs + [c];
        }
      }
      assert stored[..|stored|] == stored;
      contexts, lookup, noProvenance := cs, l, np;
    }
  }

  /** Contexts without usrs are keyed by their display names. */
  function Normalized(ctx: CallContext): CallContext {
    ctx.(callerUsr := if ctx.callerUsr == "" then ctx.callerName else ctx.callerUsr,
         calleeUsr := if ctx.calleeUsr == "" then ctx.calleeName else ctx.calleeUsr)
  }

  lemma NoEntries(strings: seq<string>, t: Tables)
    ensures AllReadable(strings, t, []) && Entries(strings, t, []) == []
  {
  }

  lemma ReadableAt(strings: seq<string>, t: Tables, cs: seq<StoredContext>, i: nat)
    requires AllReadable(strings, t, cs) && i < |cs|
    ensures Readable(strings, t, cs[i])
  {
  }

  lemma NoProvenancePush(cs: seq<StoredContext>, c: StoredContext)
    requires c.live
    ensures LiveWhere(cs + [c], |cs| + 1, ByTu, None) ==
            if c.tu.None? then LiveWhere(cs, |cs|, ByTu, None) + [|cs|] else LiveWhere(cs, |cs|, ByTu, None)
  {
    LiveWhereSame(cs, cs + [c], |cs|, ByTu, None);
  }

  // ---- Interning a context.

  datatype ContextIds = ContextIds(caller: Id, callee: Id, callerDisplay: Id, calleeDisplay: Id, site: Id)

  ghost predicate Names(strings: seq<string>, ids: ContextIds, tu: Option<Id>, ctx: CallContext) {
    && ids.caller < |strings| && ids.callee < |strings| && ids.callerDisplay < |strings| && ids.calleeDisplay < |strings| && ids.site < |strings|
    && strings[ids.caller] == Normalized(ctx).callerUsr && strings[ids.callee] == Normalized(ctx).calleeUsr
    && strings[ids.callerDisplay] == ctx.callerName && strings[ids.calleeDisplay] == ctx.calleeName && strings[ids.site] == ctx.callSite
    && (tu.Some? <==> ctx.tuPath != "") && (tu.Some? ==> tu.value < |strings| && strings[tu.value] == ctx.tuPath)
  }

  method InternOne(t: seq<string>, s: string) returns (t': seq<string>, id: Id)
    requires Injective(t)
    ensures Injective(t') && t <= t' && |t'| <= |t| + 1 && id < |t'| && t'[id] == s
  {
    var r := Intern(t, s);
    t', id := r.0, r.1;
  }

  method InternContext(t: seq<string>, ctx: CallContext) returns (t': seq<string>, ids: ContextIds, tu: Option<Id>)
    requires Injective(t)
    ensures Injective(t') && t <= t' && |t'| <= |t| + 6 && Names(t', ids, tu, ctx)
  {
    hide Injective, Intern;
    var calleeDisplay, callerDisplay, callee, caller, site;
    t', calleeDisplay := InternOne(t, ctx.calleeName);
    t', callerDisplay := InternOne(t', ctx.callerName);
    callee, caller := calleeDisplay, callerDisplay;
    if ctx.calleeUsr != "" {
      t', callee := InternOne(t', ctx.calleeUsr);
    }
    if ctx.callerUsr != "" {
      t', caller := InternOne(t', ctx.callerUsr);
    }
    t', site := InternOne(t', ctx.callSite);
    tu := None;
    if ctx.tuPath != "" {
      var id;
      t', id := InternOne(t', ctx.tuPath);
      tu := Some(id);
    }
    ids := ContextIds(caller, callee, callerDisplay, calleeDisplay, site);
  }

  method InternLocals(t: seq<string>, locals: seq<RaiiLocal>) returns (t': seq<string>, r: seq<StoredLocal>)
    requires Injective(t)
    ensures Injective(t') && t <= t' && |t'| <= |t| + 3 * |locals|
    ensures LocalsNamed(|t'|, r) && LocalsOf(t', r) == locals
  {
    hide Injective;
    t', r := t, [];
    for i := 0 to |locals|
      invariant Injective(t') && t <= t' && |t'| <= |t| + 3 * i && |r| == i && LocalsNamed(|t'|, r)
      invariant forall j :: 0 <= j < i ==> LocalOf(t', r[j]) == locals[j]
    {
      var a, b, c;
      t', a := InternOne(t', locals[i].typeName);
      t', b := InternOne(t', locals[i].varName);
      t', c := InternOne(t', locals[i].declLocation);
      r := r + [StoredLocal(a, b, c, locals[i].kind)];
    }
  }

  method InternSets(ghost m: nat, ghost n: nat, t: Tables, scopes: seq<TryScope>, guards: seq<Guard>, locals: seq<StoredLocal>)
    returns (t': Tables, scopeSet: nat, guardSet: nat, raiiSet: nat)
    requires TablesOk(m, t) && ScopesFit(scopes) && GuardsFit(guards) && LocalsNamed(n, locals) && m <= n < U32
    ensures TablesOk(n, t') && TablesGrow(t, t')
    ensures scopeSet < |t'.scopes| && t'.scopes[scopeSet] == scopes
    ensures guardSet < |t'.guards| && t'.guards[guardSet] == guards
    ensures raiiSet < |t'.locals| && t'.locals[raiiSet] == locals
  {
    hide ScopesFit, GuardsFit, ScopeSetKey, GuardSetKey, LocalSetKey, TableOk, KeyInjective;
    KeysInjective();
    FitsMean(scopes, guards, locals, n);
    var a, ai, b, bi, c, ci;
    a, ai, scopeSet := InternSet(t.scopes, t.scopeIds, ScopeSetKey(scopes), scopes, ScopeSetKey, FitScopes());
    b, bi, guardSet := InternSet(t.guards, t.guardIds, GuardSetKey(guards), guards, GuardSetKey, FitGuards());
    c, ci, raiiSet := InternSet(t.locals, t.localIds, LocalSetKey(locals), locals, LocalSetKey, FitLocals());
    t' := Tables(a, ai, b, bi, c, ci);
    InternNamed(t.locals, c, m, n, raiiSet, locals);
  }

  lemma FitsMean(scopes: seq<TryScope>, guards: seq<Guard>, locals: seq<StoredLocal>, n: nat)
    requires ScopesFit(scopes) && GuardsFit(guards) && LocalsNamed(n, locals) && n < U32
    ensures FitScopes()(scopes) && FitGuards()(guards) && FitLocals()(locals)
  {
  }

  lemma InternNamed(before: seq<seq<StoredLocal>>, sets: seq<seq<StoredLocal>>, m: nat, n: nat, id: nat, locals: seq<StoredLocal>)
    requires before <= sets && m <= n && LocalsNamed(n, locals) && (sets == before || sets == before + [locals]) && id < |sets| && sets[id] == locals
    requires forall i :: 0 <= i < |before| ==> LocalsNamed(m, before[i])
    ensures forall i :: 0 <= i < |sets| ==> LocalsNamed(n, sets[i])
  {
  }

  /** A context stored under interned ids is given back as it came. */
  lemma StoredMeans(strings: seq<string>, t: Tables, c: StoredContext, ctx: CallContext, locals: seq<StoredLocal>)
    requires Names(strings, ContextIds(c.caller, c.callee, c.callerDisplay, c.calleeDisplay, c.site), c.tu, ctx)
    requires c.scopeSet < |t.scopes| && t.scopes[c.scopeSet] == ctx.scopes
    requires c.guardSet < |t.guards| && t.guards[c.guardSet] == ctx.guards
    requires c.raiiSet < |t.locals| && t.locals[c.raiiSet] == locals && LocalsNamed(|strings|, locals) && LocalsOf(strings, locals) == ctx.locals
    requires c.spec == ctx.callerNoexcept && c.insideCatch == ctx.insideCatch
    ensures Readable(strings, t, c)
    ensures EntryOf(strings, t, c) == Reg(Normalized(ctx), if ctx.tuPath == "" then None else Some(ctx.tuPath))
  {
  }

  lemma NamesGrow(t: seq<string>, t': seq<string>, ids: ContextIds, tu: Option<Id>, ctx: CallContext)
    requires Names(t, ids, tu, ctx) && t <= t'
    ensures Names(t', ids, tu, ctx)
  {
  }

  // ---- Renaming a shard.

  function MapLocal(remap: seq<Id>, l: StoredLocal): StoredLocal
    requires l.typeName < |remap| && l.varName < |remap| && l.declLocation < |remap|
  {
    StoredLocal(remap[l.typeName], remap[l.varName], remap[l.declLocation], l.kind)
  }

  function MapLocals(remap: seq<Id>, ls: seq<StoredLocal>): (r: seq<StoredLocal>)
    requires LocalsNamed(|remap|, ls)
    ensures |r| == |ls|
  {
    seq(|ls|, i requires 0 <= i < |ls| => MapLocal(remap, ls[i]))
  }

  ghost predicate Renames(table: seq<string>, shard: seq<string>, remap: seq<Id>) {
    |remap| == |shard| && forall i :: 0 <= i < |shard| ==> remap[i] < |table| && table[remap[i]] == shard[i]
  }

  lemma MapLocalsMean(table: seq<string>, shard: seq<string>, remap: seq<Id>, ls: seq<StoredLocal>)
    requires Renames(table, shard, remap) && LocalsNamed(|shard|, ls)
    ensures LocalsNamed(|table|, MapLocals(remap, ls)) && LocalsOf(table, MapLocals(remap, ls)) == LocalsOf(shard, ls)
  {
  }

  /** Each set of the shard has the same meaning under its new id. */
  ghost predicate Moved(t: Tables, src: Tables, remap: seq<Id>, scopes: seq<nat>, guards: seq<nat>, locals: seq<nat>) {
    && |scopes| == |src.scopes| && |guards| == |src.guards| && |locals| == |src.locals|
    && (forall i :: 0 <= i < |scopes| ==> scopes[i] < |t.scopes| && t.scopes[scopes[i]] == src.scopes[i])
    && (forall i :: 0 <= i < |guards| ==> guards[i] < |t.guards| && t.guards[guards[i]] == src.guards[i])
    && (forall i :: 0 <= i < |locals| ==>
          locals[i] < |t.locals| && LocalsNamed(|remap|, src.locals[i]) && t.locals[locals[i]] == MapLocals(remap, src.locals[i]))
  }

  method RemapSets<X(==, !new)>(sets: seq<seq<X>>, ids: map<string, nat>, src: seq<seq<X>>, key: seq<X> -> string, ghost fits: seq<X> -> bool)
    returns (sets': seq<seq<X>>, ids': map<string, nat>, remap: seq<nat>)
    requires TableOk(sets, ids, key, fits) && KeyInjective(key, fits)
    requires |src| > 0 && src[0] == [] && forall i :: 0 < i < |src| ==> fits(src[i])
    ensures TableOk(sets', ids', key, fits) && sets <= sets'
    ensures |remap| == |src| && forall i :: 0 <= i < |src| ==> remap[i] < |sets'| && sets'[remap[i]] == src[i]
    ensures forall s :: s in sets' ==> s in sets || s in src
  {
    hide TableOk, KeyInjective;
    TableZero(sets, ids, key, fits);
    sets', ids', remap := sets, ids, [0];
    for i := 1 to |src|
      invariant TableOk(sets', ids', key, fits) && sets <= sets'
      invariant |remap| == i && forall j :: 0 <= j < i ==> remap[j] < |sets'| && sets'[remap[j]] == src[j]
      invariant forall s :: s in sets' ==> s in sets || s in src
    {
      var id;
      sets', ids', id := InternSet(sets', ids', key(src[i]), src[i], key, fits);
      remap := remap + [id];
    }
  }

  lemma TableZero<X(!new)>(sets: seq<seq<X>>, ids: map<string, nat>, key: seq<X> -> string, fits: seq<X> -> bool)
    requires TableOk(sets, ids, key, fits)
    ensures |sets| > 0 && sets[0] == [] && forall i :: 0 < i < |sets| ==> fits(sets[i])
  {
  }

  method RemapTables(ghost m: nat, ghost table: seq<string>, t: Tables, ghost shard: seq<string>, src: Tables, remap: seq<Id>)
    returns (t': Tables, scopes: seq<nat>, guards: seq<nat>, locals: seq<nat>)
    requires TablesOk(m, t) && TablesOk(|shard|, src) && Renames(table, shard, remap) && m <= |table| < U32
    ensures TablesOk(|table|, t') && TablesGrow(t, t') && Moved(t', src, remap, scopes, guards, locals)
  {
    hide ScopeSetKey, GuardSetKey, LocalSetKey, TableOk, KeyInjective;
    KeysInjective();
    TableZero(src.scopes, src.scopeIds, ScopeSetKey, FitScopes());
    TableZero(src.guards, src.guardIds, GuardSetKey, FitGuards());
    TableZero(src.locals, src.localIds, LocalSetKey, FitLocals());
    var a, ai, b, bi, c, ci;
    a, ai, scopes := RemapSets(t.scopes, t.scopeIds, src.scopes, ScopeSetKey, FitScopes());
    b, bi, guards := RemapSets(t.guards, t.guardIds, src.guards, GuardSetKey, FitGuards());
    var moved := MapAll(remap, src.locals, table, shard);
    forall i | 0 < i < |moved| ensures FitLocals()(moved[i]) {
      NamedFits(|table|, moved[i]);
    }
    c, ci, locals := RemapSets(t.locals, t.localIds, moved, LocalSetKey, FitLocals());
    t' := Tables(a, ai, b, bi, c, ci);
    forall i | 0 <= i < |c| ensures LocalsNamed(|table|, c[i]) {
      NamedIn(m, |table|, t.locals, moved, c, i);
    }
  }

  lemma NamedFits(n: nat, ls: seq<StoredLocal>)
    requires LocalsNamed(n, ls) && n < U32
    ensures FitLocals()(ls)
  {
  }

  lemma NamedIn(m: nat, n: nat, before: seq<seq<StoredLocal>>, src: seq<seq<StoredLocal>>, sets: seq<seq<StoredLocal>>, i: nat)
    requires m <= n && i < |sets| && (sets[i] in before || sets[i] in src)
    requires forall j :: 0 <= j < |before| ==> LocalsNamed(m, before[j])
    requires forall j :: 0 <= j < |src| ==> LocalsNamed(n, src[j])
    ensures LocalsNamed(n, sets[i])
  {
  }

  method MapAll(remap: seq<Id>, src: seq<seq<StoredLocal>>, ghost table: seq<string>, ghost shard: seq<string>) returns (r: seq<seq<StoredLocal>>)
    requires Renames(table, shard, remap) && forall i :: 0 <= i < |src| ==> LocalsNamed(|shard|, src[i])
    ensures |r| == |src| && forall i :: 0 <= i < |src| ==> LocalsNamed(|remap|, src[i]) && r[i] == MapLocals(remap, src[i])
    ensures forall i :: 0 <= i < |src| ==> LocalsNamed(|table|, r[i])
  {
    hide MapLocals;
    r := [];
    for k := 0 to |src|
      invariant |r| == k && forall i :: 0 <= i < k ==> LocalsNamed(|remap|, src[i]) && r[i] == MapLocals(remap, src[i])
      invariant forall i :: 0 <= i < k ==> LocalsNamed(|table|, r[i])
    {
      MapLocalsMean(table, shard, remap, src[k]);
      r := r + [MapLocals(remap, src[k])];
    }
  }

  ghost predicate Movable(remap: seq<Id>, scopes: seq<nat>, guards: seq<nat>, locals: seq<nat>, c: StoredContext) {
    && c.caller < |remap| && c.callee < |remap| && c.callerDisplay < |remap| && c.calleeDisplay < |remap| && c.site < |remap|
    && (c.tu.Some? ==> c.tu.value < |remap|) && c.scopeSet < |scopes| && c.guardSet < |guards| && c.raiiSet < |locals|
  }

  function MovedContext(remap: seq<Id>, scopes: seq<nat>, guards: seq<nat>, locals: seq<nat>, c: StoredContext): StoredContext
    requires Movable(remap, scopes, guards, locals, c)
  {
    StoredContext(remap[c.caller], remap[c.callee], remap[c.callerDisplay], remap[c.calleeDisplay], remap[c.site],
                  if c.tu.Some? then Some(remap[c.tu.value]) else None, scopes[c.scopeSet], guards[c.guardSet], locals[c.raiiSet],
                  c.spec, c.insideCatch, c.live)
  }

  lemma MoveContext(table: seq<string>, t: Tables, shard: seq<string>, src: Tables, remap: seq<Id>, scopes: seq<nat>, guards: seq<nat>, locals: seq<nat>, c: StoredContext)
    requires Readable(shard, src, c) && Renames(table, shard, remap) && Moved(t, src, remap, scopes, guards, locals)
    ensures Movable(remap, scopes, guards, locals, c)
    ensures MovedContext(remap, scopes, guards, locals, c).live == c.live
    ensures Readable(table, t, MovedContext(remap, scopes, guards, locals, c))
    ensures EntryOf(table, t, MovedContext(remap, scopes, guards, locals, c)) == EntryOf(shard, src, c)
  {
    hide LocalsOf, MapLocals;
    MapLocalsMean(table, shard, remap, src.locals[c.raiiSet]);
  }

  // ---- What a removal leaves.

  predicate StartsWith(s: string, p: string) {
    |p| <= |s| && s[..|p|] == p
  }

  /** The call site lies in one of the files. */
  ghost predicate InSomeFile(site: string, paths: seq<string>) {
    exists j :: 0 <= j < |paths| && StartsWith(site, paths[j] + ":")
  }

  method FromRemoved(site: string, paths: seq<string>) returns (r: bool)
    ensures r <==> InSomeFile(site, paths)
  {
    for j := 0 to |paths|
      invariant forall k :: 0 <= k < j ==> !StartsWith(site, paths[k] + ":")
    {
      if StartsWith(site, paths[j] + ":") {
        return true;
      }
    }
    return false;
  }

  ghost predicate Goes(e: Entry, paths: seq<string>) {
    if e.tu.Some? then e.tu.value in paths else InSomeFile(e.record.callSite, paths)
  }

  ghost function Remaining(l: seq<Entry>, paths: seq<string>): seq<Entry> {
    if l == [] then []
    else
      var rest := Remaining(l[..|l| - 1], paths);
      if Goes(l[|l| - 1], paths) then rest else rest + [l[|l| - 1]]
  }

  lemma RemainingSnoc(l: seq<Entry>, e: Entry, paths: seq<string>)
    ensures Remaining(l + [e], paths) == if Goes(e, paths) then Remaining(l, paths) else Remaining(l, paths) + [e]
  {
    assert (l + [e])[..|l|] == l;
  }

  /** With every context tagged, a removal filters the ledger by unit. */
  lemma {:induction false} RemainingIsWithout(l: seq<Entry>, paths: seq<string>)
    requires forall e :: e in l ==> e.tu.Some?
    ensures Remaining(l, paths) == Without(l, L.AsSet(paths))
    decreases |l|
  {
    if l != [] {
      Split(l);
      RemainingIsWithout(l[..|l| - 1], paths);
      assert l[|l| - 1] in l;
    }
  }

  ghost predicate Tombstoned(a: seq<StoredContext>, b: seq<StoredContext>, dead: set<nat>) {
    |a| == |b| && forall i :: 0 <= i < |a| ==> b[i] == if i in dead then a[i].(live := false) else a[i]
  }

  lemma KilledShape(strings: seq<string>, t: Tables, a: seq<StoredContext>, b: seq<StoredContext>, dead: set<nat>, paths: seq<string>)
    requires Killed(strings, t, a, b, dead, paths)
    ensures Tombstoned(a, b, dead) && |a| == |b|
  {
  }

  /** `b` is `a` with exactly the going contexts tombstoned. */
  ghost predicate Killed(strings: seq<string>, t: Tables, a: seq<StoredContext>, b: seq<StoredContext>, dead: set<nat>, paths: seq<string>) {
    && Tombstoned(a, b, dead) && AllReadable(strings, t, a)
    && (forall i :: 0 <= i < |a| ==> (i in dead <==> a[i].live && Goes(EntryOf(strings, t, a[i]), paths)))
  }

  /** The context was contributed by one of the units. */
  ghost predicate TaggedIn(strings: seq<string>, t: Tables, c: StoredContext, paths: seq<string>)
    requires Readable(strings, t, c)
  {
    c.tu.Some? && strings[c.tu.value] in paths
  }

  lemma TaggedNext(strings: seq<string>, t: Tables, c: StoredContext, paths: seq<string>, n: nat, id: Option<Id>)
    requires Readable(strings, t, c) && Injective(strings) && n < |paths|
    requires if id.Some? then id.value < |strings| && strings[id.value] == paths[n] else paths[n] !in strings
    ensures TaggedIn(strings, t, c, paths[..n + 1]) <==> TaggedIn(strings, t, c, paths[..n]) || (id.Some? && c.tu == Some(id.value))
  {
    assert paths[..n + 1] == paths[..n] + [paths[n]];
    if c.tu.Some? && strings[c.tu.value] == paths[n] {
      assert id.Some?;
      SameText(strings, c.tu.value, id.value);
    }
  }

  lemma GoesStored(strings: seq<string>, t: Tables, c: StoredContext, paths: seq<string>)
    requires Readable(strings, t, c)
    ensures Goes(EntryOf(strings, t, c), paths) <==> TaggedIn(strings, t, c, paths) || (c.tu.None? && InSomeFile(strings[c.site], paths))
    ensures TaggedIn(strings, t, c, paths) ==> c.tu.Some?
  {
    hide LocalsOf, InSomeFile;
  }

  lemma ReadableSite(strings: seq<string>, t: Tables, c: StoredContext)
    requires Readable(strings, t, c)
    ensures c.site < |strings|
  {
  }

  lemma {:induction false} KillOne(strings: seq<string>, t: Tables, cs: seq<StoredContext>, i: nat)
    requires AllReadable(strings, t, cs) && i < |cs| && cs[i].live
    ensures AllReadable(strings, t, cs[i := cs[i].(live := false)])
    ensures |Entries(strings, t, cs[i := cs[i].(live := false)])| == |Entries(strings, t, cs)| - 1
    decreases |cs|
  {
    hide EntryOf;
    var cs' := cs[i := cs[i].(live := false)];
    var most := cs[..|cs| - 1];
    if i < |most| {
      KillOne(strings, t, most, i);
      assert cs'[..|cs| - 1] == most[i := most[i].(live := false)];
    } else {
      assert cs'[..|cs| - 1] == most;
    }
  }

  lemma KilledPrefix(strings: seq<string>, t: Tables, a: seq<StoredContext>, b: seq<StoredContext>, dead: set<nat>, paths: seq<string>)
    requires Killed(strings, t, a, b, dead, paths) && a != []
    ensures Killed(strings, t, a[..|a| - 1], b[..|b| - 1], dead, paths)
  {
    hide Readable, EntryOf, Goes;
  }

  lemma {:induction false} KilledEntries(strings: seq<string>, t: Tables, a: seq<StoredContext>, b: seq<StoredContext>, dead: set<nat>, paths: seq<string>)
    requires Killed(strings, t, a, b, dead, paths) && AllReadable(strings, t, b)
    ensures Entries(strings, t, b) == Remaining(Entries(strings, t, a), paths)
    decreases |a|
  {
    if a != [] {
      var n := |a| - 1;
      ReadableAt(strings, t, a, n);
      SameEntry(strings, t, a[n], b[n]);
      hide Readable, EntryOf, Goes, Remaining, Entries;
      KilledPrefix(strings, t, a, b, dead, paths);
      KilledEntries(strings, t, a[..n], b[..n], dead, paths);
      Split(a);
      Split(b);
      EntriesSnoc(strings, t, a[..n], a[n]);
      EntriesSnoc(strings, t, b[..n], b[n]);
      RemainingSnoc(Entries(strings, t, a[..n]), EntryOf(strings, t, a[n]), paths);
    } else {
      NoEntries(strings, t);
    }
  }

  lemma SameEntry(strings: seq<string>, t: Tables, a: StoredContext, b: StoredContext)
    requires Readable(strings, t, a) && b == a.(live := b.live)
    ensures Readable(strings, t, b) && EntryOf(strings, t, b) == EntryOf(strings, t, a)
  {
  }

  lemma {:induction false} KilledWhere(a: seq<StoredContext>, b: seq<StoredContext>, n: nat, s: Selector, id: Option<Id>, dead: set<nat>)
    requires Tombstoned(a, b, dead) && n <= |a|
    ensures Keep(LiveWhere(a, n, s, id), dead) == LiveWhere(b, n, s, id)
  {
    if n > 0 {
      KilledWhere(a, b, n - 1, s, id, dead);
      var rest := LiveWhere(a, n - 1, s, id);
      assert (rest + [n - 1])[..|rest|] == rest;
    }
  }

  /** Drop the dead positions from every list. */
  method Scrub(ghost a: seq<StoredContext>, ghost b: seq<StoredContext>, m: map<Id, seq<nat>>, ghost s: Selector, dead: set<nat>, ghost l: Lookup)
    returns (r: map<Id, seq<nat>>)
    requires AllListed(a, l) && m == l.Get(s) && Tombstoned(a, b, dead)
    ensures r.Keys == m.Keys && Listed(b, r, s)
  {
    hide LiveWhere, Keep;
    r := m;
    var left := m.Keys;
    assert Keep([], dead) == [] by { KeepNone([], dead); }
    while left != {}
      invariant left <= m.Keys && r.Keys == m.Keys
      invariant forall c :: Bucket(r, c) == if c in left then Bucket(m, c) else Keep(Bucket(m, c), dead)
      decreases left
    {
      var c :| c in left;
      r := r[c := Keep(r[c], dead)];
      left := left - {c};
    }
    assert Listed(a, l.Get(s), s);
    forall id ensures Bucket(r, id) == LiveWhere(b, |b|, s, Some(id)) {
      KilledWhere(a, b, |a|, s, Some(id), dead);
    }
  }

  /** Remove the keys whose list is empty. */
  method EraseEmpty(ghost cs: seq<StoredContext>, m: map<Id, seq<nat>>, ghost s: Selector) returns (r: map<Id, seq<nat>>)
    requires Listed(cs, m, s)
    ensures Listed(cs, r, s) && forall id :: id in r ==> r[id] != []
  {
    r := map id | id in m && m[id] != [] :: m[id];
    forall id ensures Bucket(r, id) == Bucket(m, id) {
    }
  }

  lemma AllScrubbed(cs: seq<StoredContext>, l: Lookup)
    requires Listed(cs, l.byCaller, ByCaller) && Listed(cs, l.byCallee, ByCallee) && Listed(cs, l.byCallerDisplay, ByCallerDisplay)
    requires Listed(cs, l.byCalleeDisplay, ByCalleeDisplay) && Listed(cs, l.bySite, BySite) && Listed(cs, l.byTu, ByTu)
    ensures AllListed(cs, l)
  {
    hide Listed;
    forall s ensures Listed(cs, l.Get(s), s) {
    }
  }

  lemma UnitList(cs: seq<StoredContext>, l: Lookup, id: Id)
    requires AllListed(cs, l)
    ensures forall i :: i in Bucket(l.byTu, id) <==> 0 <= i < |cs| && cs[i].live && cs[i].tu == Some(id)
  {
    hide LiveWhere;
    assert Listed(cs, l.Get(ByTu), ByTu);
    assert Bucket(l.byTu, id) == LiveWhere(cs, |cs|, ByTu, Some(id));
    forall i: nat ensures i in Bucket(l.byTu, id) <==> i < |cs| && cs[i].live && cs[i].tu == Some(id) {
      LiveWhereMember(cs, |cs|, ByTu, Some(id), i);
    }
  }

  lemma UntrackedList(cs: seq<StoredContext>)
    ensures forall i: nat :: i in LiveWhere(cs, |cs|, ByTu, None) <==> i < |cs| && cs[i].live && cs[i].tu == None
  {
    forall i: nat ensures i in LiveWhere(cs, |cs|, ByTu, None) <==> i < |cs| && cs[i].live && cs[i].tu == None {
      LiveWhereMember(cs, |cs|, ByTu, None, i);
    }
  }

  // ---- Compaction.

  /** No list is present and empty. */
  ghost predicate NoEmptyBucket(l: Lookup) {
    forall s, id :: id in l.Get(s) ==> l.Get(s)[id] != []
  }

  lemma NothingListed(l: Lookup)
    requires l == Lookup(map[], map[], map[], map[], map[], map[])
    ensures AllListed([], l) && NoEmptyBucket(l) && LiveWhere([], 0, ByTu, None) == []
  {
    forall s ensures l.Get(s) == map[] {
    }
  }

  lemma NoEmptyPush(l: Lookup, c: StoredContext, idx: nat)
    requires NoEmptyBucket(l)
    ensures NoEmptyBucket(Pushed(l, c, idx))
  {
    hide KeyIn;
    forall s, id | id in Pushed(l, c, idx).Get(s) ensures Pushed(l, c, idx).Get(s)[id] != [] {
      assert Pushed(l, c, idx).Get(s) == Push(l.Get(s), KeyIn(s, c), idx);
      assert id in l.Get(s) ==> l.Get(s)[id] != [];
    }
  }
}
