/** The mapped form of the control-flow index: records sorted by call site and
    lookup arrays sorted by name, searched in place.  Its queries take any
    arrays; on the arrays a save writes they answer like the resident form. */
module MappedIndex {
  import opened GraphTypes
  import opened Interner
  import opened Registry
  import opened RefTable
  import opened FlowTypes
  import opened FlowIndex
  import SetTables
  import opened CountingSort
  import CO = CanonicalOrder

  /** Arrays as they are read from a file: nothing about them is trusted. */
  datatype Mapped = Mapped(
    strings: seq<string>, tables: Tables, records: seq<StoredContext>, sortedIds: seq<nat>,
    byCaller: seq<nat>, byCallee: seq<nat>, byCallerDisplay: seq<nat>, byCalleeDisplay: seq<nat>)

  /** A position out of range sorts after every id. */
  const NOWHERE: nat := 0xFFFF_FFFF_FFFF_FFFF

  // ---- Values at positions.

  ghost function At(cs: seq<StoredContext>, ps: seq<nat>): (r: seq<StoredContext>)
    requires forall i :: 0 <= i < |ps| ==> ps[i] < |cs|
    ensures |r| == |ps|
  {
    seq(|ps|, i requires 0 <= i < |ps| => cs[ps[i]])
  }

  ghost function Values(strings: seq<string>, t: Tables, xs: seq<StoredContext>): (r: seq<CallContext>)
    requires AllReadable(strings, t, xs)
    ensures |r| == |xs|
  {
    seq(|xs|, i requires 0 <= i < |xs| => Materialize(strings, t, xs[i]))
  }

  /** The live ones listed under a key, oldest first. */
  ghost function Pick(xs: seq<StoredContext>, s: Selector, id: Id): seq<StoredContext> {
    if xs == [] then []
    else
      var x, rest := xs[|xs| - 1], Pick(xs[..|xs| - 1], s, id);
      if x.live && KeyIn(s, x) == Some(id) then rest + [x] else rest
  }

  lemma {:induction false} PickCount(xs: seq<StoredContext>, s: Selector, id: Id, x: StoredContext)
    ensures multiset(Pick(xs, s, id))[x] == if x.live && KeyIn(s, x) == Some(id) then multiset(xs)[x] else 0
    decreases |xs|
  {
    if xs != [] {
      hide KeyIn;
      var most, last := xs[..|xs| - 1], xs[|xs| - 1];
      Split(xs);
      PickCount(most, s, id, x);
      assert multiset(xs) == multiset(most) + multiset{last};
    }
  }

  lemma {:induction false} PickReadable(strings: seq<string>, t: Tables, xs: seq<StoredContext>, s: Selector, id: Id)
    requires AllReadable(strings, t, xs)
    ensures AllReadable(strings, t, Pick(xs, s, id))
    decreases |xs|
  {
    if xs != [] {
      hide Readable;
      PickReadable(strings, t, xs[..|xs| - 1], s, id);
    }
  }

  /** What the hash maps list is the pick. */
  lemma {:induction false} LiveWherePick(cs: seq<StoredContext>, n: nat, s: Selector, id: Id)
    requires n <= |cs|
    ensures forall i :: 0 <= i < |LiveWhere(cs, n, s, Some(id))| ==> LiveWhere(cs, n, s, Some(id))[i] < n
    ensures At(cs, LiveWhere(cs, n, s, Some(id))) == Pick(cs[..n], s, id)
  {
    if n > 0 {
      LiveWherePick(cs, n - 1, s, id);
      assert cs[..n][..n - 1] == cs[..n - 1];
      var rest := LiveWhere(cs, n - 1, s, Some(id));
      assert At(cs, rest + [n - 1]) == At(cs, rest) + [cs[n - 1]];
    }
  }

  // ---- The sorted arrays.

  /** The positions a sort by `s` orders: the live ones that have such a key. */
  ghost function Items(xs: seq<StoredContext>, n: nat, s: Selector): seq<nat>
    requires n <= |xs|
  {
    if n == 0 then []
    else
      var rest := Items(xs, n - 1, s);
      if xs[n - 1].live && KeyIn(s, xs[n - 1]).Some? then rest + [n - 1] else rest
  }

  function KeyFn(xs: seq<StoredContext>, s: Selector): nat -> nat {
    (p: nat) => if p < |xs| && KeyIn(s, xs[p]).Some? then KeyIn(s, xs[p]).value else 0
  }

  lemma {:induction false} ItemsInRange(xs: seq<StoredContext>, n: nat, s: Selector, i: nat)
    requires n <= |xs| && i < |Items(xs, n, s)|
    ensures Items(xs, n, s)[i] < n && xs[Items(xs, n, s)[i]].live && KeyIn(s, xs[Items(xs, n, s)[i]]).Some?
  {
    hide KeyIn;
    if i < |Items(xs, n - 1, s)| {
      ItemsInRange(xs, n - 1, s, i);
    }
  }

  /** Selecting a key among the items gives the same as the hash map lists. */
  lemma {:induction false} SelectItems(xs: seq<StoredContext>, n: nat, s: Selector, id: Id)
    requires n <= |xs|
    ensures WithKey(Items(xs, n, s), KeyFn(xs, s), id) == LiveWhere(xs, n, s, Some(id))
  {
    if n > 0 {
      hide WithKey, KeyIn;
      SelectItems(xs, n - 1, s, id);
      WithKeySnoc(Items(xs, n - 1, s), n - 1, KeyFn(xs, s), id);
    } else {
      assert Items(xs, n, s) == [] && LiveWhere(xs, n, s, Some(id)) == [];
    }
  }

  /** A lookup array sorted by the key of `s`. */
  ghost function Order(xs: seq<StoredContext>, s: Selector, ids: nat): seq<nat> {
    Grouped(Items(xs, |xs|, s), KeyFn(xs, s), ids)
  }

  ghost predicate KeysBelow(xs: seq<StoredContext>, ids: nat) {
    forall i, s :: 0 <= i < |xs| && KeyIn(s, xs[i]).Some? ==> KeyIn(s, xs[i]).value < ids
  }

  lemma ReadableKeys(strings: seq<string>, t: Tables, xs: seq<StoredContext>)
    requires AllReadable(strings, t, xs)
    ensures KeysBelow(xs, |strings|)
  {
    forall i, s | 0 <= i < |xs| && KeyIn(s, xs[i]).Some? ensures KeyIn(s, xs[i]).value < |strings| {
      assert Readable(strings, t, xs[i]);
    }
  }

  method SortBy(xs: seq<StoredContext>, s: Selector, ids: nat) returns (r: seq<nat>)
    requires KeysBelow(xs, ids)
    ensures r == Order(xs, s, ids)
    ensures forall i :: 0 <= i < |r| ==> r[i] < |xs|
  {
    hide Grouped, KeysBelow;
    var items: seq<nat> := [];
    for p := 0 to |xs|
      invariant items == Items(xs, p, s)
    {
      if xs[p].live && KeyIn(s, xs[p]).Some? {
        items := items + [p];
      }
    }
    forall i | 0 <= i < |items| ensures KeyFn(xs, s)(items[i]) < ids {
      ItemsInRange(xs, |xs|, s, i);
      KeyBelow(xs, ids, items[i], s);
    }
    r := OrderBy(items, KeyFn(xs, s), ids);
    forall i | 0 <= i < |r| ensures r[i] < |xs| {
      assert r[i] in multiset(items);
      var j :| 0 <= j < |items| && items[j] == r[i];
      ItemsInRange(xs, |xs|, s, j);
    }
  }

  lemma KeyBelow(xs: seq<StoredContext>, ids: nat, i: nat, s: Selector)
    requires KeysBelow(xs, ids) && i < |xs| && KeyIn(s, xs[i]).Some?
    ensures KeyIn(s, xs[i]).value < ids
  {
  }

  /** The ids in the order of their strings. */
  ghost predicate IdsSorted(strings: seq<string>, ids: seq<nat>) {
    && |ids| == |strings| && (forall i :: 0 <= i < |ids| ==> ids[i] < |strings|)
    && (forall i, j :: 0 <= i < j < |ids| ==> CO.TextLess(strings[ids[i]], strings[ids[j]]))
    && (forall id :: 0 <= id < |strings| ==> id in ids)
  }

  method SortIds(strings: seq<string>) returns (ids: seq<nat>)
    requires Injective(strings)
    ensures IdsSorted(strings, ids)
  {
    hide CO.TextLess, FirstSorted;
    ids := [];
    NoneSorted(strings);
    for n := 0 to |strings|
      invariant FirstSorted(strings, ids, n)
    {
      SortedIn(strings, ids, n);
      var k := 0;
      while k < |ids| && CO.TextLess(strings[ids[k]], strings[n])
        invariant 0 <= k <= |ids|
        invariant forall i :: 0 <= i < k ==> CO.TextLess(strings[ids[i]], strings[n])
      {
        k := k + 1;
      }
      AfterPlace(strings, ids, n, k);
      InsertId(strings, ids, n, k);
      ids := ids[..k] + [n] + ids[k..];
    }
    AllSorted(strings, ids);
  }

  /** The first `n` ids in the order of their strings. */
  ghost predicate FirstSorted(strings: seq<string>, ids: seq<nat>, n: nat) {
    && |ids| == n <= |strings| && (forall i :: 0 <= i < |ids| ==> ids[i] < n)
    && (forall i, j :: 0 <= i < j < |ids| ==> CO.TextLess(strings[ids[i]], strings[ids[j]]))
    && (forall id :: 0 <= id < n ==> id in ids)
  }

  lemma NoneSorted(strings: seq<string>)
    ensures FirstSorted(strings, [], 0)
  {
  }

  lemma SortedIn(strings: seq<string>, ids: seq<nat>, n: nat)
    requires FirstSorted(strings, ids, n)
    ensures forall i :: 0 <= i < |ids| ==> ids[i] < n <= |strings|
  {
  }

  lemma AllSorted(strings: seq<string>, ids: seq<nat>)
    requires FirstSorted(strings, ids, |strings|)
    ensures IdsSorted(strings, ids)
  {
  }

  lemma InsertId(strings: seq<string>, ids: seq<nat>, n: nat, k: nat)
    requires FirstSorted(strings, ids, n) && n < |strings| && k <= |ids|
    requires forall i :: 0 <= i < k ==> CO.TextLess(strings[ids[i]], strings[n])
    requires forall i :: k <= i < |ids| ==> CO.TextLess(strings[n], strings[ids[i]])
    ensures FirstSorted(strings, ids[..k] + [n] + ids[k..], n + 1)
  {
    hide CO.TextLess;
    var r := ids[..k] + [n] + ids[k..];
    forall id | 0 <= id < n + 1 ensures id in r {
      if id < n {
        assert id in ids;
        var i :| 0 <= i < |ids| && ids[i] == id;
        assert r[if i < k then i else i + 1] == id;
      } else {
        assert r[k] == id;
      }
    }
    forall i, j | 0 <= i < j < |r| ensures CO.TextLess(strings[r[i]], strings[r[j]]) {
      var a, b := if i < k then i else i - 1, if j < k then j else j - 1;
      assert i != k ==> r[i] == ids[a];
      assert j != k ==> r[j] == ids[b];
    }
  }

  lemma AfterPlace(strings: seq<string>, ids: seq<nat>, n: nat, k: nat)
    requires Injective(strings) && n < |strings| && k <= |ids| && FirstSorted(strings, ids, n)
    requires k < |ids| ==> !CO.TextLess(strings[ids[k]], strings[n])
    ensures forall i :: k <= i < |ids| ==> CO.TextLess(strings[n], strings[ids[i]])
  {
    hide CO.TextLess;
    forall i | k <= i < |ids| ensures CO.TextLess(strings[n], strings[ids[i]]) {
      CO.TextLessTotal(strings[ids[k]], strings[n]);
      if i > k {
        CO.TextLessTrans(strings[n], strings[ids[k]], strings[ids[i]]);
      }
    }
  }

  // ---- What a save writes.

  /** `m` is the mapped form of the live contexts `cs`. */
  ghost predicate IsImage(m: Mapped, strings: seq<string>, t: Tables, cs: seq<StoredContext>) {
    && m.strings == strings && m.tables == t && Injective(strings) && AllReadable(strings, t, cs) && IdsSorted(strings, m.sortedIds)
    && (forall i :: 0 <= i < |Order(cs, BySite, |strings|)| ==> Order(cs, BySite, |strings|)[i] < |cs|)
    && m.records == At(cs, Order(cs, BySite, |strings|))
    && m.byCaller == Order(m.records, ByCaller, |strings|) && m.byCallee == Order(m.records, ByCallee, |strings|)
    && m.byCallerDisplay == Order(m.records, ByCallerDisplay, |strings|) && m.byCalleeDisplay == Order(m.records, ByCalleeDisplay, |strings|)
  }

  method Save(ix: ControlFlowIndex) returns (m: Mapped)
    requires ix.Valid()
    ensures IsImage(m, ix.strings, ix.tables, ix.contexts)
  {
    hide Order, Readable, IdsSorted, KeysBelow, TablesOk, AllListed, LiveWhere, Entries, CO.TextLess, Injective;
    var n := |ix.strings|;
    ReadableKeys(ix.strings, ix.tables, ix.contexts);
    var order := SortBy(ix.contexts, BySite, n);
    var records: seq<StoredContext> := [];
    for i := 0 to |order|
      invariant records == At(ix.contexts, order[..i])
    {
      assert order[..i + 1] == order[..i] + [order[i]];
      records := records + [ix.contexts[order[i]]];
    }
    assert order[..|order|] == order;
    ReadableKeys(ix.strings, ix.tables, records);
    var ids := SortIds(ix.strings);
    var a := SortBy(records, ByCaller, n);
    var b := SortBy(records, ByCallee, n);
    var c := SortBy(records, ByCallerDisplay, n);
    var d := SortBy(records, ByCalleeDisplay, n);
    m := Mapped(ix.strings, ix.tables, records, ids, a, b, c, d);
  }

  // ---- Reading in place.

  function StringAt(m: Mapped, id: nat): string {
    if id < |m.strings| then m.strings[id] else ""
  }

  predicate LocalsReadable(n: nat, ls: seq<SetTables.StoredLocal>) {
    forall i :: 0 <= i < |ls| ==> ls[i].typeName < n && ls[i].varName < n && ls[i].declLocation < n
  }

  /** A record that fails validation reads as dead. */
  function RecordAt(m: Mapped, pos: nat): (r: Option<StoredContext>)
    ensures r.Some? ==> Readable(m.strings, m.tables, r.value)
    ensures pos < |m.records| && m.records[pos].live && Readable(m.strings, m.tables, m.records[pos]) ==> r == Some(m.records[pos])
  {
    if pos >= |m.records| then None
    else
      var c, n := m.records[pos], |m.strings|;
      if c.caller < n && c.callee < n && c.callerDisplay < n && c.calleeDisplay < n && c.site < n && (c.tu.Some? ==> c.tu.value < n)
        && c.scopeSet < |m.tables.scopes| && c.guardSet < |m.tables.guards| && c.raiiSet < |m.tables.locals|
        && LocalsReadable(n, m.tables.locals[c.raiiSet])
      then Some(c)
      else None
  }

  /** The field of a record that an array is sorted by. */
  function FieldIn(s: Selector, c: StoredContext): nat {
    match s
    case ByCaller => c.caller
    case ByCallee => c.callee
    case ByCallerDisplay => c.callerDisplay
    case ByCalleeDisplay => c.calleeDisplay
    case BySite => c.site
    case ByTu => if c.tu.Some? then c.tu.value else NOWHERE
  }

  function FieldAt(m: Mapped, order: seq<nat>, s: Selector, i: nat): nat
    requires i < |order|
  {
    if order[i] < |m.records| then FieldIn(s, m.records[order[i]]) else NOWHERE
  }

  /** Every entry is the position of a record that has such a key. */
  ghost predicate KeyedOrder(m: Mapped, order: seq<nat>, s: Selector) {
    forall i :: 0 <= i < |order| ==> order[i] < |m.records| && KeyIn(s, m.records[order[i]]).Some?
  }

  ghost predicate FoundRange(keys: seq<nat>, id: nat, first: nat, last: nat) {
    first <= last <= |keys| && (SortedKeys(keys) ==> forall i :: 0 <= i < |keys| ==> (first <= i < last <==> keys[i] == id))
  }

  /** On a saved array the range of an id is what the hash map lists. */
  lemma RangeFound(m: Mapped, order: seq<nat>, s: Selector, id: nat, keys: seq<nat>, first: nat, last: nat)
    requires |keys| == |order| && (forall i :: 0 <= i < |order| ==> keys[i] == FieldAt(m, order, s, i)) && FoundRange(keys, id, first, last)
    requires id < |m.strings| && order == Order(m.records, s, |m.strings|) && KeyedOrder(m, order, s)
    ensures order[first..last] == LiveWhere(m.records, |m.records|, s, Some(id))
  {
    hide Grouped, Items, LiveWhere;
    var items, keyOf := Items(m.records, |m.records|, s), KeyFn(m.records, s);
    forall i | 0 <= i < |order| ensures keys[i] == keyOf(order[i]) {
      assert KeyIn(s, m.records[order[i]]).Some?;
    }
    hide KeyFn;
    GroupedSorted(items, keyOf, |m.strings|);
    assert keys == KeysOf(order, keyOf);
    RangeIsSelection(items, keyOf, |m.strings|, id, first, last);
    SelectItems(m.records, |m.records|, s, id);
  }

  method RangeIn(m: Mapped, order: seq<nat>, s: Selector, id: nat) returns (first: nat, last: nat)
    ensures first <= last <= |order|
    ensures id < |m.strings| && order == Order(m.records, s, |m.strings|) && KeyedOrder(m, order, s) ==>
              order[first..last] == LiveWhere(m.records, |m.records|, s, Some(id))
  {
    hide Grouped, Items, LiveWhere, KeyedOrder, Order;
    var keys := seq(|order|, i requires 0 <= i < |order| => FieldAt(m, order, s, i));
    first, last := Range(keys, id);
    if id < |m.strings| && order == Order(m.records, s, |m.strings|) && KeyedOrder(m, order, s) {
      RangeFound(m, order, s, id, keys, first, last);
    }
  }

  /** The id of a string, by bisection. */
  method FindId(m: Mapped, s: string) returns (r: Option<Id>)
    ensures IdsSorted(m.strings, m.sortedIds) ==> (r.Some? ==> r.value < |m.strings| && m.strings[r.value] == s) && (r.None? ==> s !in m.strings)
  {
    hide CO.TextLess;
    var lo, hi := 0, |m.sortedIds|;
    while lo < hi
      invariant 0 <= lo <= hi <= |m.sortedIds|
      invariant IdsSorted(m.strings, m.sortedIds) ==>
                  (forall i :: 0 <= i < lo ==> m.strings[m.sortedIds[i]] != s) && (forall i :: hi <= i < |m.sortedIds| ==> m.strings[m.sortedIds[i]] != s)
    {
      var mid := lo + (hi - lo) / 2;
      var id := m.sortedIds[mid];
      var text := StringAt(m, id);
      if text == s {
        return Some(id);
      }
      OneSide(m, s, mid);
      if CO.TextLess(text, s) {
        lo := mid + 1;
      } else {
        hi := mid;
      }
    }
    NotFound(m, s);
    return None;
  }

  lemma NotFound(m: Mapped, s: string)
    ensures IdsSorted(m.strings, m.sortedIds) && (forall i :: 0 <= i < |m.sortedIds| ==> m.strings[m.sortedIds[i]] != s) ==> s !in m.strings
  {
    if IdsSorted(m.strings, m.sortedIds) && forall i :: 0 <= i < |m.sortedIds| ==> m.strings[m.sortedIds[i]] != s {
      forall id | 0 <= id < |m.strings| ensures m.strings[id] != s {
        assert id in m.sortedIds;
        var i :| 0 <= i < |m.sortedIds| && m.sortedIds[i] == id;
      }
    }
  }

  lemma OneSide(m: Mapped, s: string, mid: nat)
    requires mid < |m.sortedIds|
    ensures IdsSorted(m.strings, m.sortedIds) && StringAt(m, m.sortedIds[mid]) != s ==>
              if CO.TextLess(StringAt(m, m.sortedIds[mid]), s) then forall i :: 0 <= i <= mid ==> m.strings[m.sortedIds[i]] != s
              else forall i :: mid <= i < |m.sortedIds| ==> m.strings[m.sortedIds[i]] != s
  {
    hide CO.TextLess;
    if IdsSorted(m.strings, m.sortedIds) && StringAt(m, m.sortedIds[mid]) != s {
      var x := m.strings[m.sortedIds[mid]];
      CO.TextLessTotal(x, s);
      CO.TextLessStrict(x, s);
      forall i | 0 <= i < |m.sortedIds| && m.strings[m.sortedIds[i]] == s ensures CO.TextLess(x, s) <==> i > mid {
        if i < mid {
          assert CO.TextLess(m.strings[m.sortedIds[i]], m.strings[m.sortedIds[mid]]);
        } else if i > mid {
          assert CO.TextLess(m.strings[m.sortedIds[mid]], m.strings[m.sortedIds[i]]);
        }
      }
    }
  }

  /** The values of the valid records at the given positions. */
  method Collect(m: Mapped, ps: seq<nat>) returns (r: seq<CallContext>)
    ensures (forall i :: 0 <= i < |ps| ==> ps[i] < |m.records| && m.records[ps[i]].live) && AllReadable(m.strings, m.tables, m.records) ==>
              AllReadable(m.strings, m.tables, At(m.records, ps)) && r == Values(m.strings, m.tables, At(m.records, ps))
  {
    hide Readable, Materialize;
    r := [];
    for k := 0 to |ps|
      invariant (forall i :: 0 <= i < |ps| ==> ps[i] < |m.records| && m.records[ps[i]].live) && AllReadable(m.strings, m.tables, m.records) ==>
                  |r| == k && forall i :: 0 <= i < k ==> r[i] == Materialize(m.strings, m.tables, m.records[ps[i]])
    {
      var c := RecordAt(m, ps[k]);
      if c.Some? {
        r := r + [Materialize(m.strings, m.tables, c.value)];
      }
    }
  }

  // ---- Lookups by site.

  /** The contexts of a site, in the order they were added. */
  ghost function AtSite(strings: seq<string>, t: Tables, cs: seq<StoredContext>, site: string): seq<CallContext>
    requires AllReadable(strings, t, cs)
  {
    match Find(strings, site)
    case None => []
    case Some(id) =>
      PickReadable(strings, t, cs, BySite, id);
      Values(strings, t, Pick(cs, BySite, id))
  }

  lemma FoundId(strings: seq<string>, s: string, id: Option<Id>)
    requires Injective(strings)
    requires if id.Some? then id.value < |strings| && strings[id.value] == s else s !in strings
    ensures Find(strings, s) == id
  {
    var f := Find(strings, s);
    if id.Some? && f.Some? {
      SameText(strings, id.value, f.value);
    }
  }

  /** The records are sorted by site, so a site's records are a range of them. */
  lemma SiteRange(m: Mapped, strings: seq<string>, t: Tables, cs: seq<StoredContext>, id: Id, first: nat, last: nat)
    requires IsImage(m, strings, t, cs) && id < |strings| && first <= last <= |m.records|
    requires forall i :: 0 <= i < |m.records| ==> (first <= i < last <==> m.records[i].site == id)
    ensures m.records[first..last] == Pick(cs, BySite, id)
  {
    hide Grouped, Items, LiveWhere, Readable, IdsSorted, Pick;
    var items, keyOf := Items(cs, |cs|, BySite), KeyFn(cs, BySite);
    var order := Order(cs, BySite, |strings|);
    forall i | 0 <= i < |order| ensures first <= i < last <==> keyOf(order[i]) == id {
      assert m.records[i] == cs[order[i]];
    }
    RangeIsSelection(items, keyOf, |strings|, id, first, last);
    SelectItems(cs, |cs|, BySite, id);
    LiveWherePick(cs, |cs|, BySite, id);
    assert cs[..|cs|] == cs;
    assert At(cs, order[first..last]) == m.records[first..last];
  }

  function SiteKeys(m: Mapped): (r: seq<nat>)
    ensures |r| == |m.records| && forall i :: 0 <= i < |r| ==> r[i] == m.records[i].site
  {
    seq(|m.records|, i requires 0 <= i < |m.records| => m.records[i].site)
  }

  lemma RecordsSorted(m: Mapped, strings: seq<string>, t: Tables, cs: seq<StoredContext>)
    requires IsImage(m, strings, t, cs)
    ensures SortedKeys(SiteKeys(m))
  {
    hide Grouped, Items, Readable, IdsSorted;
    var order, keyOf := Order(cs, BySite, |strings|), KeyFn(cs, BySite);
    GroupedSorted(Items(cs, |cs|, BySite), keyOf, |strings|);
    var keys := KeysOf(order, keyOf);
    forall i, j | 0 <= i < j < |m.records| ensures m.records[i].site <= m.records[j].site {
      assert keys[i] <= keys[j];
    }
  }

  lemma RecordsLive(m: Mapped, strings: seq<string>, t: Tables, cs: seq<StoredContext>)
    requires IsImage(m, strings, t, cs)
    ensures AllReadable(strings, t, m.records) && forall i :: 0 <= i < |m.records| ==> m.records[i].live
    ensures multiset(Order(cs, BySite, |strings|)) == multiset(Items(cs, |cs|, BySite))
  {
    hide Grouped, Items, Readable, IdsSorted, KeysBelow;
    var items, keyOf := Items(cs, |cs|, BySite), KeyFn(cs, BySite);
    var order := Order(cs, BySite, |strings|);
    ReadableKeys(strings, t, cs);
    forall i | 0 <= i < |items| ensures keyOf(items[i]) < |strings| {
      ItemsInRange(cs, |cs|, BySite, i);
      KeyBelow(cs, |strings|, items[i], BySite);
    }
    GroupedIsAll(items, keyOf, |strings|);
    forall i | 0 <= i < |order| ensures cs[order[i]].live {
      assert order[i] in multiset(items);
      var j :| 0 <= j < |items| && items[j] == order[i];
      ItemsInRange(cs, |cs|, BySite, j);
    }
  }

  method MappedAtSite(m: Mapped, site: string, ghost strings: seq<string>, ghost t: Tables, ghost cs: seq<StoredContext>) returns (r: seq<CallContext>)
    ensures IsImage(m, strings, t, cs) ==> r == AtSite(strings, t, cs, site)
  {
    hide Grouped, Items, Readable, IdsSorted, Order, Pick, Materialize, Find, Injective;
    var id := FindId(m, site);
    if IsImage(m, strings, t, cs) {
      FoundId(strings, site, id);
    }
    if id.None? {
      return [];
    }
    var first, last := Range(SiteKeys(m), id.value);
    var ps := seq(last - first, i requires 0 <= i < last - first => first + i);
    r := Collect(m, ps);
    if IsImage(m, strings, t, cs) {
      RecordsSorted(m, strings, t, cs);
      RecordsLive(m, strings, t, cs);
      SiteRange(m, strings, t, cs, id.value, first, last);
      assert At(m.records, ps) == m.records[first..last];
      PickReadable(strings, t, cs, BySite, id.value);
    }
  }

  method ResidentAtSite(ix: ControlFlowIndex, site: string) returns (r: seq<CallContext>)
    requires ix.Valid()
    ensures r == AtSite(ix.strings, ix.tables, ix.contexts, site)
  {
    hide Readable, TablesOk, LiveWhere, Entries, Find, Materialize, Injective, Pick;
    var id := Find(ix.strings, site);
    if id.None? {
      return [];
    }
    var list := Bucket(ix.lookup.bySite, id.value);
    assert Listed(ix.contexts, ix.lookup.Get(BySite), BySite);
    r := CollectLive(ix, list, BySite, id.value);
  }

  /** The values at the positions of a list. */
  method CollectLive(ix: ControlFlowIndex, list: seq<nat>, ghost s: Selector, ghost id: Id) returns (r: seq<CallContext>)
    requires ix.Valid() && list == LiveWhere(ix.contexts, |ix.contexts|, s, Some(id))
    ensures AllReadable(ix.strings, ix.tables, Pick(ix.contexts, s, id)) && r == Values(ix.strings, ix.tables, Pick(ix.contexts, s, id))
  {
    hide Readable, TablesOk, AllListed, LiveWhere, Entries, Materialize, Injective, Pick;
    LiveWherePick(ix.contexts, |ix.contexts|, s, id);
    assert ix.contexts[..|ix.contexts|] == ix.contexts;
    PickReadable(ix.strings, ix.tables, ix.contexts, s, id);
    r := [];
    for k := 0 to |list|
      invariant |r| == k && forall i :: 0 <= i < k ==> r[i] == Materialize(ix.strings, ix.tables, ix.contexts[list[i]])
    {
      assert Readable(ix.strings, ix.tables, ix.contexts[list[k]]);
      r := r + [Materialize(ix.strings, ix.tables, ix.contexts[list[k]])];
    }
    assert At(ix.contexts, list) == Pick(ix.contexts, s, id);
  }

  // ---- Lookups by name.

  datatype Side = Caller | Callee

  function UsrOf(side: Side): Selector {
    if side.Caller? then ByCaller else ByCallee
  }

  function DisplayOf(side: Side): Selector {
    if side.Caller? then ByCallerDisplay else ByCalleeDisplay
  }

  /** The contexts of a name: those with that usr, else those with that display name. */
  ghost function Named(cs: seq<StoredContext>, side: Side, id: Id): seq<StoredContext> {
    if Pick(cs, UsrOf(side), id) != [] then Pick(cs, UsrOf(side), id) else Pick(cs, DisplayOf(side), id)
  }

  ghost function ByName(strings: seq<string>, t: Tables, cs: seq<StoredContext>, side: Side, name: string): seq<CallContext>
    requires AllReadable(strings, t, cs)
  {
    match Find(strings, name)
    case None => []
    case Some(id) =>
      PickReadable(strings, t, cs, UsrOf(side), id);
      PickReadable(strings, t, cs, DisplayOf(side), id);
      Values(strings, t, Named(cs, side, id))
  }

  /** Sorting the records does not change what is picked, up to order. */
  lemma PickSorted(m: Mapped, strings: seq<string>, t: Tables, cs: seq<StoredContext>, s: Selector, id: Id)
    requires IsImage(m, strings, t, cs)
    ensures multiset(Pick(m.records, s, id)) == multiset(Pick(cs, s, id))
  {
    hide Grouped, Items, Readable, IdsSorted, Order, Pick, KeyIn;
    RecordsLive(m, strings, t, cs);
    forall x ensures multiset(Pick(m.records, s, id))[x] == multiset(Pick(cs, s, id))[x] {
      PickCount(m.records, s, id, x);
      PickCount(cs, s, id, x);
      RecordsCount(cs, Order(cs, BySite, |strings|), x);
    }
  }

  lemma {:induction false} AtItems(cs: seq<StoredContext>, n: nat, x: StoredContext)
    requires n <= |cs|
    ensures forall i :: 0 <= i < |Items(cs, n, BySite)| ==> Items(cs, n, BySite)[i] < |cs|
    ensures multiset(At(cs, Items(cs, n, BySite)))[x] == if x.live then multiset(cs[..n])[x] else 0
  {
    if n > 0 {
      AtItems(cs, n - 1, x);
      assert cs[..n] == cs[..n - 1] + [cs[n - 1]];
      var rest := Items(cs, n - 1, BySite);
      assert At(cs, rest + [n - 1]) == At(cs, rest) + [cs[n - 1]];
    }
  }

  lemma {:induction false} AtPermuted(cs: seq<StoredContext>, a: seq<nat>, b: seq<nat>)
    requires multiset(a) == multiset(b) && forall i :: 0 <= i < |a| ==> a[i] < |cs|
    ensures forall i :: 0 <= i < |b| ==> b[i] < |cs|
    ensures multiset(At(cs, a)) == multiset(At(cs, b))
    decreases |a|
  {
    forall i | 0 <= i < |b| ensures b[i] < |cs| {
      assert b[i] in multiset(a);
      var j :| 0 <= j < |a| && a[j] == b[i];
    }
    if a == [] {
      assert |multiset(b)| == 0;
      assert b == [];
    } else {
      var last, most := a[|a| - 1], a[..|a| - 1];
      var i := TakeOut(a, b);
      AtPermuted(cs, most, b[..i] + b[i + 1..]);
      Split(a);
      AtSnoc(cs, most, last);
      AtMiddle(cs, b, i, last);
    }
  }

  lemma AtSnoc(cs: seq<StoredContext>, ps: seq<nat>, p: nat)
    requires p < |cs| && forall i :: 0 <= i < |ps| ==> ps[i] < |cs|
    ensures multiset(At(cs, ps + [p])) == multiset(At(cs, ps)) + multiset{cs[p]}
  {
    assert At(cs, ps + [p]) == At(cs, ps) + [cs[p]];
  }

  lemma AtMiddle(cs: seq<StoredContext>, b: seq<nat>, i: nat, p: nat)
    requires i < |b| && b[i] == p && forall j :: 0 <= j < |b| ==> b[j] < |cs|
    ensures multiset(At(cs, b)) == multiset(At(cs, b[..i] + b[i + 1..])) + multiset{cs[p]}
  {
    var x, y := At(cs, b[..i]), At(cs, b[i + 1..]);
    assert At(cs, b) == x + [cs[p]] + y;
    assert At(cs, b[..i] + b[i + 1..]) == x + y;
  }

  lemma RecordsCount(cs: seq<StoredContext>, order: seq<nat>, x: StoredContext)
    requires multiset(order) == multiset(Items(cs, |cs|, BySite)) && forall i :: 0 <= i < |order| ==> order[i] < |cs|
    ensures multiset(At(cs, order))[x] == if x.live then multiset(cs)[x] else 0
  {
    hide Items;
    AtItems(cs, |cs|, x);
    assert cs[..|cs|] == cs;
    AtPermuted(cs, order, Items(cs, |cs|, BySite));
  }

  /** The positions an array lists under an id, in the mapped form. */
  lemma MappedPick(m: Mapped, strings: seq<string>, t: Tables, cs: seq<StoredContext>, s: Selector, id: Id, ps: seq<nat>)
    requires IsImage(m, strings, t, cs) && ps == LiveWhere(m.records, |m.records|, s, Some(id))
    ensures forall i :: 0 <= i < |ps| ==> ps[i] < |m.records| && m.records[ps[i]].live
    ensures At(m.records, ps) == Pick(m.records, s, id)
  {
    hide Grouped, Items, Readable, IdsSorted, Order, LiveWhere, Pick;
    RecordsLive(m, strings, t, cs);
    LiveWherePick(m.records, |m.records|, s, id);
    assert m.records[..|m.records|] == m.records;
  }

  lemma ImageOrders(m: Mapped, strings: seq<string>, t: Tables, cs: seq<StoredContext>, s: Selector)
    requires IsImage(m, strings, t, cs)
    ensures KeyedOrder(m, Order(m.records, s, |strings|), s)
  {
    hide Grouped, Items, Readable, IdsSorted, KeysBelow;
    RecordsLive(m, strings, t, cs);
    ReadableKeys(strings, t, m.records);
    var items, keyOf := Items(m.records, |m.records|, s), KeyFn(m.records, s);
    var order := Order(m.records, s, |strings|);
    forall i | 0 <= i < |items| ensures keyOf(items[i]) < |strings| {
      ItemsInRange(m.records, |m.records|, s, i);
      KeyBelow(m.records, |strings|, items[i], s);
    }
    GroupedIsAll(items, keyOf, |strings|);
    forall i | 0 <= i < |order| ensures order[i] < |m.records| && KeyIn(s, m.records[order[i]]).Some? {
      assert order[i] in multiset(items);
      var j :| 0 <= j < |items| && items[j] == order[i];
      ItemsInRange(m.records, |m.records|, s, j);
    }
  }

  /** The positions of a name: the range of its usr, or else of its display name. */
  method MappedPositions(m: Mapped, side: Side, id: Id, ghost strings: seq<string>, ghost t: Tables, ghost cs: seq<StoredContext>) returns (ps: seq<nat>)
    ensures IsImage(m, strings, t, cs) && id < |strings| ==>
              (forall i :: 0 <= i < |ps| ==> ps[i] < |m.records| && m.records[ps[i]].live) && At(m.records, ps) == Named(m.records, side, id)
  {
    hide Grouped, Items, Readable, IdsSorted, Order, LiveWhere, Pick, Injective, AllReadable;
    var order := if side.Caller? then m.byCaller else m.byCallee;
    ghost var image := IsImage(m, strings, t, cs) && id < |strings|;
    if image {
      ImageOrders(m, strings, t, cs, UsrOf(side));
      ImageOrders(m, strings, t, cs, DisplayOf(side));
    }
    var first, last := RangeIn(m, order, UsrOf(side), id);
    ps := order[first..last];
    if image {
      MappedPick(m, strings, t, cs, UsrOf(side), id, ps);
    }
    if first == last {
      order := if side.Caller? then m.byCallerDisplay else m.byCalleeDisplay;
      first, last := RangeIn(m, order, DisplayOf(side), id);
      ps := order[first..last];
      if image {
        MappedPick(m, strings, t, cs, DisplayOf(side), id, ps);
      }
    }
  }

  lemma {:induction false} ValuesPermuted(strings: seq<string>, t: Tables, a: seq<StoredContext>, b: seq<StoredContext>)
    requires multiset(a) == multiset(b) && AllReadable(strings, t, a) && AllReadable(strings, t, b)
    ensures multiset(Values(strings, t, a)) == multiset(Values(strings, t, b))
    decreases |a|
  {
    hide Readable, Materialize;
    if a == [] {
      assert |multiset(b)| == 0;
      assert b == [];
    } else {
      var last, most := a[|a| - 1], a[..|a| - 1];
      var i := TakeOut(a, b);
      ValuesPermuted(strings, t, most, b[..i] + b[i + 1..]);
      Split(a);
      ValuesMiddle(strings, t, b, i);
      ValuesMiddle(strings, t, a, |most|);
      assert a[..|most|] + a[|most| + 1..] == most;
    }
  }

  lemma ValuesMiddle(strings: seq<string>, t: Tables, b: seq<StoredContext>, i: nat)
    requires i < |b| && AllReadable(strings, t, b)
    ensures AllReadable(strings, t, b[..i] + b[i + 1..])
    ensures multiset(Values(strings, t, b)) == multiset(Values(strings, t, b[..i] + b[i + 1..])) + multiset{Materialize(strings, t, b[i])}
  {
    hide Readable, Materialize;
    assert AllReadable(strings, t, b[..i]) && AllReadable(strings, t, b[i + 1..]);
    var x, y := Values(strings, t, b[..i]), Values(strings, t, b[i + 1..]);
    assert Values(strings, t, b) == x + [Materialize(strings, t, b[i])] + y;
    assert Values(strings, t, b[..i] + b[i + 1..]) == x + y;
  }

  lemma NamedSorted(m: Mapped, strings: seq<string>, t: Tables, cs: seq<StoredContext>, side: Side, id: Id)
    requires IsImage(m, strings, t, cs)
    ensures AllReadable(strings, t, Named(cs, side, id)) && AllReadable(strings, t, Named(m.records, side, id))
    ensures multiset(Values(strings, t, Named(m.records, side, id))) == multiset(Values(strings, t, Named(cs, side, id)))
  {
    hide Grouped, Items, Readable, IdsSorted, Order, Pick, Values, Injective;
    RecordsLive(m, strings, t, cs);
    PickSorted(m, strings, t, cs, UsrOf(side), id);
    PickSorted(m, strings, t, cs, DisplayOf(side), id);
    PickReadable(strings, t, cs, UsrOf(side), id);
    PickReadable(strings, t, cs, DisplayOf(side), id);
    PickReadable(strings, t, m.records, UsrOf(side), id);
    PickReadable(strings, t, m.records, DisplayOf(side), id);
    assert |multiset(Pick(m.records, UsrOf(side), id))| == |Pick(m.records, UsrOf(side), id)|;
    assert |multiset(Pick(cs, UsrOf(side), id))| == |Pick(cs, UsrOf(side), id)|;
    ValuesPermuted(strings, t, Named(m.records, side, id), Named(cs, side, id));
  }

  method MappedByName(m: Mapped, side: Side, name: string, ghost strings: seq<string>, ghost t: Tables, ghost cs: seq<StoredContext>) returns (r: seq<CallContext>)
    ensures IsImage(m, strings, t, cs) ==> multiset(r) == multiset(ByName(strings, t, cs, side, name))
  {
    hide Grouped, Items, Readable, IdsSorted, Order, LiveWhere, Pick, Materialize, Find, Injective, Values, Named;
    var id := FindId(m, name);
    if IsImage(m, strings, t, cs) {
      FoundId(strings, name, id);
    }
    if id.None? {
      return [];
    }
    var ps := MappedPositions(m, side, id.value, strings, t, cs);
    r := Collect(m, ps);
    if IsImage(m, strings, t, cs) {
      RecordsLive(m, strings, t, cs);
      NamedSorted(m, strings, t, cs, side, id.value);
    }
  }

  /** A usr bucket that is present but empty: it hides the display names. */
  ghost predicate Blocked(l: Lookup, side: Side, id: Id) {
    id in l.Get(UsrOf(side)) && l.Get(UsrOf(side))[id] == [] && Bucket(l.Get(DisplayOf(side)), id) != []
  }

  /** The resident form: the usr bucket if there is one, else the display bucket. */
  method ResidentByName(ix: ControlFlowIndex, side: Side, name: string) returns (r: seq<CallContext>)
    requires ix.Valid()
    ensures (exists id :: 0 <= id < |ix.strings| && ix.strings[id] == name && Blocked(ix.lookup, side, id)) ==>
              r == [] && ByName(ix.strings, ix.tables, ix.contexts, side, name) != []
    ensures !(exists id :: 0 <= id < |ix.strings| && ix.strings[id] == name && Blocked(ix.lookup, side, id)) ==>
              r == ByName(ix.strings, ix.tables, ix.contexts, side, name)
  {
    hide Readable, TablesOk, LiveWhere, Entries, Find, Materialize, Injective, Pick, Values, AllReadable;
    var id := Find(ix.strings, name);
    if id.None? {
      return [];
    }
    var usrs, displays := ix.lookup.Get(UsrOf(side)), ix.lookup.Get(DisplayOf(side));
    assert Listed(ix.contexts, usrs, UsrOf(side)) && Listed(ix.contexts, displays, DisplayOf(side));
    var a := CollectLive(ix, Bucket(usrs, id.value), UsrOf(side), id.value);
    var b := CollectLive(ix, Bucket(displays, id.value), DisplayOf(side), id.value);
    BucketSizes(ix, UsrOf(side), id.value);
    BucketSizes(ix, DisplayOf(side), id.value);
    OnlyId(ix.strings, id.value);
    if id.value in usrs {
      r := a;
    } else {
      r := b;
    }
  }

  lemma OnlyId(strings: seq<string>, id: Id)
    requires Injective(strings) && id < |strings|
    ensures forall j :: 0 <= j < |strings| && strings[j] == strings[id] ==> j == id
  {
  }

  lemma BucketSizes(ix: ControlFlowIndex, s: Selector, id: Id)
    requires ix.Valid()
    ensures |Bucket(ix.lookup.Get(s), id)| == |Pick(ix.contexts, s, id)|
  {
    hide Readable, TablesOk, LiveWhere, Entries, Pick, Injective;
    assert Listed(ix.contexts, ix.lookup.Get(s), s);
    LiveWherePick(ix.contexts, |ix.contexts|, s, id);
    assert ix.contexts[..|ix.contexts|] == ix.contexts;
  }

  /** Both forms answer alike, for every site and name: always for sites, and for
      a name exactly if no empty bucket hides its display names. */
  method Compare(ix: ControlFlowIndex, m: Mapped, site: string, side: Side, name: string)
    returns (siteA: seq<CallContext>, siteB: seq<CallContext>, nameA: seq<CallContext>, nameB: seq<CallContext>)
    requires ix.Valid() && IsImage(m, ix.strings, ix.tables, ix.contexts)
    ensures siteA == siteB == AtSite(ix.strings, ix.tables, ix.contexts, site)
    ensures multiset(nameB) == multiset(ByName(ix.strings, ix.tables, ix.contexts, side, name))
    ensures multiset(nameA) == multiset(nameB) <==>
            !(exists id :: 0 <= id < |ix.strings| && ix.strings[id] == name && Blocked(ix.lookup, side, id))
    ensures NoEmptyBucket(ix.lookup) ==> multiset(nameA) == multiset(nameB)
  {
    hide IsImage, ByName, AtSite, ControlFlowIndex.Valid, Bucket;
    siteA := ResidentAtSite(ix, site);
    siteB := MappedAtSite(m, site, ix.strings, ix.tables, ix.contexts);
    nameA := ResidentByName(ix, side, name);
    nameB := MappedByName(m, side, name, ix.strings, ix.tables, ix.contexts);
    assert |multiset(nameB)| == |nameB|;
  }

  /** How a removal makes the forms differ: it takes every context with some usr
      and leaves one with that display name, and the usr bucket stays, empty. */
  method LeaveEmptyBucket(ix: ControlFlowIndex, paths: seq<string>, side: Side, id: Id, ghost survivor: nat)
    requires ix.Valid() && id in ix.lookup.Get(UsrOf(side)) && survivor < |ix.contexts|
    requires forall i :: 0 <= i < |ix.contexts| && ix.contexts[i].live && KeyIn(UsrOf(side), ix.contexts[i]) == Some(id) ==>
               Goes(EntryOf(ix.strings, ix.tables, ix.contexts[i]), paths)
    requires ix.contexts[survivor].live && KeyIn(DisplayOf(side), ix.contexts[survivor]) == Some(id)
    requires !Goes(EntryOf(ix.strings, ix.tables, ix.contexts[survivor]), paths)
    modifies ix
    ensures ix.Valid() && Blocked(ix.lookup, side, id)
  {
    hide Readable, TablesOk, LiveWhere, Entries, Injective, Goes, Remaining, EntryOf, KeyIn;
    ghost var cs := ix.contexts;
    var _ := ix.RemoveTUs(paths);
    ghost var dead :| Killed(ix.strings, ix.tables, cs, ix.contexts, dead, paths);
    assert Listed(ix.contexts, ix.lookup.Get(UsrOf(side)), UsrOf(side)) && Listed(ix.contexts, ix.lookup.Get(DisplayOf(side)), DisplayOf(side));
    EmptiedList(cs, ix.contexts, dead, UsrOf(side), id);
    LiveWhereMember(ix.contexts, |ix.contexts|, DisplayOf(side), Some(id), survivor);
  }

  lemma EmptiedList(a: seq<StoredContext>, b: seq<StoredContext>, dead: set<nat>, s: Selector, id: Id)
    requires Tombstoned(a, b, dead)
    requires forall i :: 0 <= i < |a| && a[i].live && KeyIn(s, a[i]) == Some(id) ==> i in dead
    ensures LiveWhere(b, |b|, s, Some(id)) == []
  {
    var list := LiveWhere(b, |b|, s, Some(id));
    assert list != [] ==> list[0] in list;
    forall i: nat ensures i !in list {
      LiveWhereMember(b, |b|, s, Some(id), i);
    }
  }
}
