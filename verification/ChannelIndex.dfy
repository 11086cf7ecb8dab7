/** The channel index: producer and consumer call sites, refcounted like edges,
    with lookup lists by channel and by function and a representative unit per
    site.  It refines the ledger of site registrations. */
module ChannelIndex {
  import opened GraphTypes
  import opened Interner
  import opened Registry
  import opened RefTable
  import opened Rows
  import opened FlowTypes
  import CO = CanonicalOrder
  import L = Ledger

  datatype Operation = Produce | Consume

  datatype Site = Site(channelId: string, typeName: string, category: string, op: Operation,
                       functionUsr: string, functionDisplay: string, callSite: string, guards: seq<Guard>, tuPath: string)

  /** What makes two registrations the same site. */
  datatype SiteKey = SiteKey(channelId: string, callSite: string, functionUsr: string, op: Operation)

  type SiteReg = Reg<SiteKey, string>

  function KeyOf(s: Site): SiteKey {
    SiteKey(s.channelId, s.callSite, s.functionUsr, s.op)
  }

  // ---- The lookup lists.

  datatype Listing = ByChannel | ByUsr | ByDisplay

  /** Whether a site is listed under `c`.  Under its display name only if that
      differs from its usr. */
  predicate Belongs(l: Listing, s: Site, c: string) {
    match l
    case ByChannel => s.channelId == c
    case ByUsr => s.functionUsr == c
    case ByDisplay => s.functionDisplay == c && s.functionDisplay != s.functionUsr
  }

  /** The live sites listed under `c`, oldest first. */
  ghost function LiveIn(table: seq<Stored<SiteKey>>, sites: seq<Site>, n: nat, l: Listing, c: string): seq<nat>
    requires n <= |table| && n <= |sites|
  {
    if n == 0 then []
    else
      var rest := LiveIn(table, sites, n - 1, l, c);
      if table[n - 1].refs > 0 && Belongs(l, sites[n - 1], c) then rest + [n - 1] else rest
  }

  ghost predicate Lists(table: seq<Stored<SiteKey>>, sites: seq<Site>, m: map<string, seq<nat>>, l: Listing) {
    |table| == |sites| && forall c :: Bucket(m, c) == LiveIn(table, sites, |table|, l, c)
  }

  lemma {:induction false} LiveInMember(table: seq<Stored<SiteKey>>, sites: seq<Site>, n: nat, l: Listing, c: string, i: nat)
    requires n <= |table| && n <= |sites|
    ensures i in LiveIn(table, sites, n, l, c) <==> i < n && table[i].refs > 0 && Belongs(l, sites[i], c)
  {
    if n > 0 {
      LiveInMember(table, sites, n - 1, l, c, i);
    }
  }

  lemma {:induction false} LiveInAscending(table: seq<Stored<SiteKey>>, sites: seq<Site>, n: nat, l: Listing, c: string)
    requires n <= |table| && n <= |sites|
    ensures forall i :: 0 <= i < |LiveIn(table, sites, n, l, c)| ==> LiveIn(table, sites, n, l, c)[i] < n
    ensures forall i, j :: 0 <= i < j < |LiveIn(table, sites, n, l, c)| ==> LiveIn(table, sites, n, l, c)[i] < LiveIn(table, sites, n, l, c)[j]
  {
    if n > 0 {
      LiveInAscending(table, sites, n - 1, l, c);
    }
  }

  /** Two states of the storage that list the same. */
  ghost predicate SameShape(table: seq<Stored<SiteKey>>, sites: seq<Site>, table': seq<Stored<SiteKey>>, sites': seq<Site>, n: nat) {
    n <= |table| && n <= |sites| && n <= |table'| && n <= |sites'| &&
    forall i :: 0 <= i < n ==> (table[i].refs > 0 <==> table'[i].refs > 0) && sites'[i] == sites[i].(tuPath := sites'[i].tuPath)
  }

  lemma {:induction false} LiveInSame(table: seq<Stored<SiteKey>>, sites: seq<Site>, table': seq<Stored<SiteKey>>, sites': seq<Site>, n: nat, l: Listing, c: string)
    requires SameShape(table, sites, table', sites', n)
    ensures LiveIn(table, sites, n, l, c) == LiveIn(table', sites', n, l, c)
  {
    if n > 0 {
      LiveInSame(table, sites, table', sites', n - 1, l, c);
    }
  }

  lemma ListsSame(table: seq<Stored<SiteKey>>, sites: seq<Site>, table': seq<Stored<SiteKey>>, sites': seq<Site>, m: map<string, seq<nat>>, l: Listing)
    requires Lists(table, sites, m, l) && |table'| == |table| && |sites'| == |sites|
    requires SameShape(table, sites, table', sites', |table|)
    ensures Lists(table', sites', m, l)
  {
    hide LiveIn, SameShape;
    forall c ensures Bucket(m, c) == LiveIn(table', sites', |table'|, l, c) {
      LiveInSame(table, sites, table', sites', |table|, l, c);
    }
  }

  lemma ListsAppend(table: seq<Stored<SiteKey>>, sites: seq<Site>, s: Site, n: nat, m: map<string, seq<nat>>, l: Listing, c0: string)
    requires Lists(table, sites, m, l) && n > 0
    requires l.ByDisplay? ==> s.functionDisplay != s.functionUsr
    requires c0 == match l case ByChannel => s.channelId case ByUsr => s.functionUsr case ByDisplay => s.functionDisplay
    ensures Lists(table + [Stored(KeyOf(s), n)], sites + [s], m[c0 := Bucket(m, c0) + [|sites|]], l)
  {
    var table', sites', m' := table + [Stored(KeyOf(s), n)], sites + [s], m[c0 := Bucket(m, c0) + [|sites|]];
    forall c ensures Bucket(m', c) == LiveIn(table', sites', |table'|, l, c) {
      LiveInSame(table, sites, table', sites', |table|, l, c);
      assert Bucket(m, c) == LiveIn(table, sites, |table|, l, c);
    }
  }

  /** A site shown under its usr only. */
  lemma ListsSkip(table: seq<Stored<SiteKey>>, sites: seq<Site>, s: Site, n: nat, m: map<string, seq<nat>>)
    requires Lists(table, sites, m, ByDisplay) && s.functionDisplay == s.functionUsr
    ensures Lists(table + [Stored(KeyOf(s), n)], sites + [s], m, ByDisplay)
  {
    var table', sites' := table + [Stored(KeyOf(s), n)], sites + [s];
    forall c ensures Bucket(m, c) == LiveIn(table', sites', |table'|, ByDisplay, c) {
      LiveInSame(table, sites, table', sites', |table|, ByDisplay, c);
    }
  }

  // ---- The representative unit: the least contributor.

  /** `p` is the least of `s`, or empty if there is none. */
  ghost predicate LeastOf(s: set<string>, p: string) {
    if s == {} then p == "" else p in s && forall q :: q in s ==> q == p || CO.TextLess(p, q)
  }

  function Better(p: string, q: string): string {
    if p == "" || CO.TextLess(q, p) then q else p
  }

  lemma LeastNext(s: set<string>, p: string, q: string)
    requires LeastOf(s, p) && q != "" && "" !in s
    ensures LeastOf(s + {q}, Better(p, q))
  {
    hide CO.TextLess;
    var t := s + {q};
    assert q in t && t != {};
    if s == {} {
      assert t == {q};
    } else {
      CO.TextLessTotal(p, q);
      forall x | x in s && CO.TextLess(q, p) ensures x == q || CO.TextLess(q, x) {
        if x != p {
          CO.TextLessTrans(q, p, x);
        }
      }
    }
  }

  /** The units that registered a site. */
  ghost function Contributors(regs: seq<SiteReg>, k: SiteKey): set<string> {
    set r | r in regs && r.record == k && r.tu.Some? :: r.tu.value
  }

  lemma ContributorsConcat(a: seq<SiteReg>, b: seq<SiteReg>, k: SiteKey)
    ensures Contributors(a + b, k) == Contributors(a, k) + Contributors(b, k)
  {
    forall t ensures t in Contributors(a + b, k) <==> t in Contributors(a, k) || t in Contributors(b, k) {
      assert t in Contributors(a + b, k) <==> Reg(k, Some(t)) in a + b;
      assert t in Contributors(a, k) <==> Reg(k, Some(t)) in a;
      assert t in Contributors(b, k) <==> Reg(k, Some(t)) in b;
    }
  }

  lemma ContributorsWithout(regs: seq<SiteReg>, tus: set<string>, k: SiteKey)
    ensures Contributors(Without(regs, tus), k) == Contributors(regs, k) - tus
  {
    forall t ensures t in Contributors(Without(regs, tus), k) <==> t in Contributors(regs, k) && t !in tus {
      WithoutMember(regs, tus, Reg(k, Some(t)));
      assert t in Contributors(Without(regs, tus), k) <==> Reg(k, Some(t)) in Without(regs, tus);
      assert t in Contributors(regs, k) <==> Reg(k, Some(t)) in regs;
    }
  }

  /** A unit contributes to a site exactly if the site's position is on its list. */
  lemma {:induction false} ContributesByList(regs: seq<SiteReg>, tu: string, index: map<SiteKey, nat>, k: SiteKey)
    requires k in index && OneToOne(index)
    ensures tu in Contributors(regs, k) <==> index[k] in Positions(regs, tu, index)
    decreases |regs|
  {
    if regs != [] {
      hide Positions, OneToOne;
      var r, most := regs[|regs| - 1], regs[..|regs| - 1];
      Split(regs);
      ContributesByList(most, tu, index, k);
      PositionsSnoc(most, r, tu, index);
      ContributorsConcat(most, [r], k);
      assert tu in Contributors([r], k) <==> r == Reg(k, Some(tu));
      if r.record in index && index[r.record] == index[k] {
        OneToOneKeys(index, r.record, k);
      }
    } else {
      assert Contributors(regs, k) == {};
    }
  }

  ghost predicate Tagged(regs: seq<SiteReg>) {
    forall i :: 0 <= i < |regs| ==> regs[i].tu != Some("")
  }

  lemma ContributorsNamed(regs: seq<SiteReg>, k: SiteKey)
    requires Tagged(regs)
    ensures "" !in Contributors(regs, k)
  {
  }

  /** Every live site but the marked ones shows its least contributor. */
  ghost predicate Represented(table: seq<Stored<SiteKey>>, sites: seq<Site>, regs: seq<SiteReg>, marked: set<nat>) {
    |table| == |sites| && forall i :: 0 <= i < |table| && table[i].refs > 0 && i !in marked ==>
      LeastOf(Contributors(regs, table[i].key), sites[i].tuPath)
  }

  ghost predicate Keyed(table: seq<Stored<SiteKey>>, sites: seq<Site>) {
    |table| == |sites| && forall i :: 0 <= i < |table| ==> table[i].key == KeyOf(sites[i])
  }

  // ---- Representatives under a registration.

  /** Registering `r` keeps the representatives right, given the new one. */
  lemma RepresentedNext(table0: seq<Stored<SiteKey>>, sites0: seq<Site>, index0: map<SiteKey, nat>, table: seq<Stored<SiteKey>>, sites: seq<Site>,
                        regs: seq<SiteReg>, r: SiteReg, n: nat, idx: nat)
    requires Represented(table0, sites0, regs, {}) && IndexOk(table0, index0) && CountsMatch(table0, index0, regs)
    requires |table| == |sites| && idx < |table| && n > 0 && table[idx].key == r.record
    requires forall i :: 0 <= i < |table| && i != idx ==> i < |table0| && table[i] == table0[i] && sites[i] == sites0[i] && (table[i].refs > 0 ==> table[i].key != r.record)
    requires LeastOf(Contributors(regs + Copies(r, n), r.record), sites[idx].tuPath)
    ensures Represented(table, sites, regs + Copies(r, n), {})
  {
    forall i | 0 <= i < |table| && table[i].refs > 0 ensures LeastOf(Contributors(regs + Copies(r, n), table[i].key), sites[i].tuPath) {
      if i != idx {
        ContributorsConcat(regs, Copies(r, n), table[i].key);
        CopiesAll(r, n);
        assert Contributors(Copies(r, n), table[i].key) == {};
        assert Contributors(regs, table[i].key) + {} == Contributors(regs, table[i].key);
      }
    }
  }

  lemma CopiesContributors(regs: seq<SiteReg>, r: SiteReg, n: nat)
    requires n > 0
    ensures Contributors(regs + Copies(r, n), r.record) ==
            if r.tu.Some? then Contributors(regs, r.record) + {r.tu.value} else Contributors(regs, r.record)
  {
    ContributorsConcat(regs, Copies(r, n), r.record);
    CopiesAll(r, n);
    var c := Contributors(Copies(r, n), r.record);
    assert Copies(r, n)[0] in Copies(r, n);
    assert c == if r.tu.Some? then {r.tu.value} else {};
    assert Contributors(regs, r.record) + {} == Contributors(regs, r.record);
  }

  lemma Unregistered(table: seq<Stored<SiteKey>>, index: map<SiteKey, nat>, regs: seq<SiteReg>, k: SiteKey)
    requires IndexOk(table, index) && CountsMatch(table, index, regs) && k !in index
    ensures Contributors(regs, k) == {}
  {
    CountsCover(table, index, regs);
  }

  lemma LeastAlone(q: string)
    ensures LeastOf({q}, q) && LeastOf({}, "")
  {
  }

  // ---- The index.

  class ChannelIndex {
    /** A stored site is its counted key here and its details at the same
        position in `sites`. */
    var table: seq<Stored<SiteKey>>
    var sites: seq<Site>
    var index: map<SiteKey, nat>
    var byChannel: map<string, seq<nat>>
    var byUsr: map<string, seq<nat>>
    var byDisplay: map<string, seq<nat>>
    var byTu: map<string, seq<nat>>
    var liveCount: nat

    /** Every registration still standing. */
    ghost var regs: seq<SiteReg>

    ghost predicate Shape()
      reads this
    {
      && Keyed(table, sites) && IndexOk(table, index) && liveCount == |index|
      && Lists(table, sites, byChannel, ByChannel) && Lists(table, sites, byUsr, ByUsr) && Lists(table, sites, byDisplay, ByDisplay)
    }

    ghost predicate Valid()
      reads this
    {
      && Shape()
      && CountsMatch(table, index, regs) && UnitsMatch(byTu, index, regs)
      && Tagged(regs) && Represented(table, sites, regs, {}) && "" !in byTu
    }

    constructor ()
      ensures Valid() && regs == [] && sites == []
    {
      table, sites, index, byChannel, byUsr, byDisplay, byTu, liveCount := [], [], map[], map[], map[], map[], map[], 0;
      regs := [];
    }

    /** Register `count` contributions of a site. */
    method AddSiteRefs(site: Site, count: nat)
      requires Valid()
      modifies this
      ensures Valid()
      ensures regs == old(regs) + Copies(TagOf(site), count)
      ensures StoredAs(old(sites), old(index), sites, table, site, count) || (count == 0 && sites == old(sites) && table == old(table))
    {
      hide IndexOk, CountsMatch, UnitsMatch, Lists, Represented, Raised, LiveIn, Count, Positions, RefsOf, Tagged, Keyed, Copies;
      if count == 0 {
        NoCopies(regs, TagOf(site));
        return;
      }
      var idx := Store(site, count);
      if site.tuPath != "" {
        byTu := byTu[site.tuPath := Bucket(byTu, site.tuPath) + Copies(idx, count)];
      }
      AppendCopies(old(table), old(index), table, index, old(byTu), byTu, regs, TagOf(site), count);
      TaggedCopies(regs, TagOf(site), count);
      regs := regs + Copies(TagOf(site), count);
    }

    /** Raise the count of the stored site, or append it and list it. */
    method Store(site: Site, count: nat) returns (idx: nat)
      requires Valid() && count > 0
      modifies this`table, this`sites, this`index, this`byChannel, this`byUsr, this`byDisplay, this`liveCount
      ensures Shape() && Raised(old(table), old(index), table, index, KeyOf(site), count)
      ensures Represented(table, sites, regs + Copies(TagOf(site), count), {})
      ensures KeyOf(site) in index && index[KeyOf(site)] == idx && (old(KeyOf(site) !in index) ==> idx == |old(sites)|)
      ensures StoredAs(old(sites), old(index), sites, table, site, count)
    {
      hide IndexOk, CountsMatch, UnitsMatch, Lists, Represented, Raised, LiveIn, RefsOf, Tagged, Keyed, Copies, Better, Bucket;
      var key := KeyOf(site);
      if key in index {
        idx := index[key];
        RaiseSite(table, sites, index, regs, site, count, byChannel, byUsr, byDisplay);
        if site.tuPath != "" {
          sites := sites[idx := sites[idx].(tuPath := Better(sites[idx].tuPath, site.tuPath))];
        }
        assert sites == RaisedSites(old(sites), idx, site);
        table := table[idx := table[idx].(refs := table[idx].refs + count)];
      } else {
        idx := |sites|;
        AppendSite(table, sites, index, regs, site, count, byChannel, byUsr, byDisplay);
        byChannel := byChannel[site.channelId := Bucket<string, nat>(byChannel, site.channelId) + [idx]];
        byUsr := byUsr[site.functionUsr := Bucket<string, nat>(byUsr, site.functionUsr) + [idx]];
        if site.functionDisplay != site.functionUsr {
          byDisplay := byDisplay[site.functionDisplay := Bucket<string, nat>(byDisplay, site.functionDisplay) + [idx]];
        }
        table, sites, index := table + [Stored(key, count)], sites + [site], index[key := idx];
        liveCount := liveCount + 1;
      }
    }

    method AddSite(site: Site)
      requires Valid()
      modifies this
      ensures Valid()
      ensures regs == old(regs) + [TagOf(site)]
    {
      AddSiteRefs(site, 1);
      assert Copies(TagOf(site), 1) == [TagOf(site)];
    }

    // ---- Removal.

    /** Drop every registration of the given units, then give the survivors
        that showed a removed unit their new representative. */
    method RemoveTUs(tuPaths: seq<string>) returns (removed: nat)
      requires Valid()
      modifies this
      ensures Valid()
      ensures regs == Without(old(regs), L.AsSet(tuPaths))
      ensures removed == old(liveCount) - liveCount
      ensures |sites| == |old(sites)| && KeepsDetails(old(sites), sites)
    {
      hide IndexOk, CountsMatch, UnitsMatch, Lists, Represented, Tagged, Keyed, Without, Drained, L.AsSet, KeepsDetails;
      removed := 0;
      var dead: set<nat>, marked: set<nat> := {}, {};
      WithoutNone(regs);
      NoPaths(tuPaths);
      DrainedStart(table);
      ghost var table0 := table;
      for t := 0 to |tuPaths|
        invariant IndexOk(table, index) && CountsMatch(table, index, regs) && UnitsMatch(byTu, index, regs) && Tagged(regs)
        invariant liveCount == |index| && removed == old(liveCount) - liveCount && "" !in byTu
        invariant regs == Without(old(regs), L.AsSet(tuPaths[..t]))
        invariant Drained(table0, table, dead) && Represented(table, sites, regs, marked)
        invariant sites == old(sites) && byChannel == old(byChannel) && byUsr == old(byUsr) && byDisplay == old(byDisplay)
      {
        WithoutTwice(old(regs), L.AsSet(tuPaths[..t]), {tuPaths[t]});
        NextPath(tuPaths, t);
        TaggedWithout(regs, {tuPaths[t]});
        var more;
        more, dead, marked := ReleaseUnit(tuPaths[t], dead, marked, table0);
        removed := removed + more;
      }
      assert tuPaths[..|tuPaths|] == tuPaths;
      KeyedDrained(table0, table, dead, sites);
      byChannel := Scrub(byChannel, sites, dead, table0, table, ByChannel);
      byUsr := Scrub(byUsr, sites, dead, table0, table, ByUsr);
      byDisplay := Scrub(byDisplay, sites, dead, table0, table, ByDisplay);
      RefreshMarked(marked);
    }

    /** Release the registration at one position of a unit's list. */
    method ReleaseAt(list: seq<nat>, m: nat, tu: string, dead0: set<nat>, marks: set<nat>, ghost gone0: set<nat>, ghost table0: seq<Stored<SiteKey>>,
                     ghost tableA: seq<Stored<SiteKey>>, ghost index0: map<SiteKey, nat>, ghost rest: seq<SiteReg>, ghost marked0: set<nat>)
      returns (removed: nat, dead: set<nat>, marked: set<nat>, ghost gone: set<nat>)
      requires m < |list| && IndexOk(table, index) && Pending(table, index, index0, rest, list[m..])
      requires OneToOne(index0) && ListOk(table, index0, list) && liveCount == |index| && |table| == |sites|
      requires Drained(table0, table, dead0) && Drained(tableA, table, gone0) && Marked(table, sites, list, m, tu, marked0, marks)
      modifies this`table, this`index, this`liveCount
      ensures IndexOk(table, index) && Pending(table, index, index0, rest, list[m + 1..]) && ListOk(table, index0, list)
      ensures liveCount == |index| && removed == old(liveCount) - liveCount && |table| == |sites|
      ensures Drained(table0, table, dead) && Drained(tableA, table, gone) && Marked(table, sites, list, m + 1, tu, marked0, marked)
    {
      hide IndexOk, Drained, Pending, ListOk, OneToOne, RefsOf, Marked;
      removed, dead, marked, gone := 0, dead0, marks, gone0;
      PendingNext(table, index, index0, rest, list, m);
      var idx := list[m];
      var key := table[idx].key;
      DrainedNext(table0, table, dead, idx);
      DrainedNext(tableA, table, gone, idx);
      MarkedNext(table, sites, list, m, tu, marked0, marked);
      table := table[idx := table[idx].(refs := table[idx].refs - 1)];
      if table[idx].refs > 0 {
        if sites[idx].tuPath == tu {
          marked := marked + {idx};
        }
      } else {
        marked, dead, gone := marked - {idx}, dead + {idx}, gone + {idx};
        index := index - {key};
        liveCount := liveCount - 1;
        removed := 1;
      }
    }

    /** Release one unit's registrations.  `marked` collects the surviving sites
        that showed a removed unit. */
    method ReleaseUnit(tu: string, dead0: set<nat>, marked0: set<nat>, ghost table0: seq<Stored<SiteKey>>)
      returns (removed: nat, dead: set<nat>, marked: set<nat>)
      requires IndexOk(table, index) && CountsMatch(table, index, regs) && UnitsMatch(byTu, index, regs) && Tagged(regs)
      requires liveCount == |index| && Drained(table0, table, dead0) && Represented(table, sites, regs, marked0)
      modifies this`table, this`index, this`byTu, this`liveCount, this`regs
      ensures IndexOk(table, index) && CountsMatch(table, index, regs) && UnitsMatch(byTu, index, regs)
      ensures liveCount == |index| && removed == old(liveCount) - liveCount
      ensures regs == Without(old(regs), {tu}) && byTu == old(byTu) - {tu}
      ensures Drained(table0, table, dead) && Represented(table, sites, regs, marked)
    {
      hide IndexOk, CountsMatch, UnitsMatch, Represented, Tagged, Without, Drained, Pending, ListOk, OneToOne, Positions, Count, Occurrences, RefsOf, Marked;
      removed, dead, marked := 0, dead0, marked0;
      var list := Bucket(byTu, tu);
      ghost var index0, tableA := index, table;
      ghost var rest := Without(regs, {tu});
      PendingStart(table, index, byTu, regs, tu, list);
      assert list[0..] == list;
      DrainedStart(table);
      RepresentedMeans(table, sites, regs, marked);
      assert ListInside(table, list) by { ListOkInside(table, index, list); }
      MarkedStart(table, sites, list, tu, marked);
      ghost var gone: set<nat> := {};
      for m := 0 to |list|
        invariant IndexOk(table, index) && Pending(table, index, index0, rest, list[m..]) && ListOk(table, index0, list)
        invariant liveCount == |index| && removed == |index0| - liveCount && |table| == |sites|
        invariant byTu == old(byTu) && regs == old(regs)
        invariant Drained(table0, table, dead) && Drained(tableA, table, gone)
        invariant Marked(table, sites, list, m, tu, marked0, marked)
      {
        var more;
        more, dead, marked, gone := ReleaseAt(list, m, tu, dead, marked, gone, table0, tableA, index0, rest, marked0);
        removed := removed + more;
      }
      assert list[|list|..] == [];
      PendingEnd(table, index, tableA, index0, byTu, regs, tu);
      ReleasedRepresented(tableA, index0, table, sites, byTu, regs, list, tu, marked0, marked, gone);
      byTu := byTu - {tu};
      regs := rest;
    }

    /** Give each marked site the least unit that still lists it. */
    method RefreshMarked(marked: set<nat>)
      requires Shape() && CountsMatch(table, index, regs) && UnitsMatch(byTu, index, regs) && Tagged(regs)
      requires Represented(table, sites, regs, marked) && "" !in byTu
      modifies this`sites
      ensures Valid() && |sites| == |old(sites)| && KeepsDetails(old(sites), sites)
    {
      hide IndexOk, CountsMatch, UnitsMatch, Represented, Tagged, Lists, Keyed, LiveIn;
      ghost var sites0 := sites;
      RepresentedMeans(table, sites, regs, marked);
      var cleared := ClearMarked(sites, marked);
      var r := cleared;
      var left := byTu.Keys;
      NoHolders(byTu, marked, cleared);
      while left != {}
        invariant left <= byTu.Keys && |r| == |sites0| && TuPathsOnly(sites0, r, marked)
        invariant HeldLeast(byTu, byTu.Keys - left, marked, r)
        decreases left
      {
        var tu :| tu in left;
        r := RefreshFrom(r, byTu, tu, marked, byTu.Keys - left, sites0);
        assert byTu.Keys - (left - {tu}) == (byTu.Keys - left) + {tu};
        left := left - {tu};
      }
      assert byTu.Keys - {} == byTu.Keys;
      sites := r;
      Refreshed(table, sites0, r, index, byTu, regs, marked, byChannel, byUsr, byDisplay);
    }

    // ---- Compaction.

    /** Rebuild the storage without tombstones. */
    method Compact()
      requires Valid()
      modifies this`table, this`sites, this`index, this`byChannel, this`byUsr, this`byDisplay, this`byTu
      ensures Valid()
      ensures |table| == liveCount && forall i :: 0 <= i < |table| ==> table[i].refs > 0
      ensures index.Keys == old(index).Keys && |old(sites)| == |old(table)|
      ensures table == LiveOf(old(table), |old(table)|) && sites == LiveSites(old(table), old(sites), |old(table)|)
    {
      hide IndexOk, CountsMatch, UnitsMatch, Represented, Tagged, Lists, Keyed, LiveIn, Renumber, Compacted, ListsCarried, Bucket;
      var newTable, newSites, newIndex, remap := CompactSites(table, sites, index, regs);
      var chans := RemapUnits(byChannel, remap);
      var usrs := RemapUnits(byUsr, remap);
      var displays := RemapUnits(byDisplay, remap);
      var units := RemapUnits(byTu, remap);
      CompactMatches(table, index, newTable, newIndex, remap, byTu, units, regs);
      CompactLists(table, sites, newTable, newSites, remap, byChannel, chans, ByChannel);
      CompactLists(table, sites, newTable, newSites, remap, byUsr, usrs, ByUsr);
      CompactLists(table, sites, newTable, newSites, remap, byDisplay, displays, ByDisplay);
      table, sites, index, byChannel, byUsr, byDisplay, byTu := newTable, newSites, newIndex, chans, usrs, displays, units;
    }

    // ---- Shard merge.

    /** Replay every registration of the shard under the unit that made it, in
        any order of the units. */
    method Absorb(shard: ChannelIndex)
      requires Valid() && shard.Valid()
      modifies this
      ensures Valid()
      ensures shard == this ==> unchanged(this)
      ensures shard != this ==> multiset(regs) == old(multiset(regs)) + multiset(shard.regs)
      // Sites that were there keep their details; new ones come with the shard's.
      ensures shard != this ==> KeepsDetails(old(sites), sites) && ComeFrom(shard.table, shard.sites, sites, |old(sites)|)
    {
      hide IndexOk, CountsMatch, UnitsMatch, Represented, Tagged, Lists, Keyed, LiveIn, Replayed, KeepsDetails, ComeFrom;
      if shard == this {
        return;
      }
      ReplayedStart(regs, shard.regs, shard.index);
      RepresentedMeans(shard.table, shard.sites, shard.regs, {});
      DetailsStart(sites, shard.table, shard.sites);
      for i := 0 to |shard.table|
        invariant Valid() && KeepsDetails(old(sites), sites) && ComeFrom(shard.table, shard.sites, sites, |old(sites)|)
        invariant Replayed(old(regs), regs, shard.regs, shard.index, i, {})
      {
        if shard.table[i].refs == 0 {
          ReplayedSkip(old(regs), regs, shard.regs, shard.table, shard.index, i);
        } else {
          ghost var before := sites;
          ReplaySite(shard, i, old(regs));
          DetailsMore(old(sites), before, sites, shard.table, shard.sites, i);
        }
      }
      ReplayedEnd(old(regs), regs, shard.regs, shard.table, shard.index);
    }

    /** Replay one site of the shard, run by run, and then what no unit made. */
    method ReplaySite(shard: ChannelIndex, i: nat, ghost regs0: seq<SiteReg>)
      requires Valid() && shard.Valid() && shard != this && i < |shard.table| && i < |shard.sites| && shard.table[i].refs > 0
      requires Replayed(regs0, regs, shard.regs, shard.index, i, {})
      modifies this
      ensures Valid()
      ensures Replayed(regs0, regs, shard.regs, shard.index, i + 1, {})
      ensures Grown(old(sites), sites, shard.sites[i])
    {
      hide Grown, StoredAs;
      hide IndexOk, CountsMatch, UnitsMatch, Represented, Tagged, Lists, Keyed, LiveIn, Replayed, Occurrences, Count, TaggedCount, Positions, Copies, OneToOne;
      var k := shard.table[i].key;
      StoredKey(shard.table, shard.sites, shard.index, shard.regs, i);
      TagsHaveLists(shard.table, shard.index, shard.byTu, shard.regs, k);
      TaggedNone(shard.regs, k);
      var replayed := 0;
      NotGrown(sites, shard.sites[i]);
      var left := shard.byTu.Keys;
      assert shard.byTu.Keys - left == {};
      while left != {}
        invariant left <= shard.byTu.Keys && Valid() && Grown(old(sites), sites, shard.sites[i])
        invariant replayed == TaggedCount(shard.regs, k, shard.byTu.Keys - left) <= shard.table[i].refs
        invariant Replayed(regs0, regs, shard.regs, shard.index, i, shard.byTu.Keys - left)
        decreases left
      {
        var tu :| tu in left;
        ghost var done := shard.byTu.Keys - left;
        UnitList(shard.byTu, shard.index, shard.regs, tu);
        OccurrencesAreRegs(shard.regs, tu, shard.index, k);
        TaggedNext(shard.regs, k, done, tu);
        var n := Min(Occurrences(shard.byTu[tu], i), shard.table[i].refs - replayed);
        ghost var before, sites1, index1 := regs, sites, index;
        AddSiteRefs(shard.sites[i].(tuPath := tu), n);
        GrownMore(old(sites), sites1, index1, sites, table, shard.sites[i], tu, n);
        replayed := replayed + n;
        ReplayedNext(regs0, before, regs, shard.regs, shard.index, i, done, k, tu, n);
        assert shard.byTu.Keys - (left - {tu}) == done + {tu};
        left := left - {tu};
      }
      assert shard.byTu.Keys - {} == shard.byTu.Keys;
      TaggedAll(shard.regs, k, shard.byTu.Keys);
      ghost var before, sites1, index1 := regs, sites, index;
      AddSiteRefs(shard.sites[i].(tuPath := ""), shard.table[i].refs - replayed);
      GrownMore(old(sites), sites1, index1, sites, table, shard.sites[i], "", shard.table[i].refs - replayed);
      ReplayedSite(regs0, before, regs, shard.regs, shard.index, i, shard.byTu.Keys, k, shard.table[i].refs - replayed);
    }

    // ---- Lookups.

    /** The live sites of a channel with the given role, each once. */
    method SitesOf(channelId: string, op: Operation) returns (r: seq<Site>)
      requires Valid()
      ensures forall s :: s in r <==> Live(s) && s.channelId == channelId && s.op == op
      ensures DistinctSites(r)
    {
      hide IndexOk, CountsMatch, UnitsMatch, Represented, Tagged, Keyed, LiveIn, Lists;
      var list := Bucket(byChannel, channelId);
      ListedSites(table, sites, index, byChannel, ByChannel, channelId);
      r := CollectOf(sites, list, op, channelId);
      KeyedMeans(table, sites);
      forall s ensures (exists j :: 0 <= j < |list| && sites[list[j]] == s) <==> Live(s) && Belongs(ByChannel, s, channelId) {
        ListedExactly(table, sites, byChannel, ByChannel, channelId, s);
      }
    }

    method ProducersOf(channelId: string) returns (r: seq<Site>)
      requires Valid()
      ensures forall s :: s in r <==> Live(s) && s.channelId == channelId && s.op == Produce
      ensures DistinctSites(r)
    {
      r := SitesOf(channelId, Produce);
    }

    method ConsumersOf(channelId: string) returns (r: seq<Site>)
      requires Valid()
      ensures forall s :: s in r <==> Live(s) && s.channelId == channelId && s.op == Consume
      ensures DistinctSites(r)
    {
      r := SitesOf(channelId, Consume);
    }

    /** The live sites whose function has the given usr or display name. */
    method SitesForFunction(name: string) returns (r: seq<Site>)
      requires Valid()
      ensures forall s :: s in r <==> Live(s) && (s.functionUsr == name || s.functionDisplay == name)
      ensures DistinctSites(r)
    {
      hide IndexOk, CountsMatch, UnitsMatch, Represented, Tagged, Keyed, LiveIn, Lists;
      var a := Bucket(byUsr, name);
      var b := Bucket(byDisplay, name);
      ListedSites(table, sites, index, byUsr, ByUsr, name);
      ListedSites(table, sites, index, byDisplay, ByDisplay, name);
      var ra := Collect(sites, a, ByUsr, name);
      var rb := Collect(sites, b, ByDisplay, name);
      r := ra + rb;
      KeyedMeans(table, sites);
      forall s ensures s in r <==> Live(s) && (s.functionUsr == name || s.functionDisplay == name) {
        ListedExactly(table, sites, byUsr, ByUsr, name, s);
        ListedExactly(table, sites, byDisplay, ByDisplay, name, s);
        Collected(sites, a, ra, s);
        Collected(sites, b, rb, s);
      }
    }

    /** `s` is stored and has registrations. */
    ghost predicate Live(s: Site)
      reads this
    {
      LiveSite(table, sites, s)
    }
  }

  /** Details are kept from the first registration, representatives aside. */
  ghost predicate SameDetails(a: Site, b: Site) {
    a == b.(tuPath := a.tuPath)
  }

  /** The sites that were there are where they were, representatives aside. */
  ghost predicate KeepsDetails(a: seq<Site>, b: seq<Site>) {
    |a| <= |b| && forall i :: 0 <= i < |a| ==> SameDetails(b[i], a[i])
  }

  /** Every site from `n` on has the details of a live site of the table. */
  ghost predicate ComeFrom(table: seq<Stored<SiteKey>>, from: seq<Site>, sites: seq<Site>, n: nat) {
    forall i :: n <= i < |sites| ==> LikeOne(table, from, sites[i])
  }

  ghost predicate LikeOne(table: seq<Stored<SiteKey>>, from: seq<Site>, site: Site) {
    exists j :: 0 <= j < |table| && j < |from| && table[j].refs > 0 && SameDetails(site, from[j])
  }

  /** The sites with at most one more, which has the given details. */
  ghost predicate Grown(a: seq<Site>, b: seq<Site>, site: Site) {
    KeepsDetails(a, b) && forall i :: |a| <= i < |b| ==> SameDetails(b[i], site)
  }

  lemma NotGrown(a: seq<Site>, site: Site)
    ensures Grown(a, a, site)
  {
  }

  lemma GrownMore(a: seq<Site>, b: seq<Site>, index: map<SiteKey, nat>, c: seq<Site>, table: seq<Stored<SiteKey>>, site: Site, tu: string, count: nat)
    requires Grown(a, b, site)
    requires StoredAs(b, index, c, table, site.(tuPath := tu), count) || (count == 0 && c == b)
    ensures Grown(a, c, site)
  {
  }

  lemma DetailsStart(a: seq<Site>, table: seq<Stored<SiteKey>>, from: seq<Site>)
    ensures KeepsDetails(a, a) && ComeFrom(table, from, a, |a|)
  {
  }

  lemma DetailsMore(a: seq<Site>, b: seq<Site>, c: seq<Site>, table: seq<Stored<SiteKey>>, from: seq<Site>, j: nat)
    requires KeepsDetails(a, b) && ComeFrom(table, from, b, |a|) && j < |table| && j < |from| && table[j].refs > 0 && Grown(b, c, from[j])
    ensures KeepsDetails(a, c) && ComeFrom(table, from, c, |a|)
  {
    forall i | |a| <= i < |c| ensures LikeOne(table, from, c[i]) {
      if i < |b| {
        assert LikeOne(table, from, b[i]);
        var k :| 0 <= k < |table| && k < |from| && table[k].refs > 0 && SameDetails(b[i], from[k]);
        assert SameDetails(c[i], from[k]);
      } else {
        assert SameDetails(c[i], from[j]);
      }
    }
  }

  /** The sites of the live records, in order. */
  ghost function LiveSites(table: seq<Stored<SiteKey>>, sites: seq<Site>, n: nat): seq<Site>
    requires n <= |table| && n <= |sites|
  {
    if n == 0 then []
    else
      var rest := LiveSites(table, sites, n - 1);
      if table[n - 1].refs > 0 then rest + [sites[n - 1]] else rest
  }

  /** The details after a registration: a new site is appended as it came. */
  ghost predicate StoredAs(sites0: seq<Site>, index0: map<SiteKey, nat>, sites: seq<Site>, table: seq<Stored<SiteKey>>, site: Site, count: nat) {
    && |sites0| <= |sites| && |table| == |sites| && (forall i :: 0 <= i < |sites0| ==> SameDetails(sites[i], sites0[i]))
    && (if KeyOf(site) in index0 then |sites| == |sites0| else sites == sites0 + [site])
  }

  lemma NoCopies(regs: seq<SiteReg>, r: SiteReg)
    ensures regs + Copies(r, 0) == regs
  {
  }

  lemma TaggedCopies(regs: seq<SiteReg>, r: SiteReg, n: nat)
    requires Tagged(regs) && r.tu != Some("")
    ensures Tagged(regs + Copies(r, n))
  {
    CopiesAll(r, n);
  }

  ghost function TagOf(site: Site): SiteReg {
    Reg(KeyOf(site), if site.tuPath == "" then None else Some(site.tuPath))
  }

  /** What raising the count of a stored site does to its details. */
  ghost function RaisedSites(sites: seq<Site>, idx: nat, site: Site): seq<Site>
    requires idx < |sites|
  {
    sites[idx := sites[idx].(tuPath := if site.tuPath != "" then Better(sites[idx].tuPath, site.tuPath) else sites[idx].tuPath)]
  }

  lemma RaiseSite(table: seq<Stored<SiteKey>>, sites: seq<Site>, index: map<SiteKey, nat>, regs: seq<SiteReg>, site: Site, n: nat,
                  byChannel: map<string, seq<nat>>, byUsr: map<string, seq<nat>>, byDisplay: map<string, seq<nat>>)
    requires KeyOf(site) in index && n > 0 && Tagged(regs)
    requires Keyed(table, sites) && IndexOk(table, index) && CountsMatch(table, index, regs) && Represented(table, sites, regs, {})
    requires Lists(table, sites, byChannel, ByChannel) && Lists(table, sites, byUsr, ByUsr) && Lists(table, sites, byDisplay, ByDisplay)
    ensures index[KeyOf(site)] < |table| && |sites| == |table|
    ensures var idx := index[KeyOf(site)];
            var table', sites' := table[idx := table[idx].(refs := table[idx].refs + n)], RaisedSites(sites, idx, site);
            && Keyed(table', sites') && IndexOk(table', index) && Raised(table, index, table', index, KeyOf(site), n)
            && Represented(table', sites', regs + Copies(TagOf(site), n), {})
            && Lists(table', sites', byChannel, ByChannel) && Lists(table', sites', byUsr, ByUsr) && Lists(table', sites', byDisplay, ByDisplay)
  {
    hide IndexOk, CountsMatch, Lists, Raised, LiveIn, LeastOf, Contributors, Better, Represented, SameShape, RefsOf, Tagged, Copies;
    var key := KeyOf(site);
    RaiseCount(table, index, key, n);
    var idx := index[key];
    var table', sites' := table[idx := table[idx].(refs := table[idx].refs + n)], RaisedSites(sites, idx, site);
    RaiseShape(table, sites, idx, site, n);
    ListsSame(table, sites, table', sites', byChannel, ByChannel);
    ListsSame(table, sites, table', sites', byUsr, ByUsr);
    ListsSame(table, sites, table', sites', byDisplay, ByDisplay);
    RaiseRepresented(table, sites, index, regs, site, n);
  }

  lemma RaiseShape(table: seq<Stored<SiteKey>>, sites: seq<Site>, idx: nat, site: Site, n: nat)
    requires Keyed(table, sites) && idx < |table| && table[idx].refs > 0
    ensures SameShape(table, sites, table[idx := table[idx].(refs := table[idx].refs + n)], RaisedSites(sites, idx, site), |table|)
    ensures Keyed(table[idx := table[idx].(refs := table[idx].refs + n)], RaisedSites(sites, idx, site))
  {
    hide Better;
  }

  lemma RaiseRepresented(table: seq<Stored<SiteKey>>, sites: seq<Site>, index: map<SiteKey, nat>, regs: seq<SiteReg>, site: Site, n: nat)
    requires KeyOf(site) in index && n > 0 && Tagged(regs)
    requires Keyed(table, sites) && IndexOk(table, index) && CountsMatch(table, index, regs) && Represented(table, sites, regs, {})
    ensures index[KeyOf(site)] < |table|
    ensures var idx := index[KeyOf(site)];
            Represented(table[idx := table[idx].(refs := table[idx].refs + n)], RaisedSites(sites, idx, site), regs + Copies(TagOf(site), n), {})
  {
    var key := KeyOf(site);
    var idx := index[key];
    OnlyPlace(table, index, key);
    assert LeastOf(Contributors(regs, key), sites[idx].tuPath);
    hide IndexOk, CountsMatch, LeastOf, Contributors, Better, Copies, Represented;
    CopiesContributors(regs, TagOf(site), n);
    ContributorsNamed(regs, key);
    if site.tuPath != "" {
      LeastNext(Contributors(regs, key), sites[idx].tuPath, site.tuPath);
    }
    RepresentedNext(table, sites, index, table[idx := table[idx].(refs := table[idx].refs + n)], RaisedSites(sites, idx, site), regs, TagOf(site), n, idx);
  }

  lemma OnlyPlace(table: seq<Stored<SiteKey>>, index: map<SiteKey, nat>, key: SiteKey)
    requires IndexOk(table, index)
    ensures key in index ==> index[key] < |table| && table[index[key]].refs > 0 && table[index[key]].key == key
    ensures forall i :: 0 <= i < |table| && table[i].refs > 0 && (key in index ==> i != index[key]) ==> table[i].key != key
  {
  }

  lemma AppendSite(table: seq<Stored<SiteKey>>, sites: seq<Site>, index: map<SiteKey, nat>, regs: seq<SiteReg>, site: Site, n: nat,
                   byChannel: map<string, seq<nat>>, byUsr: map<string, seq<nat>>, byDisplay: map<string, seq<nat>>)
    requires KeyOf(site) !in index && n > 0
    requires Keyed(table, sites) && IndexOk(table, index) && CountsMatch(table, index, regs) && Represented(table, sites, regs, {})
    requires Lists(table, sites, byChannel, ByChannel) && Lists(table, sites, byUsr, ByUsr) && Lists(table, sites, byDisplay, ByDisplay)
    ensures |table| == |sites|
    ensures var key, idx := KeyOf(site), |sites|;
            var table', sites', index' := table + [Stored(key, n)], sites + [site], index[key := idx];
            && Keyed(table', sites') && IndexOk(table', index') && Raised(table, index, table', index', key, n) && |index'| == |index| + 1
            && Represented(table', sites', regs + Copies(TagOf(site), n), {})
            && Lists(table', sites', byChannel[site.channelId := Bucket<string, nat>(byChannel, site.channelId) + [idx]], ByChannel)
            && Lists(table', sites', byUsr[site.functionUsr := Bucket<string, nat>(byUsr, site.functionUsr) + [idx]], ByUsr)
            && Lists(table', sites', if site.functionDisplay != site.functionUsr
                                     then byDisplay[site.functionDisplay := Bucket<string, nat>(byDisplay, site.functionDisplay) + [idx]] else byDisplay, ByDisplay)
  {
    hide IndexOk, CountsMatch, Lists, Raised, LiveIn, LeastOf, Contributors, RefsOf, Copies, Represented;
    var key := KeyOf(site);
    AppendRecord(table, index, key, n);
    ListsAppend(table, sites, site, n, byChannel, ByChannel, site.channelId);
    ListsAppend(table, sites, site, n, byUsr, ByUsr, site.functionUsr);
    if site.functionDisplay != site.functionUsr {
      ListsAppend(table, sites, site, n, byDisplay, ByDisplay, site.functionDisplay);
    } else {
      ListsSkip(table, sites, site, n, byDisplay);
    }
    AppendRepresented(table, sites, index, regs, site, n);
  }

  lemma AppendRepresented(table: seq<Stored<SiteKey>>, sites: seq<Site>, index: map<SiteKey, nat>, regs: seq<SiteReg>, site: Site, n: nat)
    requires KeyOf(site) !in index && n > 0
    requires IndexOk(table, index) && CountsMatch(table, index, regs) && Represented(table, sites, regs, {})
    ensures Represented(table + [Stored(KeyOf(site), n)], sites + [site], regs + Copies(TagOf(site), n), {})
  {
    var key := KeyOf(site);
    Unregistered(table, index, regs, key);
    OnlyPlace(table, index, key);
    hide IndexOk, CountsMatch, LeastOf, Contributors, Copies;
    CopiesContributors(regs, TagOf(site), n);
    LeastAlone(site.tuPath);
    assert {} + {site.tuPath} == {site.tuPath};
    hide Represented;
    RepresentedLengths(table, sites, regs);
    RepresentedNext(table, sites, index, table + [Stored(key, n)], sites + [site], regs, TagOf(site), n, |sites|);
  }

  lemma RepresentedLengths(table: seq<Stored<SiteKey>>, sites: seq<Site>, regs: seq<SiteReg>)
    requires Represented(table, sites, regs, {})
    ensures |table| == |sites|
  {
  }

  // ---- Removal.

  lemma NoPaths(paths: seq<string>)
    ensures L.AsSet(paths[..0]) == {}
  {
  }

  lemma NextPath(paths: seq<string>, t: nat)
    requires t < |paths|
    ensures L.AsSet(paths[..t + 1]) == L.AsSet(paths[..t]) + {paths[t]}
  {
    assert paths[..t + 1] == paths[..t] + [paths[t]];
  }

  lemma TaggedWithout(regs: seq<SiteReg>, tus: set<string>)
    requires Tagged(regs)
    ensures Tagged(Without(regs, tus))
  {
    var rest := Without(regs, tus);
    forall i | 0 <= i < |rest| ensures rest[i].tu != Some("") {
      assert rest[i] in rest;
      WithoutMember(regs, tus, rest[i]);
    }
  }

  /** Between two states of the table exactly the records in `dead` died. */
  ghost predicate Drained(a: seq<Stored<SiteKey>>, b: seq<Stored<SiteKey>>, dead: set<nat>) {
    && |a| == |b|
    && (forall i :: 0 <= i < |a| ==> a[i].key == b[i].key && (b[i].refs > 0 <==> a[i].refs > 0 && i !in dead))
    && (forall i :: i in dead ==> i < |a|)
  }

  lemma DrainedStart(a: seq<Stored<SiteKey>>)
    ensures Drained(a, a, {})
  {
  }

  lemma DrainedNext(a: seq<Stored<SiteKey>>, b: seq<Stored<SiteKey>>, dead: set<nat>, idx: nat)
    requires Drained(a, b, dead) && idx < |b| && b[idx].refs > 0
    ensures var b' := b[idx := b[idx].(refs := b[idx].refs - 1)];
            Drained(a, b', if b'[idx].refs == 0 then dead + {idx} else dead)
  {
  }

  lemma KeyedDrained(a: seq<Stored<SiteKey>>, b: seq<Stored<SiteKey>>, dead: set<nat>, sites: seq<Site>)
    requires Drained(a, b, dead) && Keyed(a, sites)
    ensures Keyed(b, sites)
  {
  }

  lemma RepresentedMeans(table: seq<Stored<SiteKey>>, sites: seq<Site>, regs: seq<SiteReg>, marked: set<nat>)
    requires Represented(table, sites, regs, marked)
    ensures |table| == |sites|
  {
  }

  /** The live sites on the released part of the list that show `tu` are marked,
      and only dead sites lost their mark. */
  ghost predicate Marked(table: seq<Stored<SiteKey>>, sites: seq<Site>, list: seq<nat>, m: nat, tu: string, marked0: set<nat>, marked: set<nat>) {
    && |table| == |sites| && m <= |list| && (forall j :: 0 <= j < |list| ==> list[j] < |table|)
    && (forall j :: 0 <= j < m && table[list[j]].refs > 0 && sites[list[j]].tuPath == tu ==> list[j] in marked)
    && (forall i :: 0 <= i < |table| && table[i].refs > 0 && i in marked0 ==> i in marked)
  }

  lemma MarkedStart(table: seq<Stored<SiteKey>>, sites: seq<Site>, list: seq<nat>, tu: string, marked: set<nat>)
    requires |table| == |sites| && ListInside(table, list)
    ensures Marked(table, sites, list, 0, tu, marked, marked)
  {
  }

  lemma ListOkInside(table: seq<Stored<SiteKey>>, index: map<SiteKey, nat>, list: seq<nat>)
    requires ListOk(table, index, list)
    ensures ListInside(table, list)
  {
  }

  ghost predicate ListInside(table: seq<Stored<SiteKey>>, list: seq<nat>) {
    forall j :: 0 <= j < |list| ==> list[j] < |table|
  }

  lemma MarkedNext(table: seq<Stored<SiteKey>>, sites: seq<Site>, list: seq<nat>, m: nat, tu: string, marked0: set<nat>, marked: set<nat>)
    requires Marked(table, sites, list, m, tu, marked0, marked) && m < |list| && list[m] < |table| && table[list[m]].refs > 0
    ensures var idx := list[m];
            var table' := table[idx := table[idx].(refs := table[idx].refs - 1)];
            var marked' := if table'[idx].refs > 0 then (if sites[idx].tuPath == tu then marked + {idx} else marked) else marked - {idx};
            Marked(table', sites, list, m + 1, tu, marked0, marked')
  {
  }

  /** A unit's release leaves every unmarked live site with its least contributor. */
  lemma ReleasedRepresented(tableA: seq<Stored<SiteKey>>, index: map<SiteKey, nat>, table: seq<Stored<SiteKey>>, sites: seq<Site>,
                            units: map<string, seq<nat>>, regs: seq<SiteReg>, list: seq<nat>, tu: string,
                            marked0: set<nat>, marked: set<nat>, gone: set<nat>)
    requires IndexOk(tableA, index) && UnitsMatch(units, index, regs) && Represented(tableA, sites, regs, marked0) && Tagged(regs)
    requires Drained(tableA, table, gone) && list == Bucket(units, tu) && Marked(table, sites, list, |list|, tu, marked0, marked)
    ensures Represented(table, sites, Without(regs, {tu}), marked)
  {
    hide LeastOf, Contributors, Without, Positions;
    forall i | 0 <= i < |table| && table[i].refs > 0 && i !in marked
      ensures LeastOf(Contributors(Without(regs, {tu}), table[i].key), sites[i].tuPath)
    {
      var k := tableA[i].key;
      assert k in index && index[k] == i;
      ContributorsWithout(regs, {tu}, k);
      ContributesByList(regs, tu, index, k);
      assert list == Positions(regs, tu, index);
      assert sites[i].tuPath == tu ==> i !in list;
      ContributorsNamed(regs, k);
      LeastRemains(Contributors(regs, k), tu, sites[i].tuPath);
    }
  }

  lemma LeastRemains(s: set<string>, tu: string, p: string)
    requires LeastOf(s, p) && "" !in s && (p == tu ==> tu !in s)
    ensures LeastOf(s - {tu}, p)
  {
    hide CO.TextLess;
    if s != {} {
      assert p in s - {tu};
    } else {
      assert s - {tu} == {};
    }
  }

  /** Drop the dead positions from the lists they are on. */
  method Scrub(m: map<string, seq<nat>>, sites: seq<Site>, dead: set<nat>, ghost a: seq<Stored<SiteKey>>, ghost b: seq<Stored<SiteKey>>, ghost l: Listing)
    returns (r: map<string, seq<nat>>)
    requires Lists(a, sites, m, l) && Drained(a, b, dead)
    ensures Lists(b, sites, r, l)
  {
    hide LiveIn, Drained, Keep;
    r := m;
    assert Keep([], dead) == [] by { KeepNone([], dead); }
    var left := m.Keys;
    while left != {}
      invariant left <= m.Keys && r.Keys <= m.Keys && left <= r.Keys
      invariant forall c :: Bucket(r, c) == if c in left then Bucket(m, c) else Keep(Bucket(m, c), dead)
      decreases left
    {
      var c :| c in left;
      var kept := Keep(r[c], dead);
      r := if kept == [] then r - {c} else r[c := kept];
      left := left - {c};
    }
    Scrubbed(m, r, sites, dead, a, b, l);
  }

  lemma Scrubbed(m: map<string, seq<nat>>, r: map<string, seq<nat>>, sites: seq<Site>, dead: set<nat>,
                 a: seq<Stored<SiteKey>>, b: seq<Stored<SiteKey>>, l: Listing)
    requires Lists(a, sites, m, l) && Drained(a, b, dead)
    requires forall c :: Bucket(r, c) == Keep(Bucket(m, c), dead)
    ensures Lists(b, sites, r, l)
  {
    hide LiveIn, Keep;
    forall c ensures Bucket(r, c) == LiveIn(b, sites, |b|, l, c) {
      LiveInKeep(a, b, sites, |a|, l, c, dead);
    }
  }

  lemma {:induction false} LiveInKeep(a: seq<Stored<SiteKey>>, b: seq<Stored<SiteKey>>, sites: seq<Site>, n: nat, l: Listing, c: string, dead: set<nat>)
    requires Drained(a, b, dead) && n <= |a| && n <= |sites|
    ensures Keep(LiveIn(a, sites, n, l, c), dead) == LiveIn(b, sites, n, l, c)
  {
    if n > 0 {
      LiveInKeep(a, b, sites, n - 1, l, c, dead);
      var rest := LiveIn(a, sites, n - 1, l, c);
      assert (rest + [n - 1])[..|rest|] == rest;
    }
  }

  // ---- New representatives.

  ghost function Holders(units: map<string, seq<nat>>, done: set<string>, i: nat): set<string> {
    set t | t in done && t in units && i in units[t]
  }

  ghost predicate HeldLeast(units: map<string, seq<nat>>, done: set<string>, marked: set<nat>, r: seq<Site>) {
    "" !in done && forall i :: i in marked && i < |r| ==> LeastOf(Holders(units, done, i), r[i].tuPath)
  }

  /** The details differ only in the representatives of marked sites. */
  ghost predicate TuPathsOnly(a: seq<Site>, b: seq<Site>, marked: set<nat>) {
    |a| == |b| && forall i :: 0 <= i < |a| ==> b[i] == a[i].(tuPath := b[i].tuPath) && (i !in marked ==> b[i] == a[i])
  }

  method ClearMarked(sites: seq<Site>, marked: set<nat>) returns (r: seq<Site>)
    ensures TuPathsOnly(sites, r, marked)
    ensures forall i :: i in marked && i < |r| ==> r[i].tuPath == ""
  {
    r := sites;
    for i := 0 to |sites|
      invariant TuPathsOnly(sites, r, marked)
      invariant forall j :: j in marked && j < i ==> r[j].tuPath == ""
    {
      if i in marked {
        r := r[i := r[i].(tuPath := "")];
      }
    }
  }

  lemma NoHolders(units: map<string, seq<nat>>, marked: set<nat>, r: seq<Site>)
    requires forall i :: i in marked && i < |r| ==> r[i].tuPath == ""
    ensures units.Keys - units.Keys == {} && HeldLeast(units, {}, marked, r)
  {
    forall i ensures Holders(units, {}, i) == {} {
    }
  }

  /** Let one unit bid for the marked sites on its list. */
  method RefreshFrom(r0: seq<Site>, units: map<string, seq<nat>>, tu: string, marked: set<nat>, ghost done: set<string>, ghost sites0: seq<Site>)
    returns (r: seq<Site>)
    requires tu in units && tu !in done && tu != "" && HeldLeast(units, done, marked, r0) && TuPathsOnly(sites0, r0, marked)
    ensures TuPathsOnly(sites0, r, marked) && HeldLeast(units, done + {tu}, marked, r)
  {
    hide Better, LeastOf;
    r := r0;
    var list := units[tu];
    forall i | i in marked && i < |r| ensures Bid(units, done, tu, list, 0, i, r) {
      BidStart(units, done, tu, list, i, r);
    }
    for m := 0 to |list|
      invariant |r| == |r0| && TuPathsOnly(sites0, r, marked)
      invariant forall i :: i in marked && i < |r| ==> Bid(units, done, tu, list, m, i, r)
    {
      var idx := list[m];
      ghost var before := r;
      if idx in marked && idx < |r| {
        r := r[idx := r[idx].(tuPath := Better(r[idx].tuPath, tu))];
      }
      forall i | i in marked && i < |r| ensures Bid(units, done, tu, list, m + 1, i, r) {
        BidNext(units, done, tu, list, m, i, before, r);
      }
    }
    forall i | i in marked && i < |r| ensures LeastOf(Holders(units, done + {tu}, i), r[i].tuPath) {
      BidEnd(units, done, tu, list, i, r);
    }
  }

  /** The state of a marked site when the first `m` bids of `tu` are in. */
  ghost predicate Bid(units: map<string, seq<nat>>, done: set<string>, tu: string, list: seq<nat>, m: nat, i: nat, r: seq<Site>) {
    && m <= |list| && i < |r|
    && LeastOf(if i in list[..m] then Holders(units, done, i) + {tu} else Holders(units, done, i), r[i].tuPath)
  }

  lemma BidStart(units: map<string, seq<nat>>, done: set<string>, tu: string, list: seq<nat>, i: nat, r: seq<Site>)
    requires i < |r| && LeastOf(Holders(units, done, i), r[i].tuPath)
    ensures Bid(units, done, tu, list, 0, i, r)
  {
  }

  lemma BidNext(units: map<string, seq<nat>>, done: set<string>, tu: string, list: seq<nat>, m: nat, i: nat, before: seq<Site>, r: seq<Site>)
    requires m < |list| && Bid(units, done, tu, list, m, i, before) && |r| == |before| && "" !in done && tu != ""
    requires if list[m] == i then r[i].tuPath == Better(before[i].tuPath, tu) else r[i].tuPath == before[i].tuPath
    ensures Bid(units, done, tu, list, m + 1, i, r)
  {
    hide LeastOf, Better;
    assert list[..m + 1] == list[..m] + [list[m]];
    assert i in list[..m + 1] <==> i in list[..m] || list[m] == i;
    var h := Holders(units, done, i);
    if list[m] == i {
      var s := if i in list[..m] then h + {tu} else h;
      LeastNext(s, before[i].tuPath, tu);
      assert s + {tu} == h + {tu};
    }
  }

  lemma BidEnd(units: map<string, seq<nat>>, done: set<string>, tu: string, list: seq<nat>, i: nat, r: seq<Site>)
    requires tu in units && list == units[tu] && Bid(units, done, tu, list, |list|, i, r)
    ensures LeastOf(Holders(units, done + {tu}, i), r[i].tuPath)
  {
    hide LeastOf;
    assert list[..|list|] == list;
    assert Holders(units, done + {tu}, i) == if i in list then Holders(units, done, i) + {tu} else Holders(units, done, i);
  }

  lemma Refreshed(table: seq<Stored<SiteKey>>, sites: seq<Site>, r: seq<Site>, index: map<SiteKey, nat>, units: map<string, seq<nat>>,
                  regs: seq<SiteReg>, marked: set<nat>, byChannel: map<string, seq<nat>>, byUsr: map<string, seq<nat>>, byDisplay: map<string, seq<nat>>)
    requires IndexOk(table, index) && UnitsMatch(units, index, regs) && Represented(table, sites, regs, marked)
    requires TuPathsOnly(sites, r, marked) && HeldLeast(units, units.Keys, marked, r) && Keyed(table, sites)
    requires Lists(table, sites, byChannel, ByChannel) && Lists(table, sites, byUsr, ByUsr) && Lists(table, sites, byDisplay, ByDisplay)
    ensures Represented(table, r, regs, {}) && Keyed(table, r)
    ensures Lists(table, r, byChannel, ByChannel) && Lists(table, r, byUsr, ByUsr) && Lists(table, r, byDisplay, ByDisplay)
  {
    hide Lists, LeastOf, Contributors, Positions;
    assert SameShape(table, sites, table, r, |table|);
    ListsSame(table, sites, table, r, byChannel, ByChannel);
    ListsSame(table, sites, table, r, byUsr, ByUsr);
    ListsSame(table, sites, table, r, byDisplay, ByDisplay);
    forall i | 0 <= i < |table| && table[i].refs > 0 ensures LeastOf(Contributors(regs, table[i].key), r[i].tuPath) {
      if i in marked {
        HoldersContribute(table, index, units, regs, i);
      }
    }
  }

  lemma HoldersContribute(table: seq<Stored<SiteKey>>, index: map<SiteKey, nat>, units: map<string, seq<nat>>, regs: seq<SiteReg>, i: nat)
    requires IndexOk(table, index) && UnitsMatch(units, index, regs) && i < |table| && table[i].refs > 0
    ensures Holders(units, units.Keys, i) == Contributors(regs, table[i].key)
  {
    hide Contributors, Positions;
    var k := table[i].key;
    forall t ensures t in Holders(units, units.Keys, i) <==> t in Contributors(regs, k) {
      ContributesByList(regs, t, index, k);
      assert Bucket(units, t) == Positions(regs, t, index);
    }
  }

  // ---- Compaction.

  /** The lists of the live sites among the first `n`, renumbered. */
  ghost predicate ListsCarried(table: seq<Stored<SiteKey>>, sites: seq<Site>, n: nat, newTable: seq<Stored<SiteKey>>, newSites: seq<Site>, remap: map<nat, nat>) {
    && n <= |table| && n <= |sites| && |newTable| == |newSites|
    && forall l, c :: Renumber(LiveIn(table, sites, n, l, c), remap) == LiveIn(newTable, newSites, |newTable|, l, c)
  }

  method CompactSites(table: seq<Stored<SiteKey>>, sites: seq<Site>, ghost index: map<SiteKey, nat>, ghost regs: seq<SiteReg>)
    returns (newTable: seq<Stored<SiteKey>>, newSites: seq<Site>, newIndex: map<SiteKey, nat>, remap: map<nat, nat>)
    requires IndexOk(table, index) && Keyed(table, sites) && Represented(table, sites, regs, {})
    ensures IndexOk(newTable, newIndex) && Keyed(newTable, newSites) && Represented(newTable, newSites, regs, {})
    ensures Compacted(table, index, |table|, newTable, newIndex, remap)
    ensures ListsCarried(table, sites, |table|, newTable, newSites, remap)
    ensures |table| == |sites| && newTable == LiveOf(table, |table|) && newSites == LiveSites(table, sites, |table|)
  {
    hide IndexOk, Compacted, ListsCarried, LeastOf, Contributors, RefsOf, Raised;
    newTable, newSites, newIndex, remap := [], [], map[], map[];
    CompactStart(table, sites, index);
    for n := 0 to |table|
      invariant IndexOk(newTable, newIndex) && Keyed(newTable, newSites) && Represented(newTable, newSites, regs, {})
      invariant Compacted(table, index, n, newTable, newIndex, remap)
      invariant ListsCarried(table, sites, n, newTable, newSites, remap)
      invariant newTable == LiveOf(table, n) && newSites == LiveSites(table, sites, n)
      invariant forall i :: i in remap ==> i < n
    {
      if table[n].refs == 0 {
        CompactSkip(table, index, n, newTable, newIndex, remap);
        CarrySkip(table, sites, n, newTable, newSites, remap);
      } else {
        CompactKeep(table, index, n, newTable, newIndex, remap);
        CarryKeep(table, sites, n, newTable, newSites, remap);
        AppendRecord(newTable, newIndex, table[n].key, table[n].refs);
        assert table[n] == Stored(table[n].key, table[n].refs);
        newIndex := newIndex[table[n].key := |newTable|];
        remap := remap[n := |newTable|];
        newTable, newSites := newTable + [table[n]], newSites + [sites[n]];
      }
    }
  }

  lemma CompactStart(table: seq<Stored<SiteKey>>, sites: seq<Site>, index: map<SiteKey, nat>)
    ensures IndexOk<SiteKey>([], map[]) && Compacted(table, index, 0, [], map[], map[])
    ensures ListsCarried(table, sites, 0, [], [], map[])
  {
  }

  lemma CarrySkip(table: seq<Stored<SiteKey>>, sites: seq<Site>, n: nat, newTable: seq<Stored<SiteKey>>, newSites: seq<Site>, remap: map<nat, nat>)
    requires n < |table| && n < |sites| && table[n].refs == 0 && ListsCarried(table, sites, n, newTable, newSites, remap)
    ensures ListsCarried(table, sites, n + 1, newTable, newSites, remap)
  {
    hide Renumber;
  }

  lemma CarryKeep(table: seq<Stored<SiteKey>>, sites: seq<Site>, n: nat, newTable: seq<Stored<SiteKey>>, newSites: seq<Site>, remap: map<nat, nat>)
    requires n < |table| && n < |sites| && table[n].refs > 0 && ListsCarried(table, sites, n, newTable, newSites, remap)
    requires forall i :: i in remap ==> i < n
    ensures ListsCarried(table, sites, n + 1, newTable + [table[n]], newSites + [sites[n]], remap[n := |newTable|])
  {
    hide Renumber, LiveIn, Belongs;
    var remap' := remap[n := |newTable|];
    var t', s' := newTable + [table[n]], newSites + [sites[n]];
    forall l, c ensures Renumber(LiveIn(table, sites, n + 1, l, c), remap') == LiveIn(t', s', |t'|, l, c) {
      CarryOne(table, sites, n, newTable, newSites, remap, l, c);
    }
  }

  lemma CarryOne(table: seq<Stored<SiteKey>>, sites: seq<Site>, n: nat, newTable: seq<Stored<SiteKey>>, newSites: seq<Site>, remap: map<nat, nat>, l: Listing, c: string)
    requires n < |table| && n < |sites| && table[n].refs > 0 && |newTable| == |newSites|
    requires Renumber(LiveIn(table, sites, n, l, c), remap) == LiveIn(newTable, newSites, |newTable|, l, c)
    ensures Renumber(LiveIn(table, sites, n + 1, l, c), remap[n := |newTable|]) ==
            LiveIn(newTable + [table[n]], newSites + [sites[n]], |newTable| + 1, l, c)
  {
    hide Renumber, Belongs;
    var rest := LiveIn(table, sites, n, l, c);
    var t', s' := newTable + [table[n]], newSites + [sites[n]];
    LiveInSame(newTable, newSites, t', s', |newTable|, l, c);
    assert |t'| == |newTable| + 1 && t'[|newTable|] == table[n] && s'[|newTable|] == sites[n];
    LiveInAscending(table, sites, n, l, c);
    RenumberLater(rest, n, |newTable|, remap);
    RenumberSnoc(rest, n, remap[n := |newTable|]);
  }

  /** Renumbering a later position does not matter to earlier ones. */
  lemma {:induction false} RenumberLater(s: seq<nat>, n: nat, x: nat, remap: map<nat, nat>)
    requires forall i :: 0 <= i < |s| ==> s[i] < n
    ensures Renumber(s, remap[n := x]) == Renumber(s, remap)
    decreases |s|
  {
    if s != [] {
      RenumberLater(s[..|s| - 1], n, x, remap);
    }
  }

  lemma CompactLists(table: seq<Stored<SiteKey>>, sites: seq<Site>, newTable: seq<Stored<SiteKey>>, newSites: seq<Site>, remap: map<nat, nat>,
                     m: map<string, seq<nat>>, r: map<string, seq<nat>>, l: Listing)
    requires Lists(table, sites, m, l) && ListsCarried(table, sites, |table|, newTable, newSites, remap)
    requires forall c :: Bucket(r, c) == Renumber(Bucket(m, c), remap)
    ensures Lists(newTable, newSites, r, l)
  {
    hide LiveIn, Renumber;
    forall c ensures Bucket(r, c) == LiveIn(newTable, newSites, |newTable|, l, c) {
      assert Bucket(m, c) == LiveIn(table, sites, |table|, l, c);
    }
  }

  // ---- Replaying a shard.

  function Min(a: nat, b: nat): nat {
    if a <= b then a else b
  }

  lemma StoredKey(table: seq<Stored<SiteKey>>, sites: seq<Site>, index: map<SiteKey, nat>, regs: seq<SiteReg>, i: nat)
    requires IndexOk(table, index) && CountsMatch(table, index, regs) && Keyed(table, sites) && i < |table| && table[i].refs > 0
    ensures table[i].key in index && index[table[i].key] == i && KeyOf(sites[i]) == table[i].key
    ensures table[i].refs == Count(regs, table[i].key)
  {
    assert RefsOf(table, index, table[i].key) == Count(regs, table[i].key);
  }

  // ---- Lookups.

  ghost predicate LiveSite(table: seq<Stored<SiteKey>>, sites: seq<Site>, s: Site) {
    exists i :: 0 <= i < |table| && i < |sites| && table[i].refs > 0 && sites[i] == s
  }

  ghost predicate DistinctSites(r: seq<Site>) {
    forall i, j :: 0 <= i < j < |r| ==> KeyOf(r[i]) != KeyOf(r[j])
  }

  /** The sites on a list are in range, belong there, and differ in their keys. */
  ghost predicate GoodList(sites: seq<Site>, list: seq<nat>, l: Listing, c: string) {
    && (forall j :: 0 <= j < |list| ==> list[j] < |sites| && Belongs(l, sites[list[j]], c))
    && (forall i, j :: 0 <= i < j < |list| ==> KeyOf(sites[list[i]]) != KeyOf(sites[list[j]]))
  }

  lemma ListedSites(table: seq<Stored<SiteKey>>, sites: seq<Site>, index: map<SiteKey, nat>, m: map<string, seq<nat>>, l: Listing, c: string)
    requires Keyed(table, sites) && IndexOk(table, index) && Lists(table, sites, m, l)
    ensures GoodList(sites, Bucket(m, c), l, c)
  {
    hide LiveIn;
    var list := Bucket(m, c);
    assert list == LiveIn(table, sites, |table|, l, c);
    LiveInAscending(table, sites, |table|, l, c);
    forall j | 0 <= j < |list| ensures list[j] < |sites| && table[list[j]].refs > 0 && Belongs(l, sites[list[j]], c) {
      assert list[j] in list;
      LiveInMember(table, sites, |table|, l, c, list[j]);
    }
  }

  lemma ListedExactly(table: seq<Stored<SiteKey>>, sites: seq<Site>, m: map<string, seq<nat>>, l: Listing, c: string, s: Site)
    requires |table| == |sites| && Lists(table, sites, m, l) && forall j :: 0 <= j < |Bucket(m, c)| ==> 0 <= Bucket(m, c)[j] < |sites|
    ensures (exists j :: 0 <= j < |Bucket(m, c)| && sites[Bucket(m, c)[j]] == s) <==> LiveSite(table, sites, s) && Belongs(l, s, c)
  {
    hide LiveIn, Belongs;
    var list := Bucket(m, c);
    if j :| 0 <= j < |list| && sites[list[j]] == s {
      assert list[j] in list;
      LiveInMember(table, sites, |table|, l, c, list[j]);
    }
    if LiveSite(table, sites, s) && Belongs(l, s, c) {
      var i :| 0 <= i < |table| && table[i].refs > 0 && sites[i] == s;
      LiveInMember(table, sites, |table|, l, c, i);
      assert i in list;
      var j :| 0 <= j < |list| && list[j] == i;
    }
  }

  /** The sites on a list. */
  method Collect(sites: seq<Site>, list: seq<nat>, ghost l: Listing, ghost c: string) returns (r: seq<Site>)
    requires GoodList(sites, list, l, c)
    ensures |r| == |list| && forall j :: 0 <= j < |list| ==> r[j] == sites[list[j]]
    ensures DistinctSites(r) && forall j :: 0 <= j < |r| ==> Belongs(l, r[j], c)
  {
    r := [];
    for m := 0 to |list|
      invariant |r| == m && forall j :: 0 <= j < m ==> r[j] == sites[list[j]]
    {
      r := r + [sites[list[m]]];
    }
  }

  lemma Collected(sites: seq<Site>, list: seq<nat>, r: seq<Site>, s: Site)
    requires |r| == |list| && forall j :: 0 <= j < |list| ==> list[j] < |sites| && r[j] == sites[list[j]]
    ensures s in r <==> exists j :: 0 <= j < |list| && sites[list[j]] == s
  {
    if s in r {
      var j :| 0 <= j < |r| && r[j] == s;
      assert sites[list[j]] == s;
    }
    if j :| 0 <= j < |list| && sites[list[j]] == s {
      assert r[j] == s;
    }
  }

  lemma KeyedMeans(table: seq<Stored<SiteKey>>, sites: seq<Site>)
    requires Keyed(table, sites)
    ensures |table| == |sites|
  {
  }

  /** The sites of one role on a list. */
  method CollectOf(sites: seq<Site>, list: seq<nat>, op: Operation, ghost c: string) returns (r: seq<Site>)
    requires GoodList(sites, list, ByChannel, c)
    ensures DistinctSites(r)
    ensures forall s :: s in r <==> s.op == op && exists j :: 0 <= j < |list| && sites[list[j]] == s
  {
    r := [];
    for m := 0 to |list|
      invariant DistinctSites(r)
      invariant forall s :: s in r ==> s.op == op && OnList(sites, list, m, s)
      invariant forall j :: 0 <= j < m && sites[list[j]].op == op ==> sites[list[j]] in r
    {
      if sites[list[m]].op == op {
        forall i | 0 <= i < |r| ensures KeyOf(r[i]) != KeyOf(sites[list[m]]) {
          assert r[i] in r;
          assert OnList(sites, list, m, r[i]);
        }
        r := r + [sites[list[m]]];
      }
    }
  }

  ghost predicate OnList(sites: seq<Site>, list: seq<nat>, m: nat, s: Site) {
    exists j :: 0 <= j < m && j < |list| && list[j] < |sites| && sites[list[j]] == s
  }
}
