/** Warm refresh and snapshot merge over the three indexes: which registrations
    they hold afterwards. */
module Refresh {
  import opened GraphTypes
  import opened Interner
  import opened Registry
  import opened Codec
  import opened FlowTypes
  import opened L = Ledger
  import RT = RefTable
  import CG = CallGraph
  import FI = FlowIndex
  import CI = ChannelIndex

  datatype Indexes = Indexes(graph: CG.CallGraph, flow: FI.ControlFlowIndex, channels: CI.ChannelIndex) {
    ghost predicate Valid()
      reads graph, flow, channels
    {
      graph.Valid() && flow.Valid() && channels.Valid()
    }

    ghost function Edges(): seq<Entry<CG.TextEdge>>
      reads graph
      requires graph.Valid()
    {
      CG.TextRegs(graph.strings, graph.regs)
    }

    ghost function Contexts(): seq<Entry<CallContext>>
      reads flow
      requires flow.Valid()
    {
      flow.Contents()
    }

    ghost function Sites(): seq<Entry<CI.SiteKey>>
      reads channels
    {
      channels.regs
    }

    /** No index is shared. */
    ghost predicate Apart(other: Indexes) {
      graph != other.graph && flow != other.flow && channels != other.channels
    }
  }

  /** What each unit contributes to each index. */
  datatype Bake = Bake(edges: string -> multiset<CG.TextEdge>, contexts: string -> multiset<CallContext>, sites: string -> multiset<CI.SiteKey>)

  /** The indexes hold the bake of each of `units` once. */
  ghost predicate Baked(ix: Indexes, units: set<string>, b: Bake)
    reads ix.graph, ix.flow, ix.channels
    requires ix.Valid()
  {
    IsBake(ix.Edges(), units, b.edges) && IsBake(ix.Contexts(), units, b.contexts) && IsBake(ix.Sites(), units, b.sites)
  }

  ghost predicate SameBake(a: Bake, b: Bake, u: string) {
    a.edges(u) == b.edges(u) && a.contexts(u) == b.contexts(u) && a.sites(u) == b.sites(u)
  }

  lemma IsBakeSame<R>(a: seq<Entry<R>>, b: seq<Entry<R>>, units: set<string>, bake: string -> multiset<R>)
    requires IsBake(a, units, bake) && multiset(a) == multiset(b)
    ensures IsBake(b, units, bake)
  {
    hide Part, BakedBy;
    PartsOfSame(a, b, None);
    forall u ensures Part(b, Some(u)) == BakedBy(units, bake, u) {
      PartsOfSame(a, b, Some(u));
      assert Part(a, Some(u)) == BakedBy(units, bake, u);
    }
  }

  lemma AllTagged<R>(l: seq<Entry<R>>)
    requires Part(l, None) == multiset{}
    ensures forall e :: e in l ==> e.tu.Some?
  {
    forall e | e in l ensures e.tu.Some? {
      PartIsCount(l, None, e.record);
      assert e in multiset(l);
    }
  }

  /** Update a loaded snapshot: drop what vanished, take out what is to be baked
      again, and absorb the new bake.  The indexes then hold what a clean bake
      of the current units would. */
  method WarmRefresh(ix: Indexes, recorded: set<string>, toDrop: seq<string>, toBake: seq<string>, baked: Indexes, ghost was: Bake, ghost now: Bake)
    requires ix.Valid() && baked.Valid() && ix.Apart(baked)
    requires |ix.flow.strings| + |baked.flow.strings| < U32
    requires Baked(ix, recorded, was) && Baked(baked, AsSet(toBake), now)
    requires AsSet(toDrop) * AsSet(toBake) == {}
    requires forall u :: u in recorded && u !in toDrop && u !in toBake ==> SameBake(was, now, u)
    modifies ix.graph, ix.flow, ix.channels
    ensures ix.Valid() && Baked(ix, (recorded - AsSet(toDrop)) + AsSet(toBake), now)
    ensures DetailsFrom(old(ix.channels.sites), baked.channels.sites, ix.channels.sites)
  {
    hide DetailsFrom;
    hide CG.CallGraph.Valid, FI.ControlFlowIndex.Valid, CI.ChannelIndex.Valid, IsBake, CG.TextRegs, FI.Entries;
    var toRemove := Removals(recorded, toDrop, toBake);
    RefreshGraph(ix.graph, baked.graph, recorded, toDrop, toBake, toRemove, was.edges, now.edges);
    RefreshFlow(ix.flow, baked.flow, recorded, toDrop, toBake, toRemove, was.contexts, now.contexts);
    RefreshChannels(ix.channels, baked.channels, recorded, toDrop, toBake, toRemove, was.sites, now.sites);
  }

  /** The preconditions of a refresh, for one index. */
  ghost predicate Refreshable<R>(recorded: set<string>, toDrop: seq<string>, toBake: seq<string>, toRemove: seq<string>,
                                 was: string -> multiset<R>, now: string -> multiset<R>) {
    && AsSet(toDrop) * AsSet(toBake) == {}
    && AsSet(toRemove) == AsSet(toDrop) + (AsSet(toBake) * recorded)
    && forall u :: u in recorded && u !in toDrop && u !in toBake ==> was(u) == now(u)
  }

  method RefreshGraph(g: CG.CallGraph, baked: CG.CallGraph, recorded: set<string>, toDrop: seq<string>, toBake: seq<string>, toRemove: seq<string>,
                      ghost was: string -> multiset<CG.TextEdge>, ghost now: string -> multiset<CG.TextEdge>)
    requires g.Valid() && baked.Valid() && g != baked && Refreshable(recorded, toDrop, toBake, toRemove, was, now)
    requires IsBake(CG.TextRegs(g.strings, g.regs), recorded, was) && IsBake(CG.TextRegs(baked.strings, baked.regs), AsSet(toBake), now)
    modifies g
    ensures g.Valid() && IsBake(CG.TextRegs(g.strings, g.regs), (recorded - AsSet(toDrop)) + AsSet(toBake), now)
  {
    hide IsBake, Without, CG.TextRegs, Refreshable, RT.IndexOk, RT.CountsMatch, RT.UnitsMatch, CG.Adjacent, Injective;
    ghost var l, more := CG.TextRegs(g.strings, g.regs), CG.TextRegs(baked.strings, baked.regs);
    var _ := g.RemoveTUs(toRemove);
    if toBake != [] {
      g.Absorb(baked);
    } else {
      NothingBaked(more, toBake, now);
      assert Without(l, AsSet(toRemove)) + more == Without(l, AsSet(toRemove));
    }
    RefreshOne(l, more, CG.TextRegs(g.strings, g.regs), recorded, was, now, toDrop, toBake, toRemove);
  }

  method RefreshFlow(g: FI.ControlFlowIndex, baked: FI.ControlFlowIndex, recorded: set<string>, toDrop: seq<string>, toBake: seq<string>, toRemove: seq<string>,
                     ghost was: string -> multiset<CallContext>, ghost now: string -> multiset<CallContext>)
    requires g.Valid() && baked.Valid() && g != baked && Refreshable(recorded, toDrop, toBake, toRemove, was, now)
    requires |g.strings| + |baked.strings| < U32
    requires IsBake(g.Contents(), recorded, was) && IsBake(baked.Contents(), AsSet(toBake), now)
    modifies g
    ensures g.Valid() && IsBake(g.Contents(), (recorded - AsSet(toDrop)) + AsSet(toBake), now)
  {
    hide IsBake, Without, FI.Entries, Refreshable, FI.TablesOk, FI.AllReadable, FI.AllListed, FI.Remaining, Injective;
    ghost var l, more := g.Contents(), baked.Contents();
    BakedTags(l, recorded, was);
    FI.RemainingIsWithout(l, toRemove);
    var _ := g.RemoveTUs(toRemove);
    if toBake != [] {
      g.Absorb(baked);
    } else {
      NothingBaked(more, toBake, now);
      assert Without(l, AsSet(toRemove)) + more == Without(l, AsSet(toRemove));
    }
    RefreshOne(l, more, g.Contents(), recorded, was, now, toDrop, toBake, toRemove);
  }

  method RefreshChannels(g: CI.ChannelIndex, baked: CI.ChannelIndex, recorded: set<string>, toDrop: seq<string>, toBake: seq<string>, toRemove: seq<string>,
                         ghost was: string -> multiset<CI.SiteKey>, ghost now: string -> multiset<CI.SiteKey>)
    requires g.Valid() && baked.Valid() && g != baked && Refreshable(recorded, toDrop, toBake, toRemove, was, now)
    requires IsBake(g.regs, recorded, was) && IsBake(baked.regs, AsSet(toBake), now)
    modifies g
    ensures g.Valid() && IsBake(g.regs, (recorded - AsSet(toDrop)) + AsSet(toBake), now)
    ensures DetailsFrom(old(g.sites), baked.sites, g.sites)
  {
    hide IsBake, Without, Refreshable, CI.ChannelIndex.Valid, CI.KeepsDetails, CI.ComeFrom, DetailsFrom;
    ghost var l, more := g.regs, baked.regs;
    var _ := g.RemoveTUs(toRemove);
    ghost var kept := g.sites;
    DetailsKept(old(g.sites), kept, kept, baked.table, baked.sites);
    if toBake != [] {
      g.Absorb(baked);
      DetailsKept(old(g.sites), kept, g.sites, baked.table, baked.sites);
      assert multiset(g.regs) == multiset(Without(l, AsSet(toRemove)) + more);
    } else {
      NothingBaked(more, toBake, now);
      assert Without(l, AsSet(toRemove)) + more == Without(l, AsSet(toRemove));
    }
    RefreshOne(l, more, g.regs, recorded, was, now, toDrop, toBake, toRemove);
  }

  /** A site has the details it had, or those of a newly baked one. */
  ghost predicate DetailsFrom(was: seq<CI.Site>, baked: seq<CI.Site>, sites: seq<CI.Site>) {
    |was| <= |sites| && forall i :: 0 <= i < |sites| ==>
      if i < |was| then CI.SameDetails(sites[i], was[i]) else exists j :: 0 <= j < |baked| && CI.SameDetails(sites[i], baked[j])
  }

  lemma DetailsKept(was: seq<CI.Site>, kept: seq<CI.Site>, sites: seq<CI.Site>, table: seq<RT.Stored<CI.SiteKey>>, baked: seq<CI.Site>)
    requires |was| == |kept| && CI.KeepsDetails(was, kept)
    ensures DetailsFrom(was, baked, kept)
    ensures CI.KeepsDetails(kept, sites) && CI.ComeFrom(table, baked, sites, |kept|) ==> DetailsFrom(was, baked, sites)
  {
    if CI.KeepsDetails(kept, sites) && CI.ComeFrom(table, baked, sites, |kept|) {
      forall i | 0 <= i < |sites|
        ensures if i < |was| then CI.SameDetails(sites[i], was[i]) else exists j :: 0 <= j < |baked| && CI.SameDetails(sites[i], baked[j])
      {
        if i < |was| {
          assert CI.SameDetails(sites[i], kept[i]) && CI.SameDetails(kept[i], was[i]);
        } else {
          assert CI.LikeOne(table, baked, sites[i]);
          var j :| 0 <= j < |table| && j < |baked| && table[j].refs > 0 && CI.SameDetails(sites[i], baked[j]);
        }
      }
    }
  }

  lemma BakedTags<R>(l: seq<Entry<R>>, units: set<string>, bake: string -> multiset<R>)
    requires IsBake(l, units, bake)
    ensures forall e :: e in l ==> e.tu.Some?
  {
    AllTagged(l);
  }

  lemma NothingBaked<R>(l: seq<Entry<R>>, units: seq<string>, bake: string -> multiset<R>)
    requires IsBake(l, AsSet(units), bake) && units == []
    ensures l == []
  {
    forall e: Entry<R> ensures multiset(l)[e] == 0 {
      PartIsCount(l, e.tu, e.record);
      if e.tu.Some? {
        assert Part(l, Some(e.tu.value)) == BakedBy(AsSet(units), bake, e.tu.value);
      }
    }
    assert multiset(l) == multiset{};
    assert |multiset(l)| == |l|;
  }

  lemma RefreshOne<R>(l: seq<Entry<R>>, more: seq<Entry<R>>, r: seq<Entry<R>>, recorded: set<string>, was: string -> multiset<R>, now: string -> multiset<R>,
                      toDrop: seq<string>, toBake: seq<string>, toRemove: seq<string>)
    requires Refreshable(recorded, toDrop, toBake, toRemove, was, now)
    requires IsBake(l, recorded, was) && IsBake(more, AsSet(toBake), now)
    requires multiset(r) == multiset(Without(l, AsSet(toRemove)) + more)
    ensures IsBake(r, (recorded - AsSet(toDrop)) + AsSet(toBake), now)
  {
    hide IsBake, Without;
    RefreshIsBake(l, recorded, was, AsSet(toDrop), AsSet(toBake), now, more, AsSet(toRemove));
    IsBakeSame(Without(l, AsSet(toRemove)) + more, r, (recorded - AsSet(toDrop)) + AsSet(toBake), now);
  }

  /** The dropped units, and of those to bake the ones already there. */
  method Removals(recorded: set<string>, toDrop: seq<string>, toBake: seq<string>) returns (r: seq<string>)
    ensures AsSet(r) == AsSet(toDrop) + (AsSet(toBake) * recorded)
  {
    r := toDrop;
    for i := 0 to |toBake|
      invariant AsSet(r) == AsSet(toDrop) + (AsSet(toBake[..i]) * recorded)
    {
      assert AsSet(toBake[..i + 1]) == AsSet(toBake[..i]) + {toBake[i]};
      if toBake[i] in recorded {
        assert AsSet(r + [toBake[i]]) == AsSet(r) + {toBake[i]};
        r := r + [toBake[i]];
      }
    }
    assert toBake[..|toBake|] == toBake;
  }
}
