/** Merging snapshots: each input lists the units it was baked from, and a unit
    counts only in the first input that lists it. */
module Merge {
  import opened GraphTypes
  import opened Interner
  import opened Registry
  import opened Codec
  import opened FlowTypes
  import opened L = Ledger
  import opened Refresh
  import CG = CallGraph
  import FI = FlowIndex
  import CI = ChannelIndex

  /** One loaded snapshot.  `config` stands for the build configuration, and an
      empty `environment` for none recorded. */
  datatype Loaded = Loaded(config: string, environment: string, files: seq<string>, ix: Indexes)

  /** The two ledgers agree on what the units registered. */
  ghost predicate SameTagged<R(!new)>(a: seq<Entry<R>>, b: seq<Entry<R>>) {
    forall u :: Part(a, Some(u)) == Part(b, Some(u))
  }

  lemma SameTaggedRefl<R(!new)>(a: seq<Entry<R>>)
    ensures SameTagged(a, a)
  {
  }

  lemma SameTaggedAppend<R(!new)>(a: seq<Entry<R>>, b: seq<Entry<R>>, more: seq<Entry<R>>, r: seq<Entry<R>>)
    requires SameTagged(a, b) && multiset(r) == multiset(a + more)
    ensures SameTagged(r, b + more)
  {
    hide Part;
    forall u ensures Part(r, Some(u)) == Part(b + more, Some(u)) {
      PartsOfSame(r, a + more, Some(u));
      PartConcat(a, more, Some(u));
      PartConcat(b, more, Some(u));
    }
  }

  lemma SameTaggedTail<R(!new)>(b: seq<Entry<R>>, more: seq<Entry<R>>, more': seq<Entry<R>>, r: seq<Entry<R>>)
    requires SameTagged(r, b + more) && SameTagged(more, more')
    ensures SameTagged(r, b + more')
  {
    hide Part;
    forall u ensures Part(r, Some(u)) == Part(b + more', Some(u)) {
      PartConcat(b, more, Some(u));
      PartConcat(b, more', Some(u));
      assert Part(more, Some(u)) == Part(more', Some(u));
    }
  }

  /** Contexts without a unit aside, a removal filters by unit. */
  lemma {:induction false} RemainingTagged(l: seq<Entry<CallContext>>, paths: seq<string>, u: string)
    ensures Part(FI.Remaining(l, paths), Some(u)) == Part(Without(l, AsSet(paths)), Some(u))
    decreases |l|
  {
    if l != [] {
      hide Part, FI.Remaining, Without;
      var most, e := l[..|l| - 1], l[|l| - 1];
      Split(l);
      RemainingTagged(most, paths, u);
      FI.RemainingSnoc(most, e, paths);
      WithoutSnoc(most, e, AsSet(paths));
      PartSnoc(FI.Remaining(most, paths), e, Some(u));
      PartSnoc(Without(most, AsSet(paths)), e, Some(u));
    } else {
      assert FI.Remaining(l, paths) == [] && Without(l, AsSet(paths)) == [];
    }
  }

  // ---- The loop over one input's file list.

  method Overlapping(files: seq<string>, seen0: set<string>) returns (overlapping: seq<string>, seen: set<string>, listed: seq<string>)
    ensures overlapping == Overlap(files, seen0) && seen == seen0 + AsSet(files)
    ensures |overlapping| + |listed| == |files|
    ensures forall f :: f in listed <==> f in files && f !in seen0
  {
    overlapping, seen, listed := [], seen0, [];
    for i := 0 to |files|
      invariant overlapping == Overlap(files[..i], seen0) && seen == seen0 + AsSet(files[..i])
      invariant |overlapping| + |listed| == i
      invariant forall f :: f in listed <==> f in files[..i] && f !in seen0
    {
      assert files[..i + 1][..i] == files[..i];
      assert files[..i + 1] == files[..i] + [files[i]];
      if files[i] in seen {
        overlapping := overlapping + [files[i]];
      } else {
        listed := listed + [files[i]];
      }
      seen := seen + {files[i]};
    }
    assert files[..|files|] == files;
  }

  // ---- Taking one input.

  ghost predicate Follows(ix: Indexes, edges: seq<Entry<CG.TextEdge>>, contexts: seq<Entry<CallContext>>, sites: seq<Entry<CI.SiteKey>>)
    reads ix.graph, ix.flow, ix.channels
    requires ix.Valid()
  {
    SameTagged(ix.Edges(), edges) && SameTagged(ix.Contexts(), contexts) && SameTagged(ix.Sites(), sites)
  }

  method TakeGraph(out: CG.CallGraph, g: CG.CallGraph, overlapping: seq<string>, ghost l: seq<Entry<CG.TextEdge>>)
    requires out.Valid() && g.Valid() && out != g && SameTagged(CG.TextRegs(out.strings, out.regs), l)
    modifies out, g
    ensures out.Valid() && g.Valid()
    ensures SameTagged(CG.TextRegs(out.strings, out.regs), l + Without(old(CG.TextRegs(g.strings, g.regs)), AsSet(overlapping)))
  {
    hide SameTagged, Without, CG.CallGraph.Core;
    ghost var a, b := CG.TextRegs(out.strings, out.regs), CG.TextRegs(g.strings, g.regs);
    if overlapping != [] {
      var _ := g.RemoveTUs(overlapping);
    } else {
      assert AsSet(overlapping) == {};
      WithoutNone(b);
    }
    out.Absorb(g);
    SameTaggedAppend(a, l, Without(b, AsSet(overlapping)), CG.TextRegs(out.strings, out.regs));
  }

  method TakeFlow(out: FI.ControlFlowIndex, g: FI.ControlFlowIndex, overlapping: seq<string>, ghost l: seq<Entry<CallContext>>)
    requires out.Valid() && g.Valid() && out != g && SameTagged(out.Contents(), l) && |out.strings| + |g.strings| < U32
    modifies out, g
    ensures out.Valid() && g.Valid()
    ensures SameTagged(out.Contents(), l + Without(old(g.Contents()), AsSet(overlapping)))
    ensures |out.strings| <= old(|out.strings| + |g.strings|)
  {
    hide SameTagged, Without, FI.Entries, FI.Remaining, FI.TablesOk, FI.AllReadable, FI.AllListed;
    ghost var a, b := out.Contents(), g.Contents();
    ghost var rest := b;
    if overlapping != [] {
      var _ := g.RemoveTUs(overlapping);
      rest := FI.Remaining(b, overlapping);
      assert SameTagged(rest, Without(b, AsSet(overlapping))) by { RemainingSame(b, overlapping); }
    } else {
      assert AsSet(overlapping) == {};
      WithoutNone(b);
      SameTaggedRefl(b);
    }
    out.Absorb(g);
    SameTaggedAppend(a, l, rest, out.Contents());
    SameTaggedTail(l, rest, Without(b, AsSet(overlapping)), out.Contents());
  }

  lemma RemainingSame(l: seq<Entry<CallContext>>, paths: seq<string>)
    ensures SameTagged(FI.Remaining(l, paths), Without(l, AsSet(paths)))
  {
    forall u ensures Part(FI.Remaining(l, paths), Some(u)) == Part(Without(l, AsSet(paths)), Some(u)) {
      RemainingTagged(l, paths, u);
    }
  }

  method TakeChannels(out: CI.ChannelIndex, g: CI.ChannelIndex, overlapping: seq<string>, ghost l: seq<Entry<CI.SiteKey>>)
    requires out.Valid() && g.Valid() && out != g && SameTagged(out.regs, l)
    modifies out, g
    ensures out.Valid() && g.Valid()
    ensures SameTagged(out.regs, l + Without(old(g.regs), AsSet(overlapping)))
  {
    hide SameTagged, Without, CI.ChannelIndex.Valid;
    ghost var a, b := out.regs, g.regs;
    if overlapping != [] {
      var _ := g.RemoveTUs(overlapping);
    } else {
      assert AsSet(overlapping) == {};
      WithoutNone(b);
    }
    out.Absorb(g);
    assert multiset(out.regs) == multiset(a + Without(b, AsSet(overlapping)));
    SameTaggedAppend(a, l, Without(b, AsSet(overlapping)), out.regs);
  }

  // ---- The merge.

  /** Configurations must agree, and recorded environments too. */
  predicate Compatible(first: Loaded, environment: string, s: Loaded) {
    s.config == first.config && (environment == "" || s.environment == "" || s.environment == environment)
  }

  /** The first `n` inputs have one configuration, and those that recorded an
      environment have one environment. */
  ghost predicate Agree(inputs: seq<Loaded>, n: nat) {
    && (forall i :: 0 <= i < n && i < |inputs| ==> inputs[i].config == inputs[0].config)
    && (forall i, j :: 0 <= i < j < n && j < |inputs| && inputs[i].environment != "" && inputs[j].environment != "" ==>
          inputs[i].environment == inputs[j].environment)
  }

  /** The first environment recorded among the first `n` inputs, if any. */
  ghost predicate FirstEnvironment(inputs: seq<Loaded>, n: nat, environment: string) {
    if environment == "" then forall i :: 0 <= i < n && i < |inputs| ==> inputs[i].environment == ""
    else exists i :: 0 <= i < n && i < |inputs| && inputs[i].environment == environment
  }

  lemma NoEnvironment(inputs: seq<Loaded>)
    ensures FirstEnvironment(inputs, 0, "") && Agree(inputs, 0)
  {
  }

  lemma NextEnvironment(inputs: seq<Loaded>, n: nat, environment: string)
    requires n < |inputs| && FirstEnvironment(inputs, n, environment)
    ensures FirstEnvironment(inputs, n + 1, if environment == "" then inputs[n].environment else environment)
  {
    if environment != "" {
      var i :| 0 <= i < n && i < |inputs| && inputs[i].environment == environment;
      assert i < n + 1;
    }
  }

  /** The check against what was taken so far decides whether all inputs agree. */
  lemma CompatibleAgrees(inputs: seq<Loaded>, n: nat, environment: string)
    requires n < |inputs| && FirstEnvironment(inputs, n, environment) && Agree(inputs, n)
    ensures n == 0 || Compatible(inputs[0], environment, inputs[n]) ==> Agree(inputs, n + 1)
    ensures n > 0 && !Compatible(inputs[0], environment, inputs[n]) ==> !Agree(inputs, |inputs|)
  {
    if environment != "" {
      var k :| 0 <= k < n && k < |inputs| && inputs[k].environment == environment;
      assert forall i :: 0 <= i < n && inputs[i].environment != "" ==> inputs[i].environment == environment;
    }
  }

  /** Compare one more input with what was taken so far. */
  method CheckInput(inputs: seq<Loaded>, n: nat, allowMismatch: bool, environment: string) returns (accepted: bool, next: string)
    requires n < |inputs| && FirstEnvironment(inputs, n, environment) && (!allowMismatch ==> Agree(inputs, n))
    ensures accepted ==> FirstEnvironment(inputs, n + 1, next) && (!allowMismatch ==> Agree(inputs, n + 1))
    ensures !accepted ==> !allowMismatch && !Agree(inputs, |inputs|)
  {
    hide Agree, FirstEnvironment, Compatible;
    if !allowMismatch {
      CompatibleAgrees(inputs, n, environment);
      if n > 0 && !Compatible(inputs[0], environment, inputs[n]) {
        return false, environment;
      }
    }
    NextEnvironment(inputs, n, environment);
    return true, if environment == "" then inputs[n].environment else environment;
  }

  /** The inputs do not share an index. */
  ghost predicate Distinct(inputs: seq<Loaded>) {
    forall i, j :: 0 <= i < j < |inputs| ==> inputs[i].ix.Apart(inputs[j].ix)
  }

  /** The input is as it was loaded; `n` is the number of strings it brings. */
  ghost predicate Fresh(s: Loaded, e: Shard<CG.TextEdge>, c: Shard<CallContext>, t: Shard<CI.SiteKey>, n: nat)
    reads s.ix.graph, s.ix.flow, s.ix.channels
  {
    && s.ix.Valid() && |s.ix.flow.strings| == n
    && e == Shard(s.files, s.ix.Edges()) && c == Shard(s.files, s.ix.Contexts()) && t == Shard(s.files, s.ix.Sites())
  }

  ghost function Sum(sizes: seq<nat>): nat {
    if sizes == [] then 0 else sizes[0] + Sum(sizes[1..])
  }

  /** The merge so far, for one kind of record. */
  ghost predicate MergedTo<R>(shards: seq<Shard<R>>, i: nat, seen: set<string>) {
    i <= |shards| && Merged(shards[..i]).0 == seen
  }

  lemma MergedStart<R>(shards: seq<Shard<R>>)
    ensures MergedTo(shards, 0, {}) && Merged(shards[..0]).1 == []
  {
  }

  /** One more shard: skipped if all its files were seen, else taken without
      the files seen before. */
  lemma MergedNext<R>(shards: seq<Shard<R>>, i: nat, seen: set<string>, overlapping: seq<string>)
    requires i < |shards| && MergedTo(shards, i, seen) && overlapping == Overlap(shards[i].files, seen)
    ensures shards[i].files != [] && |overlapping| == |shards[i].files| ==>
              MergedTo(shards, i + 1, seen) && Merged(shards[..i + 1]).1 == Merged(shards[..i]).1
    ensures !(shards[i].files != [] && |overlapping| == |shards[i].files|) ==>
              && MergedTo(shards, i + 1, seen + AsSet(shards[i].files))
              && Merged(shards[..i + 1]).1 == Merged(shards[..i]).1 + Without(shards[i].ledger, AsSet(overlapping))
  {
    hide Overlap, Without;
    assert shards[..i + 1][..i] == shards[..i];
  }

  lemma SeenStays(files: seq<string>, seen: set<string>)
    requires |Overlap(files, seen)| == |files|
    ensures seen + AsSet(files) == seen
  {
    forall f | f in files ensures f in seen {
      OverlapMember(files, seen, f);
    }
  }

  /** What the merged indexes hold for every unit. */
  ghost predicate CountsOnce(ix: Indexes, es: seq<Shard<CG.TextEdge>>, cs: seq<Shard<CallContext>>, ss: seq<Shard<CI.SiteKey>>)
    reads ix.graph, ix.flow, ix.channels
    requires ix.Valid()
  {
    forall u :: Part(ix.Edges(), Some(u)) == FirstPart(es, u) && Part(ix.Contexts(), Some(u)) == FirstPart(cs, u) && Part(ix.Sites(), Some(u)) == FirstPart(ss, u)
  }

  ghost predicate AllTagsListed(es: seq<Shard<CG.TextEdge>>, cs: seq<Shard<CallContext>>, ss: seq<Shard<CI.SiteKey>>) {
    && (forall i :: 0 <= i < |es| ==> TagsListed(es[i]))
    && (forall i :: 0 <= i < |cs| ==> TagsListed(cs[i]))
    && (forall i :: 0 <= i < |ss| ==> TagsListed(ss[i]))
  }

  lemma FinishMerge(ix: Indexes, es: seq<Shard<CG.TextEdge>>, cs: seq<Shard<CallContext>>, ss: seq<Shard<CI.SiteKey>>)
    requires ix.Valid() && AllTagsListed(es, cs, ss) && Follows(ix, Merged(es).1, Merged(cs).1, Merged(ss).1)
    ensures CountsOnce(ix, es, cs, ss)
  {
    hide Part, Merged, FirstPart, TagsListed, CG.CallGraph.Valid, FI.ControlFlowIndex.Valid, CI.ChannelIndex.Valid;
    forall u ensures Part(ix.Edges(), Some(u)) == FirstPart(es, u) && Part(ix.Contexts(), Some(u)) == FirstPart(cs, u) && Part(ix.Sites(), Some(u)) == FirstPart(ss, u) {
      MergeCountsOnce(es, u);
      MergeCountsOnce(cs, u);
      MergeCountsOnce(ss, u);
    }
  }

  /** The merge has gone through the first `i` inputs. */
  ghost predicate Progress(out: Indexes, seen: set<string>, first: bool, i: nat, es: seq<Shard<CG.TextEdge>>, cs: seq<Shard<CallContext>>, ss: seq<Shard<CI.SiteKey>>)
    reads out.graph, out.flow, out.channels
  {
    && out.Valid() && i <= |es| && i <= |cs| && i <= |ss|
    && MergedTo(es, i, seen) && MergedTo(cs, i, seen) && MergedTo(ss, i, seen)
    && Follows(out, Merged(es[..i]).1, Merged(cs[..i]).1, Merged(ss[..i]).1)
    && (first ==> Merged(es[..i]).1 == [] && Merged(cs[..i]).1 == [] && Merged(ss[..i]).1 == [])
  }

  /** Take one input: skip it, move it in whole, or absorb what is new in it. */
  method MergeOne(s: Loaded, out: Indexes, seen0: set<string>, first0: bool,
                  ghost i: nat, ghost es: seq<Shard<CG.TextEdge>>, ghost cs: seq<Shard<CallContext>>, ghost ss: seq<Shard<CI.SiteKey>>, ghost n: nat)
    returns (r: Indexes, seen: set<string>, first: bool)
    requires i < |es| && i < |cs| && i < |ss| && out.Apart(s.ix) && Fresh(s, es[i], cs[i], ss[i], n) && |out.flow.strings| + n < U32
    requires Progress(out, seen0, first0, i, es, cs, ss)
    modifies s.ix.graph, s.ix.flow, s.ix.channels, out.graph, out.flow, out.channels
    ensures (r == out || r == s.ix) && |r.flow.strings| <= old(|out.flow.strings|) + n
    ensures Progress(r, seen, first, i + 1, es, cs, ss)
  {
    hide Merged, Overlap, SameTagged, Without, CG.CallGraph.Valid, FI.ControlFlowIndex.Valid, CI.ChannelIndex.Valid, CG.TextRegs, MergedTo;
    var overlapping, seen1, listed := Overlapping(s.files, seen0);
    MergedNext(es, i, seen0, overlapping);
    MergedNext(cs, i, seen0, overlapping);
    MergedNext(ss, i, seen0, overlapping);
    r, seen, first := out, seen1, first0;
    if s.files != [] && listed == [] {
      SeenStays(s.files, seen0);
      return;
    }
    if first && overlapping == [] {
      MoveWhole(s.ix, es[i].ledger, cs[i].ledger, ss[i].ledger, overlapping);
      r := s.ix;
    } else {
      TakeGraph(out.graph, s.ix.graph, overlapping, Merged(es[..i]).1);
      TakeFlow(out.flow, s.ix.flow, overlapping, Merged(cs[..i]).1);
      TakeChannels(out.channels, s.ix.channels, overlapping, Merged(ss[..i]).1);
    }
    first := false;
  }

  lemma MoveWhole(ix: Indexes, e: seq<Entry<CG.TextEdge>>, c: seq<Entry<CallContext>>, t: seq<Entry<CI.SiteKey>>, overlapping: seq<string>)
    requires ix.Valid() && overlapping == [] && e == ix.Edges() && c == ix.Contexts() && t == ix.Sites()
    ensures Follows(ix, [] + Without(e, AsSet(overlapping)), [] + Without(c, AsSet(overlapping)), [] + Without(t, AsSet(overlapping)))
  {
    assert AsSet(overlapping) == {};
    WithoutNone(e);
    WithoutNone(c);
    WithoutNone(t);
    assert [] + e == e && [] + c == c && [] + t == t;
  }

  lemma StartFollows(ix: Indexes)
    requires ix.Valid() && ix.Edges() == [] && ix.Contexts() == [] && ix.Sites() == []
    ensures Follows(ix, [], [], [])
  {
  }

  /** Merge the inputs in order.  Every unit ends up with exactly what the first
      input listing it registered. */
  method MergeSnapshots(inputs: seq<Loaded>, allowMismatch: bool, ghost es: seq<Shard<CG.TextEdge>>, ghost cs: seq<Shard<CallContext>>,
                        ghost ss: seq<Shard<CI.SiteKey>>, ghost sizes: seq<nat>)
    returns (r: Option<Indexes>, seen: set<string>)
    requires Distinct(inputs) && |es| == |inputs| && |cs| == |inputs| && |ss| == |inputs| && |sizes| == |inputs|
    requires forall i :: 0 <= i < |inputs| ==> Fresh(inputs[i], es[i], cs[i], ss[i], sizes[i])
    requires Sum(sizes) < U32 && AllTagsListed(es, cs, ss)
    modifies set s | s in inputs :: s.ix.graph, set s | s in inputs :: s.ix.flow, set s | s in inputs :: s.ix.channels
    ensures r.Some? ==> r.value.Valid() && CountsOnce(r.value, es, cs, ss)
    ensures r.None? <==> inputs == [] || (!allowMismatch && !Agree(inputs, |inputs|))
    ensures r.Some? ==> forall u :: u in seen <==> Listed(es, u)
  {
    hide TagsListed, Listed, AllTagsListed, Sum, CG.CallGraph.Valid, FI.ControlFlowIndex.Valid, CI.ChannelIndex.Valid, CountsOnce, Progress, Fresh, Agree, FirstEnvironment, Compatible;
    seen := {};
    if inputs == [] {
      return None, seen;
    }
    var out := NoIndexes();
    var environment, firstShard := "", true;
    StartProgress(out, es, cs, ss);
    NoEnvironment(inputs);
    assert sizes[0..] == sizes;
    for i := 0 to |inputs|
      invariant forall j :: i <= j < |inputs| ==> out.Apart(inputs[j].ix) && Fresh(inputs[j], es[j], cs[j], ss[j], sizes[j])
      invariant Progress(out, seen, firstShard, i, es, cs, ss)
      invariant |out.flow.strings| + Sum(sizes[i..]) < U32
      invariant FirstEnvironment(inputs, i, environment) && (!allowMismatch ==> Agree(inputs, i))
      invariant fresh(out.graph) || out.graph in (set s | s in inputs :: s.ix.graph)
      invariant fresh(out.flow) || out.flow in (set s | s in inputs :: s.ix.flow)
      invariant fresh(out.channels) || out.channels in (set s | s in inputs :: s.ix.channels)
    {
      var s := inputs[i];
      var accepted;
      accepted, environment := CheckInput(inputs, i, allowMismatch, environment);
      if !accepted {
        return None, seen;
      }
      SumNext(sizes, i);
      assert s in inputs;
      out, seen, firstShard := MergeOne(s, out, seen, firstShard, i, es, cs, ss, sizes[i]);
    }
    EndProgress(out, seen, firstShard, es, cs, ss);
    r := Some(out);
  }

  method NoIndexes() returns (r: Indexes)
    ensures fresh(r.graph) && fresh(r.flow) && fresh(r.channels) && r.Valid()
    ensures r.Edges() == [] && r.Contexts() == [] && r.Sites() == [] && r.flow.strings == []
  {
    var graph := new CG.CallGraph();
    var flow := new FI.ControlFlowIndex();
    var channels := new CI.ChannelIndex();
    r := Indexes(graph, flow, channels);
  }

  lemma StartProgress(out: Indexes, es: seq<Shard<CG.TextEdge>>, cs: seq<Shard<CallContext>>, ss: seq<Shard<CI.SiteKey>>)
    requires out.Valid() && out.Edges() == [] && out.Contexts() == [] && out.Sites() == []
    ensures Progress(out, {}, true, 0, es, cs, ss)
  {
    MergedStart(es);
    MergedStart(cs);
    MergedStart(ss);
    StartFollows(out);
  }

  lemma EndProgress(out: Indexes, seen: set<string>, first: bool, es: seq<Shard<CG.TextEdge>>, cs: seq<Shard<CallContext>>, ss: seq<Shard<CI.SiteKey>>)
    requires |cs| == |es| && |ss| == |es| && Progress(out, seen, first, |es|, es, cs, ss) && AllTagsListed(es, cs, ss)
    ensures out.Valid() && CountsOnce(out, es, cs, ss)
    ensures forall u :: u in seen <==> Listed(es, u)
  {
    hide Merged, Follows, CountsOnce, AllTagsListed, Listed;
    assert es[..|es|] == es && cs[..|cs|] == cs && ss[..|ss|] == ss;
    FinishMerge(out, es, cs, ss);
    forall u ensures u in seen <==> Listed(es, u) {
      MergedToSeen(es, seen, u);
    }
  }

  lemma SumNext(sizes: seq<nat>, i: nat)
    requires i < |sizes|
    ensures Sum(sizes[i..]) == sizes[i] + Sum(sizes[i + 1..])
  {
    assert sizes[i..][1..] == sizes[i + 1..];
  }

  lemma MergedToSeen<R>(shards: seq<Shard<R>>, seen: set<string>, u: string)
    requires MergedTo(shards, |shards|, seen)
    ensures u in seen <==> Listed(shards, u)
  {
    assert shards[..|shards|] == shards;
    MergedSeen(shards, u);
  }
}
