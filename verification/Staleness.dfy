/** Which units a warm start may leave alone: the recorded stamps, how they are
    taken from a bake, and what "clean" says about the files a parse read. */
module Staleness {
  import opened Interner
  import opened GraphTypes

  const NS_PER_SECOND: nat := 1_000_000_000

  /** An mtime of 0 stands for a stamp that matches nothing. */
  datatype Stamp = Stamp(path: string, mtimeNs: nat, size: nat)

  datatype Status = Indexed | Partial | Crashed | Poisoned | Skipped | TimedOut

  datatype Meta = Meta(files: seq<Stamp>, fingerprints: seq<string>, deps: seq<Stamp>, tuDeps: seq<seq<nat>>, outcomes: seq<Status>)

  function Second(ns: nat): nat {
    ns - ns % NS_PER_SECOND
  }

  /** A dependency stamp holds whole seconds only. */
  predicate SameParsedVersion(recorded: Stamp, now: Stamp) {
    recorded.mtimeNs != 0 && recorded.size == now.size && recorded.mtimeNs == Second(now.mtimeNs)
  }

  predicate SameTuVersion(recorded: Stamp, now: Stamp) {
    recorded.mtimeNs != 0 && recorded == now
  }

  // ---- The dirty check.

  /** The last recorded entry for a path. */
  ghost predicate RecordedAt(files: seq<Stamp>, path: string, r: nat) {
    r < |files| && files[r].path == path && forall k :: r < k < |files| ==> files[k].path != path
  }

  predicate DepsUnchanged(meta: Meta, depsNow: seq<Stamp>, r: nat)
    requires |depsNow| == |meta.deps|
  {
    r < |meta.tuDeps| ==> forall j :: 0 <= j < |meta.tuDeps[r]| && meta.tuDeps[r][j] < |meta.deps| ==>
      SameParsedVersion(meta.deps[meta.tuDeps[r][j]], depsNow[meta.tuDeps[r][j]])
  }

  /** Entry `r` vouches for unit `i` as it is now. */
  ghost predicate Vouches(meta: Meta, depsNow: seq<Stamp>, now: Stamp, fingerprint: Option<string>, checked: bool, r: nat)
    requires |depsNow| == |meta.deps|
  {
    && RecordedAt(meta.files, now.path, r) && SameTuVersion(meta.files[r], now)
    && (checked ==> r < |meta.fingerprints| && fingerprint == Some(meta.fingerprints[r]))
    && DepsUnchanged(meta, depsNow, r)
    && (meta.outcomes == [] || (r < |meta.outcomes| && meta.outcomes[r] == Indexed))
  }

  method IndexFiles(files: seq<Stamp>) returns (recorded: map<string, nat>)
    ensures forall path :: path in recorded ==> RecordedAt(files, path, recorded[path])
    ensures forall i :: 0 <= i < |files| ==> files[i].path in recorded
  {
    recorded := map[];
    for i := 0 to |files|
      invariant forall path :: path in recorded ==> RecordedAt(files[..i], path, recorded[path])
      invariant forall k :: 0 <= k < i ==> files[k].path in recorded
    {
      recorded := recorded[files[i].path := i];
    }
    assert files[..|files|] == files;
  }

  method DirtyTUs(meta: Meta, current: seq<Stamp>, fingerprints: Option<seq<string>>, depsNow: seq<Stamp>) returns (dirty: seq<bool>)
    requires |depsNow| == |meta.deps|
    ensures |dirty| == |current|
    ensures forall i :: 0 <= i < |current| ==>
              (!dirty[i] <==> exists r :: Vouches(meta, depsNow, current[i], FingerprintOf(fingerprints, i), fingerprints.Some?, r))
  {
    hide RecordedAt, SameTuVersion, SameParsedVersion;
    var recorded := IndexFiles(meta.files);
    dirty := [];
    for i := 0 to |current|
      invariant |dirty| == i
      invariant forall k :: 0 <= k < i ==>
                  (!dirty[k] <==> exists r :: Vouches(meta, depsNow, current[k], FingerprintOf(fingerprints, k), fingerprints.Some?, r))
    {
      var clean := CheckUnit(meta, current[i], FingerprintOf(fingerprints, i), fingerprints.Some?, depsNow, recorded);
      dirty := dirty + [!clean];
    }
  }

  function FingerprintOf(fingerprints: Option<seq<string>>, i: nat): Option<string> {
    if fingerprints.Some? && i < |fingerprints.value| then Some(fingerprints.value[i]) else None
  }

  method CheckUnit(meta: Meta, now: Stamp, fingerprint: Option<string>, checked: bool, depsNow: seq<Stamp>, recorded: map<string, nat>) returns (clean: bool)
    requires |depsNow| == |meta.deps|
    requires forall path :: path in recorded ==> RecordedAt(meta.files, path, recorded[path])
    requires forall i :: 0 <= i < |meta.files| ==> meta.files[i].path in recorded
    ensures clean <==> exists r :: Vouches(meta, depsNow, now, fingerprint, checked, r)
  {
    hide RecordedAt, SameTuVersion, SameParsedVersion, DepsUnchanged;
    OnlyEntry(meta.files, now.path, recorded);
    if now.path !in recorded {
      return false;
    }
    var r := recorded[now.path];
    EntryInRange(meta.files, now.path, r);
    if !SameTuVersion(meta.files[r], now) {
      return false;
    }
    if checked && (r >= |meta.fingerprints| || fingerprint != Some(meta.fingerprints[r])) {
      return false;
    }
    var same := CheckDeps(meta, depsNow, r);
    if !same {
      return false;
    }
    if meta.outcomes != [] && (r >= |meta.outcomes| || meta.outcomes[r] != Indexed) {
      return false;
    }
    assert Vouches(meta, depsNow, now, fingerprint, checked, r);
    return true;
  }

  lemma EntryInRange(files: seq<Stamp>, path: string, r: nat)
    requires RecordedAt(files, path, r)
    ensures r < |files| && files[r].path == path
  {
  }

  lemma OnlyEntry(files: seq<Stamp>, path: string, recorded: map<string, nat>)
    requires forall p :: p in recorded ==> RecordedAt(files, p, recorded[p])
    requires forall i :: 0 <= i < |files| ==> files[i].path in recorded
    ensures forall r :: RecordedAt(files, path, r) ==> path in recorded && recorded[path] == r
  {
    forall r | RecordedAt(files, path, r) ensures path in recorded && recorded[path] == r {
      assert RecordedAt(files, path, recorded[path]);
    }
  }

  method CheckDeps(meta: Meta, depsNow: seq<Stamp>, r: nat) returns (same: bool)
    requires |depsNow| == |meta.deps|
    ensures same <==> DepsUnchanged(meta, depsNow, r)
  {
    if r < |meta.tuDeps| {
      for j := 0 to |meta.tuDeps[r]|
        invariant forall k :: 0 <= k < j && meta.tuDeps[r][k] < |meta.deps| ==> SameParsedVersion(meta.deps[meta.tuDeps[r][k]], depsNow[meta.tuDeps[r][k]])
      {
        var id := meta.tuDeps[r][j];
        if id < |meta.deps| && !SameParsedVersion(meta.deps[id], depsNow[id]) {
          return false;
        }
      }
    }
    return true;
  }

  // ---- Recording a bake.

  /** Each opened file has an entry that is no newer than what the parse saw. */
  ghost predicate Covers(table: seq<Stamp>, list: seq<nat>, read: seq<Stamp>) {
    |list| == |read| && forall j :: 0 <= j < |read| ==>
      list[j] < |table| && table[list[j]].path == read[j].path && table[list[j]].mtimeNs <= read[j].mtimeNs
  }

  ghost predicate Opened(deps: map<string, seq<Stamp>>, s: Stamp) {
    exists tu :: tu in deps && s in deps[tu]
  }

  /** The table's entries were all seen by some parse, one per path. */
  ghost predicate TableFrom(table: seq<Stamp>, ids: map<string, nat>, deps: map<string, seq<Stamp>>) {
    && (forall k :: 0 <= k < |table| ==> Opened(deps, table[k]) && table[k].path in ids && ids[table[k].path] == k)
    && (forall p :: p in ids ==> ids[p] < |table| && table[ids[p]].path == p)
  }

  /** The table may gain entries and exchange stamps for older ones. */
  ghost predicate TableAges(a: seq<Stamp>, b: seq<Stamp>) {
    |a| <= |b| && forall k :: 0 <= k < |a| ==> b[k].path == a[k].path && b[k].mtimeNs <= a[k].mtimeNs
  }

  lemma CoversAges(a: seq<Stamp>, b: seq<Stamp>, list: seq<nat>, read: seq<Stamp>)
    requires Covers(a, list, read) && TableAges(a, b)
    ensures Covers(b, list, read)
  {
  }

  /** Record one opened file: a new entry, or the older of the two stamps. */
  method RecordOne(table: seq<Stamp>, ids: map<string, nat>, d: Stamp, ghost deps: map<string, seq<Stamp>>)
    returns (table': seq<Stamp>, ids': map<string, nat>, id: nat)
    requires TableFrom(table, ids, deps) && Opened(deps, d)
    ensures TableFrom(table', ids', deps) && TableAges(table, table')
    ensures id < |table'| && table'[id].path == d.path && table'[id].mtimeNs <= d.mtimeNs
  {
    hide Opened;
    table', ids' := table, ids;
    if d.path in ids {
      id := ids[d.path];
      if d.mtimeNs < table[id].mtimeNs {
        table' := table[id := d];
      }
    } else {
      id := |table|;
      table', ids' := table + [d], ids[d.path := id];
    }
  }

  method RecordUnit(table0: seq<Stamp>, ids0: map<string, nat>, read: seq<Stamp>, ghost deps: map<string, seq<Stamp>>)
    returns (table: seq<Stamp>, ids: map<string, nat>, list: seq<nat>)
    requires TableFrom(table0, ids0, deps) && forall d :: d in read ==> Opened(deps, d)
    ensures TableFrom(table, ids, deps) && TableAges(table0, table) && Covers(table, list, read)
  {
    hide TableFrom, Opened;
    table, ids, list := table0, ids0, [];
    for j := 0 to |read|
      invariant TableFrom(table, ids, deps) && TableAges(table0, table) && Covers(table, list, read[..j])
    {
      var id;
      ghost var before := table;
      table, ids, id := RecordOne(table, ids, read[j], deps);
      CoversAges(before, table, list, read[..j]);
      list := list + [id];
    }
    assert read[..|read|] == read;
  }

  function OpenedBy(deps: map<string, seq<Stamp>>, tu: string): seq<Stamp> {
    if tu in deps then deps[tu] else []
  }

  method RecordDependencies(files: seq<Stamp>, deps: map<string, seq<Stamp>>) returns (table: seq<Stamp>, tuDeps: seq<seq<nat>>)
    ensures |tuDeps| == |files| && forall i :: 0 <= i < |files| ==> Covers(table, tuDeps[i], OpenedBy(deps, files[i].path))
    ensures forall k :: 0 <= k < |table| ==> Opened(deps, table[k])
  {
    hide Covers, Opened;
    var ids: map<string, nat> := map[];
    table, tuDeps := [], [];
    for i := 0 to |files|
      invariant TableFrom(table, ids, deps) && |tuDeps| == i
      invariant forall k :: 0 <= k < i ==> Covers(table, tuDeps[k], OpenedBy(deps, files[k].path))
    {
      var list;
      ghost var before := table;
      UnitOpened(deps, files[i].path);
      table, ids, list := RecordUnit(table, ids, OpenedBy(deps, files[i].path), deps);
      forall k | 0 <= k < i ensures Covers(table, tuDeps[k], OpenedBy(deps, files[k].path)) {
        CoversAges(before, table, tuDeps[k], OpenedBy(deps, files[k].path));
      }
      tuDeps := tuDeps + [list];
    }
  }

  lemma UnitOpened(deps: map<string, seq<Stamp>>, tu: string)
    ensures forall d :: d in OpenedBy(deps, tu) ==> Opened(deps, d)
  {
  }

  // ---- Unstable stamps.

  function Marked(s: Stamp, bakeStart: nat): Stamp {
    if s.mtimeNs != 0 && s.mtimeNs >= Second(bakeStart) then s.(mtimeNs := 0) else s
  }

  /** Forget the stamps of files that changed in or after the bake's second. */
  method MarkUnstable(stamps: seq<Stamp>, bakeStart: nat) returns (r: seq<Stamp>, marked: nat)
    ensures |r| == |stamps| && forall i :: 0 <= i < |stamps| ==> r[i] == Marked(stamps[i], bakeStart)
    ensures marked == Changed(stamps, r, |stamps|)
  {
    r, marked := [], 0;
    for i := 0 to |stamps|
      invariant |r| == i && forall k :: 0 <= k < i ==> r[k] == Marked(stamps[k], bakeStart)
      invariant marked == Changed(stamps[..i], r, i)
    {
      if stamps[i].mtimeNs != 0 && stamps[i].mtimeNs >= Second(bakeStart) {
        marked := marked + 1;
      }
      r := r + [Marked(stamps[i], bakeStart)];
      ChangedNext(stamps, r, i);
    }
    assert stamps[..|stamps|] == stamps;
  }

  /** How many of the first `n` entries differ. */
  ghost function Changed(a: seq<Stamp>, b: seq<Stamp>, n: nat): nat
    requires n <= |a| && n <= |b|
  {
    if n == 0 then 0 else Changed(a, b, n - 1) + if a[n - 1] != b[n - 1] then 1 else 0
  }

  lemma {:induction false} ChangedSame(a: seq<Stamp>, b: seq<Stamp>, c: seq<Stamp>, d: seq<Stamp>, n: nat)
    requires n <= |a| && n <= |b| && n <= |c| && n <= |d| && a[..n] == c[..n] && b[..n] == d[..n]
    ensures Changed(a, b, n) == Changed(c, d, n)
  {
    if n > 0 {
      assert a[..n][..n - 1] == a[..n - 1] && b[..n][..n - 1] == b[..n - 1] && c[..n][..n - 1] == c[..n - 1] && d[..n][..n - 1] == d[..n - 1];
      assert a[..n][n - 1] == c[..n][n - 1] && b[..n][n - 1] == d[..n][n - 1];
      ChangedSame(a, b, c, d, n - 1);
    }
  }

  lemma ChangedNext(stamps: seq<Stamp>, r: seq<Stamp>, i: nat)
    requires i < |stamps| && |r| == i + 1
    ensures Changed(stamps[..i + 1], r, i + 1) == Changed(stamps[..i], r[..i], i) + if stamps[i] != r[i] then 1 else 0
  {
    ChangedSame(stamps[..i + 1], r, stamps[..i], r[..i], i);
  }

  // ---- What clean means.

  /** A look at a file: its stamp and the version of its contents then. */
  datatype Sight = Sight(stamp: Stamp, version: nat)

  /** What the last parse of each unit read and when its bake started, and what
      the files are now. */
  datatype World = World(own: map<string, Sight>, read: map<string, seq<Sight>>, bakedAt: map<string, nat>, now: map<string, Sight>) {
    function BakeOf(tu: string): nat {
      if tu in bakedAt then bakedAt[tu] else 0
    }

    /** The stamp of a file as it is now; an absent file has none. */
    function StampNow(path: string): Stamp {
      if path in now then now[path].stamp else Stamp(path, 0, 0)
    }
  }

  ghost predicate ReadBy(w: World, tu: string, s: Sight) {
    (tu in w.own && w.own[tu] == s) || (tu in w.read && s in w.read[tu])
  }

  predicate SameEarlySecond(a: Stamp, b: Stamp, bakeStart: nat) {
    a.path == b.path && Second(a.mtimeNs) == Second(b.mtimeNs) < Second(bakeStart)
  }

  /** A second before a unit's bake fixes one version of what that bake read. */
  ghost predicate OneVersionPerSecond(w: World) {
    forall tu, s, p :: ReadBy(w, tu, s) && p in w.now && SameEarlySecond(s.stamp, w.now[p].stamp, w.BakeOf(tu)) ==> s.version == w.now[p].version
  }

  /** Modification times never go backwards. */
  ghost predicate Forward(w: World) {
    && (forall p :: p in w.now ==> w.now[p].stamp.path == p)
    && (forall tu :: tu in w.own ==> w.own[tu].stamp.path == tu)
    && (forall tu, s :: ReadBy(w, tu, s) && s.stamp.path in w.now ==> s.stamp.mtimeNs <= w.now[s.stamp.path].stamp.mtimeNs)
  }

  /** A stamp of unit `tu` as a bake finds it: taken by that bake, or carried
      over from the bake of the unit, which forgot the unstable ones. */
  predicate Settled(w: World, tu: string, mtimeNs: nat, bakeStart: nat) {
    mtimeNs == 0 || w.BakeOf(tu) == bakeStart || mtimeNs < Second(w.BakeOf(tu))
  }

  /** The stamps a bake records: no newer than what each parse saw. */
  ghost predicate StampsFrom(w: World, files: seq<Stamp>, deps: map<string, seq<Stamp>>, bakeStart: nat) {
    && deps.Keys == w.read.Keys && (forall tu :: tu in deps ==> ListFrom(w, tu, deps[tu], bakeStart))
    && (forall i :: 0 <= i < |files| && files[i].path in w.own ==> FileFrom(w, files[i], bakeStart))
  }

  ghost predicate ListFrom(w: World, tu: string, list: seq<Stamp>, bakeStart: nat) {
    tu in w.read && |list| == |w.read[tu]| && forall j :: 0 <= j < |list| ==>
      && list[j].path == w.read[tu][j].stamp.path && list[j].mtimeNs <= Second(w.read[tu][j].stamp.mtimeNs)
      && Settled(w, tu, list[j].mtimeNs, bakeStart)
  }

  ghost predicate FileFrom(w: World, file: Stamp, bakeStart: nat) {
    file.path in w.own && file.mtimeNs <= w.own[file.path].stamp.mtimeNs && Settled(w, file.path, file.mtimeNs, bakeStart)
  }

  /** A dependency stamp as a parse hands it over: whole seconds. */
  function WholeSeconds(s: Stamp): Stamp {
    s.(mtimeNs := Second(s.mtimeNs))
  }

  /** The meta that a bake started at `bakeStart` writes. */
  ghost predicate BakedMeta(meta: Meta, files: seq<Stamp>, table: seq<Stamp>, deps: map<string, seq<Stamp>>, bakeStart: nat) {
    && |meta.files| == |files| && (forall i :: 0 <= i < |files| ==> meta.files[i] == Marked(files[i], bakeStart))
    && |meta.deps| == |table| && (forall k :: 0 <= k < |table| ==> meta.deps[k] == Marked(table[k], bakeStart))
    && |meta.tuDeps| == |files| && (forall i :: 0 <= i < |files| ==> Covers(table, meta.tuDeps[i], OpenedBy(deps, files[i].path)))
    && (forall k :: 0 <= k < |table| ==> Opened(deps, table[k]))
  }

  /** Write the meta of a bake: the shared dependency table, then the marks. */
  method RecordBake(files: seq<Stamp>, deps: map<string, seq<Stamp>>, bakeStart: nat, fingerprints: seq<string>, outcomes: seq<Status>)
    returns (meta: Meta, ghost table: seq<Stamp>)
    ensures BakedMeta(meta, files, table, deps, bakeStart) && meta.fingerprints == fingerprints && meta.outcomes == outcomes
  {
    hide Covers, Opened, Marked;
    var recorded, tuDeps := RecordDependencies(files, deps);
    table := recorded;
    var markedFiles, _ := MarkUnstable(files, bakeStart);
    var markedDeps, _ := MarkUnstable(recorded, bakeStart);
    meta := Meta(markedFiles, fingerprints, markedDeps, tuDeps, outcomes);
  }

  lemma SecondMonotone(a: nat, b: nat)
    requires a <= b
    ensures Second(a) <= Second(b)
  {
    var n := NS_PER_SECOND;
    assert a == n * (a / n) + a % n && b == n * (b / n) + b % n;
  }

  /** A clean unit: its own source is there and is what the parse read, every
      file the parse read is still there with that version, and its inputs and
      outcome are as recorded. */
  lemma CleanMeansUnchanged(w: World, files: seq<Stamp>, deps: map<string, seq<Stamp>>, table: seq<Stamp>, bakeStart: nat, meta: Meta,
                            depsNow: seq<Stamp>, tu: string, fingerprint: Option<string>, checked: bool, r: nat)
    requires BakedMeta(meta, files, table, deps, bakeStart) && StampsFrom(w, files, deps, bakeStart)
    requires OneVersionPerSecond(w) && Forward(w)
    requires |depsNow| == |meta.deps| && forall k :: 0 <= k < |depsNow| ==> depsNow[k] == w.StampNow(meta.deps[k].path)
    requires tu in w.own && Vouches(meta, depsNow, w.StampNow(tu), fingerprint, checked, r)
    ensures tu in w.now && w.own[tu].version == w.now[tu].version
    ensures tu in w.read ==> forall s :: s in w.read[tu] ==> s.stamp.path in w.now && s.version == w.now[s.stamp.path].version
    ensures checked ==> r < |meta.fingerprints| && fingerprint == Some(meta.fingerprints[r])
    ensures meta.outcomes == [] || (r < |meta.outcomes| && meta.outcomes[r] == Indexed)
  {
    hide OneVersionPerSecond, Forward, Covers, ListFrom, FileFrom, Second, ReadBy;
    NowPath(w, tu);
    OwnUnchanged(w, files, bakeStart, meta, tu, r);
    if tu in w.read {
      forall s | s in w.read[tu] ensures s.stamp.path in w.now && s.version == w.now[s.stamp.path].version {
        var j :| 0 <= j < |w.read[tu]| && w.read[tu][j] == s;
        OpenedUnchanged(w, files, deps, table, bakeStart, meta, depsNow, tu, r, j);
      }
    }
  }

  lemma NowPath(w: World, tu: string)
    requires Forward(w)
    ensures w.StampNow(tu).path == tu
  {
  }

  lemma OwnUnchanged(w: World, files: seq<Stamp>, bakeStart: nat, meta: Meta, tu: string, r: nat)
    requires r < |meta.files| == |files| && meta.files[r] == Marked(files[r], bakeStart) && meta.files[r].path == tu
    requires tu in w.own && FileFrom(w, files[r], bakeStart) && SameTuVersion(meta.files[r], w.StampNow(tu))
    requires OneVersionPerSecond(w) && Forward(w)
    ensures tu in w.now && w.own[tu].version == w.now[tu].version
  {
    var a := w.own[tu];
    assert ReadBy(w, tu, a);
    assert w.StampNow(tu).mtimeNs != 0;
    var b := w.now[tu];
    assert files[r].mtimeNs == b.stamp.mtimeNs && a.stamp.mtimeNs == b.stamp.mtimeNs;
    EarlierSecond(b.stamp.mtimeNs, w.BakeOf(tu));
  }

  lemma EarlierSecond(t: nat, bakeStart: nat)
    requires t < Second(bakeStart)
    ensures Second(t) < Second(bakeStart)
  {
  }

  lemma OpenedUnchanged(w: World, files: seq<Stamp>, deps: map<string, seq<Stamp>>, table: seq<Stamp>, bakeStart: nat, meta: Meta,
                        depsNow: seq<Stamp>, tu: string, r: nat, j: nat)
    requires BakedMeta(meta, files, table, deps, bakeStart) && StampsFrom(w, files, deps, bakeStart)
    requires OneVersionPerSecond(w) && Forward(w) && tu in w.read && j < |w.read[tu]|
    requires |depsNow| == |meta.deps| && forall k :: 0 <= k < |depsNow| ==> depsNow[k] == w.StampNow(meta.deps[k].path)
    requires r < |files| && files[r].path == tu && DepsUnchanged(meta, depsNow, r)
    ensures w.read[tu][j].stamp.path in w.now && w.read[tu][j].version == w.now[w.read[tu][j].stamp.path].version
  {
    hide Second, OneVersionPerSecond;
    var s := w.read[tu][j];
    assert ReadBy(w, tu, s);
    assert Covers(table, meta.tuDeps[r], OpenedBy(deps, tu)) && ListFrom(w, tu, deps[tu], bakeStart);
    var id := meta.tuDeps[r][j];
    assert SameParsedVersion(meta.deps[id], depsNow[id]);
    NoSecond();
    var now := w.now[s.stamp.path];
    assert table[id].mtimeNs == Second(now.stamp.mtimeNs) && table[id].mtimeNs <= deps[tu][j].mtimeNs <= Second(s.stamp.mtimeNs);
    SecondMonotone(s.stamp.mtimeNs, now.stamp.mtimeNs);
    SameVersion(w, tu, s);
  }

  lemma NoSecond()
    ensures Second(0) == 0
  {
  }

  lemma SameVersion(w: World, tu: string, s: Sight)
    requires OneVersionPerSecond(w) && ReadBy(w, tu, s) && s.stamp.path in w.now && w.now[s.stamp.path].stamp.path == s.stamp.path
    requires SameEarlySecond(s.stamp, w.now[s.stamp.path].stamp, w.BakeOf(tu))
    ensures s.version == w.now[s.stamp.path].version
  {
  }

  // ---- Carrying stamps through a warm refresh.

  /** The stamps recorded for entry `r`. */
  function CarriedList(meta: Meta, ids: seq<nat>): seq<Stamp> {
    if ids == [] then []
    else
      var rest, id := CarriedList(meta, ids[..|ids| - 1]), ids[|ids| - 1];
      if id < |meta.deps| then rest + [meta.deps[id]] else rest
  }

  lemma {:induction false} CarriedAt(meta: Meta, ids: seq<nat>, j: nat)
    requires (forall i :: 0 <= i < |ids| ==> ids[i] < |meta.deps|) && j < |ids|
    ensures |CarriedList(meta, ids)| == |ids| && CarriedList(meta, ids)[j] == meta.deps[ids[j]]
    decreases |ids|
  {
    if j < |ids| - 1 {
      CarriedAt(meta, ids[..|ids| - 1], j);
    } else if j > 0 {
      CarriedAt(meta, ids[..|ids| - 1], j - 1);
    }
  }

  /** The lists of all entries for a path among the first `n`. */
  function CarriedFor(meta: Meta, path: string, n: nat): seq<Stamp>
    requires n <= |meta.files| && n <= |meta.tuDeps|
  {
    if n == 0 then []
    else CarriedFor(meta, path, n - 1) + if meta.files[n - 1].path == path then CarriedList(meta, meta.tuDeps[n - 1]) else []
  }

  /** A path with one entry has that entry's list. */
  lemma {:induction false} CarriedOnce(meta: Meta, r: nat, n: nat)
    requires n <= |meta.files| && n <= |meta.tuDeps| && r < |meta.files|
    requires forall i :: 0 <= i < |meta.files| && i != r ==> meta.files[i].path != meta.files[r].path
    ensures CarriedFor(meta, meta.files[r].path, n) == if r < n then CarriedList(meta, meta.tuDeps[r]) else []
  {
    hide CarriedList;
    if n > 0 {
      CarriedOnce(meta, r, n - 1);
    }
  }

  method CarryList(meta: Meta, ids: seq<nat>) returns (list: seq<Stamp>)
    ensures list == CarriedList(meta, ids)
  {
    list := [];
    for j := 0 to |ids|
      invariant list == CarriedList(meta, ids[..j])
    {
      assert ids[..j + 1][..j] == ids[..j];
      if ids[j] < |meta.deps| {
        list := list + [meta.deps[ids[j]]];
      }
    }
    assert ids[..|ids|] == ids;
  }

  lemma NoneCarried(meta: Meta)
    ensures forall p :: OpenedBy(map[], p) == CarriedFor(meta, p, 0)
  {
  }

  lemma ListOf(deps: map<string, seq<Stamp>>, p: string)
    requires p in deps
    ensures OpenedBy(deps, p) == deps[p]
  {
  }

  lemma CarriedNext(meta: Meta, deps: map<string, seq<Stamp>>, n: nat, more: map<string, seq<Stamp>>)
    requires n < |meta.files| && n < |meta.tuDeps|
    requires forall p :: OpenedBy(deps, p) == CarriedFor(meta, p, n)
    requires var path := meta.files[n].path; more == deps[path := OpenedBy(deps, path) + CarriedList(meta, meta.tuDeps[n])]
    ensures forall p :: OpenedBy(more, p) == CarriedFor(meta, p, n + 1)
  {
    hide CarriedList;
  }

  /** The dependency lists of a loaded meta, by unit. */
  method DependenciesOf(meta: Meta) returns (deps: map<string, seq<Stamp>>)
    ensures var n := if |meta.files| < |meta.tuDeps| then |meta.files| else |meta.tuDeps|;
            && (forall i :: 0 <= i < n ==> meta.files[i].path in deps)
            && (forall p :: p in deps ==> deps[p] == CarriedFor(meta, p, n) && exists i :: 0 <= i < n && meta.files[i].path == p)
  {
    hide CarriedList, CarriedFor, OpenedBy;
    deps := map[];
    NoneCarried(meta);
    var n := if |meta.files| < |meta.tuDeps| then |meta.files| else |meta.tuDeps|;
    for i := 0 to n
      invariant forall k :: 0 <= k < i ==> meta.files[k].path in deps
      invariant forall p :: OpenedBy(deps, p) == CarriedFor(meta, p, i)
      invariant forall p :: p in deps ==> exists k :: 0 <= k < i && meta.files[k].path == p
    {
      var list := CarryList(meta, meta.tuDeps[i]);
      ghost var before := deps;
      deps := deps[meta.files[i].path := OpenedBy(deps, meta.files[i].path) + list];
      CarriedNext(meta, before, i, deps);
    }
    forall p | p in deps ensures deps[p] == CarriedFor(meta, p, n) {
      ListOf(deps, p);
    }
  }

  /** What a refresh that starts at `start` records for unit `tu`: what its new
      parse saw, or what the old meta had for it. */
  ghost predicate RecordedAnew(w: World, tu: string, list: seq<Stamp>, start: nat) {
    && w.BakeOf(tu) == start && tu in w.read && |list| == |w.read[tu]|
    && forall j :: 0 <= j < |list| ==> list[j] == WholeSeconds(w.read[tu][j].stamp)
  }

  ghost predicate Carried(w0: World, meta: Meta, w: World, tu: string, list: seq<Stamp>) {
    && tu in w0.read && tu in w.read && w.read[tu] == w0.read[tu] && w.BakeOf(tu) == w0.BakeOf(tu)
    && exists r :: 0 <= r < |meta.files| && r < |meta.tuDeps| && meta.files[r].path == tu && list == CarriedList(meta, meta.tuDeps[r])
  }

  ghost predicate FileAnew(w: World, file: Stamp, start: nat) {
    file.path in w.own && w.BakeOf(file.path) == start && file.mtimeNs <= w.own[file.path].stamp.mtimeNs
  }

  /** A unit left alone was clean: its stamp is the recorded one. */
  ghost predicate FileCarried(w0: World, meta: Meta, w: World, file: Stamp) {
    && file.path in w0.own && file.path in w.own && w.own[file.path] == w0.own[file.path] && w.BakeOf(file.path) == w0.BakeOf(file.path)
    && exists r :: 0 <= r < |meta.files| && meta.files[r].path == file.path && SameTuVersion(meta.files[r], file)
  }

  ghost predicate Refreshed(w0: World, meta: Meta, w: World, files: seq<Stamp>, deps: map<string, seq<Stamp>>, start: nat) {
    && deps.Keys == w.read.Keys
    && (forall tu :: tu in deps ==> RecordedAnew(w, tu, deps[tu], start) || Carried(w0, meta, w, tu, deps[tu]))
    && (forall i :: 0 <= i < |files| && files[i].path in w.own ==> FileAnew(w, files[i], start) || FileCarried(w0, meta, w, files[i]))
  }

  lemma CarriedStamps(w0: World, files0: seq<Stamp>, deps0: map<string, seq<Stamp>>, table: seq<Stamp>, bakeStart: nat, meta: Meta,
                      w: World, tu: string, list: seq<Stamp>, start: nat)
    requires BakedMeta(meta, files0, table, deps0, bakeStart) && StampsFrom(w0, files0, deps0, bakeStart) && Carried(w0, meta, w, tu, list)
    ensures ListFrom(w, tu, list, start)
  {
    hide Second, CarriedList, Covers, ListFrom, FileFrom, Settled, Marked;
    var r :| 0 <= r < |meta.files| && r < |meta.tuDeps| && meta.files[r].path == tu && list == CarriedList(meta, meta.tuDeps[r]);
    MarkedPath(files0[r], bakeStart);
    assert Covers(table, meta.tuDeps[r], deps0[tu]);
    MarkedList(table, meta, meta.tuDeps[r], deps0[tu], bakeStart);
    CarriedFrom(w0, w, tu, deps0[tu], list, bakeStart, start);
  }

  lemma MarkedPath(s: Stamp, bakeStart: nat)
    ensures Marked(s, bakeStart).path == s.path
  {
  }

  /** A carried stamp is 0, or not newer than the one recorded and from before
      the bake's second. */
  ghost predicate OlderList(was: seq<Stamp>, list: seq<Stamp>, bakeStart: nat) {
    |list| == |was| && forall j :: 0 <= j < |list| ==>
      list[j].path == was[j].path && list[j].mtimeNs <= was[j].mtimeNs && (list[j].mtimeNs == 0 || list[j].mtimeNs < Second(bakeStart))
  }

  lemma MarkedList(table: seq<Stamp>, meta: Meta, ids: seq<nat>, was: seq<Stamp>, bakeStart: nat)
    requires Covers(table, ids, was) && |meta.deps| == |table| && forall k :: 0 <= k < |table| ==> meta.deps[k] == Marked(table[k], bakeStart)
    ensures OlderList(was, CarriedList(meta, ids), bakeStart)
  {
    hide Second, CarriedList;
    if ids == [] {
      NothingCarried(meta);
    } else {
      CarriedAt(meta, ids, 0);
      forall j | 0 <= j < |ids| ensures CarriedList(meta, ids)[j] == meta.deps[ids[j]] {
        CarriedAt(meta, ids, j);
      }
    }
  }

  lemma CarriedFrom(w0: World, w: World, tu: string, was: seq<Stamp>, list: seq<Stamp>, bakeStart: nat, start: nat)
    requires ListFrom(w0, tu, was, bakeStart) && OlderList(was, list, bakeStart)
    requires tu in w.read && w.read[tu] == w0.read[tu] && w.BakeOf(tu) == w0.BakeOf(tu)
    ensures ListFrom(w, tu, list, start)
  {
    hide Second, World.BakeOf;
  }

  lemma NothingCarried(meta: Meta)
    ensures CarriedList(meta, []) == []
  {
  }

  /** However often an index is refreshed, its stamps stay such that clean means
      unchanged. */
  lemma RefreshKeepsStamps(w0: World, files0: seq<Stamp>, deps0: map<string, seq<Stamp>>, table: seq<Stamp>, bakeStart: nat, meta: Meta,
                           w: World, files: seq<Stamp>, deps: map<string, seq<Stamp>>, start: nat)
    requires BakedMeta(meta, files0, table, deps0, bakeStart) && StampsFrom(w0, files0, deps0, bakeStart)
    requires Refreshed(w0, meta, w, files, deps, start)
    ensures StampsFrom(w, files, deps, start)
  {
    hide Second, Covers, ListFrom, CarriedList;
    forall tu | tu in deps ensures ListFrom(w, tu, deps[tu], start) {
      if Carried(w0, meta, w, tu, deps[tu]) {
        CarriedStamps(w0, files0, deps0, table, bakeStart, meta, w, tu, deps[tu], start);
      } else {
        NewStamps(w, tu, deps[tu], start);
      }
    }
    forall i | 0 <= i < |files| && files[i].path in w.own ensures FileFrom(w, files[i], start) {
      if FileCarried(w0, meta, w, files[i]) {
        var r :| 0 <= r < |meta.files| && meta.files[r].path == files[i].path && SameTuVersion(meta.files[r], files[i]);
        assert meta.files[r] == Marked(files0[r], bakeStart) && FileFrom(w0, files0[r], bakeStart);
      }
    }
  }

  lemma NewStamps(w: World, tu: string, list: seq<Stamp>, start: nat)
    requires RecordedAnew(w, tu, list, start)
    ensures ListFrom(w, tu, list, start)
  {
  }

  // ---- Unchanged means clean.

  /** A file a parse read is now as it was then, and was settled before the bake. */
  ghost predicate Untouched(w: World, s: Sight, bakeStart: nat) {
    && s.stamp.path in w.now && w.now[s.stamp.path].stamp == s.stamp
    && 0 < Second(s.stamp.mtimeNs) && s.stamp.mtimeNs < Second(bakeStart)
  }

  /** No parse saw an older version of the file, or another one of its second. */
  ghost predicate SeenAlike(w: World, s: Sight) {
    forall tu, other :: tu in w.read && other in w.read[tu] && other.stamp.path == s.stamp.path ==>
      Second(other.stamp.mtimeNs) > Second(s.stamp.mtimeNs) || (Second(other.stamp.mtimeNs) == Second(s.stamp.mtimeNs) && other.stamp.size == s.stamp.size)
  }

  /** The stamps of a bake of every unit: its own taken before the parse, those of
      the files it opened as the parse saw them. */
  ghost predicate BakeStamps(w: World, files: seq<Stamp>, deps: map<string, seq<Stamp>>, bakeStart: nat) {
    && deps.Keys == w.read.Keys && (forall tu :: tu in deps ==> RecordedAnew(w, tu, deps[tu], bakeStart))
    && (forall i :: 0 <= i < |files| ==> files[i].path in w.own && files[i] == w.own[files[i].path].stamp)
  }

  /** Nothing that unit `tu` was made from has changed since the bake. */
  ghost predicate Unchanged(w: World, tu: string, bakeStart: nat) {
    && tu in w.own && Untouched(w, w.own[tu], bakeStart)
    && (tu in w.read ==> forall s :: s in w.read[tu] ==> Untouched(w, s, bakeStart) && SeenAlike(w, s))
  }

  /** The table entry of a file that all parses saw alike is what they saw. */
  lemma SharedEntry(w: World, files: seq<Stamp>, deps: map<string, seq<Stamp>>, bakeStart: nat, entry: Stamp, s: Sight)
    requires BakeStamps(w, files, deps, bakeStart) && Opened(deps, entry) && SeenAlike(w, s)
    requires entry.path == s.stamp.path && entry.mtimeNs <= Second(s.stamp.mtimeNs)
    ensures entry == WholeSeconds(s.stamp)
  {
    hide Second;
    var u :| u in deps && entry in deps[u];
    var k :| 0 <= k < |deps[u]| && deps[u][k] == entry;
    assert RecordedAnew(w, u, deps[u], bakeStart);
    var other := w.read[u][k];
    assert entry == WholeSeconds(other.stamp) && other in w.read[u];
  }

  lemma UntouchedDep(w: World, files: seq<Stamp>, deps: map<string, seq<Stamp>>, table: seq<Stamp>, bakeStart: nat, meta: Meta, depsNow: seq<Stamp>,
                     tu: string, r: nat, j: nat)
    requires BakedMeta(meta, files, table, deps, bakeStart) && BakeStamps(w, files, deps, bakeStart) && Unchanged(w, tu, bakeStart)
    requires |depsNow| == |meta.deps| && forall k :: 0 <= k < |depsNow| ==> depsNow[k] == w.StampNow(meta.deps[k].path)
    requires r < |files| && files[r].path == tu && j < |meta.tuDeps[r]| && meta.tuDeps[r][j] < |meta.deps|
    ensures SameParsedVersion(meta.deps[meta.tuDeps[r][j]], depsNow[meta.tuDeps[r][j]])
  {
    hide Second, SeenAlike;
    var id := meta.tuDeps[r][j];
    assert Covers(table, meta.tuDeps[r], OpenedBy(deps, tu));
    assert tu in deps && RecordedAnew(w, tu, deps[tu], bakeStart);
    var s := w.read[tu][j];
    assert s in w.read[tu] && deps[tu][j] == WholeSeconds(s.stamp);
    SharedEntry(w, files, deps, bakeStart, table[id], s);
    SecondBelow(s.stamp.mtimeNs);
  }

  lemma SecondBelow(t: nat)
    ensures Second(t) <= t
  {
  }

  /** The converse: what has not changed is clean. */
  lemma UnchangedMeansClean(w: World, files: seq<Stamp>, deps: map<string, seq<Stamp>>, table: seq<Stamp>, bakeStart: nat, meta: Meta,
                            depsNow: seq<Stamp>, tu: string, fingerprint: Option<string>, checked: bool, r: nat)
    requires BakedMeta(meta, files, table, deps, bakeStart) && BakeStamps(w, files, deps, bakeStart) && Unchanged(w, tu, bakeStart)
    requires |depsNow| == |meta.deps| && forall k :: 0 <= k < |depsNow| ==> depsNow[k] == w.StampNow(meta.deps[k].path)
    requires RecordedAt(files, tu, r) && (checked ==> r < |meta.fingerprints| && fingerprint == Some(meta.fingerprints[r]))
    requires meta.outcomes == [] || (r < |meta.outcomes| && meta.outcomes[r] == Indexed)
    ensures Vouches(meta, depsNow, w.StampNow(tu), fingerprint, checked, r)
  {
    hide Second, Covers, SeenAlike, SameParsedVersion, Opened;
    forall k | 0 <= k < |files| ensures meta.files[k].path == files[k].path {
    }
    SecondBelow(files[r].mtimeNs);
    if r < |meta.tuDeps| {
      forall j | 0 <= j < |meta.tuDeps[r]| && meta.tuDeps[r][j] < |meta.deps|
        ensures SameParsedVersion(meta.deps[meta.tuDeps[r][j]], depsNow[meta.tuDeps[r][j]])
      {
        UntouchedDep(w, files, deps, table, bakeStart, meta, depsNow, tu, r, j);
      }
    }
  }

  function NowOf(w: World, stamps: seq<Stamp>): (r: seq<Stamp>)
    ensures |r| == |stamps| && forall i :: 0 <= i < |r| ==> r[i] == w.StampNow(stamps[i].path)
  {
    seq(|stamps|, i requires 0 <= i < |stamps| => w.StampNow(stamps[i].path))
  }

  /** Unit `i`, last listed at `r`, was baked well, under the same inputs, and
      nothing it was made from has changed. */
  ghost predicate WentWell(w: World, files: seq<Stamp>, bakeStart: nat, fingerprints: seq<string>, outcomes: seq<Status>, i: nat, r: nat)
    requires i < |files| == |fingerprints| == |outcomes|
  {
    && RecordedAt(files, files[i].path, r) && Unchanged(w, files[i].path, bakeStart)
    && fingerprints[r] == fingerprints[i] && outcomes[r] == Indexed
  }

  /** Bake every unit, then check at the next start: the units that went well and
      whose files nobody touched are not baked again. */
  method BakeThenCheck(w: World, files: seq<Stamp>, deps: map<string, seq<Stamp>>, bakeStart: nat, fingerprints: seq<string>, outcomes: seq<Status>)
    returns (dirty: seq<bool>)
    requires BakeStamps(w, files, deps, bakeStart) && |fingerprints| == |files| && |outcomes| == |files|
    ensures |dirty| == |files|
    ensures forall i: nat, r: nat :: i < |files| && WentWell(w, files, bakeStart, fingerprints, outcomes, i, r) ==> !dirty[i]
  {
    hide BakedMeta, BakeStamps, Unchanged;
    var meta, table := RecordBake(files, deps, bakeStart, fingerprints, outcomes);
    var depsNow := NowOf(w, meta.deps);
    dirty := DirtyTUs(meta, NowOf(w, files), Some(fingerprints), depsNow);
    forall i: nat, r: nat | i < |files| && WentWell(w, files, bakeStart, fingerprints, outcomes, i, r) ensures !dirty[i] {
      UnchangedMeansClean(w, files, deps, table, bakeStart, meta, depsNow, files[i].path, Some(fingerprints[i]), true, r);
      assert Vouches(meta, depsNow, NowOf(w, files)[i], FingerprintOf(Some(fingerprints), i), true, r);
    }
  }
}
