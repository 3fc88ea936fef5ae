/** The content-addressed clip cache and its least-recently-used eviction.
    The file system is a map from paths to files; the clock is a parameter. */
module ClipCache {
  import opened Common

  datatype Kind = Tts | MusicBed | Effect

  type Path = string

  /** What a WAV file decodes to; only the length matters to the callers. */
  datatype Clip = Clip(samples: seq<int>, durationMs: nat)

  /** `body` is `None` for a file that cannot be read as audio. */
  datatype File = File(mtime: int, size: nat, body: Option<Clip>)

  type Store = map<Path, File>

  function KindName(kind: Kind): string {
    match kind case Tts => "tts" case MusicBed => "music" case Effect => "sfx"
  }

  function PathOf(kind: Kind, key: string): Path {
    KindName(kind) + ("/" + (key + ".wav"))
  }

  lemma PathsAreInjective(kind: Kind, key: string, kind': Kind, key': string)
    requires PathOf(kind, key) == PathOf(kind', key')
    ensures kind == kind' && key == key'
  {
    var p := PathOf(kind, key);
    assert p[0] == KindName(kind)[0] && p[0] == KindName(kind')[0];
    assert kind == kind';
    CancelFront(KindName(kind), "/" + (key + ".wav"), "/" + (key' + ".wav"));
    CancelFront("/", key + ".wav", key' + ".wav");
    CancelBack(key, key', ".wav");
  }

  // ----------------------------------------------------------------- the eviction order

  datatype Entry = Entry(mtime: int, size: nat, path: Path)

  predicate PathLess(a: Path, b: Path) {
    b != "" && (a == "" || a[0] < b[0] || (a[0] == b[0] && PathLess(a[1..], b[1..])))
  }

  lemma {:induction false} PathOrderIsTotal(a: Path, b: Path)
    ensures a == b || PathLess(a, b) || PathLess(b, a)
    ensures !(PathLess(a, b) && PathLess(b, a)) && (a == b ==> !PathLess(a, b))
  {
    if a != "" && b != "" && a[0] == b[0] {
      PathOrderIsTotal(a[1..], b[1..]);
      assert a == [a[0]] + a[1..] && b == [b[0]] + b[1..];
    }
  }

  lemma {:induction false} PathOrderIsTransitive(a: Path, b: Path, c: Path)
    requires PathLess(a, b) && PathLess(b, c)
    ensures PathLess(a, c)
  {
    if a != "" && a[0] == b[0] == c[0] {
      PathOrderIsTransitive(a[1..], b[1..], c[1..]);
    }
  }

  /** The sort key of `prune`: last use first, then the path. */
  predicate OlderThan(a: Entry, b: Entry) {
    a.mtime < b.mtime || (a.mtime == b.mtime && PathLess(a.path, b.path))
  }

  lemma OlderIsTransitive(a: Entry, b: Entry, c: Entry)
    requires OlderThan(a, b) && OlderThan(b, c)
    ensures OlderThan(a, c)
  {
    if a.mtime == b.mtime == c.mtime {
      PathOrderIsTransitive(a.path, b.path, c.path);
    }
  }

  ghost predicate InLruOrder(es: seq<Entry>) {
    forall i, j | 0 <= i < j < |es| :: OlderThan(es[i], es[j])
  }

  function Insert(e: Entry, es: seq<Entry>): seq<Entry> {
    if es == [] || OlderThan(e, es[0]) then [e] + es else [es[0]] + Insert(e, es[1..])
  }

  /** `sorted(entries, key=...)`. */
  function Sorted(es: seq<Entry>): seq<Entry> {
    if es == [] then [] else Insert(es[0], Sorted(es[1..]))
  }

  ghost predicate DistinctPaths(es: seq<Entry>) {
    forall i, j | 0 <= i < j < |es| :: es[i].path != es[j].path
  }

  lemma {:induction false} InsertMembers(e: Entry, es: seq<Entry>)
    ensures forall x :: x in Insert(e, es) <==> x == e || x in es
  {
    if es != [] && !OlderThan(e, es[0]) {
      InsertMembers(e, es[1..]);
    }
  }

  lemma {:induction false} InsertKeepsOrder(e: Entry, es: seq<Entry>)
    requires InLruOrder(es) && forall x | x in es :: x.path != e.path
    ensures InLruOrder(Insert(e, es))
  {
    if es != [] {
      if OlderThan(e, es[0]) {
        forall j | 0 < j < |es|
          ensures OlderThan(e, es[j])
        {
          OlderIsTransitive(e, es[0], es[j]);
        }
      } else {
        var rest := Insert(e, es[1..]);
        InsertKeepsOrder(e, es[1..]);
        InsertMembers(e, es[1..]);
        PathOrderIsTotal(e.path, es[0].path);
        assert es[0] in es;
        forall j | 0 <= j < |rest|
          ensures OlderThan(es[0], rest[j])
        {
          assert rest[j] in rest;
        }
      }
    }
  }

  lemma {:induction false} SortedIsLruOrder(es: seq<Entry>)
    requires DistinctPaths(es)
    ensures InLruOrder(Sorted(es)) && forall x :: x in Sorted(es) <==> x in es
  {
    if es != [] {
      SortedIsLruOrder(es[1..]);
      InsertMembers(es[0], Sorted(es[1..]));
      forall x | x in es[1..]
        ensures x.path != es[0].path
      {
        var i :| 0 <= i < |es[1..]| && es[1..][i] == x;
        assert es[i + 1] == x;
      }
      InsertKeepsOrder(es[0], Sorted(es[1..]));
    }
  }

  // ----------------------------------------------------------------- sizes

  ghost function TotalSize(files: Store): nat
    decreases |files|
  {
    if files == map[] then 0
    else
      var p :| p in files;
      assert (files - {p}).Keys == files.Keys - {p};
      files[p].size + TotalSize(files - {p})
  }

  lemma {:induction false} TotalWithout(files: Store, p: Path)
    requires p in files
    ensures TotalSize(files) == files[p].size + TotalSize(files - {p})
    decreases |files|
  {
    var q :| q in files && TotalSize(files) == files[q].size + TotalSize(files - {q});
    if q != p {
      assert (files - {q}).Keys == files.Keys - {q};
      TotalWithout(files - {q}, p);
      TotalWithout(files - {p}, q);
      assert files - {q} - {p} == files - {p} - {q};
    }
  }

  function Sum(es: seq<Entry>): nat {
    if es == [] then 0 else Sum(es[..|es| - 1]) + es[|es| - 1].size
  }

  function Paths(es: seq<Entry>): (ps: seq<Path>)
    ensures |ps| == |es| && forall i | 0 <= i < |es| :: ps[i] == es[i].path
  {
    seq(|es|, i requires 0 <= i < |es| => es[i].path)
  }

  /** `es` lists files of the store, each once, as `stat` reports them. */
  ghost predicate Lists(es: seq<Entry>, files: Store) {
    && DistinctPaths(es)
    && forall i | 0 <= i < |es| :: IsEntry(es[i], files)
  }

  ghost predicate IsEntry(e: Entry, files: Store) {
    e.path in files && e.mtime == files[e.path].mtime && e.size == files[e.path].size
  }

  function Without(files: Store, es: seq<Entry>): Store {
    if es == [] then files else Without(files, es[..|es| - 1]) - {es[|es| - 1].path}
  }

  lemma {:induction false} WithoutMembers(files: Store, es: seq<Entry>)
    ensures forall p :: p in Without(files, es) <==> p in files && p !in Paths(es)
    ensures forall p | p in Without(files, es) :: Without(files, es)[p] == files[p]
  {
    if es != [] {
      var front := es[..|es| - 1];
      WithoutMembers(files, front);
      assert Paths(es) == Paths(front) + [es[|es| - 1].path];
    }
  }

  lemma {:induction false} WithoutTotal(files: Store, es: seq<Entry>)
    requires Lists(es, files)
    ensures TotalSize(files) == TotalSize(Without(files, es)) + Sum(es)
  {
    if es != [] {
      var front, last := es[..|es| - 1], es[|es| - 1];
      assert forall i | 0 <= i < |front| :: front[i] == es[i];
      WithoutTotal(files, front);
      WithoutMembers(files, front);
      assert IsEntry(last, files);
      assert last.path !in Paths(front);
      TotalWithout(Without(files, front), last.path);
    }
  }

  // ----------------------------------------------------------------- what prune removes

  predicate Protected(e: Entry, floor: Option<int>) {
    floor.Some? && e.mtime >= floor.value
  }

  /** The entries that may be removed, in order. */
  function Evictable(es: seq<Entry>, floor: Option<int>, stuck: set<Path>): seq<Entry> {
    if es == [] then []
    else
      var e := es[|es| - 1];
      Evictable(es[..|es| - 1], floor, stuck) + if Protected(e, floor) || e.path in stuck then [] else [e]
  }

  lemma {:induction false} EvictableMembers(es: seq<Entry>, floor: Option<int>, stuck: set<Path>)
    ensures forall x ::
      x in Evictable(es, floor, stuck) <==> x in es && !Protected(x, floor) && x.path !in stuck
  {
    if es != [] {
      EvictableMembers(es[..|es| - 1], floor, stuck);
      assert es == es[..|es| - 1] + [es[|es| - 1]];
    }
  }

  lemma {:induction false} EvictableKeepsOrder(es: seq<Entry>, floor: Option<int>, stuck: set<Path>)
    requires InLruOrder(es)
    ensures InLruOrder(Evictable(es, floor, stuck))
  {
    if es != [] {
      var front, last := es[..|es| - 1], es[|es| - 1];
      var kept := Evictable(front, floor, stuck);
      EvictableKeepsOrder(front, floor, stuck);
      EvictableMembers(front, floor, stuck);
      forall i | 0 <= i < |kept|
        ensures OlderThan(kept[i], last)
      {
        assert kept[i] in front;
        var j :| 0 <= j < |front| && front[j] == kept[i];
        assert es[j] == kept[i];
      }
    }
  }

  lemma {:induction false} EvictablePrefix(es: seq<Entry>, n: nat, floor: Option<int>, stuck: set<Path>)
    requires n <= |es|
    ensures Evictable(es[..n], floor, stuck) <= Evictable(es, floor, stuck)
  {
    if n == |es| {
      assert es[..n] == es;
    } else {
      EvictablePrefix(es[..|es| - 1], n, floor, stuck);
      assert es[..|es| - 1][..n] == es[..n];
    }
  }

  lemma LruOrderIsDistinct(es: seq<Entry>)
    requires InLruOrder(es) && forall i, j | 0 <= i < |es| && 0 <= j < |es| && es[i].path == es[j].path :: es[i] == es[j]
    ensures DistinctPaths(es)
  {
    forall i, j | 0 <= i < j < |es|
      ensures es[i].path != es[j].path
    {
      PathOrderIsTotal(es[i].path, es[j].path);
    }
  }

  /** `order` is every file that may be removed, least recently used first. */
  ghost predicate IsEvictionOrder(order: seq<Entry>, files: Store, floor: Option<int>, stuck: set<Path>) {
    && InLruOrder(order) && Lists(order, files)
    && forall p | p in files ::
      (exists i | 0 <= i < |order| :: order[i].path == p)
      <==> !(floor.Some? && files[p].mtime >= floor.value) && p !in stuck
  }

  /** Removing the first `k` of `order` is enough, and nothing less is, or all of it goes. */
  ghost predicate IsShortestPrefix(k: nat, order: seq<Entry>, files: Store, maxBytes: int) {
    && k <= |order|
    && (forall j | 0 <= j < k :: TotalSize(Without(files, order[..j])) > maxBytes)
    && (TotalSize(Without(files, order[..k])) <= maxBytes || k == |order|)
  }

  /** Entry `m` of one order is somewhere in the other. */
  lemma FindInOrder(a: seq<Entry>, b: seq<Entry>, files: Store, floor: Option<int>, stuck: set<Path>, m: nat) returns (i: nat)
    requires IsEvictionOrder(a, files, floor, stuck) && IsEvictionOrder(b, files, floor, stuck)
    requires m < |a|
    ensures i < |b| && b[i] == a[m]
  {
    assert IsEntry(a[m], files);
    i :| i < |b| && b[i].path == a[m].path;
    assert IsEntry(b[i], files);
  }

  lemma OlderIsAsymmetric(a: Entry, b: Entry)
    ensures !(OlderThan(a, b) && OlderThan(b, a))
  {
    PathOrderIsTotal(a.path, b.path);
  }

  lemma OrdersAgreeAt(a: seq<Entry>, b: seq<Entry>, files: Store, floor: Option<int>, stuck: set<Path>, n: nat)
    requires IsEvictionOrder(a, files, floor, stuck) && IsEvictionOrder(b, files, floor, stuck)
    requires n < |a| && n < |b| && a[..n] == b[..n]
    ensures a[n] == b[n]
  {
    var i := FindInOrder(a, b, files, floor, stuck, n);
    var j := FindInOrder(b, a, files, floor, stuck, n);
    OlderIsAsymmetric(a[n], a[n]);
    OlderIsAsymmetric(b[n], b[n]);
    OlderIsAsymmetric(a[n], b[n]);
    assert forall m | 0 <= m < n :: a[..n][m] == a[m] && b[..n][m] == b[m];
    assert i >= n;
    assert j >= n;
  }

  /** There is only one eviction order, so what `prune` removes is determined. */
  lemma {:induction false} EvictionOrderIsUnique(
    a: seq<Entry>, b: seq<Entry>, files: Store, floor: Option<int>, stuck: set<Path>, n: nat)
    requires IsEvictionOrder(a, files, floor, stuck) && IsEvictionOrder(b, files, floor, stuck)
    requires n <= |a| && n <= |b|
    ensures a[..n] == b[..n]
  {
    if n > 0 {
      EvictionOrderIsUnique(a, b, files, floor, stuck, n - 1);
      OrdersAgreeAt(a, b, files, floor, stuck, n - 1);
      assert a[..n] == a[..n - 1] + [a[n - 1]] && b[..n] == b[..n - 1] + [b[n - 1]];
    }
  }

  ghost predicate IsListed(order: seq<Entry>, p: Path) {
    exists i | 0 <= i < |order| :: order[i].path == p
  }

  lemma Survivors(order: seq<Entry>, files: Store, k: nat, p: Path)
    requires k <= |order|
    ensures p in Without(files, order[..k]) <==> p in files && !IsListed(order[..k], p)
  {
    WithoutMembers(files, order[..k]);
    if p in Paths(order[..k]) {
      var i :| 0 <= i < k && Paths(order[..k])[i] == p;
      assert order[..k][i].path == p;
    }
    if IsListed(order[..k], p) {
      var i :| 0 <= i < k && order[..k][i].path == p;
      assert Paths(order[..k])[i] == p;
    }
  }

  /** If the cap is still exceeded, every survivor is protected or could not be removed. */
  lemma OverTheCapOnlyProtectedSurvive(
    k: nat, order: seq<Entry>, files: Store, maxBytes: int, floor: Option<int>, stuck: set<Path>, p: Path)
    requires IsEvictionOrder(order, files, floor, stuck) && IsShortestPrefix(k, order, files, maxBytes)
    requires p in files && p in Without(files, order[..k]) && TotalSize(Without(files, order[..k])) > maxBytes
    ensures (floor.Some? && files[p].mtime >= floor.value) || p in stuck
  {
    Survivors(order, files, k, p);
    assert order[..k] == order;
  }

  /** A file used at or after the floor survives, whatever the cap. */
  lemma UsedSinceFloorSurvives(
    k: nat, order: seq<Entry>, files: Store, floor: Option<int>, stuck: set<Path>, p: Path)
    requires IsEvictionOrder(order, files, floor, stuck) && k <= |order|
    requires p in files && floor.Some? && files[p].mtime >= floor.value
    ensures p in Without(files, order[..k])
  {
    Survivors(order, files, k, p);
    assert forall i | 0 <= i < k :: order[..k][i] == order[i];
  }

  /** Eviction is by last use: once a removable file survives, so does every file used after it. */
  lemma EvictionIsLeastRecentlyUsed(
    k: nat, order: seq<Entry>, files: Store, floor: Option<int>, stuck: set<Path>, p: Path, q: Path)
    requires IsEvictionOrder(order, files, floor, stuck) && k <= |order|
    requires p in Without(files, order[..k]) && IsListed(order, p)
    requires q in files && p in files && files[q].mtime > files[p].mtime
    ensures q in Without(files, order[..k])
  {
    Survivors(order, files, k, p);
    Survivors(order, files, k, q);
    assert forall i | 0 <= i < k :: order[..k][i] == order[i];
    var j :| 0 <= j < |order| && order[j].path == p;
    assert IsEntry(order[j], files);
    forall i | 0 <= i < k
      ensures order[..k][i].path != q
    {
      assert IsEntry(order[i], files) && OlderThan(order[i], order[j]);
    }
  }

  // ----------------------------------------------------------------- the cache

  /** A read marks the file as used now; failing to do so is ignored. */
  function Touched(files: Store, path: Path, now: int, touchable: bool): Store
    requires path in files
  {
    if touchable then files[path := files[path].(mtime := now)] else files
  }

  lemma ListedOnce(es: seq<Entry>, e: Entry, files: Store)
    requires Lists(es, files) && IsEntry(e, files) && forall i | 0 <= i < |es| :: es[i].path != e.path
    ensures Lists(es + [e], files)
  {
  }

  /** What `prune` has done once `gone` is removed. */
  ghost predicate Pruned(gone: seq<Entry>, before: Store, files: Store, total: int, removed: seq<Path>, maxBytes: int) {
    && removed == Paths(gone) && files == Without(before, gone) && total == TotalSize(files)
    && forall j | 0 <= j < |gone| :: TotalSize(Without(before, gone[..j])) > maxBytes
  }

  /** A sorted listing of the whole store. */
  ghost predicate IsFullListing(es: seq<Entry>, files: Store) {
    InLruOrder(es) && Lists(es, files) && forall p | p in files :: IsListed(es, p)
  }

  /** One more entry is looked at. */
  lemma EvictableStep(es: seq<Entry>, n: nat, floor: Option<int>, stuck: set<Path>)
    requires n < |es|
    ensures Evictable(es[..n + 1], floor, stuck) ==
      Evictable(es[..n], floor, stuck) + if Protected(es[n], floor) || es[n].path in stuck then [] else [es[n]]
  {
    assert es[..n + 1][..n] == es[..n];
  }

  lemma EvictableIsListed(es: seq<Entry>, n: nat, before: Store, floor: Option<int>, stuck: set<Path>)
    requires n <= |es| && IsFullListing(es, before)
    ensures Lists(Evictable(es[..n], floor, stuck), before)
    ensures forall x | x in Evictable(es[..n], floor, stuck) :: x in es[..n]
  {
    var gone := Evictable(es[..n], floor, stuck);
    EvictableMembers(es[..n], floor, stuck);
    EvictableKeepsOrder(es[..n], floor, stuck);
    forall i | 0 <= i < |gone|
      ensures IsEntry(gone[i], before)
    {
      assert gone[i] in es[..n];
      var j :| 0 <= j < n && es[j] == gone[i];
    }
    LruOrderIsDistinct(gone);
  }

  lemma RemoveOne(
    gone: seq<Entry>, e: Entry, before: Store, files: Store, total: int, removed: seq<Path>, maxBytes: int)
    requires Lists(gone + [e], before) && Pruned(gone, before, files, total, removed, maxBytes) && total > maxBytes
    ensures Pruned(gone + [e], before, files - {e.path}, total - e.size, removed + [e.path], maxBytes)
  {
    var gone' := gone + [e];
    assert gone'[|gone|] == e && gone'[..|gone|] == gone;
    assert IsEntry(gone'[|gone|], before);
    assert Lists(gone, before) by {
      assert forall i | 0 <= i < |gone| :: gone'[i] == gone[i];
    }
    WithoutTotal(before, gone);
    WithoutTotal(before, gone');
    assert Paths(gone') == Paths(gone) + [e.path];
    forall j | 0 <= j < |gone'|
      ensures TotalSize(Without(before, gone'[..j])) > maxBytes
    {
      if j < |gone| {
        assert gone'[..j] == gone[..j];
      }
    }
  }

  lemma EvictableIsEvictionOrder(es: seq<Entry>, files: Store, floor: Option<int>, stuck: set<Path>)
    requires IsFullListing(es, files)
    ensures IsEvictionOrder(Evictable(es, floor, stuck), files, floor, stuck)
  {
    var order := Evictable(es, floor, stuck);
    assert es[..|es|] == es;
    EvictableIsListed(es, |es|, files, floor, stuck);
    EvictableKeepsOrder(es, floor, stuck);
    EvictableMembers(es, floor, stuck);
    forall p | p in files
      ensures IsListed(order, p) <==> !(floor.Some? && files[p].mtime >= floor.value) && p !in stuck
    {
      assert IsListed(es, p);
      var i :| 0 <= i < |es| && es[i].path == p;
      assert IsEntry(es[i], files);
      if es[i] in order {
        var j :| 0 <= j < |order| && order[j] == es[i];
      }
      if IsListed(order, p) {
        var j :| 0 <= j < |order| && order[j].path == p;
        assert IsEntry(order[j], files) && order[j] in order;
      }
    }
  }

  lemma PruningDone(
    gone: seq<Entry>, order: seq<Entry>, before: Store, files: Store, total: int, removed: seq<Path>, maxBytes: int)
    requires Pruned(gone, before, files, total, removed, maxBytes)
    requires gone <= order && (gone == order || total <= maxBytes)
    ensures IsShortestPrefix(|removed|, order, before, maxBytes)
    ensures removed == Paths(order[..|removed|]) && files == Without(before, order[..|removed|])
  {
    assert gone == order[..|gone|] && |removed| == |gone|;
    forall j | 0 <= j < |removed|
      ensures TotalSize(Without(before, order[..j])) > maxBytes
    {
      assert order[..j] == gone[..j];
    }
  }

  class ClipCache {
    var files: Store

    constructor ()
      ensures files == map[]
    {
      files := map[];
    }

    /** Whether the clip is cached; a hit counts as a use. */
    method Has(kind: Kind, key: string, now: int, touchable: bool) returns (hit: bool)
      modifies this
      ensures hit == (PathOf(kind, key) in old(files))
      ensures files == if hit then Touched(old(files), PathOf(kind, key), now, touchable) else old(files)
    {
      var path := PathOf(kind, key);
      if path !in files {
        return false;
      }
      files := Touched(files, path, now, touchable);
      hit := true;
    }

    /** The cached clip; an unreadable file is dropped. */
    method Get(kind: Kind, key: string, now: int, touchable: bool) returns (clip: Option<Clip>)
      modifies this
      ensures
        var path := PathOf(kind, key);
        && (clip.Some? <==> path in old(files) && old(files)[path].body.Some?)
        && (clip.Some? ==> old(files)[path].body == clip && files == Touched(old(files), path, now, touchable))
        && (clip.None? ==> files == old(files) - {path})
    {
      var path := PathOf(kind, key);
      if path !in files {
        assert files - {path} == files;
        return None;
      }
      clip := files[path].body;
      if clip.None? {
        files := files - {path};
        return;
      }
      files := Touched(files, path, now, touchable);
    }

    method Put(kind: Kind, key: string, clip: Clip, now: int, size: nat)
      modifies this
      ensures files == old(files)[PathOf(kind, key) := File(now, size, Some(clip))]
    {
      files := files[PathOf(kind, key) := File(now, size, Some(clip))];
    }

    /** Every file with its `stat`, in whatever order the directory walk gives. */
    method Listing() returns (es: seq<Entry>, total: nat)
      ensures Lists(es, files) && forall p | p in files :: IsListed(es, p)
      ensures total == TotalSize(files)
    {
      es, total := [], 0;
      var rest := files;
      while rest != map[]
        invariant rest.Keys <= files.Keys && forall p | p in rest :: rest[p] == files[p]
        invariant Lists(es, files)
        invariant forall p | p in files :: p in rest <==> !IsListed(es, p)
        invariant total + TotalSize(rest) == TotalSize(files)
        decreases |rest|
      {
        var p :| p in rest;
        var e := Entry(files[p].mtime, files[p].size, p);
        TotalWithout(rest, p);
        ListedOnce(es, e, files);
        forall q | q in files
          ensures IsListed(es + [e], q) <==> IsListed(es, q) || q == p
        {
          if IsListed(es, q) {
            var i :| 0 <= i < |es| && es[i].path == q;
            assert (es + [e])[i].path == q;
          }
          assert (es + [e])[|es|] == e;
        }
        assert (rest - {p}).Keys == rest.Keys - {p};
        es, total, rest := es + [e], total + e.size, rest - {p};
      }
    }

    /** Removes least-recently-used files until the cache fits `maxBytes` (0 or less: no bound), sparing files used
        at or after `floor`; removing a path of `stuck` fails. */
    method Prune(maxBytes: int, floor: Option<int>, stuck: set<Path>) returns (removed: seq<Path>, ghost order: seq<Entry>)
      modifies this
      ensures maxBytes <= 0 ==> removed == [] && files == old(files)
      ensures maxBytes > 0 ==>
        && IsEvictionOrder(order, old(files), floor, stuck)
        && IsShortestPrefix(|removed|, order, old(files), maxBytes)
        && removed == Paths(order[..|removed|]) && files == Without(old(files), order[..|removed|])
    {
      removed, order := [], [];
      if maxBytes <= 0 {
        return;
      }
      var listing, total := Listing();
      SortedIsFullListing(listing, files);
      order := Evictable(Sorted(listing), floor, stuck);
      removed := RemoveOldest(Sorted(listing), total, maxBytes, floor, stuck);
    }

    /** The loop of `prune`. */
    method RemoveOldest(es: seq<Entry>, size: nat, maxBytes: int, floor: Option<int>, stuck: set<Path>)
      returns (removed: seq<Path>)
      requires IsFullListing(es, files) && size == TotalSize(files)
      modifies this
      ensures
        var order := Evictable(es, floor, stuck);
        && IsEvictionOrder(order, old(files), floor, stuck)
        && IsShortestPrefix(|removed|, order, old(files), maxBytes)
        && removed == Paths(order[..|removed|]) && files == Without(old(files), order[..|removed|])
    {
      removed := [];
      var total: int := size;
      ghost var gone := [];
      var n := 0;
      PruneStarts(es, files, total, maxBytes, floor, stuck);
      while n < |es| && total > maxBytes
        invariant n <= |es| && Looked(n, gone, es, old(files), files, total, removed, maxBytes, floor, stuck)
      {
        var e := es[n];
        LookAtNext(n, gone, es, old(files), files, total, removed, maxBytes, floor, stuck);
        if !(Protected(e, floor) || e.path in stuck) {
          files := files - {e.path};
          total := total - e.size;
          removed := removed + [e.path];
          gone := gone + [e];
        }
        n := n + 1;
      }
      PruneEnds(n, gone, es, old(files), files, total, removed, maxBytes, floor, stuck);
    }
  }

  /** The state of the loop of `prune` after `n` entries. */
  ghost predicate Looked(
    n: nat, gone: seq<Entry>, es: seq<Entry>, before: Store, files: Store, total: int, removed: seq<Path>, maxBytes: int,
    floor: Option<int>, stuck: set<Path>)
    requires n <= |es|
  {
    gone == Evictable(es[..n], floor, stuck) && Pruned(gone, before, files, total, removed, maxBytes)
  }

  lemma PruneStarts(es: seq<Entry>, files: Store, total: int, maxBytes: int, floor: Option<int>, stuck: set<Path>)
    requires total == TotalSize(files)
    ensures Looked(0, [], es, files, files, total, [], maxBytes, floor, stuck)
  {
    assert es[..0] == [];
  }

  /** A protected or stuck entry is passed over, any other one goes. */
  lemma LookAtNext(
    n: nat, gone: seq<Entry>, es: seq<Entry>, before: Store, files: Store, total: int, removed: seq<Path>, maxBytes: int,
    floor: Option<int>, stuck: set<Path>)
    requires n < |es| && IsFullListing(es, before) && total > maxBytes
    requires Looked(n, gone, es, before, files, total, removed, maxBytes, floor, stuck)
    ensures
      if Protected(es[n], floor) || es[n].path in stuck
      then Looked(n + 1, gone, es, before, files, total, removed, maxBytes, floor, stuck)
      else Looked(
        n + 1, gone + [es[n]], es, before, files - {es[n].path}, total - es[n].size, removed + [es[n].path], maxBytes, floor,
        stuck)
  {
    EvictableStep(es, n, floor, stuck);
    if Protected(es[n], floor) || es[n].path in stuck {
      AppendNothing(gone);
    } else {
      EvictableIsListed(es, n + 1, before, floor, stuck);
      RemoveOne(gone, es[n], before, files, total, removed, maxBytes);
    }
  }

  lemma PruneEnds(
    n: nat, gone: seq<Entry>, es: seq<Entry>, before: Store, files: Store, total: int, removed: seq<Path>, maxBytes: int,
    floor: Option<int>, stuck: set<Path>)
    requires IsFullListing(es, before) && n <= |es| && (n == |es| || total <= maxBytes)
    requires Looked(n, gone, es, before, files, total, removed, maxBytes, floor, stuck)
    ensures
      var order := Evictable(es, floor, stuck);
      && IsEvictionOrder(order, before, floor, stuck)
      && IsShortestPrefix(|removed|, order, before, maxBytes)
      && removed == Paths(order[..|removed|]) && files == Without(before, order[..|removed|])
  {
    assert es[..|es|] == es;
    EvictablePrefix(es, n, floor, stuck);
    EvictableIsEvictionOrder(es, before, floor, stuck);
    PruningDone(gone, Evictable(es, floor, stuck), before, files, total, removed, maxBytes);
  }

  lemma SortedIsFullListing(listing: seq<Entry>, files: Store)
    requires Lists(listing, files) && forall p | p in files :: IsListed(listing, p)
    ensures IsFullListing(Sorted(listing), files)
  {
    var es := Sorted(listing);
    SortedIsLruOrder(listing);
    forall i | 0 <= i < |es|
      ensures IsEntry(es[i], files)
    {
      assert es[i] in listing;
    }
    LruOrderIsDistinct(es);
    forall p | p in files
      ensures IsListed(es, p)
    {
      var i :| 0 <= i < |listing| && listing[i].path == p;
      assert listing[i] in es;
    }
  }
}
