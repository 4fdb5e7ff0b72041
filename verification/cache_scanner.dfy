/**
 * The aggregation part of the worker's cache scan
 * (python/cleaners/cache_scanner.py): which candidate paths become items,
 * the size ordering, and the totals and per-category sums. The per-platform
 * whitelist and scan-path tables are inputs (they are built from the user's
 * home directory and environment), as are the file system and the
 * environment-variable expansion; modification times are whole seconds.
 */
module CacheScanner {
  import opened Base
  import Text
  import Tally
  import Sorting
  import Sums
  import AppStore

  /** One entry of the scan-path table: where to look and how to label what is found. */
  datatype ScanConfig = ScanConfig(paths: seq<string>, category: string, risk: AppStore.Risk, reason: string)

  /**
   * One expanded candidate path as the file system shows it. `None` marks a
   * size or modification-time read that raises; a directory's size read
   * never raises (the size helper swallows every error).
   */
  datatype ScanProbe =
    | Absent
    | Directory(dirSize: nat, dirMtime: Option<int>)
    | RegularFile(locked: bool, fileSize: Option<nat>, fileMtime: Option<int>)
    | OtherKind

  /** What the scan returns, without its duration and timestamp. */
  datatype ScanSummary = ScanSummary(
    totalItems: nat,
    totalSizeBytes: int,
    items: seq<AppStore.FileItem>,
    categories: Tally.Counter)

  /** `_is_path_protected`: a case-insensitive, one-directional prefix test. */
  function IsProtected(path: string, whitelist: seq<string>): (r: bool)
    ensures r <==> exists i :: 0 <= i < |whitelist| && Text.Lower(whitelist[i]) <= Text.Lower(path)
  {
    if |whitelist| == 0 then false
    else
      assert forall i :: 1 <= i < |whitelist| ==> whitelist[i] == whitelist[1..][i - 1];
      Text.Lower(whitelist[0]) <= Text.Lower(path) || IsProtected(path, whitelist[1..])
  }

  /** The item one candidate yields, if any. */
  function ItemFor(path: string, cfg: ScanConfig, whitelist: seq<string>, probe: ScanProbe): (r: Option<AppStore.FileItem>)
    ensures r.Some? ==> !IsProtected(path, whitelist) && !probe.Absent? && !probe.OtherKind?
    ensures r.Some? ==> (r.value.path == path && r.value.sizeBytes > 0 && r.value.safeToDelete
      && r.value.category == cfg.category && r.value.risk == cfg.risk && r.value.reason == cfg.reason)
    ensures probe.RegularFile? && probe.locked ==> r.None?
    ensures r.None? <==>
      probe.Absent? || probe.OtherKind? || IsProtected(path, whitelist)
      || (probe.Directory? && (probe.dirSize == 0 || probe.dirMtime.None?))
      || (probe.RegularFile? && (probe.locked || probe.fileSize.None? || probe.fileSize == Some(0) || probe.fileMtime.None?))
  {
    if probe.Absent? || IsProtected(path, whitelist) then None
    else match probe
      case Directory(size, mtime) =>
        if size > 0 && mtime.Some? then
          Some(AppStore.FileItem(path, size, cfg.category, mtime.value, cfg.risk, true, cfg.reason))
        else None
      case RegularFile(locked, size, mtime) =>
        if !locked && size.Some? && size.value > 0 && mtime.Some? then
          Some(AppStore.FileItem(path, size.value, cfg.category, mtime.value, cfg.risk, true, cfg.reason))
        else None
      case _ => None
  }

  /** Every (expanded path, config) pair, in table order. */
  function Candidates(configs: seq<ScanConfig>, expand: string -> string): (r: seq<(string, ScanConfig)>)
  {
    if |configs| == 0 then []
    else
      var cfg := configs[|configs| - 1];
      Candidates(configs[..|configs| - 1], expand)
        + seq(|cfg.paths|, i requires 0 <= i < |cfg.paths| => (expand(cfg.paths[i]), cfg))
  }

  /** The size of the items of one category. */
  function CategorySize(c: string): AppStore.FileItem -> int {
    (item: AppStore.FileItem) => if item.category == c then item.sizeBytes else 0
  }

  /** The item one candidate yields, if any. */
  function Yield(cand: (string, ScanConfig), whitelist: seq<string>, probe: string -> ScanProbe)
    : Option<AppStore.FileItem>
  {
    ItemFor(cand.0, cand.1, whitelist, probe(cand.0))
  }

  /** The items the candidates yield, in visiting order. */
  function Collect(cands: seq<(string, ScanConfig)>, whitelist: seq<string>, probe: string -> ScanProbe)
    : (r: seq<AppStore.FileItem>)
    ensures |r| <= |cands|
    ensures forall i :: 0 <= i < |r| ==> exists k :: 0 <= k < |cands| && Yield(cands[k], whitelist, probe) == Some(r[i])
    ensures forall k :: 0 <= k < |cands| && Yield(cands[k], whitelist, probe).Some? ==>
      Yield(cands[k], whitelist, probe).value in r
  {
    if |cands| == 0 then []
    else
      var init := cands[..|cands| - 1];
      var items := Collect(init, whitelist, probe);
      assert forall k :: 0 <= k < |init| ==> init[k] == cands[k];
      match Yield(cands[|cands| - 1], whitelist, probe)
      case None => items
      case Some(item) =>
        assert forall i :: 0 <= i < |items| ==> (items + [item])[i] == items[i];
        items + [item]
  }

  /** Visiting two runs of candidates one after the other yields their items one after the other. */
  lemma {:induction false} CollectConcat(a: seq<(string, ScanConfig)>, b: seq<(string, ScanConfig)>,
                                         whitelist: seq<string>, probe: string -> ScanProbe)
    ensures Collect(a + b, whitelist, probe) == Collect(a, whitelist, probe) + Collect(b, whitelist, probe)
    decreases |b|
  {
    if |b| == 0 {
      assert a + b == a;
    } else {
      var b' := b[..|b| - 1];
      assert (a + b)[..|a + b| - 1] == a + b';
      assert (a + b)[|a + b| - 1] == b[|b| - 1];
      CollectConcat(a, b', whitelist, probe);
    }
  }

  /** A single candidate yields exactly its own item, or nothing. */
  lemma CollectOne(cand: (string, ScanConfig), whitelist: seq<string>, probe: string -> ScanProbe)
    ensures Collect([cand], whitelist, probe) == match Yield(cand, whitelist, probe)
      case Some(item) => [item]
      case None => []
  {
    assert [cand][..0] == [];
  }

  /**
   * The category dictionary `categories[cat] = categories.get(cat, 0) + size`
   * built over the items in the order they were found.
   */
  function CategoryTotals(items: seq<AppStore.FileItem>): (r: Tally.Counter)
    ensures Tally.Total(r) == Sums.SumOf(items, AppStore.Size)
    ensures forall c :: Tally.Get(r, c) == Sums.SumOf(items, CategorySize(c))
    ensures forall c :: c in Tally.Keys(r) <==> exists i :: 0 <= i < |items| && items[i].category == c
    ensures Tally.DistinctKeys(r)
  {
    if |items| == 0 then []
    else
      var init := items[..|items| - 1];
      var item := items[|items| - 1];
      var prev := CategoryTotals(init);
      assert items == init + [item];
      AddCategory(init, item, prev);
      Tally.Add(prev, item.category, item.sizeBytes)
  }

  /** One step of `CategoryTotals`: the last item's size added to the totals of the items before it. */
  lemma AddCategory(init: seq<AppStore.FileItem>, item: AppStore.FileItem, prev: Tally.Counter)
    requires Tally.Total(prev) == Sums.SumOf(init, AppStore.Size)
    requires forall c :: Tally.Get(prev, c) == Sums.SumOf(init, CategorySize(c))
    requires forall c :: c in Tally.Keys(prev) <==> exists i :: 0 <= i < |init| && init[i].category == c
    requires Tally.DistinctKeys(prev)
    ensures var r := Tally.Add(prev, item.category, item.sizeBytes);
      var items := init + [item];
      && Tally.Total(r) == Sums.SumOf(items, AppStore.Size)
      && (forall c :: Tally.Get(r, c) == Sums.SumOf(items, CategorySize(c)))
      && (forall c :: c in Tally.Keys(r) <==> exists i :: 0 <= i < |items| && items[i].category == c)
      && Tally.DistinctKeys(r)
  {
    var items := init + [item];
    assert items[..|items| - 1] == init;
    var r := Tally.Add(prev, item.category, item.sizeBytes);
    forall c
      ensures c in Tally.Keys(r) <==> exists i :: 0 <= i < |items| && items[i].category == c
    {
      if c == item.category {
        assert items[|init|] == item;
      }
      if c in Tally.Keys(prev) {
        var i :| 0 <= i < |init| && init[i].category == c;
        assert items[i].category == c;
      }
      if exists i :: 0 <= i < |items| && items[i].category == c {
        var i :| 0 <= i < |items| && items[i].category == c;
        if i < |init| {
          assert init[i].category == c;
        }
      }
    }
  }

  /**
   * `CacheScanner.scan`, aggregation only: the collected items sorted by
   * size, largest first (a stable sort), with their count, total size and
   * per-category sums.
   */
  function Scan(configs: seq<ScanConfig>, whitelist: seq<string>, expand: string -> string,
                probe: string -> ScanProbe): (r: ScanSummary)
    ensures r.totalItems == |r.items|
    ensures r.totalSizeBytes == Sums.SumOf(r.items, AppStore.Size)
    ensures Sorting.NonIncreasing(r.items, AppStore.Size)
    ensures multiset(r.items) == multiset(Collect(Candidates(configs, expand), whitelist, probe))
    ensures forall i :: 0 <= i < |r.items| ==> r.items[i].safeToDelete && r.items[i].sizeBytes > 0
    ensures Tally.Total(r.categories) == r.totalSizeBytes
    ensures forall c :: Tally.Get(r.categories, c) == Sums.SumOf(r.items, CategorySize(c))
    ensures Tally.DistinctKeys(r.categories)
  {
    var cands := Candidates(configs, expand);
    var collected := Collect(cands, whitelist, probe);
    var cats := CategoryTotals(collected);
    var items := Sorting.SortByKeyDesc(collected, AppStore.Size);
    Sums.SumOfPermutation(collected, items, AppStore.Size);
    forall c
      ensures Tally.Get(cats, c) == Sums.SumOf(items, CategorySize(c))
    {
      Sums.SumOfPermutation(collected, items, CategorySize(c));
    }
    ReorderKeepsReportable(collected, items);
    ScanSummary(|items|, Sums.SumOf(items, AppStore.Size), items, cats)
  }

  /** Every item of a reordering of safe, non-empty items is safe and non-empty. */
  lemma ReorderKeepsReportable(a: seq<AppStore.FileItem>, b: seq<AppStore.FileItem>)
    requires multiset(a) == multiset(b)
    requires forall i :: 0 <= i < |a| ==> a[i].safeToDelete && a[i].sizeBytes > 0
    ensures forall i :: 0 <= i < |b| ==> b[i].safeToDelete && b[i].sizeBytes > 0
  {
    forall i | 0 <= i < |b|
      ensures b[i].safeToDelete && b[i].sizeBytes > 0
    {
      assert b[i] in multiset(a);
      var k :| 0 <= k < |a| && a[k] == b[i];
    }
  }

  /** Ties in size keep their visiting order: the scan's sort is stable. */
  lemma EqualSizesKeepScanOrder(configs: seq<ScanConfig>, whitelist: seq<string>, expand: string -> string,
                                probe: string -> ScanProbe, size: int)
    ensures var collected := Collect(Candidates(configs, expand), whitelist, probe);
      Sorting.WithKey(Scan(configs, whitelist, expand, probe).items, AppStore.Size, size)
        == Sorting.WithKey(collected, AppStore.Size, size)
  {
    var collected := Collect(Candidates(configs, expand), whitelist, probe);
    Sorting.SortIsStable(collected, AppStore.Size, size);
  }
}
