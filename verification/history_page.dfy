/**
 * The history page (src/pages/HistoryPage.tsx): loading persisted history and
 * statistics with a fallback for each fetch, merging the session's cleanups
 * with the persisted ones newest first, and the header totals. Timestamps are
 * milliseconds since the epoch, as `Date.getTime` would give them.
 */
module HistoryPage {
  import opened Base
  import Sums
  import Sorting
  import AppStore

  /** One row of the cleanup list. */
  datatype CleanupEntry = CleanupEntry(id: int, timestamp: int, itemsDeleted: int, bytesFreed: int)

  /** A persisted scan; the page lists these as they come. */
  datatype ScanEntry = ScanEntry(id: int, timestamp: int, scanType: string, totalItems: int, totalSizeBytes: int, status: string)

  datatype HistoryData = HistoryData(scans: seq<ScanEntry>, cleanups: seq<CleanupEntry>)

  datatype Stats = Stats(totalScans: int, totalCleanups: int, totalBytesFreed: int, totalItemsCleaned: int)

  const EmptyHistory := HistoryData([], [])
  const ZeroStats := Stats(0, 0, 0, 0)

  /** The page's loaded data and its spinner flag. */
  datatype PageData = PageData(history: HistoryData, stats: Stats, loading: bool)

  const InitialPage := PageData(EmptyHistory, ZeroStats, true)

  // ---------------------------------------------------------------------------
  // loadHistory

  /**
   * `loadHistory`: without the worker bridge only the spinner stops; with it
   * each fetch that rejects is replaced by its own fallback, and the results
   * are stored only if the page is still mounted.
   */
  function LoadHistory(p: PageData, hasApi: bool, mounted: bool,
                       history: Result<HistoryData, string>, stats: Result<Stats, string>): (r: PageData)
    ensures !hasApi ==> r == p.(loading := false)
    ensures hasApi && !mounted ==> r == p.(loading := true)
    ensures hasApi && mounted ==> !r.loading
    ensures hasApi && mounted ==> (history.Ok? ==> r.history == history.value) && (history.Err? ==> r.history == EmptyHistory)
    ensures hasApi && mounted ==> (stats.Ok? ==> r.stats == stats.value) && (stats.Err? ==> r.stats == ZeroStats)
  {
    if !hasApi then p.(loading := false)
    else
      var h := match history case Ok(v) => v case Err(_) => EmptyHistory;
      var st := match stats case Ok(v) => v case Err(_) => ZeroStats;
      if mounted then PageData(h, st, false) else p.(loading := true)
  }

  /** A failed stats fetch does not cost the history, and the other way round. */
  lemma FallbacksAreIndependent(p: PageData, h: Result<HistoryData, string>, s1: Result<Stats, string>,
                                s2: Result<Stats, string>, h2: Result<HistoryData, string>)
    ensures LoadHistory(p, true, true, h, s1).history == LoadHistory(p, true, true, h, s2).history
    ensures LoadHistory(p, true, true, h, s1).stats == LoadHistory(p, true, true, h2, s1).stats
  {
  }

  // ---------------------------------------------------------------------------
  // The merged cleanup list

  /** The session's history entries as list rows: entry `i` gets the id `-i-1`. */
  function SessionRows(h: seq<AppStore.HistoryEntry>): (r: seq<CleanupEntry>)
    ensures |r| == |h|
    ensures forall i :: 0 <= i < |r| ==> r[i].id == -i - 1 && r[i].timestamp == h[i].timestamp
    ensures forall i :: 0 <= i < |r| ==> r[i].itemsDeleted == h[i].itemsCleaned && r[i].bytesFreed == h[i].spaceFreed
  {
    seq(|h|, i requires 0 <= i < |h| => CleanupEntry(-i - 1, h[i].timestamp, h[i].itemsCleaned, h[i].spaceFreed))
  }

  /** Session rows carry negative, pairwise distinct ids. */
  lemma SessionIdsNegativeAndDistinct(h: seq<AppStore.HistoryEntry>)
    ensures forall i :: 0 <= i < |SessionRows(h)| ==> SessionRows(h)[i].id < 0
    ensures forall i, j :: 0 <= i < j < |SessionRows(h)| ==> SessionRows(h)[i].id != SessionRows(h)[j].id
  {
  }

  function Timestamp(e: CleanupEntry): int {
    e.timestamp
  }

  function BytesFreed(e: CleanupEntry): int {
    e.bytesFreed
  }

  function ItemsDeleted(e: CleanupEntry): int {
    e.itemsDeleted
  }

  /**
   * `allCleanups`: the session rows followed by the persisted cleanups,
   * sorted newest first by a stable sort (entries with equal timestamps keep
   * their order).
   */
  function AllCleanups(h: seq<AppStore.HistoryEntry>, persisted: seq<CleanupEntry>): (r: seq<CleanupEntry>)
    ensures |r| == |h| + |persisted|
    ensures multiset(r) == multiset(SessionRows(h) + persisted)
    ensures Sorting.NonIncreasing(r, Timestamp)
  {
    Sorting.SortByKeyDesc(SessionRows(h) + persisted, Timestamp)
  }

  /** A session cleanup newer than every other row is listed first. */
  lemma NewestSessionCleanupFirst(h: seq<AppStore.HistoryEntry>, persisted: seq<CleanupEntry>, k: nat)
    requires k < |h|
    requires forall i :: 0 <= i < |h| && i != k ==> h[i].timestamp < h[k].timestamp
    requires forall j :: 0 <= j < |persisted| ==> persisted[j].timestamp < h[k].timestamp
    ensures AllCleanups(h, persisted)[0] == SessionRows(h)[k]
  {
    var rows := SessionRows(h);
    var all := rows + persisted;
    var x := rows[k];
    assert all[k] == x;
    forall j | 0 <= j < |all| && all[j] != x
      ensures Timestamp(all[j]) < Timestamp(x)
    {
      if j < |rows| {
        assert j != k;
      } else {
        assert all[j] == persisted[j - |rows|];
      }
    }
    Sorting.StrictMaximumFirst(all, Timestamp, x);
  }

  /** Rows with the same timestamp keep their relative order: session rows before persisted ones. */
  lemma TiesKeepSourceOrder(h: seq<AppStore.HistoryEntry>, persisted: seq<CleanupEntry>, t: int)
    ensures Sorting.WithKey(AllCleanups(h, persisted), Timestamp, t)
      == Sorting.WithKey(SessionRows(h) + persisted, Timestamp, t)
  {
    Sorting.SortIsStable(SessionRows(h) + persisted, Timestamp, t);
  }

  // ---------------------------------------------------------------------------
  // Totals

  function SpaceFreed(e: AppStore.HistoryEntry): int {
    e.spaceFreed
  }

  function ItemsCleaned(e: AppStore.HistoryEntry): int {
    e.itemsCleaned
  }

  /** The header totals: the persisted statistics plus the session's own sums. */
  datatype Totals = Totals(totalCleaned: int, totalItems: int)

  function HeaderTotals(stats: Stats, h: seq<AppStore.HistoryEntry>): (r: Totals)
    ensures r.totalCleaned - stats.totalBytesFreed == Sums.SumOf(h, SpaceFreed)
    ensures r.totalItems - stats.totalItemsCleaned == Sums.SumOf(h, ItemsCleaned)
  {
    Totals(stats.totalBytesFreed + Sums.SumOf(h, SpaceFreed),
           stats.totalItemsCleaned + Sums.SumOf(h, ItemsCleaned))
  }

  /** Converting the session entries to rows keeps their freed bytes and item counts. */
  lemma {:induction false} SessionRowSums(h: seq<AppStore.HistoryEntry>)
    ensures Sums.SumOf(SessionRows(h), BytesFreed) == Sums.SumOf(h, SpaceFreed)
    ensures Sums.SumOf(SessionRows(h), ItemsDeleted) == Sums.SumOf(h, ItemsCleaned)
    decreases |h|
  {
    if |h| > 0 {
      var init := h[..|h| - 1];
      SessionRowSums(init);
      assert SessionRows(h)[..|h| - 1] == SessionRows(init);
    }
  }

  /**
   * When the statistics agree with the persisted cleanups, the header totals
   * are exactly the sums over the rows the page lists.
   */
  lemma HeaderMatchesListedRows(stats: Stats, h: seq<AppStore.HistoryEntry>, persisted: seq<CleanupEntry>)
    requires stats.totalBytesFreed == Sums.SumOf(persisted, BytesFreed)
    requires stats.totalItemsCleaned == Sums.SumOf(persisted, ItemsDeleted)
    ensures HeaderTotals(stats, h).totalCleaned == Sums.SumOf(AllCleanups(h, persisted), BytesFreed)
    ensures HeaderTotals(stats, h).totalItems == Sums.SumOf(AllCleanups(h, persisted), ItemsDeleted)
  {
    var merged := SessionRows(h) + persisted;
    Sums.SumOfPermutation(merged, AllCleanups(h, persisted), BytesFreed);
    Sums.SumOfPermutation(merged, AllCleanups(h, persisted), ItemsDeleted);
    Sums.SumOfConcat(SessionRows(h), persisted, BytesFreed);
    Sums.SumOfConcat(SessionRows(h), persisted, ItemsDeleted);
    SessionRowSums(h);
  }

  /**
   * The page adds the session's cleanups to statistics that may already
   * hold them: a cleanup that the worker also persisted is counted twice.
   */
  lemma PersistedSessionCleanupCountedTwice(e: AppStore.HistoryEntry, id: int)
    ensures var persisted := [CleanupEntry(id, e.timestamp, e.itemsCleaned, e.spaceFreed)];
      var stats := Stats(1, 1, e.spaceFreed, e.itemsCleaned);
      HeaderTotals(stats, [e]) == Totals(2 * e.spaceFreed, 2 * e.itemsCleaned)
      && |AllCleanups([e], persisted)| == 2
  {
    assert [e][..0] == [];
    assert Sums.SumOf([e], SpaceFreed) == e.spaceFreed;
    assert Sums.SumOf([e], ItemsCleaned) == e.itemsCleaned;
  }
}
