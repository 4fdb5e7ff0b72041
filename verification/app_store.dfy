/**
 * The renderer's central store (src/stores/appStore.ts): scan lifecycle,
 * the selection of paths to clean, cleanup completion and the bounded
 * session history. Every action is a pure function from the state before
 * to the state after; the store's `get`/`set` plumbing is not modelled.
 */
module AppStore {
  import opened Base
  import Json

  datatype Risk = Low | Medium | High

  /** One cleanable path reported by a scan. */
  datatype FileItem = FileItem(
    path: string,
    sizeBytes: int,
    category: string,
    lastModified: int,
    risk: Risk,
    safeToDelete: bool,
    reason: string)

  /** The measure every total of the client is taken over. */
  function Size(item: FileItem): int {
    item.sizeBytes
  }

  datatype ScanResult = ScanResult(
    totalItems: int,
    totalSizeBytes: int,
    items: seq<FileItem>,
    categories: map<string, int>,
    scanDurationSeconds: real,
    timestamp: string)

  /** What the results page hands to `completeCleanup`. */
  datatype CleanupResult = CleanupResult(success: bool, freedBytes: int)

  /** A session-local history entry; the timestamp is in milliseconds since the epoch. */
  datatype HistoryEntry = HistoryEntry(timestamp: int, itemsCleaned: int, spaceFreed: int)

  /** An open record of preference values, keyed by name. */
  type Preferences = map<string, Json.Value>

  datatype State = State(
    isScanning: bool,
    scanProgress: int,
    scanStatus: string,
    scanResult: Option<ScanResult>,
    selectedItems: seq<string>,
    isCleaningUp: bool,
    cleanupResult: Option<CleanupResult>,
    scanHistory: seq<HistoryEntry>,
    preferences: Preferences)

  /** The store keeps at most this many session history entries. */
  const MaxHistory: nat := 50

  const InitialPreferences: Preferences := map[
    "quickScanByDefault" := Json.Bool(true),
    "autoSelectLowRisk" := Json.Bool(true),
    "confirmBeforeDelete" := Json.Bool(true)]

  /** Reading a preference that may be missing (`prefs[key]` is then `undefined`). */
  function Pref(prefs: Preferences, key: string): (r: Option<Json.Value>)
    ensures r.Some? <==> key in prefs
    ensures r.Some? ==> r.value == prefs[key]
  {
    if key in prefs then Some(prefs[key]) else None
  }

  function Initial(): State {
    State(false, 0, "", None, [], false, None, [], InitialPreferences)
  }

  // ---------------------------------------------------------------------------
  // Path selection helpers

  /** The paths of the items satisfying `keep`, in scan order. */
  function PathsWhere(items: seq<FileItem>, keep: FileItem -> bool): (r: seq<string>)
    ensures |r| <= |items|
    ensures forall p :: p in r <==> exists i :: 0 <= i < |items| && items[i].path == p && keep(items[i])
  {
    if |items| == 0 then []
    else
      var rest := PathsWhere(items[1..], keep);
      assert forall i :: 1 <= i < |items| ==> items[i] == items[1..][i - 1];
      if keep(items[0]) then [items[0].path] + rest else rest
  }

  predicate IsSafe(item: FileItem) {
    item.safeToDelete
  }

  predicate IsSafeLowRisk(item: FileItem) {
    item.safeToDelete && item.risk == Low
  }

  /** The automatic selection policy applied when a scan completes. */
  function AutoSelection(items: seq<FileItem>): seq<string> {
    PathsWhere(items, IsSafeLowRisk)
  }

  /** What "select all" selects: every item the worker marked safe to delete. */
  function SafePaths(items: seq<FileItem>): seq<string> {
    PathsWhere(items, IsSafe)
  }

  /** `sel.filter(p => p !== path)`: every occurrence of `path` removed, order kept. */
  function RemoveAll(sel: seq<string>, path: string): (r: seq<string>)
    ensures path !in r
    ensures forall q :: q != path ==> (q in r <==> q in sel)
    ensures multiset(r) == multiset(sel)[path := 0]
    ensures |r| == |sel| - multiset(sel)[path]
  {
    if |sel| == 0 then []
    else
      var rest := RemoveAll(sel[1..], path);
      assert multiset(sel) == multiset{sel[0]} + multiset(sel[1..]) by {
        assert sel == [sel[0]] + sel[1..];
      }
      if sel[0] == path then rest else [sel[0]] + rest
  }

  /** `items.filter(item => !sel.includes(item.path))`, order kept. */
  function Unselected(items: seq<FileItem>, sel: seq<string>): (r: seq<FileItem>)
    ensures |r| <= |items|
    ensures forall it :: it in r <==> it in items && it.path !in sel
  {
    if |items| == 0 then []
    else
      var rest := Unselected(items[1..], sel);
      assert items == [items[0]] + items[1..];
      if items[0].path in sel then rest else [items[0]] + rest
  }

  /** The selected paths are those of the chosen items, in scan order: filtering distributes over concatenation. */
  lemma {:induction false} PathsWhereConcat(a: seq<FileItem>, b: seq<FileItem>, keep: FileItem -> bool)
    ensures PathsWhere(a + b, keep) == PathsWhere(a, keep) + PathsWhere(b, keep)
  {
    if |a| == 0 {
      assert a + b == b;
    } else {
      assert (a + b)[1..] == a[1..] + b;
      PathsWhereConcat(a[1..], b, keep);
    }
  }

  /** One item contributes its path exactly when it is kept. */
  lemma PathsWhereOne(item: FileItem, keep: FileItem -> bool)
    ensures PathsWhere([item], keep) == if keep(item) then [item.path] else []
  {
    assert [item][1..] == [];
  }

  /** Removing a path from a joined selection removes it from both parts, order kept. */
  lemma {:induction false} RemoveAllConcat(a: seq<string>, b: seq<string>, path: string)
    ensures RemoveAll(a + b, path) == RemoveAll(a, path) + RemoveAll(b, path)
  {
    if |a| == 0 {
      assert a + b == b;
    } else {
      assert (a + b)[1..] == a[1..] + b;
      RemoveAllConcat(a[1..], b, path);
    }
  }

  /** A single path survives exactly when it is not the one removed. */
  lemma RemoveAllOne(q: string, path: string)
    ensures RemoveAll([q], path) == if q == path then [] else [q]
  {
    assert [q][1..] == [];
  }

  /** The surviving items of a joined list are those of each part, order kept. */
  lemma {:induction false} UnselectedConcat(a: seq<FileItem>, b: seq<FileItem>, sel: seq<string>)
    ensures Unselected(a + b, sel) == Unselected(a, sel) + Unselected(b, sel)
  {
    if |a| == 0 {
      assert a + b == b;
    } else {
      assert (a + b)[1..] == a[1..] + b;
      assert (a + b)[0] == a[0];
      UnselectedConcat(a[1..], b, sel);
    }
  }

  /** Each unselected item survives as many times as it was listed; a selected one not at all. */
  lemma {:induction false} UnselectedCounts(items: seq<FileItem>, sel: seq<string>)
    ensures forall it :: multiset(Unselected(items, sel))[it] == if it.path in sel then 0 else multiset(items)[it]
  {
    if |items| > 0 {
      UnselectedCounts(items[1..], sel);
      assert items == [items[0]] + items[1..];
      assert multiset(items) == multiset{items[0]} + multiset(items[1..]);
    }
  }

  /** A single item survives exactly when its path is not selected. */
  lemma UnselectedOne(item: FileItem, sel: seq<string>)
    ensures Unselected([item], sel) == if item.path in sel then [] else [item]
  {
    assert [item][1..] == [];
  }

  // ---------------------------------------------------------------------------
  // Actions

  /** `setPreferences`: a right-biased merge `{...prefs0, ...prefs}`. */
  function SetPreferences(s: State, prefs: Preferences): (r: State)
    ensures r.preferences.Keys == s.preferences.Keys + prefs.Keys
    ensures forall k :: k in prefs ==> r.preferences[k] == prefs[k]
    ensures forall k :: k in s.preferences && k !in prefs ==> r.preferences[k] == s.preferences[k]
    ensures r == s.(preferences := r.preferences)
  {
    s.(preferences := s.preferences + prefs)
  }

  /**
   * `startScan`: the previous scan and cleanup results are discarded; the
   * selection, history and preferences survive.
   */
  function StartScan(s: State): (r: State)
    ensures r.isScanning && r.scanProgress == 0 && r.scanStatus == "Initializing scan..."
    ensures r.scanResult.None? && r.cleanupResult.None?
    ensures r.selectedItems == s.selectedItems && r.scanHistory == s.scanHistory
    ensures r.preferences == s.preferences && r.isCleaningUp == s.isCleaningUp
  {
    s.(isScanning := true, scanProgress := 0, scanStatus := "Initializing scan...",
       scanResult := None, cleanupResult := None)
  }

  /** `updateScanProgress`: only the two progress fields change. */
  function UpdateScanProgress(s: State, progress: int, status: string): (r: State)
    ensures r.scanProgress == progress && r.scanStatus == status
    ensures r.(scanProgress := s.scanProgress, scanStatus := s.scanStatus) == s
  {
    s.(scanProgress := progress, scanStatus := status)
  }

  /**
   * `completeScan`: stores the result and, when the `autoSelectLowRisk`
   * preference is truthy, selects exactly the safe low-risk items' paths
   * in scan order; otherwise the selection becomes empty.
   */
  function CompleteScan(s: State, result: ScanResult): (r: State)
    ensures !r.isScanning && r.scanProgress == 100 && r.scanStatus == "Scan complete"
    ensures r.scanResult == Some(result)
    ensures Json.Truthy(Pref(s.preferences, "autoSelectLowRisk")) ==>
      forall p :: p in r.selectedItems <==>
        exists i :: 0 <= i < |result.items| && result.items[i].path == p
          && result.items[i].safeToDelete && result.items[i].risk == Low
    ensures Json.Truthy(Pref(s.preferences, "autoSelectLowRisk")) ==>
      r.selectedItems == PathsWhere(result.items, IsSafeLowRisk)
    ensures !Json.Truthy(Pref(s.preferences, "autoSelectLowRisk")) ==> r.selectedItems == []
    ensures r.cleanupResult == s.cleanupResult && r.scanHistory == s.scanHistory
    ensures r.preferences == s.preferences && r.isCleaningUp == s.isCleaningUp
  {
    var auto := Json.Truthy(Pref(s.preferences, "autoSelectLowRisk"));
    s.(isScanning := false, scanProgress := 100, scanStatus := "Scan complete",
       scanResult := Some(result),
       selectedItems := if auto then AutoSelection(result.items) else [])
  }

  /** `cancelScan`: neither the scan result nor the selection is touched. */
  function CancelScan(s: State): (r: State)
    ensures !r.isScanning && r.scanProgress == 0 && r.scanStatus == "Scan cancelled"
    ensures r.scanResult == s.scanResult && r.selectedItems == s.selectedItems
    ensures r.(isScanning := s.isScanning, scanProgress := s.scanProgress, scanStatus := s.scanStatus) == s
  {
    s.(isScanning := false, scanProgress := 0, scanStatus := "Scan cancelled")
  }

  /**
   * `toggleItemSelection`: a selected path leaves the selection (every
   * occurrence of it), an unselected one is appended at the end.
   */
  function ToggleItemSelection(s: State, path: string): (r: State)
    ensures path in r.selectedItems <==> path !in s.selectedItems
    ensures forall q :: q != path ==> (q in r.selectedItems <==> q in s.selectedItems)
    ensures path !in s.selectedItems ==> r.selectedItems == s.selectedItems + [path]
    ensures path in s.selectedItems ==> r.selectedItems == RemoveAll(s.selectedItems, path)
    ensures r == s.(selectedItems := r.selectedItems)
  {
    if path in s.selectedItems then s.(selectedItems := RemoveAll(s.selectedItems, path))
    else s.(selectedItems := s.selectedItems + [path])
  }

  /** `selectAllItems`: every safe item's path; nothing happens without a scan result. */
  function SelectAllItems(s: State): (r: State)
    ensures s.scanResult.None? ==> r == s
    ensures s.scanResult.Some? ==>
      forall p :: p in r.selectedItems <==>
        exists i :: 0 <= i < |s.scanResult.value.items| && s.scanResult.value.items[i].path == p
          && s.scanResult.value.items[i].safeToDelete
    ensures s.scanResult.Some? ==> r.selectedItems == PathsWhere(s.scanResult.value.items, IsSafe)
    ensures r == s.(selectedItems := r.selectedItems)
  {
    if s.scanResult.Some? then s.(selectedItems := SafePaths(s.scanResult.value.items)) else s
  }

  /** `deselectAllItems`. */
  function DeselectAllItems(s: State): (r: State)
    ensures r.selectedItems == [] && r == s.(selectedItems := [])
  {
    s.(selectedItems := [])
  }

  /** `startCleanup`. */
  function StartCleanup(s: State): (r: State)
    ensures r.isCleaningUp && r == s.(isCleaningUp := true)
  {
    s.(isCleaningUp := true)
  }

  /** `addToHistory`: newest first, at most `MaxHistory` entries kept. */
  function AddToHistory(s: State, entry: HistoryEntry): (r: State)
    ensures 0 < |r.scanHistory| <= MaxHistory
    ensures r.scanHistory[0] == entry
    ensures |r.scanHistory| == Min(|s.scanHistory| + 1, MaxHistory)
    ensures forall i :: 1 <= i < |r.scanHistory| ==> r.scanHistory[i] == s.scanHistory[i - 1]
    ensures r == s.(scanHistory := r.scanHistory)
  {
    var h := [entry] + s.scanHistory;
    s.(scanHistory := if |h| <= MaxHistory then h else h[..MaxHistory])
  }

  /**
   * `completeCleanup`: the same whatever `success` says — the selection is
   * emptied, the selected paths leave the scan result and its totals are
   * decremented (without any floor); only the history depends on `success`.
   * `now` stands for `new Date()`.
   */
  function CompleteCleanup(s: State, result: CleanupResult, now: int): (r: State)
    ensures r.selectedItems == [] && !r.isCleaningUp && r.cleanupResult == Some(result)
    ensures s.scanResult.None? <==> r.scanResult.None?
    ensures s.scanResult.Some? ==>
      var before := s.scanResult.value;
      var after := r.scanResult.value;
      && after.items == Unselected(before.items, s.selectedItems)
      && (forall it :: it in after.items <==> it in before.items && it.path !in s.selectedItems)
      && after.totalItems == before.totalItems - |s.selectedItems|
      && after.totalSizeBytes == before.totalSizeBytes - result.freedBytes
      && after.categories == before.categories
      && after.timestamp == before.timestamp
      && after.scanDurationSeconds == before.scanDurationSeconds
      && after == before.(items := after.items, totalItems := after.totalItems,
                          totalSizeBytes := after.totalSizeBytes)
    ensures result.success ==>
      |r.scanHistory| > 0 && r.scanHistory[0] == HistoryEntry(now, |s.selectedItems|, result.freedBytes)
      && r.scanHistory[1..] == s.scanHistory[..Min(|s.scanHistory|, MaxHistory - 1)]
    ensures !result.success ==> r.scanHistory == s.scanHistory
    ensures r.isScanning == s.isScanning && r.preferences == s.preferences
    ensures r.scanProgress == s.scanProgress && r.scanStatus == s.scanStatus
  {
    var sr := match s.scanResult
      case None => None
      case Some(res) => Some(res.(
        items := Unselected(res.items, s.selectedItems),
        totalItems := res.totalItems - |s.selectedItems|,
        totalSizeBytes := res.totalSizeBytes - result.freedBytes));
    var cleared := s.(isCleaningUp := false, cleanupResult := Some(result),
                      selectedItems := [], scanResult := sr);
    if result.success then
      var r := AddToHistory(cleared, HistoryEntry(now, |s.selectedItems|, result.freedBytes));
      assert r.scanHistory[1..] == s.scanHistory[..Min(|s.scanHistory|, MaxHistory - 1)];
      r
    else cleared
  }

  /** `reset`: back to the initial state, whatever came before. */
  function Reset(s: State): (r: State)
    ensures r.scanResult.None? && r.selectedItems == [] && r.scanHistory == []
    ensures !r.isScanning && !r.isCleaningUp
    ensures r.cleanupResult.None? && r.scanProgress == 0 && r.scanStatus == ""
    ensures r.preferences == InitialPreferences
  {
    Initial()
  }

  // ---------------------------------------------------------------------------
  // Properties relating several actions

  /**
   * Whatever the automatic policy selects, "select all" would select too:
   * both keep only items marked safe to delete.
   */
  lemma AutoSelectionWithinSelectAll(s: State, result: ScanResult)
    ensures var done := CompleteScan(s, result);
      forall p :: p in done.selectedItems ==> p in SelectAllItems(done).selectedItems
  {
  }

  /** Toggling a path twice restores which paths are selected. */
  lemma ToggleTwiceRestoresMembership(s: State, path: string)
    ensures forall q :: q in ToggleItemSelection(ToggleItemSelection(s, path), path).selectedItems
                    <==> q in s.selectedItems
  {
  }

  /**
   * ... but not the sequence: a path toggled off and on again moves to the
   * end of the selection.
   */
  lemma ToggleTwiceMayReorder()
    ensures var s := Initial().(selectedItems := ["a", "b"]);
      ToggleItemSelection(ToggleItemSelection(s, "a"), "a").selectedItems == ["b", "a"]
  {
    var s := Initial().(selectedItems := ["a", "b"]);
    assert "a" in s.selectedItems;
    assert RemoveAll(["a", "b"], "a") == ["b"] by {
      assert ["a", "b"][1..] == ["b"];
      assert RemoveAll(["b"], "a") == ["b"] by { assert ["b"][1..] == []; }
    }
  }

  /** The scan result and the selection after a cleanup do not depend on `success`. */
  lemma CleanupOutcomeIgnoresSuccess(s: State, freed: int, now: int)
    ensures CompleteCleanup(s, CleanupResult(true, freed), now).scanResult
         == CompleteCleanup(s, CleanupResult(false, freed), now).scanResult
    ensures CompleteCleanup(s, CleanupResult(true, freed), now).selectedItems
         == CompleteCleanup(s, CleanupResult(false, freed), now).selectedItems
  {
  }

  /** The items of the worked example below. */
  function ExampleItems(): seq<FileItem> {
    [FileItem("p1", 100, "temp_files", 0, Low, true, ""),
     FileItem("p2", 200, "temp_files", 0, Low, true, ""),
     FileItem("p3", 300, "temp_files", 0, Low, true, "")]
  }

  /** Of the example's items, only the unselected third one survives. */
  lemma ExampleSurvivors()
    ensures Unselected(ExampleItems(), ["p1", "p2"]) == ExampleItems()[2..]
  {
    var items := ExampleItems();
    var sel := ["p1", "p2"];
    assert items[0].path in sel && items[1].path in sel && items[2].path !in sel;
    UnselectedOne(items[0], sel);
    UnselectedOne(items[1], sel);
    UnselectedOne(items[2], sel);
    UnselectedConcat([items[1]], [items[2]], sel);
    UnselectedConcat([items[0]], items[1..], sel);
    assert items == [items[0]] + ([items[1]] + [items[2]]);
  }

  /**
   * A cleanup of items of 100, 200 and 300 bytes, the first two selected,
   * with 300 bytes reported freed.
   */
  lemma ReconciliationExample(now: int)
    ensures
      var res := ScanResult(3, 600, ExampleItems(), map[], 0.0, "");
      var s := Initial().(scanResult := Some(res), selectedItems := ["p1", "p2"]);
      var r := CompleteCleanup(s, CleanupResult(true, 300), now);
      && r.scanResult.value.items == [FileItem("p3", 300, "temp_files", 0, Low, true, "")]
      && r.scanResult.value.totalItems == 1
      && r.scanResult.value.totalSizeBytes == 300
      && r.selectedItems == []
      && r.scanHistory == [HistoryEntry(now, 2, 300)]
  {
    ExampleSurvivors();
    var res := ScanResult(3, 600, ExampleItems(), map[], 0.0, "");
    var s := Initial().(scanResult := Some(res), selectedItems := ["p1", "p2"]);
    var r := CompleteCleanup(s, CleanupResult(true, 300), now);
    assert |r.scanHistory| == 1 && r.scanHistory[0] == HistoryEntry(now, 2, 300);
  }
}
