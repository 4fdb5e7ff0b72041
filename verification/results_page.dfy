/**
 * The results page's cleanup driver (src/pages/ResultsPage.tsx): the size of
 * the selection, the clean button and its confirmation gate, the checkbox
 * rule, the risk warning, and `handleCleanup`, which reports to the store a
 * freed size summed locally rather than the worker's figure. The page state
 * it reads is the application store's (module AppStore).
 */
module ResultsPage {
  import opened Base
  import Json
  import Sums
  import AppStore

  // ---------------------------------------------------------------------------
  // The selection

  /** `selectedItemsData`: the scan items whose path is selected, in scan order. */
  function SelectedData(items: seq<AppStore.FileItem>, sel: seq<string>): (r: seq<AppStore.FileItem>)
    ensures |r| <= |items|
    ensures forall it :: it in r <==> it in items && it.path in sel
  {
    if |items| == 0 then []
    else
      var rest := SelectedData(items[1..], sel);
      assert items == [items[0]] + items[1..];
      if items[0].path in sel then [items[0]] + rest else rest
  }

  /** `selectedSize`: the summed size of the selected scan items. */
  function SelectedSize(items: seq<AppStore.FileItem>, sel: seq<string>): int {
    Sums.SumOf(SelectedData(items, sel), AppStore.Size)
  }

  lemma SumOfCons(x: AppStore.FileItem, s: seq<AppStore.FileItem>)
    ensures Sums.SumOf([x] + s, AppStore.Size) == x.sizeBytes + Sums.SumOf(s, AppStore.Size)
  {
    Sums.SumOfConcat([x], s, AppStore.Size);
    assert [x][..0] == [];
  }

  /**
   * The selected items and the items a cleanup leaves behind partition the
   * scan items: their counts and their sizes add up to the whole.
   */
  lemma {:induction false} SelectionSplits(items: seq<AppStore.FileItem>, sel: seq<string>)
    ensures |SelectedData(items, sel)| + |AppStore.Unselected(items, sel)| == |items|
    ensures SelectedSize(items, sel) + Sums.SumOf(AppStore.Unselected(items, sel), AppStore.Size)
      == Sums.SumOf(items, AppStore.Size)
    decreases |items|
  {
    if |items| > 0 {
      var rest := items[1..];
      SelectionSplits(rest, sel);
      SelectionStep(items, sel);
      assert items == [items[0]] + rest;
      SumOfCons(items[0], rest);
      if items[0].path in sel {
        SumOfCons(items[0], SelectedData(rest, sel));
      } else {
        SumOfCons(items[0], AppStore.Unselected(rest, sel));
      }
    }
  }

  /** The first scan item goes to exactly one of the two sides. */
  lemma SelectionStep(items: seq<AppStore.FileItem>, sel: seq<string>)
    requires |items| > 0
    ensures items[0].path in sel ==>
      (SelectedData(items, sel) == [items[0]] + SelectedData(items[1..], sel)
       && AppStore.Unselected(items, sel) == AppStore.Unselected(items[1..], sel))
    ensures items[0].path !in sel ==>
      (SelectedData(items, sel) == SelectedData(items[1..], sel)
       && AppStore.Unselected(items, sel) == [items[0]] + AppStore.Unselected(items[1..], sel))
  {
  }

  /** No two scan items share a path. */
  predicate DistinctPaths(items: seq<AppStore.FileItem>) {
    forall i, j :: 0 <= i < j < |items| ==> items[i].path != items[j].path
  }

  /** The filter `selectedItemsData` applies. */
  function InSelection(sel: seq<string>): AppStore.FileItem -> bool {
    (it: AppStore.FileItem) => it.path in sel
  }

  /** The selected items are as many as the selected paths the store's path filter yields. */
  lemma {:induction false} SelectedCountMatchesPaths(items: seq<AppStore.FileItem>, sel: seq<string>)
    ensures |SelectedData(items, sel)| == |AppStore.PathsWhere(items, InSelection(sel))|
    decreases |items|
  {
    if |items| > 0 {
      SelectedCountMatchesPaths(items[1..], sel);
    }
  }

  /** A list without repetitions has as many distinct elements as entries. */
  lemma {:induction false} DistinctCount(sel: seq<string>)
    requires NoDuplicates(sel)
    ensures |set p | p in sel| == |sel|
    decreases |sel|
  {
    if |sel| > 0 {
      var rest := sel[1..];
      assert NoDuplicates(rest) by {
        forall i, j | 0 <= i < j < |rest| ensures rest[i] != rest[j] {
          assert rest[i] == sel[i + 1] && rest[j] == sel[j + 1];
        }
      }
      DistinctCount(rest);
      assert (set p | p in sel) == {sel[0]} + (set p | p in rest);
      assert sel[0] !in rest;
    }
  }

  /** Every selected path is the path of a scan item marked safe to delete. */
  predicate SelectionWithin(items: seq<AppStore.FileItem>, sel: seq<string>) {
    forall p :: p in sel ==> exists i :: 0 <= i < |items| && items[i].path == p && items[i].safeToDelete
  }

  /** A selection of distinct scan paths selects exactly as many items as paths. */
  lemma SelectedCountIsSelectionLength(items: seq<AppStore.FileItem>, sel: seq<string>)
    requires DistinctPaths(items) && NoDuplicates(sel) && SelectionWithin(items, sel)
    ensures |SelectedData(items, sel)| == |sel|
  {
    var paths := AppStore.PathsWhere(items, InSelection(sel));
    SelectedCountMatchesPaths(items, sel);
    PathsWhereDistinct(items, InSelection(sel));
    DistinctCount(paths);
    DistinctCount(sel);
    assert (set p | p in paths) == (set p | p in sel) by {
      forall p | p in sel ensures p in paths {
        var i :| 0 <= i < |items| && items[i].path == p && items[i].safeToDelete;
        assert InSelection(sel)(items[i]);
      }
    }
  }

  // ---------------------------------------------------------------------------
  // The invariant the page keeps between the totals and the items

  /** A scan result whose totals describe its items. */
  predicate Consistent(r: AppStore.ScanResult) {
    r.totalItems == |r.items| && r.totalSizeBytes == Sums.SumOf(r.items, AppStore.Size)
  }

  /**
   * What the page keeps when every selection comes from its own controls:
   * consistent totals, distinct item paths, and a selection of distinct
   * safe item paths.
   */
  predicate PageInvariant(s: AppStore.State) {
    s.scanResult.Some?
    && Consistent(s.scanResult.value)
    && DistinctPaths(s.scanResult.value.items)
    && NoDuplicates(s.selectedItems)
    && SelectionWithin(s.scanResult.value.items, s.selectedItems)
  }

  // ---------------------------------------------------------------------------
  // handleCleanup

  /** How the worker call of `executeCleanup` settles. */
  datatype WorkerReply = Resolved(value: Json.Value) | Rejected(error: string)

  /** The state after `handleCleanup`, whether the worker was called, and whether the error is rethrown. */
  datatype CleanupRun = CleanupRun(state: AppStore.State, calledWorker: bool, rethrown: bool)

  /**
   * `handleCleanup`: nothing at all for an empty selection; otherwise the
   * store is marked cleaning, and when the worker call settles the store is
   * told `success` with the locally summed size, or failure with zero freed
   * bytes and the error rethrown. The worker's reply value is never read.
   * Only reachable while a scan result is shown. `now` stands for the clock.
   */
  function HandleCleanup(s: AppStore.State, reply: WorkerReply, now: int): (r: CleanupRun)
    requires s.scanResult.Some?
    ensures |s.selectedItems| == 0 ==> r == CleanupRun(s, false, false)
    ensures |s.selectedItems| > 0 ==> r.calledWorker && (r.rethrown <==> reply.Rejected?)
    ensures |s.selectedItems| > 0 ==>
      r.state.cleanupResult == Some(AppStore.CleanupResult(
        reply.Resolved?,
        if reply.Resolved? then SelectedSize(s.scanResult.value.items, s.selectedItems) else 0))
    ensures |s.selectedItems| > 0 ==> !r.state.isCleaningUp && r.state.selectedItems == []
    ensures |s.selectedItems| > 0 ==>
      r.state == AppStore.CompleteCleanup(AppStore.StartCleanup(s), r.state.cleanupResult.value, now)
  {
    if |s.selectedItems| == 0 then CleanupRun(s, false, false)
    else
      var started := AppStore.StartCleanup(s);
      match reply
      case Resolved(_) =>
        var freed := SelectedSize(s.scanResult.value.items, s.selectedItems);
        CleanupRun(AppStore.CompleteCleanup(started, AppStore.CleanupResult(true, freed), now), true, false)
      case Rejected(_) =>
        CleanupRun(AppStore.CompleteCleanup(started, AppStore.CleanupResult(false, 0), now), true, true)
  }

  /** Whatever the worker answers, a resolved cleanup leaves the same state. */
  lemma WorkerReplyIgnored(s: AppStore.State, v1: Json.Value, v2: Json.Value, now: int)
    requires s.scanResult.Some?
    ensures HandleCleanup(s, Resolved(v1), now) == HandleCleanup(s, Resolved(v2), now)
  {
  }

  /** A resolved cleanup keeps the totals describing the remaining items. */
  lemma ResolvedCleanupKeepsInvariant(s: AppStore.State, v: Json.Value, now: int)
    requires PageInvariant(s)
    ensures PageInvariant(HandleCleanup(s, Resolved(v), now).state)
  {
    if |s.selectedItems| > 0 {
      var items := s.scanResult.value.items;
      var sel := s.selectedItems;
      SelectionSplits(items, sel);
      SelectedCountIsSelectionLength(items, sel);
      UnselectedDistinct(items, sel);
    }
  }

  /**
   * A rejected cleanup removes the selected items but subtracts nothing from
   * the total size, so with positive sizes the total overstates the rest.
   */
  lemma RejectedCleanupOverstatesTotal(s: AppStore.State, error: string, now: int)
    requires PageInvariant(s) && |s.selectedItems| > 0
    requires forall i :: 0 <= i < |s.scanResult.value.items| ==> s.scanResult.value.items[i].sizeBytes > 0
    ensures var after := HandleCleanup(s, Rejected(error), now).state.scanResult.value;
      after.totalSizeBytes > Sums.SumOf(after.items, AppStore.Size)
  {
    var items := s.scanResult.value.items;
    var sel := s.selectedItems;
    SelectionSplits(items, sel);
    SelectedCountIsSelectionLength(items, sel);
    var chosen := SelectedData(items, sel);
    forall i | 0 <= i < |chosen| ensures chosen[i].sizeBytes > 0 {
      assert chosen[i] in items;
    }
    SumOfPositive(chosen);
  }

  lemma {:induction false} SumOfPositive(s: seq<AppStore.FileItem>)
    requires |s| > 0 && forall i :: 0 <= i < |s| ==> s[i].sizeBytes > 0
    ensures Sums.SumOf(s, AppStore.Size) > 0
    decreases |s|
  {
    if |s| > 1 {
      SumOfPositive(s[..|s| - 1]);
    }
  }

  lemma {:induction false} UnselectedDistinct(items: seq<AppStore.FileItem>, sel: seq<string>)
    requires DistinctPaths(items)
    ensures DistinctPaths(AppStore.Unselected(items, sel))
    decreases |items|
  {
    if |items| > 0 {
      var rest := items[1..];
      assert DistinctPaths(rest) by {
        forall i, j | 0 <= i < j < |rest| ensures rest[i].path != rest[j].path {
          assert rest[i] == items[i + 1] && rest[j] == items[j + 1];
        }
      }
      UnselectedDistinct(rest, sel);
      var tail := AppStore.Unselected(rest, sel);
      if items[0].path !in sel {
        forall k | 0 <= k < |tail| ensures tail[k].path != items[0].path {
          assert tail[k] in rest;
          var m :| 0 <= m < |rest| && rest[m] == tail[k];
          assert items[m + 1] == tail[k];
        }
        assert AppStore.Unselected(items, sel) == [items[0]] + tail;
      }
    }
  }

  // ---------------------------------------------------------------------------
  // Controls

  /**
   * A click on the checkbox of scan item `i`: the checkbox of an item not
   * marked safe is disabled, any other toggles the item's path.
   */
  function ClickCheckbox(s: AppStore.State, i: nat): (r: AppStore.State)
    requires s.scanResult.Some? && i < |s.scanResult.value.items|
    ensures !s.scanResult.value.items[i].safeToDelete ==> r == s
    ensures s.scanResult.value.items[i].safeToDelete ==>
      (s.scanResult.value.items[i].path in r.selectedItems <==> s.scanResult.value.items[i].path !in s.selectedItems)
    ensures r.scanResult == s.scanResult
    ensures s.scanResult.value.items[i].safeToDelete ==>
      r == AppStore.ToggleItemSelection(s, s.scanResult.value.items[i].path)
  {
    var item := s.scanResult.value.items[i];
    if item.safeToDelete then AppStore.ToggleItemSelection(s, item.path) else s
  }

  /** Removing a path keeps a list free of repetitions. */
  lemma {:induction false} RemoveAllKeepsDistinct(sel: seq<string>, path: string)
    requires NoDuplicates(sel)
    ensures NoDuplicates(AppStore.RemoveAll(sel, path))
    decreases |sel|
  {
    if |sel| > 0 {
      var rest := sel[1..];
      assert NoDuplicates(rest) by {
        forall i, j | 0 <= i < j < |rest| ensures rest[i] != rest[j] {
          assert rest[i] == sel[i + 1] && rest[j] == sel[j + 1];
        }
      }
      RemoveAllKeepsDistinct(rest, path);
      assert sel[0] !in rest;
    }
  }

  /** Clicking a checkbox keeps the page invariant: the selection stays distinct and safe. */
  lemma ClickKeepsInvariant(s: AppStore.State, i: nat)
    requires PageInvariant(s) && i < |s.scanResult.value.items|
    ensures PageInvariant(ClickCheckbox(s, i))
  {
    var item := s.scanResult.value.items[i];
    if item.safeToDelete {
      if item.path in s.selectedItems {
        RemoveAllKeepsDistinct(s.selectedItems, item.path);
      }
    }
  }

  /** The paths picked by a filter over items with distinct paths are distinct. */
  lemma {:induction false} PathsWhereDistinct(items: seq<AppStore.FileItem>, keep: AppStore.FileItem -> bool)
    requires DistinctPaths(items)
    ensures NoDuplicates(AppStore.PathsWhere(items, keep))
    decreases |items|
  {
    if |items| > 0 {
      var rest := items[1..];
      assert DistinctPaths(rest) by {
        forall i, j | 0 <= i < j < |rest| ensures rest[i].path != rest[j].path {
          assert rest[i] == items[i + 1] && rest[j] == items[j + 1];
        }
      }
      PathsWhereDistinct(rest, keep);
      assert items[0].path !in AppStore.PathsWhere(rest, keep);
    }
  }

  /** "Select all safe items" and "deselect all" keep the page invariant. */
  lemma SelectionButtonsKeepInvariant(s: AppStore.State)
    requires PageInvariant(s)
    ensures PageInvariant(AppStore.SelectAllItems(s))
    ensures PageInvariant(AppStore.DeselectAllItems(s))
  {
    PathsWhereDistinct(s.scanResult.value.items, AppStore.IsSafe);
  }

  /** A completed scan whose totals describe its items starts the page invariant, auto-selection or not. */
  lemma CompletedScanStartsInvariant(s: AppStore.State, result: AppStore.ScanResult)
    requires Consistent(result) && DistinctPaths(result.items)
    ensures PageInvariant(AppStore.CompleteScan(s, result))
  {
    PathsWhereDistinct(result.items, AppStore.IsSafeLowRisk);
  }

  /** The medium/high risk banner: some scan item not of low risk is selected. */
  predicate RiskWarning(items: seq<AppStore.FileItem>, sel: seq<string>) {
    exists i :: 0 <= i < |items| && items[i].risk != AppStore.Low && items[i].path in sel
  }

  /** The banner shows exactly when the selected items hold one that is not of low risk. */
  lemma RiskWarningIffRiskySelected(items: seq<AppStore.FileItem>, sel: seq<string>)
    ensures RiskWarning(items, sel) <==> exists it :: it in SelectedData(items, sel) && it.risk != AppStore.Low
  {
    if RiskWarning(items, sel) {
      var i :| 0 <= i < |items| && items[i].risk != AppStore.Low && items[i].path in sel;
      assert items[i] in SelectedData(items, sel);
    }
    if exists it :: it in SelectedData(items, sel) && it.risk != AppStore.Low {
      var it :| it in SelectedData(items, sel) && it.risk != AppStore.Low;
      var i :| 0 <= i < |items| && items[i] == it;
    }
  }

  /** With distinct paths, the automatic selection never raises the banner. */
  lemma AutoSelectionRaisesNoWarning(items: seq<AppStore.FileItem>)
    requires DistinctPaths(items)
    ensures !RiskWarning(items, AppStore.AutoSelection(items))
  {
  }

  /**
   * Without distinct paths the banner can show: a safe low-risk item selects
   * its path, and a medium-risk item sharing that path is then selected too.
   */
  lemma SharedPathRaisesWarning()
    ensures var items := [AppStore.FileItem("p", 1, "temp_files", 0, AppStore.Low, true, ""),
                          AppStore.FileItem("p", 2, "temp_files", 0, AppStore.Medium, false, "")];
      RiskWarning(items, AppStore.AutoSelection(items))
  {
    var items := [AppStore.FileItem("p", 1, "temp_files", 0, AppStore.Low, true, ""),
                  AppStore.FileItem("p", 2, "temp_files", 0, AppStore.Medium, false, "")];
    var sel := AppStore.AutoSelection(items);
    assert AppStore.IsSafeLowRisk(items[0]);
    assert "p" in sel;
    assert items[1].risk != AppStore.Low && items[1].path in sel;
  }

  /** What a press of the clean button does. */
  datatype Press = Ignored | OpenConfirm | CleanDirectly

  /**
   * The clean button: disabled for an empty selection or while a cleanup
   * runs; otherwise it opens the confirmation modal when the
   * `confirmBeforeDelete` preference is truthy and cleans at once when not.
   */
  function PressClean(s: AppStore.State): (r: Press)
    ensures r == Ignored <==> |s.selectedItems| == 0 || s.isCleaningUp
    ensures r == OpenConfirm <==>
      |s.selectedItems| > 0 && !s.isCleaningUp && Json.Truthy(AppStore.Pref(s.preferences, "confirmBeforeDelete"))
  {
    if |s.selectedItems| == 0 || s.isCleaningUp then Ignored
    else if Json.Truthy(AppStore.Pref(s.preferences, "confirmBeforeDelete")) then OpenConfirm
    else CleanDirectly
  }

  /** With the initial preferences every enabled press asks for confirmation first. */
  lemma InitialPreferencesConfirm(s: AppStore.State)
    requires s.preferences == AppStore.InitialPreferences && |s.selectedItems| > 0 && !s.isCleaningUp
    ensures PressClean(s) == OpenConfirm
  {
  }
}
