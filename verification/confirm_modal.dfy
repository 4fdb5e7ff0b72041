/**
 * The cleanup confirmation modal (src/components/CleanupConfirmModal.tsx):
 * its risk tallies, warning, preview of the first items, the
 * processing/done/error state machine of its two handlers, and how it reports
 * the results page's cleanup when that is its confirm action.
 */
module ConfirmModal {
  import opened Base
  import AppStore
  import ResultsPage

  /** The modal's own state. */
  datatype ModalState = ModalState(isProcessing: bool, isDone: bool, error: Option<string>)

  const Closed := ModalState(false, false, None)

  // ---------------------------------------------------------------------------
  // What an open modal shows

  /** The number of items of the given risk. */
  function CountRisk(items: seq<AppStore.FileItem>, risk: AppStore.Risk): (n: nat)
    ensures n <= |items|
  {
    if |items| == 0 then 0
    else CountRisk(items[..|items| - 1], risk) + (if items[|items| - 1].risk == risk then 1 else 0)
  }

  /** The three tallies account for every item. */
  lemma {:induction false} RiskCountsCoverItems(items: seq<AppStore.FileItem>)
    ensures CountRisk(items, AppStore.Low) + CountRisk(items, AppStore.Medium) + CountRisk(items, AppStore.High)
      == |items|
    decreases |items|
  {
    if |items| > 0 {
      RiskCountsCoverItems(items[..|items| - 1]);
    }
  }

  /** A tally is positive exactly when some item has that risk. */
  lemma {:induction false} CountRiskPositive(items: seq<AppStore.FileItem>, risk: AppStore.Risk)
    ensures CountRisk(items, risk) > 0 <==> exists i :: 0 <= i < |items| && items[i].risk == risk
    decreases |items|
  {
    if |items| > 0 {
      var init := items[..|items| - 1];
      CountRiskPositive(init, risk);
      assert forall i :: 0 <= i < |init| ==> init[i] == items[i];
      if CountRisk(init, risk) > 0 {
        var i :| 0 <= i < |init| && init[i].risk == risk;
        assert items[i].risk == risk;
      }
    }
  }

  /**
   * The view of an open modal: after a successful confirmation only the
   * completion notice; before it the tallies, the warning, the preview and
   * the error line.
   */
  datatype View =
    | Completed(title: string)
    | Confirming(
        title: string,
        lowCount: nat,
        mediumCount: nat,
        highCount: nat,
        warning: bool,
        preview: seq<AppStore.FileItem>,
        moreCount: Option<nat>,
        showsError: Option<string>)

  /**
   * The modal's rendering: nothing when closed; the completion notice once
   * done; otherwise the tallies, the warning when a medium or high risk item
   * is present, the first five items, the "... and N more items" line when
   * there are more than five, and the error when it is a non-empty string.
   */
  function Render(isOpen: bool, m: ModalState, items: seq<AppStore.FileItem>): (r: Option<View>)
    ensures !isOpen <==> r.None?
    ensures r.Some? ==> (r.value.Completed? <==> m.isDone)
    ensures r.Some? ==> r.value.title == if m.isDone then "Cleanup Complete!" else "Confirm Cleanup"
    ensures r.Some? && r.value.Confirming? ==>
      var v := r.value;
      && v.lowCount == CountRisk(items, AppStore.Low)
      && v.mediumCount == CountRisk(items, AppStore.Medium)
      && v.highCount == CountRisk(items, AppStore.High)
      && (v.warning <==> v.mediumCount > 0 || v.highCount > 0)
      && v.preview == items[..Min(5, |items|)]
      && (v.moreCount.Some? <==> |items| > 5)
      && (v.moreCount.Some? ==> |v.preview| + v.moreCount.value == |items|)
      && (v.showsError.Some? <==> m.error.Some? && m.error.value != "")
      && (v.showsError.Some? ==> v.showsError == m.error)
  {
    if !isOpen then None
    else if m.isDone then Some(Completed("Cleanup Complete!"))
    else
      var low := CountRisk(items, AppStore.Low);
      var medium := CountRisk(items, AppStore.Medium);
      var high := CountRisk(items, AppStore.High);
      Some(Confirming("Confirm Cleanup", low, medium, high, medium > 0 || high > 0,
                      items[..Min(5, |items|)],
                      if |items| > 5 then Some(|items| - 5) else None,
                      if m.error.Some? && m.error.value != "" then m.error else None))
  }

  /** The warning of a modal awaiting confirmation shows exactly when some listed item is not of low risk. */
  lemma WarningIffRiskyItem(m: ModalState, items: seq<AppStore.FileItem>)
    ensures !m.isDone ==>
      (Render(true, m, items).value.warning <==> exists i :: 0 <= i < |items| && items[i].risk != AppStore.Low)
  {
    CountRiskPositive(items, AppStore.Medium);
    CountRiskPositive(items, AppStore.High);
  }

  /** The three tallies of a modal awaiting confirmation add up to the number of items listed. */
  lemma TalliesCoverItems(m: ModalState, items: seq<AppStore.FileItem>)
    ensures !m.isDone ==>
      var v := Render(true, m, items).value;
      v.lowCount + v.mediumCount + v.highCount == |items|
  {
    RiskCountsCoverItems(items);
  }

  // ---------------------------------------------------------------------------
  // Handlers

  /** How the confirm action settles; a thrown value may carry no message. */
  datatype ConfirmOutcome = Confirmed | Failed(message: Option<string>)

  /** `handleConfirm` up to the `await`: processing, with the error cleared. */
  function BeginConfirm(m: ModalState): (r: ModalState)
    ensures r.isProcessing && r.error.None? && r.isDone == m.isDone
  {
    m.(isProcessing := true, error := None)
  }

  /**
   * `handleConfirm` after the `await`: done only when the action resolved;
   * on a rejection the error is its message, or `Cleanup failed` when that
   * is missing or empty; processing ends either way.
   */
  function SettleConfirm(m: ModalState, outcome: ConfirmOutcome): (r: ModalState)
    ensures !r.isProcessing
    ensures outcome.Confirmed? ==> r.isDone && r.error == m.error
    ensures outcome.Failed? ==> r.isDone == m.isDone && r.error.Some? && r.error.value != ""
    ensures outcome.Failed? && outcome.message.Some? && outcome.message.value != "" ==>
      r.error == outcome.message
  {
    match outcome
    case Confirmed => m.(isDone := true, isProcessing := false)
    case Failed(msg) =>
      var text := if msg.Some? && msg.value != "" then msg.value else "Cleanup failed";
      m.(error := Some(text), isProcessing := false)
  }

  /**
   * The whole of `handleConfirm`: processing ends, the modal is done after a
   * resolved action (and stays as it was after a rejection), and an error
   * is shown exactly when the action was rejected.
   */
  function HandleConfirm(m: ModalState, outcome: ConfirmOutcome): (r: ModalState)
    ensures !r.isProcessing
    ensures r.isDone <==> outcome.Confirmed? || m.isDone
    ensures r.error.None? <==> outcome.Confirmed?
    ensures r.error.Some? ==> r.error.value != ""
  {
    SettleConfirm(BeginConfirm(m), outcome)
  }

  /** A confirmation that resolves ends done without an error; one that fails is not done. */
  lemma ConfirmOutcomes(m: ModalState, outcome: ConfirmOutcome)
    requires !m.isDone
    ensures HandleConfirm(m, outcome).isDone <==> outcome.Confirmed?
    ensures HandleConfirm(m, outcome).error.None? <==> outcome.Confirmed?
    ensures !HandleConfirm(m, outcome).isProcessing
  {
  }

  /** `handleClose`: done and error reset, and the cancel callback called. */
  function HandleClose(m: ModalState): (r: (ModalState, bool))
    ensures !r.0.isDone && r.0.error.None? && r.0.isProcessing == m.isProcessing && r.1
  {
    (m.(isDone := false, error := None), true)
  }

  /** The footer's actions of an open modal. */
  datatype Footer = DoneButton | CancelAndDelete(disabled: bool)

  /** The controls of an open modal: the header's close button and the footer's actions. */
  datatype Controls = Controls(closeEnabled: bool, footer: Footer)

  /**
   * The header's close button is offered in every view and is never
   * disabled; the footer offers only "Done" once finished, otherwise Cancel
   * and Delete, both disabled while processing.
   */
  function ButtonsOf(m: ModalState): (b: Controls)
    ensures b.closeEnabled
    ensures b.footer.DoneButton? <==> m.isDone
    ensures b.footer.CancelAndDelete? ==> (b.footer.disabled <==> m.isProcessing)
  {
    Controls(true, if m.isDone then DoneButton else CancelAndDelete(m.isProcessing))
  }

  /**
   * While the action is pending the footer's Cancel is disabled, yet the
   * header's close button still runs `handleClose`, which calls the cancel
   * callback and leaves processing as it was.
   */
  lemma CloseWhileProcessing(m: ModalState)
    requires m.isProcessing && !m.isDone
    ensures ButtonsOf(m).footer == CancelAndDelete(true) && ButtonsOf(m).closeEnabled
    ensures HandleClose(m).1 && HandleClose(m).0.isProcessing
  {
  }

  // ---------------------------------------------------------------------------
  // The modal driving the results page's cleanup

  /**
   * Confirming with the results page's `handleCleanup` as the action: the
   * page's store state after the cleanup, and the modal state, which sees a
   * failure exactly when the page rethrows the worker's error.
   */
  function ConfirmCleanup(m: ModalState, s: AppStore.State, reply: ResultsPage.WorkerReply, now: int)
    : (r: (ModalState, AppStore.State))
    requires s.scanResult.Some?
    ensures r.1 == ResultsPage.HandleCleanup(s, reply, now).state
    ensures !r.0.isProcessing
  {
    var run := ResultsPage.HandleCleanup(s, reply, now);
    var outcome := if run.rethrown then Failed(Some(reply.error)) else Confirmed;
    (HandleConfirm(m, outcome), run.state)
  }

  /**
   * A rejected worker call shows the user an error and no "done" — yet the
   * store has already emptied the selection and dropped the selected items
   * from the scan result.
   */
  lemma FailureShownButItemsDropped(m: ModalState, s: AppStore.State, error: string, now: int)
    requires s.scanResult.Some? && |s.selectedItems| > 0 && !m.isDone
    ensures var (m', s') := ConfirmCleanup(m, s, ResultsPage.Rejected(error), now);
      !m'.isDone && m'.error.Some?
      && s'.selectedItems == []
      && forall it :: it in s'.scanResult.value.items ==> it.path !in s.selectedItems
  {
  }
}
