/**
 * The auto-update banner (src/components/UpdateNotification.tsx): six phases
 * driven by six updater events that are accepted in every phase, a dismiss
 * flag that nothing clears, and the rule for when the banner shows at all.
 */
module UpdateNotification {
  import opened Base

  datatype Phase = Idle | Checking | Available | Downloading | Ready | Failed

  datatype UpdateInfo = UpdateInfo(version: string, releaseNotes: Option<string>)

  /** Download progress as the updater reports it; `percent` is fractional. */
  datatype Progress = Progress(percent: real, bytesPerSecond: int, transferred: int, total: int)

  datatype Banner = Banner(
    phase: Phase,
    updateInfo: Option<UpdateInfo>,
    progress: Option<Progress>,
    error: Option<string>,
    dismissed: bool)

  const Initial := Banner(Idle, None, None, None, false)

  /** The six updater events, and the banner's two buttons. */
  datatype Event =
    | CheckingEvent
    | AvailableEvent(info: UpdateInfo)
    | NotAvailableEvent
    | ProgressEvent(p: Progress)
    | DownloadedEvent(info: UpdateInfo)
    | ErrorEvent(message: string)
    | DismissClick
    | InstallClick

  predicate IsUpdaterEvent(e: Event) {
    !e.DismissClick? && !e.InstallClick?
  }

  /**
   * The effect of one event. Every updater event sets the phase it names,
   * whatever the phase was, and carries its payload into the matching field;
   * dismissing sets the flag; installing asks the main process to restart and
   * changes nothing here.
   */
  function Step(b: Banner, e: Event): (r: Banner)
    ensures e.CheckingEvent? ==> r == b.(phase := Checking)
    ensures e.AvailableEvent? ==> r == b.(phase := Available, updateInfo := Some(e.info))
    ensures e.NotAvailableEvent? ==> r == b.(phase := Idle)
    ensures e.ProgressEvent? ==> r == b.(phase := Downloading, progress := Some(e.p))
    ensures e.DownloadedEvent? ==> r == b.(phase := Ready, updateInfo := Some(e.info))
    ensures e.ErrorEvent? ==> r == b.(phase := Failed, error := Some(e.message))
    ensures e.DismissClick? ==> r == b.(dismissed := true)
    ensures e.InstallClick? ==> r == b
  {
    match e
    case CheckingEvent => b.(phase := Checking)
    case AvailableEvent(info) => b.(phase := Available, updateInfo := Some(info))
    case NotAvailableEvent => b.(phase := Idle)
    case ProgressEvent(p) => b.(phase := Downloading, progress := Some(p))
    case DownloadedEvent(info) => b.(phase := Ready, updateInfo := Some(info))
    case ErrorEvent(message) => b.(phase := Failed, error := Some(message))
    case DismissClick => b.(dismissed := true)
    case InstallClick => b
  }

  /** The phase an updater event leads to. */
  function Target(e: Event): Phase
    requires IsUpdaterEvent(e)
  {
    match e
    case CheckingEvent => Checking
    case AvailableEvent(_) => Available
    case NotAvailableEvent => Idle
    case ProgressEvent(_) => Downloading
    case DownloadedEvent(_) => Ready
    case ErrorEvent(_) => Failed
  }

  /** The transitions are unguarded: the new phase depends on the event alone, and the dismiss flag is kept. */
  lemma TransitionsUnguarded(b1: Banner, b2: Banner, e: Event)
    requires IsUpdaterEvent(e)
    ensures Step(b1, e).phase == Step(b2, e).phase == Target(e)
    ensures Step(b1, e).dismissed == b1.dismissed
  {
  }

  /** Every phase, even `Ready`, is left for `Downloading` when a late progress event arrives. */
  lemma ReadyCanFallBack(b: Banner, p: Progress)
    requires b.phase == Ready
    ensures Step(b, ProgressEvent(p)).phase == Downloading
  {
  }

  /** The events in order. */
  function Run(b: Banner, es: seq<Event>): Banner
    decreases |es|
  {
    if |es| == 0 then b else Run(Step(b, es[0]), es[1..])
  }

  /** The banner is hidden while idle or checking, and once dismissed. */
  predicate Visible(b: Banner) {
    b.phase != Idle && b.phase != Checking && !b.dismissed
  }

  /** Dismissal is sticky: no sequence of later events brings the banner back. */
  lemma {:induction false} DismissIsSticky(b: Banner, es: seq<Event>)
    requires b.dismissed
    ensures Run(b, es).dismissed && !Visible(Run(b, es))
    decreases |es|
  {
    if |es| > 0 {
      DismissIsSticky(Step(b, es[0]), es[1..]);
    }
  }

  /** Without a dismissal the banner shows exactly when the last phase-setting event was not "checking" or "not available". */
  lemma {:induction false} VisibleAfterEvent(b: Banner, e: Event)
    requires !b.dismissed && IsUpdaterEvent(e)
    ensures Visible(Step(b, e)) <==> !e.CheckingEvent? && !e.NotAvailableEvent?
  {
    TransitionsUnguarded(b, b, e);
  }

  // ---------------------------------------------------------------------------
  // What the banner shows

  /** The body of a visible banner. */
  datatype Body =
    | VersionAvailable(version: string)
    | DownloadBar(percent: real)
    | RestartButton
    | ErrorText(message: string)
    | NoBody

  datatype View = View(title: string, body: Body)

  /**
   * The banner's rendering: nothing unless visible; otherwise the phase's
   * title, and the version, the progress bar, the restart button or the
   * error (with a fallback text) — the first two only once their payload has
   * arrived.
   */
  function Render(b: Banner): (r: Option<View>)
    ensures r.Some? <==> Visible(b)
    ensures r.Some? && b.phase == Available ==> r.value.title == "Update Available"
    ensures r.Some? && b.phase == Downloading ==> r.value.title == "Downloading Update"
    ensures r.Some? && b.phase == Ready ==> r.value == View("Update Ready", RestartButton)
    ensures r.Some? && b.phase == Failed ==> r.value.title == "Update Error"
    ensures r.Some? && b.phase == Available ==> (r.value.body.VersionAvailable? <==> b.updateInfo.Some?)
    ensures r.Some? && b.phase == Available && b.updateInfo.Some? ==>
      r.value.body == VersionAvailable(b.updateInfo.value.version)
    ensures r.Some? && b.phase == Downloading ==> (r.value.body.DownloadBar? <==> b.progress.Some?)
    ensures r.Some? && b.phase == Downloading && b.progress.Some? ==>
      r.value.body == DownloadBar(b.progress.value.percent)
    ensures r.Some? && b.phase == Failed ==> r.value.body.ErrorText? && r.value.body.message != ""
    ensures r.Some? && b.phase == Failed && b.error.Some? && b.error.value != "" ==>
      r.value.body == ErrorText(b.error.value)
  {
    if !Visible(b) then None
    else match b.phase
      case Available =>
        Some(View("Update Available", if b.updateInfo.Some? then VersionAvailable(b.updateInfo.value.version) else NoBody))
      case Downloading =>
        Some(View("Downloading Update", if b.progress.Some? then DownloadBar(b.progress.value.percent) else NoBody))
      case Ready => Some(View("Update Ready", RestartButton))
      case Failed =>
        Some(View("Update Error", ErrorText(if b.error.Some? && b.error.value != "" then b.error.value else "Failed to check for updates")))
      case _ => assert false; None
  }

  /** An error event with an empty message still renders the fallback text. */
  lemma EmptyErrorFallsBack(b: Banner)
    requires !b.dismissed
    ensures Render(Step(b, ErrorEvent(""))) == Some(View("Update Error", ErrorText("Failed to check for updates")))
  {
  }

  /**
   * What a visible banner shows right after an updater event: the version
   * just announced, the percent just reported, or the message just received.
   */
  lemma RenderAfterEvent(b: Banner, e: Event)
    requires !b.dismissed
    ensures e.AvailableEvent? ==>
      Render(Step(b, e)) == Some(View("Update Available", VersionAvailable(e.info.version)))
    ensures e.ProgressEvent? ==>
      Render(Step(b, e)) == Some(View("Downloading Update", DownloadBar(e.p.percent)))
    ensures e.ErrorEvent? && e.message != "" ==>
      Render(Step(b, e)) == Some(View("Update Error", ErrorText(e.message)))
  {
  }
}
