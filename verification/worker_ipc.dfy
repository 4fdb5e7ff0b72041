/**
 * The main process's bridge to the Python worker (electron/main.ts): how
 * the worker is launched, the argument vector each IPC handler builds, and
 * the closed policy that turns a finished worker process into a resolved or
 * rejected IPC reply. Spawning, stream accumulation and promises are not
 * modelled: a handler sees only the process outcome, and `JSON.parse` is a
 * parameter that either yields a value or fails.
 */
module WorkerIpc {
  import opened Base
  import Json

  /** How a worker process ended. `code` is `None` when a signal killed it. */
  datatype ProcessOutcome =
    | SpawnError(message: string)
    | Exited(code: Option<int>, stdout: string, stderr: string)

  /** How the IPC promise settles. */
  datatype Settlement = Resolve(value: Json.Value) | Reject(reason: Json.Value)

  /** The worker-backed IPC handlers, with their arguments. */
  datatype Handler =
    | RunScan(quick: bool)
    | ExecuteCleanup(items: seq<string>)
    | GetDiskUsage
    | GetHistory
    | GetStats
    | GetPrefs
    | SetPref(key: string, value: Json.Value)
    | GetExclusions
    | AddExclusion(path: string)
    | RemoveExclusion(path: string)

  /** What the main process knows about where it runs. */
  datatype Host = Host(isPackaged: bool, resourcesPath: string, dirname: string, platform: string)

  /** A program and its arguments, as handed to `spawn`. */
  datatype Command = Command(program: string, args: seq<string>)

  // ---------------------------------------------------------------------------
  // Launching the worker

  /**
   * `spawnPython`: a packaged build runs the bundled engine, a development
   * build runs the interpreter on the worker script. `join` stands for
   * `path.join`. Either way the worker receives `args` unchanged at the end
   * of its argument list, behind at most the script path.
   */
  function SpawnCommand(host: Host, args: seq<string>, join: seq<string> -> string): (c: Command)
    ensures |c.args| == |args| + (if host.isPackaged then 0 else 1)
    ensures c.args[|c.args| - |args|..] == args
    ensures host.isPackaged ==> c.program == join([host.resourcesPath, "bin", "engine.exe"])
    ensures !host.isPackaged ==>
      c.program == (if host.platform == "win32" then "python" else "python3")
      && c.args[0] == join([host.dirname, "../python/main.py"])
  {
    if host.isPackaged then Command(join([host.resourcesPath, "bin", "engine.exe"]), args)
    else
      var python := if host.platform == "win32" then "python" else "python3";
      Command(python, [join([host.dirname, "../python/main.py"])] + args)
  }

  // ---------------------------------------------------------------------------
  // Argument vectors

  /** The worker flag that selects each handler's command. */
  function CommandFlag(h: Handler): string {
    match h
    case RunScan(_) => "--scan"
    case ExecuteCleanup(_) => "--clean"
    case GetDiskUsage => "--disk-usage"
    case GetHistory => "--history"
    case GetStats => "--stats"
    case GetPrefs => "--get-prefs"
    case SetPref(_, _) => "--set-pref"
    case GetExclusions => "--get-exclusions"
    case AddExclusion(_) => "--add-exclusion"
    case RemoveExclusion(_) => "--remove-exclusion"
  }

  /**
   * How `set-pref` renders a value on the command line: `toString` for a
   * boolean, `JSON.stringify` otherwise. The two agree on booleans.
   */
  function PrefValueArg(v: Json.Value): (r: string)
    ensures r == Json.Stringify(v)
  {
    if v.Bool? then (if v.b then "true" else "false") else Json.Stringify(v)
  }

  /** The argument vector each handler passes to the worker. */
  function Argv(h: Handler): (r: seq<string>)
    ensures |r| >= 3 && r[0] == CommandFlag(h)
    ensures h.RunScan? ==> r[..3] == ["--scan", "--output", "json"] && (|r| == 4 <==> h.quick)
    ensures h.RunScan? && h.quick ==> r[3] == "--quick"
    ensures h.ExecuteCleanup? ==> r[1] == "--items" && r[2] == Json.Stringify(Json.StringArray(h.items))
    ensures !h.RunScan? ==> r[|r| - 2..] == ["--output", "json"]
  {
    match h
    case RunScan(quick) => ["--scan", "--output", "json"] + (if quick then ["--quick"] else [])
    case ExecuteCleanup(items) =>
      ["--clean", "--items", Json.Stringify(Json.StringArray(items)), "--output", "json"]
    case SetPref(key, value) => ["--set-pref", key, PrefValueArg(value), "--output", "json"]
    case AddExclusion(path) => ["--add-exclusion", path, "--output", "json"]
    case RemoveExclusion(path) => ["--remove-exclusion", path, "--output", "json"]
    case _ => [CommandFlag(h), "--output", "json"]
  }

  // ---------------------------------------------------------------------------
  // Reply records

  function Field(key: string, value: Json.Value): (string, Json.Value) {
    (key, value)
  }

  /** `{ error, code }`; a signal-killed process has a `null` code. */
  function ErrorWithCode(error: string, code: Option<int>): (r: Json.Value)
    ensures Json.Get(r, "error") == Some(Json.Str(error))
  {
    var r := Json.Object([Field("error", Json.Str(error)),
                          Field("code", if code.Some? then Json.Num(code.value) else Json.Null)]);
    assert r.members[1].key == "code" && r.members[0] == Json.Member("error", Json.Str(error));
    r
  }

  /** `{ error }`. */
  function ErrorOnly(error: string): (r: Json.Value)
    ensures Json.Get(r, "error") == Some(Json.Str(error))
  {
    var r := Json.Object([Field("error", Json.Str(error))]);
    assert r.members[0] == Json.Member("error", Json.Str(error));
    r
  }

  function SuccessFlag(b: bool): Json.Value {
    Json.Object([Field("success", Json.Bool(b))])
  }

  function ZeroDiskUsage(): (r: Json.Value)
    ensures ZeroSpace(r)
  {
    var r := Json.Object([Field("total", Json.Num(0)), Field("used", Json.Num(0)), Field("free", Json.Num(0))]);
    assert r.members[0] == Json.Member("total", Json.Num(0));
    assert r.members[1] == Json.Member("used", Json.Num(0));
    assert r.members[2] == Json.Member("free", Json.Num(0));
    r
  }

  /** The zero report with the worker's error output attached. */
  function DiskUsageError(stderr: string): (r: Json.Value)
    ensures ZeroSpace(r) && Json.Get(r, "error") == Some(Json.Str(stderr))
  {
    var r := Json.Object([Field("total", Json.Num(0)), Field("used", Json.Num(0)),
                          Field("free", Json.Num(0)), Field("error", Json.Str(stderr))]);
    assert r.members[0] == Json.Member("total", Json.Num(0));
    assert r.members[1] == Json.Member("used", Json.Num(0));
    assert r.members[2] == Json.Member("free", Json.Num(0));
    assert r.members[3] == Json.Member("error", Json.Str(stderr));
    r
  }

  function EmptyHistory(): Json.Value {
    Json.Object([Field("scans", Json.Arr([])), Field("cleanups", Json.Arr([]))])
  }

  function ZeroStats(): Json.Value {
    Json.Object([Field("total_scans", Json.Num(0)), Field("total_cleanups", Json.Num(0)),
                 Field("total_bytes_freed", Json.Num(0)), Field("total_items_cleaned", Json.Num(0))])
  }

  function NoExclusions(): Json.Value {
    Json.Object([Field("exclusions", Json.Arr([]))])
  }

  /** JavaScript's `a || b` on strings: `b` when `a` is empty. */
  function OrDefault(a: string, b: string): (r: string)
    ensures a != "" ==> r == a
    ensures a == "" ==> r == b
  {
    if a != "" then a else b
  }

  // ---------------------------------------------------------------------------
  // Outcome policy

  /** The handlers that reject when the worker exits unsuccessfully. */
  predicate RejectsOnExitFailure(h: Handler) {
    h.RunScan? || h.ExecuteCleanup? || h.GetHistory? || h.GetStats?
  }

  /** The handlers that reject when the worker cannot be started. */
  predicate RejectsOnSpawnError(h: Handler) {
    h.RunScan? || h.ExecuteCleanup?
  }

  /** The process ran and exited with code 0. */
  predicate ExitedCleanly(o: ProcessOutcome) {
    o.Exited? && o.code == Some(0)
  }

  /** The reply when the worker exited with 0 but its output is not JSON. */
  function OnUnparsable(h: Handler, stdout: string): Json.Value {
    match h
    case RunScan(_) =>
      Json.Object([Field("error", Json.Str("Failed to parse scan results")), Field("raw", Json.Str(stdout))])
    case ExecuteCleanup(_) =>
      Json.Object([Field("success", Json.Bool(true)), Field("raw", Json.Str(stdout))])
    case GetDiskUsage => ZeroDiskUsage()
    case GetHistory => EmptyHistory()
    case GetStats => ZeroStats()
    case GetPrefs => Json.Obj([])
    case GetExclusions => NoExclusions()
    case _ => SuccessFlag(true)
  }

  /** The settlement when the worker exited with a non-zero code or was killed. */
  function OnExitFailure(h: Handler, code: Option<int>, stderr: string): (r: Settlement)
    ensures r.Reject? <==> RejectsOnExitFailure(h)
    ensures r.Reject? ==> var e := Json.Get(r.reason, "error"); e.Some? && e.value.Str? && e.value.s != ""
  {
    match h
    case RunScan(_) => Reject(ErrorWithCode(OrDefault(stderr, "Scan failed"), code))
    case ExecuteCleanup(_) => Reject(ErrorWithCode(OrDefault(stderr, "Cleanup failed"), code))
    case GetDiskUsage => Resolve(DiskUsageError(stderr))
    case GetHistory => Reject(ErrorWithCode(OrDefault(stderr, "Failed to get history"), code))
    case GetStats => Reject(ErrorWithCode(OrDefault(stderr, "Failed to get stats"), code))
    case GetPrefs => Resolve(Json.Obj([]))
    case GetExclusions => Resolve(NoExclusions())
    case _ => Resolve(SuccessFlag(false))
  }

  /** The settlement when the worker process could not be started. */
  function OnSpawnError(h: Handler, message: string): (r: Settlement)
    ensures r.Reject? <==> RejectsOnSpawnError(h)
    ensures r.Reject? ==> var e := Json.Get(r.reason, "error"); e.Some? && e.value.Str? && e.value.s != ""
  {
    match h
    case RunScan(_) =>
      Reject(ErrorOnly("Failed to start Python: " + message + ". Make sure Python is installed and in your PATH."))
    case ExecuteCleanup(_) =>
      Reject(ErrorOnly("Failed to start Python: " + message))
    case GetDiskUsage => Resolve(ZeroDiskUsage())
    case GetHistory => Resolve(EmptyHistory())
    case GetStats => Resolve(ZeroStats())
    case GetPrefs => Resolve(Json.Obj([]))
    case GetExclusions => Resolve(NoExclusions())
    case _ => Resolve(SuccessFlag(false))
  }

  /**
   * The whole policy of one handler. Every handler passes a parsable clean
   * exit through unchanged; it rejects exactly in the cases of the two
   * tables above, and every rejection carries a non-empty `error` string.
   */
  function Settle(h: Handler, o: ProcessOutcome, parse: string -> Option<Json.Value>): (r: Settlement)
    ensures ExitedCleanly(o) && parse(o.stdout).Some? ==> r == Resolve(parse(o.stdout).value)
    ensures ExitedCleanly(o) && parse(o.stdout).None? ==> r == Resolve(OnUnparsable(h, o.stdout))
    ensures r.Reject? <==>
      (o.Exited? && !ExitedCleanly(o) && RejectsOnExitFailure(h))
      || (o.SpawnError? && RejectsOnSpawnError(h))
    ensures r.Reject? ==>
      var e := Json.Get(r.reason, "error");
      e.Some? && e.value.Str? && e.value.s != ""
  {
    match o
    case SpawnError(message) => OnSpawnError(h, message)
    case Exited(code, stdout, stderr) =>
      if code == Some(0) then
        match parse(stdout)
        case Some(v) => Resolve(v)
        case None => Resolve(OnUnparsable(h, stdout))
      else OnExitFailure(h, code, stderr)
  }

  // ---------------------------------------------------------------------------
  // Per-handler guarantees

  /** Reads an integer field of a reply. */
  function NumField(v: Json.Value, key: string): Option<int> {
    match Json.Get(v, key)
    case Some(Num(n)) => Some(n)
    case _ => None
  }

  /** A disk report of zero total, used and free space. */
  predicate ZeroSpace(v: Json.Value) {
    NumField(v, "total") == Some(0) && NumField(v, "used") == Some(0) && NumField(v, "free") == Some(0)
  }

  /**
   * `get-disk-usage` never rejects, and whenever it cannot use the worker's
   * answer it reports zero total, used and free space.
   */
  lemma DiskUsageNeverRejects(o: ProcessOutcome, parse: string -> Option<Json.Value>)
    ensures Settle(GetDiskUsage, o, parse).Resolve?
    ensures !(ExitedCleanly(o) && parse(o.stdout).Some?) ==>
      var v := Settle(GetDiskUsage, o, parse).value;
      ZeroSpace(v)
  {
  }

  /** `get-prefs` and `get-exclusions` never reject and fall back to `{}` and `{exclusions: []}`. */
  lemma ReadersNeverReject(o: ProcessOutcome, parse: string -> Option<Json.Value>)
    ensures Settle(GetPrefs, o, parse).Resolve? && Settle(GetExclusions, o, parse).Resolve?
    ensures !(ExitedCleanly(o) && parse(o.stdout).Some?) ==>
      Settle(GetPrefs, o, parse) == Resolve(Json.Obj([]))
      && Settle(GetExclusions, o, parse) == Resolve(NoExclusions())
  {
  }

  /**
   * `get-history` and `get-stats` reject on an unsuccessful exit but fall
   * back to empty lists / zero counters when the output is unparsable or the
   * worker cannot start.
   */
  lemma HistoryAndStatsFallbacks(o: ProcessOutcome, parse: string -> Option<Json.Value>)
    ensures Settle(GetHistory, o, parse).Reject? <==> o.Exited? && !ExitedCleanly(o)
    ensures Settle(GetStats, o, parse).Reject? <==> o.Exited? && !ExitedCleanly(o)
    ensures o.SpawnError? || (ExitedCleanly(o) && parse(o.stdout).None?) ==>
      Settle(GetHistory, o, parse) == Resolve(EmptyHistory())
      && Settle(GetStats, o, parse) == Resolve(ZeroStats())
  {
  }

  /**
   * The three mutating handlers never reject: a failed process reads as
   * `{success: false}`, an unparsable clean exit as `{success: true}`.
   */
  lemma MutationsReportSuccessFlag(h: Handler, o: ProcessOutcome, parse: string -> Option<Json.Value>)
    requires h.SetPref? || h.AddExclusion? || h.RemoveExclusion?
    ensures Settle(h, o, parse).Resolve?
    ensures !ExitedCleanly(o) ==> Settle(h, o, parse) == Resolve(SuccessFlag(false))
    ensures ExitedCleanly(o) && parse(o.stdout).None? ==> Settle(h, o, parse) == Resolve(SuccessFlag(true))
  {
  }

  /**
   * A scan or cleanup that fails with an empty stderr rejects with the
   * handler's default message and the exit code.
   */
  lemma DefaultFailureMessages(code: Option<int>, items: seq<string>, quick: bool,
                               parse: string -> Option<Json.Value>)
    requires code != Some(0)
    ensures Settle(RunScan(quick), Exited(code, "", ""), parse) == Reject(ErrorWithCode("Scan failed", code))
    ensures Settle(ExecuteCleanup(items), Exited(code, "", ""), parse) == Reject(ErrorWithCode("Cleanup failed", code))
  {
  }

  // ---------------------------------------------------------------------------
  // check-for-updates

  /** What the updater's `checkForUpdates` did: threw, or reported a version (perhaps none). */
  datatype UpdaterOutcome = UpdaterThrew(error: string) | UpdaterReported(version: Option<string>)

  function DevModeReply(): Json.Value {
    Json.Object([Field("available", Json.Bool(false)),
                 Field("message", Json.Str("Updates disabled in development mode"))])
  }

  /**
   * `check-for-updates`: a development build answers without asking the
   * updater; otherwise an update is available iff the reported version
   * differs from the running one (a missing version counts as different),
   * and a failing check reports none.
   */
  function CheckForUpdates(isPackaged: bool, appVersion: string, updater: UpdaterOutcome): (r: Json.Value)
    ensures !isPackaged ==> r == DevModeReply()
    ensures isPackaged && updater.UpdaterReported? ==>
      Json.Get(r, "available") == Some(Json.Bool(updater.version != Some(appVersion)))
    ensures isPackaged && updater.UpdaterThrew? ==>
      Json.Get(r, "available") == Some(Json.Bool(false)) && Json.Get(r, "error") == Some(Json.Str(updater.error))
  {
    if !isPackaged then DevModeReply()
    else
      match updater
      case UpdaterReported(version) =>
        var r := Json.Object([Field("available", Json.Bool(version != Some(appVersion)))]);
        assert r.members[0].key == "available";
        r
      case UpdaterThrew(error) =>
        var r := Json.Object([Field("available", Json.Bool(false)), Field("error", Json.Str(error))]);
        assert r.members[1].key == "error" && r.members[0].key != "error";
        r
  }

  /** In development mode the updater's behaviour cannot influence the reply. */
  lemma DevModeIgnoresUpdater(appVersion: string, a: UpdaterOutcome, b: UpdaterOutcome)
    ensures CheckForUpdates(false, appVersion, a) == CheckForUpdates(false, appVersion, b)
  {
  }
}
