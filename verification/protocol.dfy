/**
 * The two processes together: the argument vector the main process builds
 * (electron/main.ts) read back by the worker's parser and dispatch
 * (python/main.py), the preference value's trip across the command line, and
 * what the settings page sees of a worker that failed.
 */
module Protocol {
  import opened Base
  import Text
  import Json
  import WorkerIpc
  import WorkerCli
  import ResultsPage
  import SettingsPage

  /** The worker command each handler means to run. */
  function CommandOf(h: WorkerIpc.Handler): WorkerCli.Command {
    match h
    case RunScan(_) => WorkerCli.Scan
    case ExecuteCleanup(_) => WorkerCli.Clean
    case GetDiskUsage => WorkerCli.DiskUsage
    case GetHistory => WorkerCli.History
    case GetStats => WorkerCli.Stats
    case GetPrefs => WorkerCli.GetPrefs
    case SetPref(_, _) => WorkerCli.SetPref
    case GetExclusions => WorkerCli.GetExclusions
    case AddExclusion(_) => WorkerCli.AddExclusion
    case RemoveExclusion(_) => WorkerCli.RemoveExclusion
  }

  /** The worker's reading of a handler's vector ends in the intended command, with JSON output. */
  predicate Understood(h: WorkerIpc.Handler) {
    var p := WorkerCli.ParseArgv(WorkerIpc.Argv(h));
    p.Parsed? && p.args.output == WorkerCli.JsonOutput && WorkerCli.Dispatch(p.args) == CommandOf(h)
  }

  /** A handler whose vector is a switch followed by `--output json` is parsed as that switch alone. */
  lemma SwitchOnlyParses(h: WorkerIpc.Handler, flag: string)
    requires WorkerIpc.Argv(h) == [flag, "--output", "json"] && flag in WorkerCli.SwitchFlags
    ensures WorkerCli.ParseArgv(WorkerIpc.Argv(h))
      == WorkerCli.Parsed(WorkerCli.SetSwitch(WorkerCli.NoArgs, flag).(output := WorkerCli.JsonOutput))
  {
    var ts := WorkerIpc.Argv(h);
    WorkerCli.ParseSwitch(ts, 0, WorkerCli.NoArgs, false);
    WorkerCli.ParseOutputJson(ts, 1, WorkerCli.SetSwitch(WorkerCli.NoArgs, flag), false);
  }

  /** Each handler without arguments of its own is understood. */
  lemma DiskUsageUnderstood()
    ensures Understood(WorkerIpc.GetDiskUsage)
  {
    SwitchOnlyParses(WorkerIpc.GetDiskUsage, "--disk-usage");
  }

  lemma HistoryUnderstood()
    ensures Understood(WorkerIpc.GetHistory)
  {
    SwitchOnlyParses(WorkerIpc.GetHistory, "--history");
  }

  lemma StatsUnderstood()
    ensures Understood(WorkerIpc.GetStats)
  {
    SwitchOnlyParses(WorkerIpc.GetStats, "--stats");
  }

  lemma GetPrefsUnderstood()
    ensures Understood(WorkerIpc.GetPrefs)
  {
    SwitchOnlyParses(WorkerIpc.GetPrefs, "--get-prefs");
  }

  lemma GetExclusionsUnderstood()
    ensures Understood(WorkerIpc.GetExclusions)
  {
    SwitchOnlyParses(WorkerIpc.GetExclusions, "--get-exclusions");
  }

  /** The handlers without arguments of their own are understood. */
  lemma PlainHandlersUnderstood(h: WorkerIpc.Handler)
    requires h.GetDiskUsage? || h.GetHistory? || h.GetStats? || h.GetPrefs? || h.GetExclusions?
    ensures Understood(h)
  {
    match h {
      case GetDiskUsage => DiskUsageUnderstood();
      case GetHistory => HistoryUnderstood();
      case GetStats => StatsUnderstood();
      case GetPrefs => GetPrefsUnderstood();
      case GetExclusions => GetExclusionsUnderstood();
    }
  }

  /** A scan request is understood, and the quick flag arrives as sent. */
  lemma ScanUnderstood(quick: bool)
    ensures Understood(WorkerIpc.RunScan(quick))
    ensures WorkerCli.ParseArgv(WorkerIpc.Argv(WorkerIpc.RunScan(quick))).args.quick == quick
  {
    var ts := WorkerIpc.Argv(WorkerIpc.RunScan(quick));
    var a := WorkerCli.NoArgs.(scan := true);
    WorkerCli.ParseSwitch(ts, 0, WorkerCli.NoArgs, false);
    WorkerCli.ParseOutputJson(ts, 1, a, false);
    if quick {
      WorkerCli.ParseSwitch(ts, 3, a.(output := WorkerCli.JsonOutput), false);
    }
  }

  /** A cleanup request is understood, and the item list arrives as its JSON text. */
  lemma CleanupUnderstood(items: seq<string>)
    ensures Understood(WorkerIpc.ExecuteCleanup(items))
    ensures WorkerCli.ParseArgv(WorkerIpc.Argv(WorkerIpc.ExecuteCleanup(items))).args.items
      == Some(Json.Stringify(Json.StringArray(items)))
  {
    var text := Json.Stringify(Json.StringArray(items));
    assert text[0] == '[';
    var ts := WorkerIpc.Argv(WorkerIpc.ExecuteCleanup(items));
    assert ts == ["--clean", "--items", text, "--output", "json"];
    var a := WorkerCli.NoArgs.(clean := true);
    WorkerCli.ParseSwitch(ts, 0, WorkerCli.NoArgs, false);
    WorkerCli.ParseOneValue(ts, 1, a, false);
    WorkerCli.ParseOutputJson(ts, 3, a.(items := Some(text)), false);
  }

  /** `set-pref` is understood as long as neither key nor value reads as an option. */
  lemma SetPrefUnderstood(key: string, value: Json.Value)
    requires WorkerCli.IsValueToken(key) && WorkerCli.IsValueToken(WorkerIpc.PrefValueArg(value))
    ensures Understood(WorkerIpc.SetPref(key, value))
    ensures WorkerCli.ParseArgv(WorkerIpc.Argv(WorkerIpc.SetPref(key, value))).args.setPref
      == Some((key, WorkerIpc.PrefValueArg(value)))
  {
    var v := WorkerIpc.PrefValueArg(value);
    var ts := WorkerIpc.Argv(WorkerIpc.SetPref(key, value));
    assert ts == ["--set-pref", key, v, "--output", "json"];
    WorkerCli.ParseSetPref(ts, 0, WorkerCli.NoArgs, false);
    WorkerCli.ParseOutputJson(ts, 3, WorkerCli.NoArgs.(setPref := Some((key, v))), false);
  }

  /** Adding an exclusion is understood when its path is non-empty and does not read as an option. */
  lemma AddExclusionUnderstood(path: string)
    requires path != "" && WorkerCli.IsValueToken(path)
    ensures Understood(WorkerIpc.AddExclusion(path))
  {
    var ts := WorkerIpc.Argv(WorkerIpc.AddExclusion(path));
    assert ts == ["--add-exclusion", path, "--output", "json"];
    WorkerCli.ParseOneValue(ts, 0, WorkerCli.NoArgs, false);
    WorkerCli.ParseOutputJson(ts, 2, WorkerCli.NoArgs.(addExclusion := Some(path)), false);
  }

  /** Removing an exclusion is understood under the same condition. */
  lemma RemoveExclusionUnderstood(path: string)
    requires path != "" && WorkerCli.IsValueToken(path)
    ensures Understood(WorkerIpc.RemoveExclusion(path))
  {
    var ts := WorkerIpc.Argv(WorkerIpc.RemoveExclusion(path));
    assert ts == ["--remove-exclusion", path, "--output", "json"];
    WorkerCli.ParseOneValue(ts, 0, WorkerCli.NoArgs, false);
    WorkerCli.ParseOutputJson(ts, 2, WorkerCli.NoArgs.(removeExclusion := Some(path)), false);
  }

  /** An empty path reaches the worker, which falls through to its usage text. */
  lemma EmptyExclusionPrintsHelp()
    ensures var p := WorkerCli.ParseArgv(WorkerIpc.Argv(WorkerIpc.AddExclusion("")));
      p.Parsed? && WorkerCli.Dispatch(p.args) == WorkerCli.Help
  {
    var ts := WorkerIpc.Argv(WorkerIpc.AddExclusion(""));
    assert ts == ["--add-exclusion", "", "--output", "json"];
    WorkerCli.ParseOneValue(ts, 0, WorkerCli.NoArgs, false);
    WorkerCli.ParseOutputJson(ts, 2, WorkerCli.NoArgs.(addExclusion := Some("")), false);
  }

  /** A path that starts like an option is refused by the worker's parser. */
  lemma OptionLikePathRefused()
    ensures WorkerCli.ParseArgv(WorkerIpc.Argv(WorkerIpc.AddExclusion("--tmp"))).UsageError?
  {
    var ts := WorkerIpc.Argv(WorkerIpc.AddExclusion("--tmp"));
    assert ts == ["--add-exclusion", "--tmp", "--output", "json"];
    assert !Text.IsDigit("--tmp"[1..][0]);
    WorkerCli.ParseMissingValue(ts, 0, WorkerCli.NoArgs, false);
  }

  /** A boolean preference survives the trip: `toString` on one side, case-insensitive decoding on the other. */
  lemma BooleanPreferenceRoundTrip(b: bool, parse: string -> Option<Json.Value>)
    ensures WorkerCli.DecodePrefValue(WorkerIpc.PrefValueArg(Json.Bool(b)), parse) == Json.Bool(b)
  {
    assert Text.Lower("true") == "true";
    assert Text.Lower("false") == "false";
  }

  /**
   * `set-pref` never rejects, so the settings page never rolls a toggle back
   * for a failed worker: whatever the process did, the flipped value stays.
   */
  lemma ToggleSurvivesWorkerFailure(p: SettingsPage.Page, key: string, o: WorkerIpc.ProcessOutcome,
                                    parse: string -> Option<Json.Value>)
    ensures var reply := WorkerIpc.Settle(WorkerIpc.SetPref(key, Json.Bool(SettingsPage.Flipped(p.settings, key))), o, parse);
      reply.Resolve?
      && SettingsPage.Toggle(p, key, true, ResultsPage.Resolved(reply.value)).settings[key]
         == Json.Bool(SettingsPage.Flipped(p.settings, key))
  {
  }

  /** A worker that exits unsuccessfully while adding an exclusion makes the page take the path out again. */
  lemma FailedWorkerRollsBackExclusion(p: SettingsPage.Page, code: int, stdout: string, stderr: string,
                                       parse: string -> Option<Json.Value>)
    requires code != 0
    requires Text.JsTrim(p.newExclusion) != "" && Text.JsTrim(p.newExclusion) !in p.exclusions
    ensures var reply := WorkerIpc.Settle(WorkerIpc.AddExclusion(Text.JsTrim(p.newExclusion)),
                                          WorkerIpc.Exited(Some(code), stdout, stderr), parse);
      reply.Resolve?
      && SettingsPage.AddExclusion(p, true, ResultsPage.Resolved(reply.value)).exclusions == p.exclusions
  {
    var h := WorkerIpc.AddExclusion(Text.JsTrim(p.newExclusion));
    var flag := WorkerIpc.SuccessFlag(false);
    assert WorkerIpc.OnExitFailure(h, Some(code), stderr) == WorkerIpc.Resolve(flag);
    assert WorkerIpc.Settle(h, WorkerIpc.Exited(Some(code), stdout, stderr), parse) == WorkerIpc.Resolve(flag);
    assert flag.members[0] == Json.Member("success", Json.Bool(false));
    assert !SettingsPage.Succeeded(ResultsPage.Resolved(flag));
  }
}
