/**
 * The worker's command-line entry point (python/main.py): parsing the
 * argument vector, choosing exactly one command by a fixed precedence,
 * validating the cleanup request and decoding preference values.
 */
module WorkerCli {
  import opened Base
  import Json
  import Text
  import Cleaner

  datatype OutputFormat = JsonOutput | TextOutput

  /** The parsed options; a flag that was never given keeps its default. */
  datatype Args = Args(
    scan: bool,
    clean: bool,
    quick: bool,
    history: bool,
    stats: bool,
    securityScan: bool,
    performanceScan: bool,
    diskUsage: bool,
    getPrefs: bool,
    setPref: Option<(string, string)>,
    getExclusions: bool,
    addExclusion: Option<string>,
    removeExclusion: Option<string>,
    items: Option<string>,
    output: OutputFormat,
    useTrash: bool,
    scanId: Option<int>)

  /** The defaults: no command, text output, trash on (`--use-trash` defaults to true). */
  const NoArgs := Args(false, false, false, false, false, false, false, false, false,
                       None, false, None, None, None, TextOutput, true, None)

  /** The command `main` runs; `Help` prints the usage and exits with status 1. */
  datatype Command =
    | Scan | Clean | History | Stats | SecurityScan | PerformanceScan | DiskUsage
    | GetPrefs | SetPref | GetExclusions | AddExclusion | RemoveExclusion | Help

  // ---------------------------------------------------------------------------
  // Argument parsing

  /**
   * A token argparse accepts as an option's value rather than as an option:
   * the empty string, anything not starting with `-`, a lone `-`, a negative
   * integer, or anything containing a space.
   */
  predicate IsValueToken(t: string)
    ensures |t| == 0 || t[0] != '-' ==> IsValueToken(t)
    ensures |t| >= 2 && t[0] == '-' && !Text.IsDigit(t[1]) && ' ' !in t ==> !IsValueToken(t)
  {
    assert |t| >= 2 ==> t[1..][0] == t[1];
    |t| == 0 || t[0] != '-' || |t| == 1 || Text.AllDigits(t[1..]) || ' ' in t
  }

  /** How parsing ends: with options, with `--help` (status 0), or with a usage error (status 2). */
  datatype ParseOutcome = Parsed(args: Args) | HelpRequested | UsageError(message: string)

  const SwitchFlags: set<string> := {
    "--scan", "--clean", "--quick", "--history", "--stats", "--security-scan",
    "--performance-scan", "--disk-usage", "--get-prefs", "--get-exclusions", "--use-trash"}

  /** Sets the `store_true` option named by `flag`. */
  function SetSwitch(a: Args, flag: string): Args
    requires flag in SwitchFlags
  {
    match flag
    case "--scan" => a.(scan := true)
    case "--clean" => a.(clean := true)
    case "--quick" => a.(quick := true)
    case "--history" => a.(history := true)
    case "--stats" => a.(stats := true)
    case "--security-scan" => a.(securityScan := true)
    case "--performance-scan" => a.(performanceScan := true)
    case "--disk-usage" => a.(diskUsage := true)
    case "--get-prefs" => a.(getPrefs := true)
    case "--get-exclusions" => a.(getExclusions := true)
    case _ => a.(useTrash := true)
  }

  /**
   * argparse on the options `main` declares, from token `i` on. Unknown
   * tokens are collected and reported only after the whole vector has been
   * read, which is why `--help` wins over them; a missing or invalid option
   * value is reported at once. Long options must be written in full.
   */
  function ParseFrom(ts: seq<string>, i: nat, a: Args, unknown: bool): (r: ParseOutcome)
    requires i <= |ts|
    ensures r.Parsed? ==> !unknown
    decreases |ts| - i
  {
    if i == |ts| then (if unknown then UsageError("unrecognized arguments") else Parsed(a))
    else
      var t := ts[i];
      var hasValue := i + 1 < |ts| && IsValueToken(ts[i + 1]);
      if t == "-h" || t == "--help" then HelpRequested
      else if t in SwitchFlags then ParseFrom(ts, i + 1, SetSwitch(a, t), unknown)
      else if t == "--set-pref" then
        if i + 2 < |ts| && IsValueToken(ts[i + 1]) && IsValueToken(ts[i + 2]) then
          ParseFrom(ts, i + 3, a.(setPref := Some((ts[i + 1], ts[i + 2]))), unknown)
        else UsageError("argument --set-pref: expected 2 arguments")
      else if t == "--add-exclusion" || t == "--remove-exclusion" || t == "--items" then
        if !hasValue then UsageError("argument " + t + ": expected one argument")
        else
          var v := ts[i + 1];
          var a' := if t == "--add-exclusion" then a.(addExclusion := Some(v))
                    else if t == "--remove-exclusion" then a.(removeExclusion := Some(v))
                    else a.(items := Some(v));
          ParseFrom(ts, i + 2, a', unknown)
      else if t == "--output" then
        if !hasValue then UsageError("argument --output: expected one argument")
        else if ts[i + 1] == "json" then ParseFrom(ts, i + 2, a.(output := JsonOutput), unknown)
        else if ts[i + 1] == "text" then ParseFrom(ts, i + 2, a.(output := TextOutput), unknown)
        else UsageError("argument --output: invalid choice")
      else if t == "--scan-id" then
        if !hasValue then UsageError("argument --scan-id: expected one argument")
        else
          match Text.ParseInt(ts[i + 1])
          case Some(n) => ParseFrom(ts, i + 2, a.(scanId := Some(n)), unknown)
          case None => UsageError("argument --scan-id: invalid int value")
      else ParseFrom(ts, i + 1, a, true)
  }

  /**
   * `parse_args` on the worker's argument vector: options in any order, the
   * last occurrence of an option winning. A vector holding `-h` or `--help`
   * never yields options.
   */
  function ParseArgv(ts: seq<string>): (r: ParseOutcome)
    ensures r.Parsed? ==> forall k :: 0 <= k < |ts| ==> ts[k] != "-h" && ts[k] != "--help"
  {
    HelpNeverParses(ts, 0, NoArgs, false);
    ParseFrom(ts, 0, NoArgs, false)
  }

  /** No token from `i` on that asks for help is ever consumed as an option's value. */
  lemma {:induction false} HelpNeverParses(ts: seq<string>, i: nat, a: Args, unknown: bool)
    requires i <= |ts|
    ensures ParseFrom(ts, i, a, unknown).Parsed? ==>
      forall k :: i <= k < |ts| ==> ts[k] != "-h" && ts[k] != "--help"
    decreases |ts| - i
  {
    if i < |ts| {
      var t := ts[i];
      assert !IsValueToken("-h") && !IsValueToken("--help");
      if t == "-h" || t == "--help" {
      } else if t in SwitchFlags {
        HelpNeverParses(ts, i + 1, SetSwitch(a, t), unknown);
      } else if t == "--set-pref" {
        if i + 2 < |ts| && IsValueToken(ts[i + 1]) && IsValueToken(ts[i + 2]) {
          HelpNeverParses(ts, i + 3, a.(setPref := Some((ts[i + 1], ts[i + 2]))), unknown);
        }
      } else if t == "--add-exclusion" || t == "--remove-exclusion" || t == "--items" {
        if i + 1 < |ts| && IsValueToken(ts[i + 1]) {
          var v := ts[i + 1];
          var a' := if t == "--add-exclusion" then a.(addExclusion := Some(v))
                    else if t == "--remove-exclusion" then a.(removeExclusion := Some(v))
                    else a.(items := Some(v));
          HelpNeverParses(ts, i + 2, a', unknown);
        }
      } else if t == "--output" {
        if i + 1 < |ts| && IsValueToken(ts[i + 1]) {
          HelpNeverParses(ts, i + 2, a.(output := JsonOutput), unknown);
          HelpNeverParses(ts, i + 2, a.(output := TextOutput), unknown);
        }
      } else if t == "--scan-id" {
        if i + 1 < |ts| && IsValueToken(ts[i + 1]) && Text.ParseInt(ts[i + 1]).Some? {
          HelpNeverParses(ts, i + 2, a.(scanId := Some(Text.ParseInt(ts[i + 1]).value)), unknown);
        }
      } else {
        HelpNeverParses(ts, i + 1, a, true);
      }
    }
  }

  /** An unknown token is reported only after the whole vector is read: a later `--help` still wins. */
  lemma UnknownTokenReportedLast()
    ensures ParseArgv(["--bogus", "--help"]) == HelpRequested
    ensures ParseArgv(["--bogus", "--scan"]) == UsageError("unrecognized arguments")
    ensures ParseArgv(["--scan", "--bogus"]) == UsageError("unrecognized arguments")
  {
  }

  /** A switch sets its option, and parsing goes on with the next token. */
  lemma ParseSwitch(ts: seq<string>, i: nat, a: Args, unknown: bool)
    requires i < |ts| && ts[i] in SwitchFlags
    ensures ParseFrom(ts, i, a, unknown) == ParseFrom(ts, i + 1, SetSwitch(a, ts[i]), unknown)
  {
    assert ts[i] != "-h" && ts[i] != "--help";
  }

  /** `--output json` selects JSON output, and parsing goes on after the value. */
  lemma ParseOutputJson(ts: seq<string>, i: nat, a: Args, unknown: bool)
    requires i + 1 < |ts| && ts[i] == "--output" && ts[i + 1] == "json"
    ensures ParseFrom(ts, i, a, unknown) == ParseFrom(ts, i + 2, a.(output := JsonOutput), unknown)
  {
    assert "--output" !in SwitchFlags;
    assert IsValueToken(ts[i + 1]);
  }

  /** An exclusion edit or `--items` followed by a value token stores it, and parsing goes on after it. */
  lemma ParseOneValue(ts: seq<string>, i: nat, a: Args, unknown: bool)
    requires i + 1 < |ts| && IsValueToken(ts[i + 1])
    requires ts[i] == "--add-exclusion" || ts[i] == "--remove-exclusion" || ts[i] == "--items"
    ensures ts[i] == "--add-exclusion" ==>
      ParseFrom(ts, i, a, unknown) == ParseFrom(ts, i + 2, a.(addExclusion := Some(ts[i + 1])), unknown)
    ensures ts[i] == "--remove-exclusion" ==>
      ParseFrom(ts, i, a, unknown) == ParseFrom(ts, i + 2, a.(removeExclusion := Some(ts[i + 1])), unknown)
    ensures ts[i] == "--items" ==>
      ParseFrom(ts, i, a, unknown) == ParseFrom(ts, i + 2, a.(items := Some(ts[i + 1])), unknown)
  {
    assert ts[i] !in SwitchFlags && ts[i] != "--set-pref";
  }

  /** An exclusion edit whose next token reads as an option is a usage error. */
  lemma ParseMissingValue(ts: seq<string>, i: nat, a: Args, unknown: bool)
    requires i + 1 < |ts| && !IsValueToken(ts[i + 1])
    requires ts[i] == "--add-exclusion" || ts[i] == "--remove-exclusion"
    ensures ParseFrom(ts, i, a, unknown).UsageError?
  {
    assert ts[i] !in SwitchFlags && ts[i] != "--set-pref";
  }

  /** `--set-pref` followed by two value tokens stores the pair, and parsing goes on after them. */
  lemma ParseSetPref(ts: seq<string>, i: nat, a: Args, unknown: bool)
    requires i + 2 < |ts| && ts[i] == "--set-pref" && IsValueToken(ts[i + 1]) && IsValueToken(ts[i + 2])
    ensures ParseFrom(ts, i, a, unknown) == ParseFrom(ts, i + 3, a.(setPref := Some((ts[i + 1], ts[i + 2]))), unknown)
  {
    assert "--set-pref" !in SwitchFlags;
  }

  // ---------------------------------------------------------------------------
  // Dispatch

  /** Python truthiness of an optional string option: absent or empty is false. */
  predicate Given(o: Option<string>) {
    o.Some? && o.value != ""
  }

  /** Whether the options ask for `c` (argparse's value is truthy). */
  predicate Requested(a: Args, c: Command) {
    match c
    case Scan => a.scan
    case Clean => a.clean
    case History => a.history
    case Stats => a.stats
    case SecurityScan => a.securityScan
    case PerformanceScan => a.performanceScan
    case DiskUsage => a.diskUsage
    case GetPrefs => a.getPrefs
    case SetPref => a.setPref.Some?
    case GetExclusions => a.getExclusions
    case AddExclusion => Given(a.addExclusion)
    case RemoveExclusion => Given(a.removeExclusion)
    case Help => false
  }

  /** The precedence of each command: lower runs first. */
  function Rank(c: Command): nat {
    match c
    case Scan => 0
    case Clean => 1
    case History => 2
    case Stats => 3
    case SecurityScan => 4
    case PerformanceScan => 5
    case DiskUsage => 6
    case GetPrefs => 7
    case SetPref => 8
    case GetExclusions => 9
    case AddExclusion => 10
    case RemoveExclusion => 11
    case Help => 12
  }

  /**
   * `main`'s if/elif chain: the requested command of lowest rank, or help
   * when nothing is requested.
   */
  function Dispatch(a: Args): (c: Command)
    ensures c != Help ==> Requested(a, c)
    ensures forall c' :: Rank(c') < Rank(c) ==> !Requested(a, c')
    ensures c == Help ==> forall c' :: !Requested(a, c')
  {
    if a.scan then Scan
    else if a.clean then Clean
    else if a.history then History
    else if a.stats then Stats
    else if a.securityScan then SecurityScan
    else if a.performanceScan then PerformanceScan
    else if a.diskUsage then DiskUsage
    else if a.getPrefs then GetPrefs
    else if a.setPref.Some? then SetPref
    else if a.getExclusions then GetExclusions
    else if Given(a.addExclusion) then AddExclusion
    else if Given(a.removeExclusion) then RemoveExclusion
    else Help
  }

  /** Two commands requested together: the one of lower rank wins, whatever the other. */
  lemma PrecedenceDecides(a: Args, c1: Command, c2: Command)
    requires Requested(a, c1) && Requested(a, c2) && Rank(c1) < Rank(c2)
    ensures Dispatch(a) != c2
  {
  }

  /** An empty exclusion path is falsy: with no other command it ends in help, not in `add_exclusion`. */
  lemma EmptyExclusionFallsThrough()
    ensures Dispatch(NoArgs.(addExclusion := Some(""))) == Help
  {
  }

  /**
   * The process exit status of `main`. `parse` is the JSON parser `run_clean`
   * applies to `--items`, and `raises` says whether the command that runs
   * ends in an uncaught exception, which Python reports with status 1.
   */
  function ExitStatus(p: ParseOutcome, parse: string -> Option<Json.Value>, raises: bool): (r: int)
    ensures p.UsageError? ==> r == 2
    ensures p.HelpRequested? ==> r == 0
    ensures p.Parsed? ==> r == 0 || r == 1
    ensures p.Parsed? ==>
      (r == 1 <==> (|| Dispatch(p.args) == Help
                    || (Dispatch(p.args) == Clean && !ValidateClean(p.args, parse).Proceed?)
                    || raises))
  {
    match p
    case UsageError(_) => 2
    case HelpRequested => 0
    case Parsed(a) =>
      var c := Dispatch(a);
      if c == Help then 1
      else if c == Clean && !ValidateClean(a, parse).Proceed? then 1
      else if raises then 1
      else 0
  }

  /** `--clean` without `--items` parses, yet exits with status 1 whatever the parser. */
  lemma CleanWithoutItemsFails(parse: string -> Option<Json.Value>, raises: bool)
    ensures ExitStatus(Parsed(NoArgs.(clean := true)), parse, raises) == 1
  {
  }

  // ---------------------------------------------------------------------------
  // run_clean

  /** What `run_clean` does before it touches any file. */
  datatype CleanStart = MissingItems | InvalidItems | Proceed(paths: Json.Value)

  /**
   * `run_clean`'s validation: an absent or empty `--items` and a value that
   * is not JSON both exit with status 1 before the cleaner is created.
   */
  function ValidateClean(a: Args, parse: string -> Option<Json.Value>): (r: CleanStart)
    ensures r.MissingItems? <==> !Given(a.items)
    ensures r.InvalidItems? <==> Given(a.items) && parse(a.items.value).None?
    ensures r.Proceed? ==> Given(a.items) && parse(a.items.value) == Some(r.paths)
  {
    if !Given(a.items) then MissingItems
    else match parse(a.items.value)
      case None => InvalidItems
      case Some(v) => Proceed(v)
  }

  /** The row `run_clean` stores in the database. */
  datatype CleanupRecord = CleanupRecord(
    scanId: Option<int>,
    itemsDeleted: nat,
    itemsFailed: nat,
    bytesFreed: nat,
    deletedPaths: Option<Json.Value>)

  /** The stored row records the requested paths as deleted only when the cleanup succeeded. */
  function RecordCleanup(a: Args, paths: Json.Value, result: Cleaner.CleanupResult): (r: CleanupRecord)
    ensures r.deletedPaths.Some? <==> result.success
    ensures r.deletedPaths.Some? ==> r.deletedPaths.value == paths
    ensures r.itemsDeleted == result.itemsDeleted && r.itemsFailed == result.itemsFailed
    ensures r.bytesFreed == result.freedBytes && r.scanId == a.scanId
  {
    CleanupRecord(a.scanId, result.itemsDeleted, result.itemsFailed, result.freedBytes,
                  if result.success then Some(paths) else None)
  }

  // ---------------------------------------------------------------------------
  // set_preference

  /**
   * `set_preference`'s decoding of the value argument: `true`/`false` in any
   * letter case become booleans, other JSON text is decoded, and anything
   * else is kept as the raw string.
   */
  function DecodePrefValue(value: string, parse: string -> Option<Json.Value>): (r: Json.Value)
    ensures Text.Lower(value) == "true" ==> r == Json.Bool(true)
    ensures Text.Lower(value) == "false" ==> r == Json.Bool(false)
    ensures Text.Lower(value) != "true" && Text.Lower(value) != "false" ==>
      r == (if parse(value).Some? then parse(value).value else Json.Str(value))
  {
    var lowered := Text.Lower(value);
    if lowered == "true" || lowered == "false" then Json.Bool(lowered == "true")
    else match parse(value)
      case Some(v) => v
      case None => Json.Str(value)
  }

  /** The letter case of a boolean value does not matter. */
  lemma BooleanDecodingIgnoresCase(parse: string -> Option<Json.Value>)
    ensures DecodePrefValue("TRUE", parse) == Json.Bool(true)
    ensures DecodePrefValue("False", parse) == Json.Bool(false)
  {
    assert Text.Lower("TRUE") == "true";
    assert Text.Lower("False") == "false";
  }

  /** The JSON reply of `set_preference`, which always reports success. */
  function SetPreferenceReply(key: string, value: string, parse: string -> Option<Json.Value>): (r: Json.Value)
    ensures Json.Get(r, "success") == Some(Json.Bool(true))
    ensures Json.Get(r, "value") == Some(DecodePrefValue(value, parse))
  {
    var r := Json.Object([("success", Json.Bool(true)), ("key", Json.Str(key)),
                          ("value", DecodePrefValue(value, parse))]);
    assert r.members[0].key == "success" && r.members[1].key == "key" && r.members[2].key == "value";
    r
  }
}
