/**
 * The worker's per-platform safety table and the checks built on it
 * (python/cleaners/safety_rules.py). Paths are compared as strings after a
 * normalisation step (expanding `~` and environment variables, making the
 * path absolute and lower-casing it); that step depends on the host and is a
 * parameter `norm` here.
 */
module SafetyRules {
  import opened Base

  /** The two lists of one platform. */
  datatype Rules = Rules(neverDelete: seq<string>, requireConfirmation: seq<string>)

  const WindowsRules := Rules(
    [ "C:\\Windows\\System32", "C:\\Windows\\SysWOW64", "C:\\Windows\\WinSxS",
      "C:\\Program Files", "C:\\Program Files (x86)", "C:\\ProgramData\\Microsoft",
      "%USERPROFILE%\\Documents", "%USERPROFILE%\\Desktop", "%USERPROFILE%\\Pictures",
      "%USERPROFILE%\\Videos", "%USERPROFILE%\\Music", "%USERPROFILE%\\Downloads",
      "%USERPROFILE%\\.ssh", "%APPDATA%\\Microsoft\\Windows\\Start Menu" ],
    [ "C:\\Windows\\SoftwareDistribution", "C:\\Windows\\Logs",
      "%LOCALAPPDATA%\\Microsoft\\Windows\\Explorer" ])

  const DarwinRules := Rules(
    [ "/System", "/Library", "/usr/bin", "/usr/sbin", "/bin", "/sbin",
      "~/Documents", "~/Desktop", "~/Pictures", "~/Downloads", "~/.ssh" ],
    [ "~/Library/Caches", "/Library/Logs" ])

  const LinuxRules := Rules(
    [ "/bin", "/sbin", "/usr/bin", "/usr/sbin", "/etc", "/lib", "/lib64", "/boot", "/root",
      "~/.ssh", "~/.gnupg", "~/Documents", "~/Desktop", "~/Downloads" ],
    [ "/var/log", "/tmp", "~/.cache" ])

  /** The rule set of a platform name; any name not in the table uses the linux rules. */
  function RulesFor(osType: string): (r: Rules)
    ensures osType == "windows" ==> r == WindowsRules
    ensures osType == "darwin" ==> r == DarwinRules
    ensures osType !in {"windows", "darwin"} ==> r == LinuxRules
  {
    if osType == "windows" then WindowsRules
    else if osType == "darwin" then DarwinRules
    else LinuxRules
  }

  /** The index of the first entry satisfying `matches`, if any. */
  function FirstMatch(entries: seq<string>, matches: string -> bool): (r: Option<nat>)
    ensures r.Some? ==> r.value < |entries| && matches(entries[r.value])
    ensures r.Some? ==> forall j :: 0 <= j < r.value ==> !matches(entries[j])
    ensures r.None? <==> forall j :: 0 <= j < |entries| ==> !matches(entries[j])
  {
    if |entries| == 0 then None
    else if matches(entries[0]) then Some(0)
    else
      var rest := FirstMatch(entries[1..], matches);
      assert forall j :: 1 <= j < |entries| ==> entries[j] == entries[1..][j - 1];
      if rest.Some? then Some(rest.value + 1) else None
  }

  /** Either normalised path is a string prefix of the other. */
  predicate PrefixRelated(a: string, b: string) {
    a <= b || b <= a
  }

  /** A yes/no answer with its explanation, as the worker's tuples carry it. */
  datatype Verdict = Verdict(yes: bool, reason: string)

  /**
   * `is_path_protected`: protected iff the path and some never-delete entry
   * are prefixes of one another after normalisation — so ancestors of a
   * protected directory are protected too. The reason names the first such
   * entry, as written in the table.
   */
  function IsPathProtected(path: string, osType: string, norm: string -> string): (r: Verdict)
    ensures var never := RulesFor(osType).neverDelete;
      r.yes <==> exists i :: 0 <= i < |never| && PrefixRelated(norm(path), norm(never[i]))
    ensures var never := RulesFor(osType).neverDelete;
      r.yes ==> exists i :: (0 <= i < |never| && PrefixRelated(norm(path), norm(never[i]))
        && r.reason == "Protected system path: " + never[i]
        && forall j :: 0 <= j < i ==> !PrefixRelated(norm(path), norm(never[j])))
    ensures !r.yes ==> r.reason == "Path is safe to delete"
  {
    ProtectedBy(RulesFor(osType).neverDelete, norm(path), norm)
  }

  /** The protection test against any table of entries. */
  function ProtectedBy(never: seq<string>, np: string, norm: string -> string): (r: Verdict)
    ensures r.yes <==> exists i :: 0 <= i < |never| && PrefixRelated(np, norm(never[i]))
    ensures r.yes ==> exists i :: (0 <= i < |never| && PrefixRelated(np, norm(never[i]))
      && r.reason == "Protected system path: " + never[i]
      && forall j :: 0 <= j < i ==> !PrefixRelated(np, norm(never[j])))
    ensures !r.yes ==> r.reason == "Path is safe to delete"
  {
    match FirstMatch(never, e => PrefixRelated(np, norm(e)))
    case Some(i) => Verdict(true, "Protected system path: " + never[i])
    case None => Verdict(false, "Path is safe to delete")
  }

  /**
   * `requires_confirmation`: a one-directional test — the normalised path
   * starts with some normalised sensitive entry; the reason names the first
   * such entry.
   */
  function RequiresConfirmation(path: string, osType: string, norm: string -> string): (r: Verdict)
    ensures var sensitive := RulesFor(osType).requireConfirmation;
      r.yes <==> exists i :: 0 <= i < |sensitive| && norm(sensitive[i]) <= norm(path)
    ensures var sensitive := RulesFor(osType).requireConfirmation;
      r.yes ==> exists i :: (0 <= i < |sensitive| && norm(sensitive[i]) <= norm(path)
        && r.reason == "Sensitive location: " + sensitive[i]
        && forall j :: 0 <= j < i ==> !(norm(sensitive[j]) <= norm(path)))
    ensures !r.yes ==> r.reason == "No confirmation required"
  {
    SensitiveBy(RulesFor(osType).requireConfirmation, norm(path), norm)
  }

  /** The confirmation test against any table of entries. */
  function SensitiveBy(sensitive: seq<string>, np: string, norm: string -> string): (r: Verdict)
    ensures r.yes <==> exists i :: 0 <= i < |sensitive| && norm(sensitive[i]) <= np
    ensures r.yes ==> exists i :: (0 <= i < |sensitive| && norm(sensitive[i]) <= np
      && r.reason == "Sensitive location: " + sensitive[i]
      && forall j :: 0 <= j < i ==> !(norm(sensitive[j]) <= np))
    ensures !r.yes ==> r.reason == "No confirmation required"
  {
    match FirstMatch(sensitive, e => norm(e) <= np)
    case Some(i) => Verdict(true, "Sensitive location: " + sensitive[i])
    case None => Verdict(false, "No confirmation required")
  }

  /** `(is_safe, reason, requires_confirmation)`. */
  datatype Safety = Safety(isSafe: bool, reason: string, needsConfirmation: bool)

  /**
   * `validate_deletion_safety`: protection is checked first, then whether the
   * path is a regular file another process holds open (`locked`, what the
   * open-for-writing probe reports), then confirmation. Only a safe path can
   * need confirmation.
   */
  function ValidateDeletionSafety(path: string, osType: string, norm: string -> string,
                                  isFile: bool, locked: bool): (r: Safety)
    ensures IsPathProtected(path, osType, norm).yes ==>
      r == Safety(false, IsPathProtected(path, osType, norm).reason, false)
    ensures !IsPathProtected(path, osType, norm).yes && isFile && locked ==>
      r == Safety(false, "File is currently in use by another process", false)
    ensures r.isSafe <==> !IsPathProtected(path, osType, norm).yes && !(isFile && locked)
    ensures r.needsConfirmation <==> r.isSafe && RequiresConfirmation(path, osType, norm).yes
    ensures r.isSafe && !r.needsConfirmation ==> r.reason == "Safe to delete"
  {
    var protected := IsPathProtected(path, osType, norm);
    if protected.yes then Safety(false, protected.reason, false)
    else if isFile && locked then Safety(false, "File is currently in use by another process", false)
    else
      var confirm := RequiresConfirmation(path, osType, norm);
      if confirm.yes then Safety(true, confirm.reason, true)
      else Safety(true, "Safe to delete", false)
  }

  /** Both checks treat an unknown platform name exactly like linux. */
  lemma UnknownPlatformIsLinux(path: string, osType: string, norm: string -> string)
    requires osType !in {"windows", "darwin", "linux"}
    ensures IsPathProtected(path, osType, norm) == IsPathProtected(path, "linux", norm)
    ensures RequiresConfirmation(path, osType, norm) == RequiresConfirmation(path, "linux", norm)
  {
  }

  /**
   * The comparison is on strings, not on path components: a sibling whose
   * name merely extends a protected directory's name is protected too, and
   * so is the root, an ancestor of every entry.
   */
  lemma StringPrefixOvershoots(norm: string -> string)
    requires norm("/bin") == "/bin" && norm("/binaries") == "/binaries" && norm("/") == "/"
    ensures IsPathProtected("/binaries", "linux", norm) == Verdict(true, "Protected system path: /bin")
    ensures IsPathProtected("/", "linux", norm) == Verdict(true, "Protected system path: /bin")
  {
    RelatedToBinProtected("/binaries", norm);
    RelatedToBinProtected("/", norm);
  }

  /** On linux a path that is a prefix or an extension of `/bin` is protected because of `/bin`. */
  lemma RelatedToBinProtected(path: string, norm: string -> string)
    requires norm("/bin") == "/bin" && PrefixRelated(norm(path), "/bin")
    ensures IsPathProtected(path, "linux", norm) == Verdict(true, "Protected system path: /bin")
  {
    var never := LinuxRules.neverDelete;
    assert RulesFor("linux") == LinuxRules;
    assert never[0] == "/bin";
    FirstEntryDecides(never, norm(path), norm);
  }

  /** A path related to the table's first entry is protected on account of that entry. */
  lemma FirstEntryDecides(never: seq<string>, np: string, norm: string -> string)
    requires |never| > 0 && PrefixRelated(np, norm(never[0]))
    ensures ProtectedBy(never, np, norm) == Verdict(true, "Protected system path: " + never[0])
  {
  }
}
