/**
 * The rule-based parts of the worker's security scan
 * (python/security/security_scanner.py): which files are read, the cap on
 * how many, the false-positive filter, the severity rule for secret
 * patterns, and the tallies of the result. Regular-expression matching and
 * directory walking are not modelled: each walked file arrives with the
 * pattern matches found in it, and the sensitive-file and browser checks
 * arrive as finished findings.
 */
module SecurityScanner {
  import opened Base
  import Text
  import Tally

  /** One secret-pattern match: which pattern, on which line, and that line's text. */
  datatype Hit = Hit(patternName: string, lineNumber: nat, line: string)

  /** A file the directory walk yields; `size` is `None` when reading it raises. */
  datatype WalkedFile = WalkedFile(path: string, name: string, size: Option<nat>, hits: seq<Hit>)

  /** A scanned directory root: whether it exists and the files its walk yields, in order. */
  datatype ScanRoot = ScanRoot(exists_: bool, files: seq<WalkedFile>)

  datatype Finding = Finding(
    severity: string,
    category: string,
    title: string,
    path: string,
    lineNumber: Option<nat>)

  /** The scanner's limits. */
  datatype Limits = Limits(maxFileSize: nat, maxFiles: nat)

  datatype ScanReport = ScanReport(
    totalFindings: nat,
    findings: seq<Finding>,
    categories: Tally.Counter,
    severityCounts: Tally.Counter)

  /** The names of the secret patterns, in table order. */
  const PatternNames: seq<string> := [
    "AWS Access Key", "AWS Secret Key", "GitHub Token", "GitHub OAuth", "Google API Key",
    "Slack Token", "Stripe API Key", "Private Key", "Generic Password", "Generic API Key",
    "Generic Secret", "Database URL"]

  const CodeExtensions: set<string> := {
    ".py", ".js", ".ts", ".jsx", ".tsx", ".json", ".yaml", ".yml",
    ".env", ".ini", ".cfg", ".conf", ".xml", ".sh", ".bat", ".ps1"}

  /** `SecurityScanner.__init__`: the size limit is given in mebibytes. */
  function NewLimits(maxFileSizeMb: nat, maxFiles: nat): (r: Limits)
    ensures r.maxFileSize == maxFileSizeMb * 1048576 && r.maxFiles == maxFiles
  {
    Limits(maxFileSizeMb * 1024 * 1024, maxFiles)
  }

  // ---------------------------------------------------------------------------
  // Which files are read

  /** The position of the last `.` in `s`, if any. */
  function LastDot(s: string): (r: Option<nat>)
    ensures r.Some? ==> r.value < |s| && s[r.value] == '.'
    ensures r.Some? ==> forall j :: r.value < j < |s| ==> s[j] != '.'
    ensures r.None? ==> forall j :: 0 <= j < |s| ==> s[j] != '.'
  {
    if |s| == 0 then None
    else if s[|s| - 1] == '.' then Some(|s| - 1)
    else
      var r := LastDot(s[..|s| - 1]);
      assert forall j :: 0 <= j < |s| - 1 ==> s[..|s| - 1][j] == s[j];
      r
  }

  /**
   * `os.path.splitext(name)[1]` for a bare file name: from the last dot on,
   * unless only dots precede it (so `.env` has no extension).
   */
  function Extension(name: string): (r: string)
    ensures r != "" ==> |r| <= |name| && r == name[|name| - |r|..] && r[0] == '.'
    ensures r != "" ==> forall j :: 0 < j < |r| ==> r[j] != '.'
    ensures r == "" ==> LastDot(name).None? || forall j :: 0 <= j < LastDot(name).value ==> name[j] == '.'
  {
    match LastDot(name)
    case None => ""
    case Some(i) =>
      if forall j :: 0 <= j < i ==> name[j] == '.' then ""
      else name[i..]
  }

  /** The file kinds whose contents are searched. */
  predicate IsCodeFile(name: string) {
    Text.Lower(Extension(name)) in CodeExtensions || name == ".env" || name == ".gitignore"
  }

  // ---------------------------------------------------------------------------
  // Per-match rules

  const PathMarkers: seq<string> := ["test", "spec", "mock"]
  const CommentMarkers: seq<string> := ["#", "//", "*"]
  const PlaceholderMarkers: seq<string> := ["example", "placeholder", "your_", "xxx", "dummy", "sample"]

  /**
   * `_is_likely_false_positive`: a match is dropped when the file looks like
   * a test, when its stripped line starts like a comment, or when the line
   * mentions a placeholder.
   */
  predicate IsLikelyFalsePositive(filePath: string, line: string) {
    (exists m :: m in PathMarkers && Text.Contains(Text.Lower(filePath), m))
    || (exists m :: m in CommentMarkers && m <= Text.PyStrip(line))
    || (exists m :: m in PlaceholderMarkers && Text.Contains(Text.Lower(line), m))
  }

  /**
   * The rule spelled out marker by marker: a test, spec or mock file (in any
   * case); a stripped line starting with `#`, `//` or `*`; or a line naming a
   * placeholder word (in any case).
   */
  lemma FalsePositiveMarkers(filePath: string, line: string)
    ensures IsLikelyFalsePositive(filePath, line) <==>
      || Text.Contains(Text.Lower(filePath), "test")
      || Text.Contains(Text.Lower(filePath), "spec")
      || Text.Contains(Text.Lower(filePath), "mock")
      || "#" <= Text.PyStrip(line) || "//" <= Text.PyStrip(line) || "*" <= Text.PyStrip(line)
      || Text.Contains(Text.Lower(line), "example")
      || Text.Contains(Text.Lower(line), "placeholder")
      || Text.Contains(Text.Lower(line), "your_")
      || Text.Contains(Text.Lower(line), "xxx")
      || Text.Contains(Text.Lower(line), "dummy")
      || Text.Contains(Text.Lower(line), "sample")
  {
    MarkersOfThree(PathMarkers, Text.Lower(filePath));
    var st := Text.PyStrip(line);
    assert (exists m :: m in CommentMarkers && m <= st) <==> "#" <= st || "//" <= st || "*" <= st by {
      assert CommentMarkers == ["#", "//", "*"];
      if "#" <= st { assert CommentMarkers[0] in CommentMarkers; }
      if "//" <= st { assert CommentMarkers[1] in CommentMarkers; }
      if "*" <= st { assert CommentMarkers[2] in CommentMarkers; }
    }
    MarkersOfSix(PlaceholderMarkers, Text.Lower(line));
  }

  /** Some path marker occurs in `s` iff one of the three occurs. */
  lemma MarkersOfThree(ms: seq<string>, s: string)
    requires ms == PathMarkers
    ensures (exists m :: m in ms && Text.Contains(s, m)) <==>
      Text.Contains(s, "test") || Text.Contains(s, "spec") || Text.Contains(s, "mock")
  {
  }

  /** Some placeholder word occurs in `s` iff one of the six occurs. */
  lemma MarkersOfSix(ms: seq<string>, s: string)
    requires ms == PlaceholderMarkers
    ensures (exists m :: m in ms && Text.Contains(s, m)) <==>
      || Text.Contains(s, "example") || Text.Contains(s, "placeholder") || Text.Contains(s, "your_")
      || Text.Contains(s, "xxx") || Text.Contains(s, "dummy") || Text.Contains(s, "sample")
  {
  }

  /** A line whose first non-blank character is `#` is never reported, whatever the file. */
  lemma CommentLinesIgnored(filePath: string, indent: string, rest: string)
    requires forall i :: 0 <= i < |indent| ==> Text.PyIsSpace(indent[i])
    ensures IsLikelyFalsePositive(filePath, indent + "#" + rest)
  {
    var line := indent + "#" + rest;
    var k := |indent|;
    assert line[k] == '#';
    assert !Text.PyIsSpace(line[k]);
    LeadingRun(line, k);
    var r := Text.PyStrip(line);
    assert |r| > 0 by {
      assert Text.LeadingCount(line, Text.PyIsSpace) + |r| > k by {
        assert forall i :: Text.LeadingCount(line, Text.PyIsSpace) + |r| <= i < |line| ==> Text.PyIsSpace(line[i]);
      }
    }
    assert r[0] == line[k];
    assert "#" <= r;
    assert "#" in CommentMarkers;
  }

  /** If the first `k` characters are blanks and the next is not, the leading run has length `k`. */
  lemma LeadingRun(s: string, k: nat)
    requires k < |s| && !Text.PyIsSpace(s[k])
    requires forall i :: 0 <= i < k ==> Text.PyIsSpace(s[i])
    ensures Text.LeadingCount(s, Text.PyIsSpace) == k
  {
  }

  /** A path whose name mentions a test in any letter case is never reported. */
  lemma TestFilesIgnored(filePath: string, line: string)
    requires Text.Contains(Text.Lower(filePath), "test")
    ensures IsLikelyFalsePositive(filePath, line)
  {
    assert "test" in PathMarkers;
  }

  /** The severity of a secret pattern: `high` when its name mentions a key or a secret. */
  function Severity(patternName: string): (r: string)
    ensures r == "high" || r == "medium"
    ensures r == "high" <==>
      Text.Contains(Text.Lower(patternName), "key") || Text.Contains(Text.Lower(patternName), "secret")
  {
    var n := Text.Lower(patternName);
    if Text.Contains(n, "key") || Text.Contains(n, "secret") then "high" else "medium"
  }

  /** The findings of one file: one per match that is not a likely false positive. */
  function FileFindings(path: string, hits: seq<Hit>): (r: seq<Finding>)
    ensures |r| <= |hits|
    ensures forall i :: 0 <= i < |r| ==> r[i].category == "exposed_secret" && r[i].path == path
    ensures forall i :: 0 <= i < |r| ==> r[i].severity == "high" || r[i].severity == "medium"
  {
    if |hits| == 0 then []
    else
      var h := hits[0];
      var rest := FileFindings(path, hits[1..]);
      assert forall i :: 1 <= i < |hits| ==> hits[i] == hits[1..][i - 1];
      if IsLikelyFalsePositive(path, h.line) then rest
      else [Finding(Severity(h.patternName), "exposed_secret", "Possible " + h.patternName + " Exposed",
                    path, Some(h.lineNumber))] + rest
  }

  /** The findings of matches listed one after the other are those of each run, one after the other. */
  lemma {:induction false} FileFindingsConcat(path: string, a: seq<Hit>, b: seq<Hit>)
    ensures FileFindings(path, a + b) == FileFindings(path, a) + FileFindings(path, b)
    decreases |a|
  {
    if |a| == 0 {
      assert a + b == b;
    } else {
      assert (a + b)[0] == a[0] && (a + b)[1..] == a[1..] + b;
      FileFindingsConcat(path, a[1..], b);
    }
  }

  /**
   * A single match is reported unless it is a likely false positive, as a
   * finding titled after its pattern, carrying its line number, with the
   * pattern's severity.
   */
  lemma FileFindingsOne(path: string, h: Hit)
    ensures !IsLikelyFalsePositive(path, h.line) ==>
      FileFindings(path, [h]) == [Finding(Severity(h.patternName), "exposed_secret",
                                          "Possible " + h.patternName + " Exposed", path, Some(h.lineNumber))]
    ensures IsLikelyFalsePositive(path, h.line) ==> FileFindings(path, [h]) == []
  {
    assert [h][1..] == [];
  }

  /** A file yields no finding exactly when every one of its matches is a likely false positive. */
  lemma {:induction false} NothingReportedIffAllFiltered(path: string, hits: seq<Hit>)
    ensures FileFindings(path, hits) == []
      <==> forall i :: 0 <= i < |hits| ==> IsLikelyFalsePositive(path, hits[i].line)
    decreases |hits|
  {
    if |hits| > 0 {
      NothingReportedIffAllFiltered(path, hits[1..]);
      assert forall i :: 1 <= i < |hits| ==> hits[i] == hits[1..][i - 1];
    }
  }

  // ---------------------------------------------------------------------------
  // Walking with a cap

  /** Whether `_scan_directory` reads a file it reaches before the cap: a code file whose size is known and within the limit. */
  predicate IsRead(f: WalkedFile, limits: Limits) {
    IsCodeFile(f.name) && f.size.Some? && f.size.value <= limits.maxFileSize
  }

  /**
   * `_scan_directory` over the walk's files: stops as soon as `scanned`
   * reaches the cap, skips non-code files, files whose size cannot be read
   * and files over the size limit, and counts every file it reads.
   */
  function ScanFiles(files: seq<WalkedFile>, scanned: nat, limits: Limits): (r: (seq<Finding>, nat))
    ensures r.1 >= scanned
    ensures scanned <= limits.maxFiles ==> r.1 <= limits.maxFiles
    ensures scanned >= limits.maxFiles ==> r == ([], scanned)
    ensures r.1 - scanned <= |files|
  {
    if |files| == 0 || scanned >= limits.maxFiles then ([], scanned)
    else
      var f := files[0];
      if !IsRead(f, limits) then
        ScanFiles(files[1..], scanned, limits)
      else
        var (found, s) := ScanFiles(files[1..], scanned + 1, limits);
        (FileFindings(f.path, f.hits) + found, s)
  }

  /** The files of a walk that would be read if there were no cap, in walk order. */
  function ReadFiles(files: seq<WalkedFile>, limits: Limits): (r: seq<WalkedFile>)
    ensures |r| <= |files|
    ensures forall f :: f in r <==> f in files && IsRead(f, limits)
  {
    if |files| == 0 then []
    else
      var rest := ReadFiles(files[1..], limits);
      assert files == [files[0]] + files[1..];
      if IsRead(files[0], limits) then [files[0]] + rest else rest
  }

  /** The findings of the given files, file after file. */
  function FindingsOf(files: seq<WalkedFile>): (r: seq<Finding>)
    ensures forall i :: 0 <= i < |r| ==> r[i].category == "exposed_secret"
  {
    if |files| == 0 then [] else FileFindings(files[0].path, files[0].hits) + FindingsOf(files[1..])
  }

  /** How many files a walk reads when `scanned` files were read before it: as many eligible ones as the cap leaves room for. */
  function ReadCount(files: seq<WalkedFile>, scanned: nat, limits: Limits): nat {
    if scanned >= limits.maxFiles then 0 else Min(|ReadFiles(files, limits)|, limits.maxFiles - scanned)
  }

  /** One step of the walk below the cap: a file that is not read leaves the counter alone; a read file contributes its findings first. */
  lemma ScanFilesStep(files: seq<WalkedFile>, scanned: nat, limits: Limits)
    requires |files| > 0 && scanned < limits.maxFiles
    ensures !IsRead(files[0], limits) ==> ScanFiles(files, scanned, limits) == ScanFiles(files[1..], scanned, limits)
    ensures IsRead(files[0], limits) ==>
      && ScanFiles(files, scanned, limits).0
         == FileFindings(files[0].path, files[0].hits) + ScanFiles(files[1..], scanned + 1, limits).0
      && ScanFiles(files, scanned, limits).1 == ScanFiles(files[1..], scanned + 1, limits).1
  {
  }

  /**
   * The walk reads exactly the first eligible files the cap leaves room
   * for, in walk order, and reports their findings one file after another;
   * the counter grows by the number of files read.
   */
  lemma {:induction false} ScanFilesReads(files: seq<WalkedFile>, scanned: nat, limits: Limits)
    ensures ScanFiles(files, scanned, limits).0
         == FindingsOf(ReadFiles(files, limits)[..ReadCount(files, scanned, limits)])
    ensures ScanFiles(files, scanned, limits).1 == scanned + ReadCount(files, scanned, limits)
    decreases |files|
  {
    if |files| == 0 {
      assert ReadFiles(files, limits) == [];
    } else if scanned < limits.maxFiles {
      ScanFilesStep(files, scanned, limits);
      if IsRead(files[0], limits) {
        ScanFilesReads(files[1..], scanned + 1, limits);
        ReadFileTaken(files, scanned, limits);
      } else {
        assert ReadFiles(files, limits) == ReadFiles(files[1..], limits);
        ScanFilesReads(files[1..], scanned, limits);
      }
    }
  }

  /** The inductive step of `ScanFilesReads` for a file that is read: it comes first among the files taken. */
  lemma ReadFileTaken(files: seq<WalkedFile>, scanned: nat, limits: Limits)
    requires |files| > 0 && scanned < limits.maxFiles && IsRead(files[0], limits)
    ensures var n := ReadCount(files, scanned, limits);
      var n' := ReadCount(files[1..], scanned + 1, limits);
      && n == n' + 1
      && FindingsOf(ReadFiles(files, limits)[..n])
         == FileFindings(files[0].path, files[0].hits) + FindingsOf(ReadFiles(files[1..], limits)[..n'])
  {
    var f := files[0];
    var rest := ReadFiles(files[1..], limits);
    assert ReadFiles(files, limits) == [f] + rest;
    var n := ReadCount(files, scanned, limits);
    var n' := ReadCount(files[1..], scanned + 1, limits);
    var taken := ReadFiles(files, limits)[..n];
    assert taken == [f] + rest[..n'];
    assert taken[0] == f && taken[1..] == rest[..n'];
  }

  /** Walking two runs of files one after the other is walking the first, then the second from where the first left the counter. */
  lemma {:induction false} ScanFilesConcat(a: seq<WalkedFile>, b: seq<WalkedFile>, scanned: nat, limits: Limits)
    ensures ScanFiles(a + b, scanned, limits).0
         == ScanFiles(a, scanned, limits).0 + ScanFiles(b, ScanFiles(a, scanned, limits).1, limits).0
    ensures ScanFiles(a + b, scanned, limits).1 == ScanFiles(b, ScanFiles(a, scanned, limits).1, limits).1
    decreases |a|
  {
    if |a| == 0 {
      assert a + b == b;
    } else if scanned < limits.maxFiles {
      var ab := a + b;
      assert ab[0] == a[0] && ab[1..] == a[1..] + b;
      ScanFilesStep(ab, scanned, limits);
      ScanFilesStep(a, scanned, limits);
      var read := IsRead(a[0], limits);
      var next := if read then scanned + 1 else scanned;
      ScanFilesConcat(a[1..], b, next, limits);
      var rest := ScanFiles(a[1..], next, limits);
      var tail := ScanFiles(b, rest.1, limits);
      if read {
        var ff := FileFindings(a[0].path, a[0].hits);
        assert ScanFiles(ab, scanned, limits).0 == ff + (rest.0 + tail.0);
        assert ScanFiles(a, scanned, limits).0 == ff + rest.0;
        ConcatAssoc(ff, rest.0, tail.0);
      }
    }
  }

  /** The files the walks of the existing roots yield, root after root. */
  function RootFiles(roots: seq<ScanRoot>): (r: seq<WalkedFile>)
    ensures forall f :: f in r <==> exists i :: 0 <= i < |roots| && roots[i].exists_ && f in roots[i].files
  {
    if |roots| == 0 then []
    else
      var rest := RootFiles(roots[1..]);
      assert forall i :: 1 <= i < |roots| ==> roots[i] == roots[1..][i - 1];
      (if roots[0].exists_ then roots[0].files else []) + rest
  }

  /**
   * `scan`'s loop over the roots: an absent root is passed over; after each
   * scanned root the loop ends once the cap is reached.
   */
  function ScanRoots(roots: seq<ScanRoot>, scanned: nat, limits: Limits): (r: (seq<Finding>, nat))
    ensures r.1 >= scanned
    ensures scanned <= limits.maxFiles ==> r.1 <= limits.maxFiles
  {
    if |roots| == 0 then ([], scanned)
    else if !roots[0].exists_ then ScanRoots(roots[1..], scanned, limits)
    else
      var (found, s) := ScanFiles(roots[0].files, scanned, limits);
      if s >= limits.maxFiles then (found, s)
      else
        var (more, s') := ScanRoots(roots[1..], s, limits);
        (found + more, s')
  }

  // ---------------------------------------------------------------------------
  // Tallies

  const InitialSeverityCounts: Tally.Counter :=
    [("critical", 0), ("high", 0), ("medium", 0), ("low", 0), ("info", 0)]

  /** The number of findings with the given severity. */
  function CountSeverity(fs: seq<Finding>, s: string): nat {
    if |fs| == 0 then 0 else CountSeverity(fs[..|fs| - 1], s) + (if fs[|fs| - 1].severity == s then 1 else 0)
  }

  /** The number of findings in the given category. */
  function CountCategory(fs: seq<Finding>, c: string): nat {
    if |fs| == 0 then 0 else CountCategory(fs[..|fs| - 1], c) + (if fs[|fs| - 1].category == c then 1 else 0)
  }

  /** `categories[category] += 1` and `severity_counts[severity] += 1` over the findings, in order. */
  function Tallies(fs: seq<Finding>): (r: (Tally.Counter, Tally.Counter))
    ensures Tally.Total(r.0) == |fs| && Tally.Total(r.1) == |fs|
    ensures forall c :: Tally.Get(r.0, c) == CountCategory(fs, c)
    ensures forall s :: Tally.Get(r.1, s) == CountSeverity(fs, s)
    ensures {"critical", "high", "medium", "low", "info"} <= Tally.Keys(r.1)
  {
    if |fs| == 0 then
      ZeroCounter(InitialSeverityCounts);
      ([], InitialSeverityCounts)
    else
      var f := fs[|fs| - 1];
      var (cats, sev) := Tallies(fs[..|fs| - 1]);
      (Tally.Add(cats, f.category, 1), Tally.Add(sev, f.severity, 1))
  }

  /** A counter whose every count is zero answers zero for every key. */
  lemma ZeroCounter(m: Tally.Counter)
    requires forall i :: 0 <= i < |m| ==> m[i].1 == 0
    ensures Tally.Total(m) == 0
    ensures forall k :: Tally.Get(m, k) == 0
  {
  }

  /** The report built from the findings: their count and both tallies. */
  function Report(findings: seq<Finding>): (r: ScanReport)
    ensures r.findings == findings && r.totalFindings == |findings|
    ensures Tally.Total(r.categories) == |findings| && Tally.Total(r.severityCounts) == |findings|
    ensures forall c :: Tally.Get(r.categories, c) == CountCategory(findings, c)
    ensures forall s :: Tally.Get(r.severityCounts, s) == CountSeverity(findings, s)
  {
    var t := Tallies(findings);
    ScanReport(|findings|, findings, t.0, t.1)
  }

  /**
   * `SecurityScanner.scan` for a fresh scanner: the explicit roots (or the
   * defaults when none are given), then the sensitive-file and browser
   * findings, then the tallies.
   */
  function Scan(roots: seq<ScanRoot>, defaults: seq<ScanRoot>, limits: Limits,
                sensitive: seq<Finding>, browser: seq<Finding>): (r: ScanReport)
    ensures r.findings == ScanRoots(if |roots| == 0 then defaults else roots, 0, limits).0 + (sensitive + browser)
    ensures r.totalFindings == |r.findings|
    ensures Tally.Total(r.categories) == r.totalFindings && Tally.Total(r.severityCounts) == r.totalFindings
    ensures forall s :: Tally.Get(r.severityCounts, s) == CountSeverity(r.findings, s)
  {
    Report(ScanRoots(if |roots| == 0 then defaults else roots, 0, limits).0 + (sensitive + browser))
  }

  /** Stopping between roots changes nothing: the roots are scanned as one walk over all their files. */
  lemma {:induction false} ScanRootsIsOneWalk(roots: seq<ScanRoot>, scanned: nat, limits: Limits)
    ensures ScanRoots(roots, scanned, limits) == ScanFiles(RootFiles(roots), scanned, limits)
    decreases |roots|
  {
    if |roots| > 0 {
      var rest := RootFiles(roots[1..]);
      if roots[0].exists_ {
        assert RootFiles(roots) == roots[0].files + rest;
        ScanFilesConcat(roots[0].files, rest, scanned, limits);
        var first := ScanFiles(roots[0].files, scanned, limits);
        if first.1 < limits.maxFiles {
          ScanRootsIsOneWalk(roots[1..], first.1, limits);
        } else {
          assert ScanFiles(rest, first.1, limits) == ([], first.1);
          assert first.0 + [] == first.0;
        }
      } else {
        ScanRootsIsOneWalk(roots[1..], scanned, limits);
        assert RootFiles(roots) == rest;
      }
    }
  }

  /**
   * The whole scan reads the first eligible files of the existing roots
   * that the cap leaves room for, in walk order, and reports their
   * findings one file after another.
   */
  lemma ScanRootsReads(roots: seq<ScanRoot>, scanned: nat, limits: Limits)
    ensures ScanRoots(roots, scanned, limits).0
         == FindingsOf(ReadFiles(RootFiles(roots), limits)[..ReadCount(RootFiles(roots), scanned, limits)])
    ensures ScanRoots(roots, scanned, limits).1 == scanned + ReadCount(RootFiles(roots), scanned, limits)
  {
    var files := RootFiles(roots);
    ScanRootsIsOneWalk(roots, scanned, limits);
    assert ScanRoots(roots, scanned, limits) == ScanFiles(files, scanned, limits);
    ScanFilesReads(files, scanned, limits);
  }

  /** The cap bounds the whole scan: a fresh scanner never reads more than `maxFiles` files. */
  lemma CapBoundsFilesRead(roots: seq<ScanRoot>, limits: Limits)
    ensures ScanRoots(roots, 0, limits).1 <= limits.maxFiles
  {
  }
}
