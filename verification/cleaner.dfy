/**
 * The worker's deletion engine (python/cleaners/cleaner.py): the trash
 * flag, the dry-run `preview` and the accounting of `execute`. The file
 * system is an oracle: for every path it says whether the path exists,
 * whether it is a directory, what reading its size gives, and what the
 * deletion call does. Directory sizes never fail to read (the recursive
 * size helper swallows every error) and a permanent directory deletion
 * never fails (`rmtree` ignores errors).
 */
module Cleaner {
  import opened Base

  /** An `OSError` raised by the file system; `permission` marks a `PermissionError`. */
  datatype OsError = OsError(permission: bool, message: string)

  /** Anything a deletion call can raise. */
  datatype Fault = Os(error: OsError) | Unexpected(message: string)

  /** What the deletion call (to the trash or permanent) does. */
  datatype Deletion = Done | Raised(fault: Fault)

  /**
   * One path as the file system shows it at the moment it is visited. For a
   * directory `deletion` is what moving it to the trash does; deleting it
   * permanently always succeeds.
   */
  datatype Probe =
    | Missing
    | Dir(dirSize: nat, deletion: Deletion)
    | File(fileSize: Result<nat, OsError>, deletion: Deletion)

  /** A configured cleaner. */
  datatype Cleaner = Cleaner(useTrash: bool)

  /** What happened to one path during `execute`. */
  datatype PathOutcome = Skipped | Removed(size: nat) | Failed(error: string)

  /** `CleanupResult` without its wall-clock timestamp. */
  datatype CleanupResult = CleanupResult(
    success: bool,
    itemsDeleted: nat,
    itemsFailed: nat,
    freedBytes: nat,
    errors: seq<string>)

  /** `Cleaner.__init__`: the trash is used only when asked for and when the trash library is installed. */
  function NewCleaner(useTrash: bool, hasSend2Trash: bool): (c: Cleaner)
    ensures c.useTrash <==> useTrash && hasSend2Trash
  {
    Cleaner(useTrash && hasSend2Trash)
  }

  // ---------------------------------------------------------------------------
  // One path

  /** The error line recorded for a path whose size read or deletion raised. */
  function ErrorText(path: string, f: Fault): string {
    match f
    case Os(OsError(true, _)) => "Permission denied: " + path
    case Os(OsError(false, message)) => "Error deleting " + path + ": " + message
    case Unexpected(message) => "Unexpected error with " + path + ": " + message
  }

  /**
   * What `execute` does with one path: a missing path is skipped, a size
   * read or deletion that raises counts as a failure, anything else is
   * removed and contributes the size read before deleting.
   */
  function Outcome(c: Cleaner, path: string, p: Probe): (r: PathOutcome)
    ensures r.Skipped? <==> p.Missing?
    ensures r.Removed? && p.Dir? ==> r.size == p.dirSize
    ensures r.Removed? && p.File? ==> p.fileSize.Ok? && r.size == p.fileSize.value
    ensures r.Failed? <==>
      (p.Dir? && c.useTrash && p.deletion.Raised?)
      || (p.File? && (p.fileSize.Err? || p.deletion.Raised?))
  {
    match p
    case Missing => Skipped
    case Dir(size, deletion) =>
      if c.useTrash && deletion.Raised? then Failed(ErrorText(path, deletion.fault)) else Removed(size)
    case File(size, deletion) =>
      if size.Err? then Failed(ErrorText(path, Os(size.error)))
      else if deletion.Raised? then Failed(ErrorText(path, deletion.fault))
      else Removed(size.value)
  }

  /**
   * The outcome of every path. `probe(i, path)` is the file system as seen
   * when the `i`-th path is visited, after the earlier deletions.
   */
  function Outcomes(c: Cleaner, paths: seq<string>, probe: (nat, string) -> Probe): (r: seq<PathOutcome>)
    ensures |r| == |paths|
    ensures forall i :: 0 <= i < |paths| ==> r[i] == Outcome(c, paths[i], probe(i, paths[i]))
  {
    seq(|paths|, i requires 0 <= i < |paths| => Outcome(c, paths[i], probe(i, paths[i])))
  }

  // ---------------------------------------------------------------------------
  // Counting outcomes

  function CountRemoved(os: seq<PathOutcome>): nat {
    if |os| == 0 then 0 else CountRemoved(os[..|os| - 1]) + (if os[|os| - 1].Removed? then 1 else 0)
  }

  function CountFailed(os: seq<PathOutcome>): nat {
    if |os| == 0 then 0 else CountFailed(os[..|os| - 1]) + (if os[|os| - 1].Failed? then 1 else 0)
  }

  function CountSkipped(os: seq<PathOutcome>): nat {
    if |os| == 0 then 0 else CountSkipped(os[..|os| - 1]) + (if os[|os| - 1].Skipped? then 1 else 0)
  }

  /** The sizes of the removed paths, added up. */
  function FreedBy(os: seq<PathOutcome>): nat {
    if |os| == 0 then 0
    else FreedBy(os[..|os| - 1]) + (if os[|os| - 1].Removed? then os[|os| - 1].size else 0)
  }

  /** The error lines of the failed paths, in order. */
  function ErrorsOf(os: seq<PathOutcome>): seq<string> {
    if |os| == 0 then []
    else ErrorsOf(os[..|os| - 1]) + (if os[|os| - 1].Failed? then [os[|os| - 1].error] else [])
  }

  /**
   * Every path lands in exactly one of the three outcomes, and there is one
   * error line per failure.
   */
  lemma {:induction false} OutcomesPartition(os: seq<PathOutcome>)
    ensures CountRemoved(os) + CountFailed(os) + CountSkipped(os) == |os|
    ensures |ErrorsOf(os)| == CountFailed(os)
  {
    if |os| > 0 {
      OutcomesPartition(os[..|os| - 1]);
    }
  }

  /** Nothing is freed by skipped or failed paths: an all-missing list frees nothing and fails nothing. */
  lemma {:induction false} AllMissingIsNoOp(os: seq<PathOutcome>)
    requires forall i :: 0 <= i < |os| ==> os[i].Skipped?
    ensures CountRemoved(os) == 0 && CountFailed(os) == 0 && FreedBy(os) == 0 && ErrorsOf(os) == []
  {
    if |os| > 0 {
      AllMissingIsNoOp(os[..|os| - 1]);
    }
  }

  // ---------------------------------------------------------------------------
  // execute

  /**
   * `Cleaner.execute`: visits the paths in order and accumulates the
   * counts, the freed bytes and the error lines; it succeeds iff nothing
   * failed.
   */
  method Execute(c: Cleaner, paths: seq<string>, probe: (nat, string) -> Probe) returns (r: CleanupResult)
    ensures r.itemsDeleted == CountRemoved(Outcomes(c, paths, probe))
    ensures r.itemsFailed == CountFailed(Outcomes(c, paths, probe))
    ensures r.freedBytes == FreedBy(Outcomes(c, paths, probe))
    ensures r.errors == ErrorsOf(Outcomes(c, paths, probe))
    ensures r.success <==> r.itemsFailed == 0
    ensures r.itemsDeleted + r.itemsFailed <= |paths| && |r.errors| == r.itemsFailed
  {
    var os := Outcomes(c, paths, probe);
    var deleted, failed, freed := 0, 0, 0;
    var errors: seq<string> := [];
    var i := 0;
    while i < |paths|
      invariant 0 <= i <= |paths|
      invariant deleted == CountRemoved(os[..i]) && failed == CountFailed(os[..i])
      invariant freed == FreedBy(os[..i]) && errors == ErrorsOf(os[..i])
    {
      assert os[..i + 1][..i] == os[..i];
      match Outcome(c, paths[i], probe(i, paths[i])) {
        case Skipped =>
        case Removed(size) =>
          deleted := deleted + 1;
          freed := freed + size;
        case Failed(error) =>
          failed := failed + 1;
          errors := errors + [error];
      }
      i := i + 1;
    }
    assert os[..|paths|] == os;
    OutcomesPartition(os);
    r := CleanupResult(failed == 0, deleted, failed, freed, errors);
  }

  /**
   * When every path is missing the cleanup trivially succeeds: nothing is
   * deleted, nothing fails, no bytes are freed.
   */
  lemma NothingThereSucceeds(c: Cleaner, paths: seq<string>, probe: (nat, string) -> Probe)
    requires forall i :: 0 <= i < |paths| ==> probe(i, paths[i]).Missing?
    ensures var os := Outcomes(c, paths, probe);
      CountRemoved(os) == 0 && CountFailed(os) == 0 && FreedBy(os) == 0
  {
    AllMissingIsNoOp(Outcomes(c, paths, probe));
  }

  // ---------------------------------------------------------------------------
  // preview

  datatype PreviewEntry = PreviewEntry(path: string, size: nat, isDirectory: bool)

  datatype PreviewResult = PreviewResult(
    itemsToDelete: nat,
    estimatedSizeBytes: nat,
    paths: seq<PreviewEntry>,
    warnings: seq<string>,
    useTrash: bool)

  /** A path whose size can be read: what `preview` lists. */
  predicate Accessible(p: Probe) {
    p.Dir? || (p.File? && p.fileSize.Ok?)
  }

  function EntrySize(entries: seq<PreviewEntry>): nat {
    if |entries| == 0 then 0 else EntrySize(entries[..|entries| - 1]) + entries[|entries| - 1].size
  }

  /** The number of paths among `paths` that `view` shows as accessible. */
  function CountAccessible(paths: seq<string>, view: string -> Probe): nat {
    if |paths| == 0 then 0
    else CountAccessible(paths[..|paths| - 1], view) + (if Accessible(view(paths[|paths| - 1])) then 1 else 0)
  }

  /** The size `preview` lists for an accessible path, and nothing otherwise. */
  function ListedSize(p: Probe): nat {
    match p
    case Dir(size, _) => size
    case File(Ok(size), _) => size
    case _ => 0
  }

  /** A file that exists but whose size cannot be read: what `preview` warns about. */
  predicate Unreadable(p: Probe) {
    p.File? && p.fileSize.Err?
  }

  /** The number of paths among `paths` that `view` shows as unreadable. */
  function CountUnreadable(paths: seq<string>, view: string -> Probe): nat {
    if |paths| == 0 then 0
    else CountUnreadable(paths[..|paths| - 1], view) + (if Unreadable(view(paths[|paths| - 1])) then 1 else 0)
  }

  /** The listed entries and warnings of `preview`, accumulated path by path. */
  function PreviewScan(paths: seq<string>, view: string -> Probe): (r: (seq<PreviewEntry>, seq<string>))
    ensures |r.0| == CountAccessible(paths, view)
    ensures |r.1| == CountUnreadable(paths, view)
    ensures |r.0| + |r.1| <= |paths|
    ensures forall e :: e in r.0 ==> e.path in paths && Accessible(view(e.path))
    ensures forall j :: 0 <= j < |r.0| ==>
      r.0[j].size == ListedSize(view(r.0[j].path)) && (r.0[j].isDirectory <==> view(r.0[j].path).Dir?)
  {
    if |paths| == 0 then ([], [])
    else
      var init := paths[..|paths| - 1];
      var path := paths[|paths| - 1];
      var (entries, warnings) := PreviewScan(init, view);
      assert forall e :: e in entries ==> e.path in init ==> e.path in paths;
      match view(path)
      case Missing => (entries, warnings)
      case Dir(size, _) => (entries + [PreviewEntry(path, size, true)], warnings)
      case File(Ok(size), _) => (entries + [PreviewEntry(path, size, false)], warnings)
      case File(Err(e), _) => (entries, warnings + ["Cannot access " + path + ": " + e.message])
  }

  /**
   * `Cleaner.preview`: a dry run. It reads sizes only, so the view of the
   * file system is a function of the path alone; it lists every accessible
   * path with its size and warns about the others that exist.
   */
  function Preview(c: Cleaner, paths: seq<string>, view: string -> Probe): (r: PreviewResult)
    ensures r.itemsToDelete == |r.paths| == CountAccessible(paths, view)
    ensures r.estimatedSizeBytes == EntrySize(r.paths)
    ensures forall e :: e in r.paths ==> e.path in paths && Accessible(view(e.path))
    ensures forall j :: 0 <= j < |r.paths| ==>
      r.paths[j].size == ListedSize(view(r.paths[j].path)) && (r.paths[j].isDirectory <==> view(r.paths[j].path).Dir?)
    ensures |r.warnings| == CountUnreadable(paths, view)
    ensures r.paths == PreviewScan(paths, view).0 && r.warnings == PreviewScan(paths, view).1
    ensures r.estimatedSizeBytes == ListedTotal(paths, view)
    ensures r.useTrash == c.useTrash
  {
    var (entries, warnings) := PreviewScan(paths, view);
    EstimateIsListedTotal(paths, view);
    PreviewResult(|entries|, EntrySize(entries), entries, warnings, c.useTrash)
  }

  /** The sum of the sizes `preview` lists for the given paths, path by path. */
  function ListedTotal(paths: seq<string>, view: string -> Probe): nat {
    if |paths| == 0 then 0 else ListedTotal(paths[..|paths| - 1], view) + ListedSize(view(paths[|paths| - 1]))
  }

  /** The estimate is the sum of the listed sizes of the input paths: each accessible path counts once. */
  lemma {:induction false} EstimateIsListedTotal(paths: seq<string>, view: string -> Probe)
    ensures EntrySize(PreviewScan(paths, view).0) == ListedTotal(paths, view)
    decreases |paths|
  {
    if |paths| > 0 {
      EstimateIsListedTotal(paths[..|paths| - 1], view);
      PreviewScanStep(paths, view);
    }
  }

  /** Previewing two runs of paths one after the other lists and warns about them one after the other. */
  lemma {:induction false} PreviewScanConcat(a: seq<string>, b: seq<string>, view: string -> Probe)
    ensures PreviewScan(a + b, view).0 == PreviewScan(a, view).0 + PreviewScan(b, view).0
    ensures PreviewScan(a + b, view).1 == PreviewScan(a, view).1 + PreviewScan(b, view).1
    decreases |b|
  {
    if |b| == 0 {
      assert a + b == a;
    } else {
      var b' := b[..|b| - 1];
      assert (a + b)[..|a + b| - 1] == a + b';
      assert (a + b)[|a + b| - 1] == b[|b| - 1];
      PreviewScanConcat(a, b', view);
      ConcatAssoc(PreviewScan(a, view).0, PreviewScan(b', view).0, PreviewScan([b[|b| - 1]], view).0);
      ConcatAssoc(PreviewScan(a, view).1, PreviewScan(b', view).1, PreviewScan([b[|b| - 1]], view).1);
      PreviewScanOne(b[|b| - 1], view);
    }
  }

  /**
   * A single path is listed once with its size and kind when accessible,
   * warned about when it is a file whose size cannot be read, and otherwise
   * passed over.
   */
  lemma PreviewScanOne(path: string, view: string -> Probe)
    ensures PreviewScan([path], view).0
      == if Accessible(view(path)) then [PreviewEntry(path, ListedSize(view(path)), view(path).Dir?)] else []
    ensures PreviewScan([path], view).1
      == if Unreadable(view(path)) then ["Cannot access " + path + ": " + view(path).fileSize.error.message] else []
  {
    assert [path][..0] == [];
  }

  /** No deletion can fail and no size read fails. */
  predicate Unobstructed(p: Probe) {
    match p
    case Missing => true
    case Dir(_, deletion) => deletion.Done?
    case File(size, deletion) => size.Ok? && deletion.Done?
  }

  /**
   * A preview predicts the cleanup: on a file system that does not change
   * between the two and where nothing is obstructed, `execute` deletes as
   * many paths as `preview` announced and frees exactly the estimated size.
   */
  lemma PreviewPredictsExecute(c: Cleaner, paths: seq<string>, view: string -> Probe,
                               probe: (nat, string) -> Probe)
    requires forall i :: 0 <= i < |paths| ==> probe(i, paths[i]) == view(paths[i])
    requires forall i :: 0 <= i < |paths| ==> Unobstructed(view(paths[i]))
    ensures CountRemoved(Outcomes(c, paths, probe)) == Preview(c, paths, view).itemsToDelete
    ensures FreedBy(Outcomes(c, paths, probe)) == Preview(c, paths, view).estimatedSizeBytes
    ensures CountFailed(Outcomes(c, paths, probe)) == 0
  {
    ScanPredictsExecute(c, paths, view, probe);
    assert Preview(c, paths, view).estimatedSizeBytes == EntrySize(PreviewScan(paths, view).0);
  }

  /** The induction behind `PreviewPredictsExecute`, stated on the accumulated scan. */
  lemma {:induction false} ScanPredictsExecute(c: Cleaner, paths: seq<string>, view: string -> Probe,
                                               probe: (nat, string) -> Probe)
    requires forall i :: 0 <= i < |paths| ==> probe(i, paths[i]) == view(paths[i])
    requires forall i :: 0 <= i < |paths| ==> Unobstructed(view(paths[i]))
    ensures CountRemoved(Outcomes(c, paths, probe)) == CountAccessible(paths, view)
    ensures FreedBy(Outcomes(c, paths, probe)) == EntrySize(PreviewScan(paths, view).0)
    ensures CountFailed(Outcomes(c, paths, probe)) == 0
  {
    if |paths| > 0 {
      var init := paths[..|paths| - 1];
      var last := paths[|paths| - 1];
      ScanPredictsExecute(c, init, view, probe);
      var os := Outcomes(c, paths, probe);
      assert os[..|os| - 1] == Outcomes(c, init, probe);
      assert os[|os| - 1] == Outcome(c, last, view(last));
      UnobstructedOutcome(c, last, view(last));
      PreviewScanStep(paths, view);
      LastOutcomeCounts(os);
    }
  }

  /** The counters grow by the last outcome alone. */
  lemma LastOutcomeCounts(os: seq<PathOutcome>)
    requires |os| > 0
    ensures CountRemoved(os) == CountRemoved(os[..|os| - 1]) + (if os[|os| - 1].Removed? then 1 else 0)
    ensures CountFailed(os) == CountFailed(os[..|os| - 1]) + (if os[|os| - 1].Failed? then 1 else 0)
    ensures FreedBy(os) == FreedBy(os[..|os| - 1]) + (if os[|os| - 1].Removed? then os[|os| - 1].size else 0)
  {
  }

  /** Without obstruction a path is removed with its listed size exactly when `preview` lists it. */
  lemma UnobstructedOutcome(c: Cleaner, path: string, p: Probe)
    requires Unobstructed(p)
    ensures Outcome(c, path, p) == if Accessible(p) then Removed(ListedSize(p)) else Skipped
  {
  }

  /** One more path adds its listed size to the estimate. */
  lemma PreviewScanStep(paths: seq<string>, view: string -> Probe)
    requires |paths| > 0
    ensures EntrySize(PreviewScan(paths, view).0)
      == EntrySize(PreviewScan(paths[..|paths| - 1], view).0) + ListedSize(view(paths[|paths| - 1]))
  {
    var entries := PreviewScan(paths[..|paths| - 1], view).0;
    var entries' := PreviewScan(paths, view).0;
    if Accessible(view(paths[|paths| - 1])) {
      assert entries'[..|entries'| - 1] == entries;
    }
  }
}
