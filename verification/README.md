# CloudCleaner workflow model

This project is a Dafny model of CloudCleaner's scan → select → clean workflow. CloudCleaner is a desktop cleaner with two processes:

- **Electron client.** It is made of a zustand store, a handful of pages and components, and a main process. The main process runs a Python worker for every request.
- **Python worker.** It is a command-line program that scans caches, deletes files, checks paths against safety rules and looks for leaked secrets.

Every part is modelled as immutable datatypes and total functions. The world outside becomes explicit inputs:

- **Worker process.** Its outcome is a `ProcessOutcome` value: `SpawnError(message)`, or `Exited(code, stdout, stderr)` where the code is `None` when a signal killed the process.
- **JSON parsing.** `JSON.parse`/`json.loads` is a parameter `parse: string -> Option<Json.Value>`. `JSON.stringify` is defined concretely.
- **File system.** It is a probe function from path to record: exists, kind, size, locked, delete outcome. The cleaner's probe is indexed by position, because each deletion changes what later paths see.
- **User and UI inputs.** The `confirm()` answer, whether the page is still mounted, and whether the Electron bridge exists are boolean parameters.

Modules follow the program's structure:

| module | models |
|---|---|
| `AppStore` | the client store (src/stores/appStore.ts) |
| `WorkerIpc` | the main process's worker handlers: argument vectors, and how each outcome settles the IPC promise (electron/main.ts) |
| `ResultsPage`, `ConfirmModal` | the cleanup driver and its confirmation modal |
| `HistoryPage`, `SettingsPage`, `UpdateNotification` | the other pages and the update banner |
| `WorkerCli` | the worker's argument parsing, dispatch precedence, `run_clean` checks and preference decoding (python/main.py) |
| `SafetyRules`, `CacheScanner`, `Cleaner`, `SecurityScanner` | the worker's decision procedures |
| `Formatters`, `HealthScore` | small display helpers |
| `Protocol` | lemmas about both processes together, e.g. that the vector the main process builds parses back to the intended worker command |
| `Base`, `Text`, `Json`, `Sorting`, `Sums`, `Tally` | shared helpers: `Option`/`Result`, decimal text, JSON values with JavaScript truthiness, a stable descending sort, sums over sequences, and insertion-ordered counters (Python dicts filled with `get(k, 0) + n`) |

## Model

| member | source | states |
|---|---|---|
| AppStore.Pref | src/stores/appStore.ts:120 | A preference read is present exactly for stored keys, and then it is the stored value; a missing key reads as `undefined`. |
| AppStore.PathsWhere | src/stores/appStore.ts:127-130 | A path is in the result iff some scan item with that path passes the filter; the result is never longer than the item list. |
| AppStore.PathsWhereConcat | src/stores/appStore.ts:127-130 | Filtering joined item lists gives the joined filtered paths, so the paths keep scan order. |
| AppStore.PathsWhereOne | src/stores/appStore.ts:127-130 | One item contributes its path exactly when it passes the filter. |
| AppStore.RemoveAll | src/stores/appStore.ts:144-146 | Filtering a path out removes every occurrence of it. Every other path keeps its number of occurrences, so the length drops by the count of the removed path. |
| AppStore.RemoveAllConcat | src/stores/appStore.ts:144-146 | Filtering joined selections gives the joined filtered selections, so the order is kept. |
| AppStore.RemoveAllOne | src/stores/appStore.ts:144-146 | A single path survives exactly when it is not the one removed. |
| AppStore.Unselected | src/stores/appStore.ts:170-177 | The items kept after a cleanup are exactly the scan items whose path was not selected. |
| AppStore.UnselectedConcat | src/stores/appStore.ts:170-177 | Filtering joined item lists gives the joined survivors, so scan order is kept. |
| AppStore.UnselectedOne | src/stores/appStore.ts:170-177 | A single item survives exactly when its path is not selected. |
| AppStore.UnselectedCounts | src/stores/appStore.ts:170-177 | An unselected item survives as many times as it was listed; an item with a selected path does not survive. |
| AppStore.SetPreferences | src/stores/appStore.ts:102-104 | The merge is right-biased: keys are the union; new keys take the new value; the other keys keep theirs; nothing else in the state changes. |
| AppStore.StartScan | src/stores/appStore.ts:106-112 | Scanning starts at 0% with "Initializing scan..."; the scan and cleanup results are cleared; the selection, history and preferences are kept. |
| AppStore.UpdateScanProgress | src/stores/appStore.ts:114-117 | Only the progress and status change. |
| AppStore.CompleteScan | src/stores/appStore.ts:119-133 | The result is stored at 100%. With `autoSelectLowRisk` truthy, the selection holds exactly the paths of safe low-risk items. It is the filter of the scan items by that policy, so with the filter lemmas it is in scan order. Otherwise it is empty. The history and preferences are kept. |
| AppStore.CancelScan | src/stores/appStore.ts:135-139 | Scanning stops at 0% with "Scan cancelled"; the scan result and selection are untouched, and so is every other field. |
| AppStore.ToggleItemSelection | src/stores/appStore.ts:141-148 | The toggled path's membership flips and no other path's does. A selected path is removed by the filter, which keeps the order and multiplicity of the other paths. An absent path is appended at the end. |
| AppStore.SelectAllItems | src/stores/appStore.ts:150-159 | Without a scan result nothing changes. Otherwise the selection becomes exactly the paths of items marked safe to delete. It is the filter of the scan items, so it is in scan order. Nothing else changes. |
| AppStore.DeselectAllItems | src/stores/appStore.ts:161 | The selection is emptied and nothing else changes. |
| AppStore.StartCleanup | src/stores/appStore.ts:163 | Only the cleaning flag is raised. |
| AppStore.AddToHistory | src/stores/appStore.ts:194-196 | The entry is prepended, the older entries are shifted by one, and at most 50 are kept. |
| AppStore.CompleteCleanup | src/stores/appStore.ts:165-188 | Whatever `success` is, the selection is emptied and the selected items are removed. `total_items` drops by the selection length and `total_size_bytes` drops by `freed_bytes`, with no floor. History gains an entry only on success. |
| AppStore.Reset | src/stores/appStore.ts:198 | Any state goes back to the initial one: not scanning, progress 0 with an empty status, no scan or cleanup result, no selection, no history, and the three initial preferences. |
| AppStore.AutoSelectionWithinSelectAll | src/stores/appStore.ts:127-130 | Every auto-selected path is also selected by "select all". |
| AppStore.ToggleTwiceRestoresMembership | src/stores/appStore.ts:141-148 | Toggling a path twice restores the set of selected paths. |
| AppStore.ToggleTwiceMayReorder | src/stores/appStore.ts:141-148 | Toggling twice does not restore the sequence: `["a","b"]` becomes `["b","a"]`. |
| AppStore.CleanupOutcomeIgnoresSuccess | src/stores/appStore.ts:165-179 | The scan result and the selection after a cleanup are the same for `success` true and false. |
| AppStore.ReconciliationExample | src/stores/appStore.ts:165-188 | Items of 100, 200 and 300 bytes, the first two selected and 300 bytes freed: only the third item remains, the totals become 1 item and 300 bytes, the selection is empty and history holds one entry of 2 items and 300 bytes. |
| AppStore.ExampleSurvivors | src/stores/appStore.ts:170-177 | Of three items whose first two paths are selected, only the third survives. |
| WorkerIpc.SpawnCommand | electron/main.ts:17-31 | A packaged app runs the bundled engine with the arguments unchanged. Development mode runs `python main.py` from the source tree, with the script path placed before the same arguments. |
| WorkerIpc.PrefValueArg | electron/main.ts:372 | The `toString` of a boolean and the `JSON.stringify` of any other value agree with the JSON text of the value. |
| WorkerIpc.Argv | electron/main.ts:149-196 | A scan is `--scan --output json`, with `--quick` appended iff a quick scan is asked for. A cleanup sends its items as JSON text after `--items`. Every other handler ends in `--output json`. |
| WorkerIpc.Settle | electron/main.ts:149-436 | A clean exit with parsable output resolves to the parsed value; unparsable output resolves to the handler's fallback. Only scan, cleanup, history and stats ever reject: on an unsuccessful exit all four, and on a spawn error only scan and cleanup. |
| WorkerIpc.DiskUsageNeverRejects | electron/main.ts:244-277 | Disk usage never rejects; every failure gives zero totals. |
| WorkerIpc.ReadersNeverReject | electron/main.ts:353-367 | `get-prefs` and `get-exclusions` never reject; they fall back to `{}` and `{exclusions: []}`. |
| WorkerIpc.HistoryAndStatsFallbacks | electron/main.ts:280-348 | History and stats reject exactly on an unsuccessful exit; a spawn error or unparsable output gives the empty history and zero stats. |
| WorkerIpc.MutationsReportSuccessFlag | electron/main.ts:370-436 | `set-pref` and both exclusion edits always resolve: `{success:false}` on any failure, `{success:true}` on unparsable output. |
| WorkerIpc.DefaultFailureMessages | electron/main.ts:178 | With an empty stderr, a failed scan or cleanup rejects with "Scan failed" / "Cleanup failed" and the exit code. |
| WorkerIpc.CheckForUpdates | electron/main.ts:439-449 | Development mode gives its fixed reply. When packaged, an update is available iff the reported version differs from the app's; a throw gives "not available". |
| WorkerIpc.DevModeIgnoresUpdater | electron/main.ts:440-442 | In development mode the updater cannot influence the reply. |
| ResultsPage.SelectedData | src/pages/ResultsPage.tsx:53 | The selected items are exactly the scan items whose path is selected. |
| ResultsPage.SelectionSplits | src/pages/ResultsPage.tsx:53-54 | Selected and unselected items partition the scan: their counts and sizes add up to the whole. |
| ResultsPage.SelectedCountMatchesPaths | src/pages/ResultsPage.tsx:53 | Filtering the items and collecting the paths of selected items give the same count. |
| ResultsPage.SelectedCountIsSelectionLength | src/pages/ResultsPage.tsx:53 | With distinct paths and a selection drawn from the scan, as many items are selected as there are selected paths. |
| ResultsPage.HandleCleanup | src/pages/ResultsPage.tsx:56-73 | An empty selection does nothing and calls no worker. Otherwise the worker is called and the store gets `{success:true, freed_bytes: selectedSize}` or `{success:false, freed_bytes:0}`. The new state is the store's cleanup completion applied to the cleaning state. The error is rethrown iff the call rejected. The cleaning flag ends down. |
| ResultsPage.WorkerReplyIgnored | src/pages/ResultsPage.tsx:63-68 | The worker's resolved value has no effect on the outcome. |
| ResultsPage.ResolvedCleanupKeepsInvariant | src/pages/ResultsPage.tsx:63-68 | After a resolved cleanup the scan totals still match the items and the selection is still drawn from them. |
| ResultsPage.RejectedCleanupOverstatesTotal | src/pages/ResultsPage.tsx:69-72 | After a rejected cleanup the items are gone, yet `total_size_bytes` still counts their sizes. |
| ResultsPage.UnselectedDistinct | src/stores/appStore.ts:170-177 | Dropping the selected items keeps the paths distinct. |
| ResultsPage.ClickCheckbox | src/pages/ResultsPage.tsx:180 | Clicking an item not safe to delete changes nothing; a safe item's path is toggled. |
| ResultsPage.RemoveAllKeepsDistinct | src/stores/appStore.ts:144-146 | Filtering a path out of a duplicate-free selection keeps it duplicate-free. |
| ResultsPage.ClickKeepsInvariant | src/pages/ResultsPage.tsx:180 | Checkbox clicks preserve the page invariant. |
| ResultsPage.PathsWhereDistinct | src/stores/appStore.ts:127-130 | Collecting paths from items with distinct paths gives no duplicates. |
| ResultsPage.SelectionButtonsKeepInvariant | src/pages/ResultsPage.tsx:126-133 | The "select all" and "deselect all" buttons preserve the page invariant. |
| ResultsPage.CompletedScanStartsInvariant | src/stores/appStore.ts:119-133 | A consistent scan result with distinct paths establishes the page invariant. |
| ResultsPage.RiskWarningIffRiskySelected | src/pages/ResultsPage.tsx:201 | The warning shows iff some selected item is not low risk. |
| ResultsPage.AutoSelectionRaisesNoWarning | src/pages/ResultsPage.tsx:201 | When the scan items have distinct paths, the automatic selection never raises the risk warning. |
| ResultsPage.SharedPathRaisesWarning | src/pages/ResultsPage.tsx:201 | Without distinct paths it can: a low-risk item and a medium-risk item sharing a path make the automatic selection raise the warning. |
| ResultsPage.PressClean | src/pages/ResultsPage.tsx:214-222 | The button is inert when the selection is empty or a cleanup is running. Otherwise it opens the modal iff `confirmBeforeDelete` is truthy, and cleans directly if not. |
| ResultsPage.InitialPreferencesConfirm | src/stores/appStore.ts:91-95 | With the initial preferences a non-empty selection goes through the modal. |
| ConfirmModal.CountRisk | src/components/CleanupConfirmModal.tsx:27-29 | A risk tally never exceeds the number of items. |
| ConfirmModal.RiskCountsCoverItems | src/components/CleanupConfirmModal.tsx:27-29 | The three tallies sum to the number of items. |
| ConfirmModal.CountRiskPositive | src/components/CleanupConfirmModal.tsx:27-29 | A tally is positive iff some item has that risk. |
| ConfirmModal.Render | src/components/CleanupConfirmModal.tsx:25-154 | A closed modal renders nothing. A done modal shows only the completion notice titled "Cleanup Complete!". Otherwise the view is titled "Confirm Cleanup" and shows the following. The tallies are the numbers of low, medium and high risk items. The warning shows iff the medium or high tally is positive. The preview is the first min(5, n) items, and the "more" line appears iff n > 5, counting the rest. The error shows iff it is a non-empty string. |
| ConfirmModal.WarningIffRiskyItem | src/components/CleanupConfirmModal.tsx:118 | Before completion, the warning shows iff some item is not low risk. |
| ConfirmModal.TalliesCoverItems | src/components/CleanupConfirmModal.tsx:27-29 | Before completion, the three tallies add up to the number of items. |
| ConfirmModal.BeginConfirm | src/components/CleanupConfirmModal.tsx:32-33 | Confirming starts processing with the error cleared. |
| ConfirmModal.SettleConfirm | src/components/CleanupConfirmModal.tsx:34-40 | A resolved action marks the modal done. A rejection stores the thrown message, or "Cleanup failed" when there is none, and leaves it not done. Processing ends either way. |
| ConfirmModal.HandleConfirm | src/components/CleanupConfirmModal.tsx:31-41 | Processing always ends. The modal is done iff it already was or the action resolved. An error shows iff the action was rejected, and it is never empty. |
| ConfirmModal.ConfirmOutcomes | src/components/CleanupConfirmModal.tsx:31-41 | From a modal that is not done, it ends done iff the action resolved, and without an error iff it resolved. |
| ConfirmModal.HandleClose | src/components/CleanupConfirmModal.tsx:43-47 | Closing clears done and the error and calls the cancel callback. |
| ConfirmModal.ButtonsOf | src/components/CleanupConfirmModal.tsx:73-177 | The header's close button is offered in every view and is never disabled. The footer offers only "Done" once the modal is finished; otherwise it offers Cancel and Delete, disabled iff processing. |
| ConfirmModal.CloseWhileProcessing | src/components/CleanupConfirmModal.tsx:43-47 | While the action is pending, Cancel is disabled but the header's close button still calls the cancel callback, and processing is left as it was. |
| ConfirmModal.ConfirmCleanup | src/components/CleanupConfirmModal.tsx:31-41 | With the page's cleanup as the action, the store ends as the page leaves it and processing ends. |
| ConfirmModal.FailureShownButItemsDropped | src/pages/ResultsPage.tsx:69-72 | A rejected worker call shows an error and no "done", yet the selection is already empty and the selected items are gone. |
| HistoryPage.LoadHistory | src/pages/HistoryPage.tsx:41-70 | Without the bridge only the spinner stops. On an unmounted page nothing is stored. Otherwise each failed fetch is replaced by its own fallback and the spinner stops. |
| HistoryPage.FallbacksAreIndependent | src/pages/HistoryPage.tsx:50-57 | The stats fetch's outcome cannot change the history shown, and vice versa. |
| HistoryPage.SessionRows | src/pages/HistoryPage.tsx:82-87 | Session entry i becomes a row with id -i-1, carrying its timestamp, item count and freed bytes. |
| HistoryPage.SessionIdsNegativeAndDistinct | src/pages/HistoryPage.tsx:82-87 | Session ids are negative and pairwise distinct. |
| HistoryPage.AllCleanups | src/pages/HistoryPage.tsx:81-89 | The merged list is a permutation of the session rows followed by the persisted cleanups, ordered newest first. |
| HistoryPage.NewestSessionCleanupFirst | src/pages/HistoryPage.tsx:89 | A session cleanup strictly newer than every other row is listed first. |
| HistoryPage.TiesKeepSourceOrder | src/pages/HistoryPage.tsx:89 | Rows with equal timestamps keep their input order (session rows first), as a stable sort leaves them. |
| HistoryPage.HeaderTotals | src/pages/HistoryPage.tsx:92-95 | The header exceeds the persisted statistics by exactly the session's freed bytes and item counts. |
| HistoryPage.SessionRowSums | src/pages/HistoryPage.tsx:82-87 | Turning entries into rows keeps the sums of freed bytes and items. |
| HistoryPage.HeaderMatchesListedRows | src/pages/HistoryPage.tsx:81-95 | When the statistics agree with the persisted cleanups, the header totals equal the sums over the listed rows. |
| HistoryPage.PersistedSessionCleanupCountedTwice | src/pages/HistoryPage.tsx:92-95 | A session cleanup that the worker also persisted is counted twice in the header and listed twice. |
| SettingsPage.DefaultKeys | src/pages/SettingsPage.tsx:16-24 | There is one key per default entry, in declaration order. |
| SettingsPage.DefaultSettingsAreTheEntries | src/pages/SettingsPage.tsx:16-24 | The default keys are distinct, the map holds each entry's value, and it has no other keys. |
| SettingsPage.SpreadPairs | src/pages/SettingsPage.tsx:47 | An object spreads as its members; an array or string spreads as its elements under their indices; other scalars spread as nothing. |
| SettingsPage.Overlay | src/pages/SettingsPage.tsx:47 | The merged keys are the union; a spread key takes its last value; the other keys keep their defaults. |
| SettingsPage.SpreadReadsProperties | src/pages/SettingsPage.tsx:47 | Spreading an object gives each key the value property access would read (the last duplicate). |
| SettingsPage.LoadMergesDefaults | src/pages/SettingsPage.tsx:47-48 | A stored preference overrides its default, a missing one keeps the default, and the keys are the union. |
| SettingsPage.ScalarPrefsKeepDefaults | src/pages/SettingsPage.tsx:47 | A non-object, non-string, non-array reply leaves the defaults untouched. |
| SettingsPage.InitialPage | src/pages/SettingsPage.tsx:27-32 | The page starts loading with the defaults and no exclusions. |
| SettingsPage.LoadAsWritten | src/pages/SettingsPage.tsx:35-59 | As written: without the bridge the page is left as it was; with it, it loads like the corrected version. |
| SettingsPage.NoBridgeSpinsForever | src/pages/SettingsPage.tsx:37 | As written, a page without the bridge never leaves its loading state. |
| SettingsPage.Load | src/pages/SettingsPage.tsx:38-56 | Loading always ends. A failure shows "Failed to load settings". Success stores the merged preferences, the exclusions (or `[]` when missing) and the version. |
| SettingsPage.Toggle | src/pages/SettingsPage.tsx:66-97 | Exactly the toggled key is written. It holds the flipped value unless the IPC call threw, in which case it holds the negation of the flipped value and "Failed to save setting" is shown. The dark class follows `darkMode`. |
| SettingsPage.FailedToggleRestoresBoolean | src/pages/SettingsPage.tsx:80-85 | A thrown save restores a boolean key's previous value and all other settings. |
| SettingsPage.FailedToggleOfMissingKey | src/pages/SettingsPage.tsx:80-85 | A thrown save of a key absent from the settings leaves it stored as `false`. |
| SettingsPage.ToggleTwiceRestores | src/pages/SettingsPage.tsx:67-68 | Two successful toggles of a boolean key restore the settings. |
| SettingsPage.AddExclusion | src/pages/SettingsPage.tsx:99-124 | An empty trimmed input changes nothing. A duplicate only shows "Exclusion already exists". Otherwise the trimmed path is appended and the input cleared, and a failed or unsuccessful call takes the path out again with an error notice. |
| SettingsPage.RemoveAppended | src/pages/SettingsPage.tsx:120 | Filtering out a freshly appended path that was absent gives the list back. |
| SettingsPage.RemoveExclusion | src/pages/SettingsPage.tsx:126-144 | Declining changes nothing. Otherwise every equal entry is removed, and a failed or unsuccessful call appends the path again with an error notice. |
| SettingsPage.FailedRemovalReorders | src/pages/SettingsPage.tsx:140 | A failed removal of "a" from `["a","b"]` leaves `["b","a"]`. |
| SettingsPage.ExclusionsStayDistinct | src/pages/SettingsPage.tsx:99-144 | Adding and removing keep a duplicate-free exclusion list duplicate-free. |
| SettingsPage.Reset | src/pages/SettingsPage.tsx:146-156 | Declining does nothing. Otherwise the settings become the defaults and each default is written in declaration order, stopping after a write that throws. The success notice shows only when every write returned. |
| SettingsPage.ResetWritesEveryDefault | src/pages/SettingsPage.tsx:151-153 | A reset whose writes all return writes every default key. |
| SettingsPage.ResetLeavesDarkClass | src/pages/SettingsPage.tsx:146-156 | Reset sets `darkMode` to false but leaves the document's dark class on. |
| UpdateNotification.Step | src/components/UpdateNotification.tsx:28-72 | Each updater event sets its phase and payload and touches nothing else. Dismissing sets the flag. Installing changes no local state. |
| UpdateNotification.TransitionsUnguarded | src/components/UpdateNotification.tsx:28-54 | The phase after an event depends on the event alone, and events never touch the dismiss flag. |
| UpdateNotification.ReadyCanFallBack | src/components/UpdateNotification.tsx:41-44 | A progress event moves even a ready banner back to downloading. |
| UpdateNotification.DismissIsSticky | src/components/UpdateNotification.tsx:70-77 | Once dismissed, no sequence of events shows the banner again. |
| UpdateNotification.VisibleAfterEvent | src/components/UpdateNotification.tsx:74-77 | An undismissed banner is visible after an event iff the event was not "checking" or "not available". |
| UpdateNotification.Render | src/components/UpdateNotification.tsx:74-155 | Nothing renders unless visible. The titles are "Update Available", "Downloading Update", "Update Ready" and "Update Error", and a ready banner offers the restart button. The version and the progress bar appear iff their payload arrived, and they show the stored version and percent. An error always shows some text, which is the stored message when that is non-empty. |
| UpdateNotification.RenderAfterEvent | src/components/UpdateNotification.tsx:28-155 | Right after an event on an undismissed banner, the banner shows the version just announced, the percent just reported, or the non-empty message just received. |
| UpdateNotification.EmptyErrorFallsBack | src/components/UpdateNotification.tsx:151-155 | An empty error message renders "Failed to check for updates". |
| WorkerCli.IsValueToken | python/main.py:43-52 | The empty string and anything not starting with `-` are option values. A `-`-prefixed token whose second character is not a digit and that holds no space, such as `--help`, is read as an option. |
| WorkerCli.ParseFrom | python/main.py:24-54 | Parsing yields options only when no unknown token was seen; otherwise it ends in help or a usage error. |
| WorkerCli.ParseArgv | python/main.py:24-54 | A command line holding `-h` or `--help` never yields options. How each token is read is stated by `WorkerCli.ParseSwitch`, `ParseOutputJson`, `ParseOneValue`, `ParseMissingValue` and `ParseSetPref`. |
| WorkerCli.HelpNeverParses | python/main.py:24-54 | From any position, a help token is never consumed as an option's value, so a parse that yields options saw no help token. |
| WorkerCli.UnknownTokenReportedLast | python/main.py:54 | An unknown token followed by `--help` prints help. An unknown token next to a command, before or after it, is a usage error. |
| WorkerCli.ParseSwitch | python/main.py:30-51 | A `store_true` flag sets its option, and parsing continues with the next token. |
| WorkerCli.ParseOutputJson | python/main.py:50 | `--output json` selects JSON output, and parsing continues after the value. |
| WorkerCli.ParseOneValue | python/main.py:45-49 | `--add-exclusion`, `--remove-exclusion` or `--items` followed by a value token stores that token, and parsing continues after it. |
| WorkerCli.ParseMissingValue | python/main.py:45-46 | An exclusion edit followed by an option-like token is a usage error. |
| WorkerCli.ParseSetPref | python/main.py:43 | `--set-pref` followed by two value tokens stores the key and value pair. |
| WorkerCli.Dispatch | python/main.py:56-82 | The chosen command was requested and no command earlier in the precedence was. Help is chosen only when nothing was requested. |
| WorkerCli.PrecedenceDecides | python/main.py:56-82 | Of two requested commands the later one in the precedence never runs. |
| WorkerCli.EmptyExclusionFallsThrough | python/main.py:76-82 | An empty `--add-exclusion` value is falsy, so the worker prints help. |
| WorkerCli.ExitStatus | python/main.py:54-82 | A usage error exits 2 and `--help` exits 0. A parsed command line exits 0 or 1. It exits 1 iff it falls through to help, or it is `--clean` with missing or unparsable `--items`, or the command that runs raises. |
| WorkerCli.CleanWithoutItemsFails | python/main.py:122-126 | `--clean` without `--items` exits 1, although it parses and does not fall through to help. |
| WorkerCli.ValidateClean | python/main.py:122-132 | A missing `--items` and unparsable items are each reported before any cleanup; otherwise the parsed paths proceed. |
| WorkerCli.RecordCleanup | python/main.py:139-145 | The deleted paths are recorded iff the cleanup succeeded, and the counts and bytes are copied from the result. |
| WorkerCli.DecodePrefValue | python/main.py:233-236 | "true"/"false" in any case decode to booleans; other text is parsed as JSON, falling back to the raw string. |
| WorkerCli.BooleanDecodingIgnoresCase | python/main.py:234 | "TRUE" and "False" decode to true and false. |
| WorkerCli.SetPreferenceReply | python/main.py:240-241 | The JSON reply always reports success and echoes the decoded value. |
| Protocol.PlainHandlersUnderstood | electron/main.ts:244-402 | The vectors of the argument-free handlers parse to the intended command with JSON output. |
| Protocol.ScanUnderstood | electron/main.ts:151-153 | A scan request parses to `--scan` with the quick flag as sent. |
| Protocol.CleanupUnderstood | electron/main.ts:190-196 | A cleanup request parses to `--clean` with the items' JSON text. |
| Protocol.SetPrefUnderstood | electron/main.ts:370-385 | `set-pref` parses to its key and value when neither reads as an option. |
| Protocol.AddExclusionUnderstood | electron/main.ts:405-419 | Adding an exclusion with a non-empty, non-option path parses to `--add-exclusion` with JSON output. |
| Protocol.RemoveExclusionUnderstood | electron/main.ts:422-436 | Removing an exclusion with a non-empty, non-option path parses to `--remove-exclusion` with JSON output. |
| Protocol.EmptyExclusionPrintsHelp | electron/main.ts:405-419 | An empty exclusion path reaches the worker and ends in its usage text. |
| Protocol.OptionLikePathRefused | electron/main.ts:405-419 | A path starting with `--` is refused by the worker's parser. |
| Protocol.BooleanPreferenceRoundTrip | python/main.py:233-236 | A boolean sent with `toString` is decoded back to the same boolean. |
| Protocol.ToggleSurvivesWorkerFailure | electron/main.ts:381-383 | Because `set-pref` never rejects, a failed worker never rolls a toggle back. |
| Protocol.FailedWorkerRollsBackExclusion | electron/main.ts:405-419 | A worker that exits unsuccessfully while adding an exclusion makes the page take the path out again. |
| SafetyRules.RulesFor | python/cleaners/safety_rules.py:105-108 | Windows and darwin have their own tables; every other platform name uses the linux table. |
| SafetyRules.FirstMatch | python/cleaners/safety_rules.py:112-115 | The first matching entry is reported, and none before it matches; no result means no entry matches. |
| SafetyRules.IsPathProtected | python/cleaners/safety_rules.py:91-117 | A path is protected iff it and some never-delete entry are string prefixes of one another after normalisation, and the first such entry is named. |
| SafetyRules.RequiresConfirmation | python/cleaners/safety_rules.py:120-146 | Confirmation is needed iff the normalised path starts with a sensitive entry, and the first such entry is named. |
| SafetyRules.ValidateDeletionSafety | python/cleaners/safety_rules.py:171-199 | A path is safe iff it is unprotected and not a locked file. Confirmation is needed iff it is safe and sensitive. Protection is reported first, then the lock. |
| SafetyRules.UnknownPlatformIsLinux | python/cleaners/safety_rules.py:105-136 | An unknown platform answers both checks as linux. |
| SafetyRules.StringPrefixOvershoots | python/cleaners/safety_rules.py:114 | `/binaries` counts as protected by `/bin`, and `/` counts as protected because it is a prefix of `/bin`. |
| CacheScanner.IsProtected | python/cleaners/cache_scanner.py:180-186 | A path is protected iff its lower-case text starts with some lower-cased whitelist entry. |
| CacheScanner.ItemFor | python/cleaners/cache_scanner.py:224-268 | Missing, protected, locked and zero-size candidates give no item. A produced item has a positive size, is safe to delete and takes its category, risk and reason from its configuration. |
| CacheScanner.Collect | python/cleaners/cache_scanner.py:219-268 | Every collected item is what some candidate yields, and every item a candidate yields is collected. There are never more items than candidates. |
| CacheScanner.CollectConcat | python/cleaners/cache_scanner.py:219-268 | Visiting two runs of candidates in turn yields their items in turn, so the items follow visiting order. |
| CacheScanner.CollectOne | python/cleaners/cache_scanner.py:219-268 | A single candidate yields exactly its own item, or nothing. |
| CacheScanner.CategoryTotals | python/cleaners/cache_scanner.py:247-265 | Each category's total is the sum of its items' sizes, the totals add up to the overall size, and only present categories appear. |
| CacheScanner.Scan | python/cleaners/cache_scanner.py:215-282 | The items are the collected items reordered by size, largest first. `total_items` and `total_size_bytes` count and sum them, and the categories sum per category. |
| CacheScanner.EqualSizesKeepScanOrder | python/cleaners/cache_scanner.py:271 | Items of equal size stay in scan order, as Python's stable sort leaves them. |
| Cleaner.NewCleaner | python/cleaners/cleaner.py:38-45 | Trash mode is on iff requested and send2trash is available. |
| Cleaner.Outcome | python/cleaners/cleaner.py:105-146 | A missing path is skipped. A deleted path frees its size as measured before deletion. A path fails iff a size lookup or the deletion raised. |
| Cleaner.Outcomes | python/cleaners/cleaner.py:104-146 | There is one outcome per path, each from that path's own probe. |
| Cleaner.OutcomesPartition | python/cleaners/cleaner.py:104-146 | Removed, failed and skipped paths partition the input, with one error per failure. |
| Cleaner.AllMissingIsNoOp | python/cleaners/cleaner.py:105-106 | Only skips: nothing deleted, nothing freed, no error. |
| Cleaner.Execute | python/cleaners/cleaner.py:89-154 | The counts, freed bytes and errors are those of the outcomes; `success` holds iff nothing failed; deleted plus failed never exceeds the paths. |
| Cleaner.NothingThereSucceeds | python/cleaners/cleaner.py:105-148 | A cleanup of paths that are all missing succeeds with nothing done. |
| Cleaner.PreviewScan | python/cleaners/cleaner.py:62-80 | Every previewed entry is an accessible input path. It carries that path's size, and it is marked a directory iff the path is one. The number of entries is the number of accessible paths, and there is one warning per file whose size cannot be read. |
| Cleaner.PreviewScanConcat | python/cleaners/cleaner.py:62-80 | Previewing two runs of paths in turn gives their entries and warnings in turn, so the order follows the input. |
| Cleaner.PreviewScanOne | python/cleaners/cleaner.py:62-80 | A single path is listed once with its size and kind when accessible. It is warned about with `Cannot access <path>: <message>` when its size read raises, and is otherwise passed over. |
| Cleaner.PreviewScanStep | python/cleaners/cleaner.py:62-80 | One more path adds its listed size to the estimate. |
| Cleaner.EstimateIsListedTotal | python/cleaners/cleaner.py:62-80 | The estimate is the sum of the listed sizes of the input paths, path by path. |
| Cleaner.Preview | python/cleaners/cleaner.py:48-87 | The listed entries and warnings are those of the path-by-path scan. So the count is that of the accessible paths, each listed path carries its size and directory flag, and the estimate is the sum of the listed sizes of the input paths. There is one warning per unreadable file, and the trash mode is reported. |
| Cleaner.PreviewPredictsExecute | python/cleaners/cleaner.py:48-154 | When nothing changes in between and no deletion fails, the preview's count and size are exactly what the cleanup deletes and frees. |
| SecurityScanner.NewLimits | python/security/security_scanner.py:98-101 | The size cap is the megabyte count times 1048576; the file cap is kept. |
| SecurityScanner.Extension | python/security/security_scanner.py:163 | The extension is a dot-led suffix without another dot, empty when the name has no dot after its leading dots (as `os.path.splitext`). |
| SecurityScanner.IsLikelyFalsePositive | python/security/security_scanner.py:220-235 | The three rules `_is_likely_false_positive` applies. Its contract, marker by marker, is `SecurityScanner.FalsePositiveMarkers`. |
| SecurityScanner.FalsePositiveMarkers | python/security/security_scanner.py:220-235 | A match is dropped iff one of these holds: the lower-cased path contains "test", "spec" or "mock"; the stripped line starts with `#`, `//` or `*`; or the lower-cased line contains one of the six placeholder words. |
| SecurityScanner.MarkersOfThree | python/security/security_scanner.py:223 | Some path marker occurs iff "test", "spec" or "mock" occurs. |
| SecurityScanner.MarkersOfSix | python/security/security_scanner.py:232 | Some placeholder word occurs iff one of "example", "placeholder", "your_", "xxx", "dummy" and "sample" occurs. |
| SecurityScanner.CommentLinesIgnored | python/security/security_scanner.py:227-229 | A match on a `#` line, after any indentation, is a false positive. |
| SecurityScanner.TestFilesIgnored | python/security/security_scanner.py:223-224 | Any match in a path mentioning "test" in any case is a false positive. |
| SecurityScanner.Severity | python/security/security_scanner.py:206 | The severity is "high" iff the lower-cased pattern name contains "key" or "secret", and "medium" otherwise. |
| SecurityScanner.FileFindings | python/security/security_scanner.py:185-218 | Each finding is an exposed secret in that file with a high or medium severity, and there are no more findings than matches. |
| SecurityScanner.FileFindingsConcat | python/security/security_scanner.py:193-213 | The findings of matches in turn are the findings of each run in turn: one per match, in match order. |
| SecurityScanner.FileFindingsOne | python/security/security_scanner.py:199-213 | A match that is not a likely false positive yields one finding with these fields: its pattern's severity, category `exposed_secret`, title `Possible <pattern> Exposed`, the file path and the line number. A likely false positive yields nothing. |
| SecurityScanner.NothingReportedIffAllFiltered | python/security/security_scanner.py:185-218 | A file yields no finding exactly when every one of its matches is a likely false positive. |
| SecurityScanner.ScanFiles | python/security/security_scanner.py:149-183 | The walk stops at the file cap and never pushes the count past it; a walk that starts at the cap reads nothing. |
| SecurityScanner.ReadFiles | python/security/security_scanner.py:165-172 | A file is among those the walk would read iff it is a code file whose size is known and within the limit. |
| SecurityScanner.ScanFilesReads | python/security/security_scanner.py:149-183 | The walk reads exactly the first eligible files that the cap leaves room for, in walk order, and returns their findings file after file. The counter grows by the number read. |
| SecurityScanner.ScanFilesConcat | python/security/security_scanner.py:158-175 | Walking two runs of files is walking the first, then the second from where the counter stopped. |
| SecurityScanner.ScanRoots | python/security/security_scanner.py:119-124 | Scanning the roots never lowers the count and keeps it within the cap. |
| SecurityScanner.RootFiles | python/security/security_scanner.py:118-120 | A file is walked iff it belongs to some root that exists. |
| SecurityScanner.ScanRootsIsOneWalk | python/security/security_scanner.py:118-124 | Breaking between roots once the cap is reached changes nothing: the roots are one walk over all the files of the existing roots. |
| SecurityScanner.ScanRootsReads | python/security/security_scanner.py:118-124 | The scan reads the first eligible files of the existing roots that the cap leaves room for, in walk order, and reports their findings file after file. |
| SecurityScanner.Tallies | python/security/security_scanner.py:133-138 | Each tally counts the findings per key and sums to the number of findings; all five severities are present. |
| SecurityScanner.Report | python/security/security_scanner.py:133-146 | `total_findings` is the number of findings, and both tallies count them per key. |
| SecurityScanner.Scan | python/security/security_scanner.py:103-146 | The findings are the roots' (or the defaults' when none are given), then the sensitive-file and browser findings; the tallies count them. |
| SecurityScanner.CapBoundsFilesRead | python/security/security_scanner.py:119-124 | A fresh scanner reads at most `max_files` files in total. |
| Formatters.Round | src/utils/formatters.ts:19 | `Math.round`: the nearest integer, halves rounded up. |
| Formatters.FormatDurationAsWritten | src/utils/formatters.ts:17-30 | As written: under a minute, the rounded seconds with "s"; otherwise the text starts with the whole minutes. |
| Formatters.FormatDuration | src/utils/formatters.ts:17-30 | The text ends in "s" or "m", and it is a bare seconds count iff the rounded duration is under a minute. |
| Formatters.DurationRoundTrip | src/utils/formatters.ts:17-30 | Reading the text back gives the rounded number of seconds. |
| Formatters.SecondsRoundTrip | src/utils/formatters.ts:18-20 | "Ns" reads back as N seconds. |
| Formatters.MinutesRoundTrip | src/utils/formatters.ts:25-27 | "Mm" reads back as 60·M seconds. |
| Formatters.MinutesSecondsRoundTrip | src/utils/formatters.ts:29 | "Mm Ss" reads back as 60·M + S seconds. |
| Formatters.WholeSecondsAgree | src/utils/formatters.ts:17-30 | On whole seconds the code as written and the corrected version agree. |
| Formatters.SixtySecondsShown | src/utils/formatters.ts:22-23 | As written, 119.6 s shows as "1m 60s", which does not read back; the corrected version gives "2m". |
| Formatters.FirstSegment | src/utils/formatters.ts:51-56 | The first path part is the longest separator-free prefix. |
| Formatters.LastSegment | src/utils/formatters.ts:51-57 | The last path part is the longest separator-free suffix. |
| Formatters.SliceTo | src/utils/formatters.ts:53 | `slice(0, end)`, with a negative end counted from the back. |
| Formatters.TruncatePath | src/utils/formatters.ts:48-60 | A short path is unchanged. A path of one or two parts is cut to `maxLength - 3` characters plus "...". A longer path becomes first part + `\...\` + last part. |
| Formatters.SegmentsSurvive | src/utils/formatters.ts:55-59 | Shortening keeps the first and last parts. |
| Formatters.ElidedSegments | src/utils/formatters.ts:59 | The elided form splits back into the two parts it joined. |
| Formatters.ShorteningCanLengthen | src/utils/formatters.ts:55-59 | `truncatePath("abcdef/g/h", 5)` is longer than its input. |
| HealthScore.StatusOf | src/components/HealthScoreWidget.tsx:6-11 | Excellent iff ≥ 90, Good iff in [70, 90), Needs Attention iff in [50, 70), Critical iff < 50. |
| HealthScore.Badge | src/components/HealthScoreWidget.tsx:30-32 | ✅ iff ≥ 90, ⚠️ iff in [70, 90), 🚨 iff < 70. |
| HealthScore.StatusMonotone | src/components/HealthScoreWidget.tsx:6-11 | A higher score never yields a worse status. |
| HealthScore.BadgeAgreesWithStatus | src/components/HealthScoreWidget.tsx:6-32 | ✅ marks exactly Excellent, ⚠️ exactly Good, and 🚨 both Needs Attention and Critical. |

## Left out

- Process spawning, output streaming and promise plumbing in electron/main.ts are not modelled; only the resulting `ProcessOutcome` is. Window creation, the auto-updater event wiring, `get-system-info`, `install-update` and `get-app-version` are host-API glue.
- electron/preload.ts and src/types/electron.d.ts only forward calls and declare types.
- python/database/db.py is an SQLite wrapper. Its answers enter the model as the worker's JSON output; `RecordCleanup` states what is handed to `add_cleanup`.
- The performance diagnoser, `formatBytes`, `formatNumber` and the health-score computation on the scan page are floating-point formatting and metrics.
- Several operations appear only as oracle inputs: secret-pattern regular expressions, `os.walk` and its skip list, `_get_dir_size`, send2trash, lock probes, `os.path` normalisation and `expandvars`.
- The backup log of `Cleaner.execute` and `save_backup_log` is bookkeeping that nothing in the workflow reads.
- The worker's text output mode and `show_history`, `show_stats`, `run_scan`, `run_security_scan`, `run_performance_scan` and `get_disk_usage` are left out: they only print what the modelled scanners and db return.
- The scan page, dashboard, layout, app shell, quick-action card and insight panel are presentation or mock data.
- `setHealthScore` and `setPerformanceIssues` are plain setters outside the workflow.
- Concurrency is not modelled: `Promise.all` ordering, updates of one page racing each other, and a scan that completes after a cancel. Each handler is one atomic step from the state it was called in.
- The three-second notification timeout and the settings page's own loading view are timers and presentation.
- The development-mode cleanup simulation of the results page is treated as a resolved call with an ignored value, which is what the page does with it.
- Durations and health scores are reals. `Math.round` is modelled; the binary representation of floating point is not.
- History timestamps are integers (milliseconds since the epoch); unparsable dates, which JavaScript turns into `NaN`, are not modelled.
- The persisted exclusions are modelled as a list of strings or missing; other JSON shapes for that field are not.
- The worker's argument parser models exact flags, `--help` and option-like values. argparse's unique-prefix abbreviations are not modelled.
- WorkerCli.ParseFrom: does not model the `--flag=value` spelling of an option with a value; the model reads such a token as an unknown argument, while argparse splits it at the `=`.
- WorkerCli.ParseFrom: reads `--scan-id` with a stricter integer parser than Python's `int()`, which also accepts `"+5"`, `" 5"` and `"1_000"`; the model reports those as usage errors. The `--` separator token is not modelled either. The Electron side sends neither.
- WorkerCli.IsValueToken: treats a token as a value when it is `-` followed by digits only, whereas argparse also accepts negative decimals such as `-1.5` or `-.5` as option values.
- CacheScanner.IsProtected: lower-cases ASCII letters (and the Kelvin sign) only, whereas Python's `str.lower` folds every cased letter, so a whitelist match that differs only in a non-ASCII case is not recognised by the model.
- WorkerCli.ExitStatus: whether a command's handler ends in an uncaught exception (a database or file-system error, a non-list `--items`) is a parameter; the handlers' I/O is not modelled.
- Formatters.TruncatePath: compares and cuts lengths in Unicode scalar values, whereas `path.length` counts UTF-16 code units. A path with characters outside the Basic Multilingual Plane, such as `"a/😀"` with `maxLength` 3, is therefore truncated by the source but not by the model.
- Formatters.SliceTo: counts Unicode scalar values where `slice` counts UTF-16 code units, so the model never splits a surrogate pair while the source can.
- SecurityScanner.FileFindings: a `Finding` omits the `description` and `recommendation` texts, which are built from the pattern name alone and do not affect which findings are reported.
- ResultsPage.AutoSelectionRaisesNoWarning: proved only for scan results whose items have distinct paths; `ResultsPage.SharedPathRaisesWarning` shows that the source does warn when paths are shared.
- WorkerCli.ValidateClean: passes on any parsed JSON value. How `run_clean` then iterates a value that is not an array is not modelled. It walks the characters of a string and the keys of an object, and a number raises a TypeError. `Cleaner.Execute` takes a list of strings, and no lemma connects the parsed value to that list.
- WorkerCli.DecodePrefValue: lower-casing is modelled for ASCII letters only, because Python's `str.lower` on other scripts does not change whether the text is "true" or "false".
- SecurityScanner.CommentLinesIgnored: states the `#` rule for any indentation only; `SecurityScanner.FalsePositiveMarkers` states every marker on the stripped line.
- The `UpdateNotification` subscriptions, their cleanup and the early return without a bridge are event wiring; the model receives the events directly.

## Findings

| source | as written | input that shows it | evidently intended | confidence | as-written member | corrected member |
|---|---|---|---|---|---|---|
| src/utils/formatters.ts:22-29 | the minutes are floored before the seconds are rounded, so the remainder can round up to 60 | `formatDuration(119.6)` gives "1m 60s" | round the duration first, then split it, giving "2m" | not executed | Formatters.SixtySecondsShown | Formatters.DurationRoundTrip |
| src/pages/SettingsPage.tsx:37 | without the Electron bridge `loadData` returns before the `try`, so the `finally` that clears `loading` never runs | a page started where `window.electronAPI` is undefined | the spinner stops, as the history page does in the same situation (src/pages/HistoryPage.tsx:42-45) | not executed | SettingsPage.NoBridgeSpinsForever | SettingsPage.Load |
