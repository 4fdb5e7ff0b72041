/**
 * The settings page (src/pages/SettingsPage.tsx): the defaults merged with
 * the persisted preferences, and the three optimistic edits — a toggle, adding
 * an exclusion and removing one — each applied at once and rolled back when
 * the worker call fails, plus the reset to defaults. A worker call's outcome
 * is a parameter: what the awaited bridge call resolved to, or that it threw.
 * The `dark` class on the document element is the field `darkClass`.
 */
module SettingsPage {
  import opened Base
  import Text
  import Json
  import AppStore
  import ResultsPage
  import WorkerIpc

  /** The page's settings: an open record, like the store's preferences. */
  type Settings = AppStore.Preferences

  /** `DEFAULT_SETTINGS`, keys in declaration order with their default values. */
  const DefaultEntries: seq<(string, bool)> := [
    ("quickScanByDefault", true),
    ("autoSelectLowRisk", true),
    ("confirmBeforeDelete", true),
    ("enableNotifications", true),
    ("darkMode", false),
    ("scanOnStartup", false),
    ("keepLogs", true)]

  const DefaultSettings: Settings := map[
    "quickScanByDefault" := Json.Bool(true),
    "autoSelectLowRisk" := Json.Bool(true),
    "confirmBeforeDelete" := Json.Bool(true),
    "enableNotifications" := Json.Bool(true),
    "darkMode" := Json.Bool(false),
    "scanOnStartup" := Json.Bool(false),
    "keepLogs" := Json.Bool(true)]

  /** The keys of `DefaultEntries`, in order. */
  function DefaultKeys(): (ks: seq<string>)
    ensures |ks| == |DefaultEntries|
  {
    seq(|DefaultEntries|, i requires 0 <= i < |DefaultEntries| => DefaultEntries[i].0)
  }

  /** The record and the ordered entries agree: the same seven keys, each once, with the same values. */
  lemma DefaultSettingsAreTheEntries()
    ensures NoDuplicates(DefaultKeys())
    ensures forall i :: 0 <= i < |DefaultEntries| ==>
      DefaultEntries[i].0 in DefaultSettings && DefaultSettings[DefaultEntries[i].0] == Json.Bool(DefaultEntries[i].1)
    ensures forall k :: k in DefaultSettings ==> k in DefaultKeys()
  {
    var ks := DefaultKeys();
    assert ks == ["quickScanByDefault", "autoSelectLowRisk", "confirmBeforeDelete", "enableNotifications",
                  "darkMode", "scanOnStartup", "keepLogs"];
  }

  // ---------------------------------------------------------------------------
  // Object spread

  /**
   * The own enumerable properties `{...v}` copies, in order: an object's
   * members, an array's or a string's elements under their decimal indices,
   * and nothing for `null`, booleans and numbers.
   */
  function SpreadPairs(v: Json.Value): (r: seq<(string, Json.Value)>)
    ensures v.Obj? ==> |r| == |v.members| && forall i :: 0 <= i < |r| ==> r[i] == (v.members[i].key, v.members[i].value)
    ensures v.Arr? ==> |r| == |v.elems| && forall i :: 0 <= i < |r| ==> r[i] == (Text.NatToString(i), v.elems[i])
    ensures v.Str? ==> |r| == |v.s| && forall i :: 0 <= i < |r| ==> r[i] == (Text.NatToString(i), Json.Str([v.s[i]]))
    ensures v.Null? || v.Bool? || v.Num? ==> r == []
  {
    match v
    case Obj(ms) => seq(|ms|, i requires 0 <= i < |ms| => (ms[i].key, ms[i].value))
    case Arr(es) => seq(|es|, i requires 0 <= i < |es| => (Text.NatToString(i), es[i]))
    case Str(s) => seq(|s|, i requires 0 <= i < |s| => (Text.NatToString(i), Json.Str([s[i]])))
    case _ => []
  }

  /** The value the last pair with key `k` carries, if any. */
  function LastValue(pairs: seq<(string, Json.Value)>, k: string): Option<Json.Value> {
    if |pairs| == 0 then None
    else if pairs[|pairs| - 1].0 == k then Some(pairs[|pairs| - 1].1)
    else LastValue(pairs[..|pairs| - 1], k)
  }

  /** `{...base, ...pairs}`: the pairs assigned in order over `base`. */
  function Overlay(base: Settings, pairs: seq<(string, Json.Value)>): (r: Settings)
    ensures forall k :: k in r <==> k in base || LastValue(pairs, k).Some?
    ensures forall k :: LastValue(pairs, k).Some? ==> r[k] == LastValue(pairs, k).value
    ensures forall k :: k in base && LastValue(pairs, k).None? ==> r[k] == base[k]
  {
    if |pairs| == 0 then base
    else
      var last := pairs[|pairs| - 1];
      Overlay(base, pairs[..|pairs| - 1])[last.0 := last.1]
  }

  /** The last member with a key is what `JSON.parse` keeps: spreading an object reads its properties. */
  lemma {:induction false} SpreadReadsProperties(ms: seq<Json.Member>, k: string)
    ensures LastValue(SpreadPairs(Json.Obj(ms)), k) == Json.LastWithKey(ms, k)
    decreases |ms|
  {
    if |ms| > 0 {
      var init := ms[..|ms| - 1];
      SpreadReadsProperties(init, k);
      assert SpreadPairs(Json.Obj(ms))[..|ms| - 1] == SpreadPairs(Json.Obj(init));
    }
  }

  /** The settings after loading `prefs`: `{...DEFAULT_SETTINGS, ...prefs}`. */
  function WithPrefs(prefs: Json.Value): Settings {
    Overlay(DefaultSettings, SpreadPairs(prefs))
  }

  /**
   * Loading an object of preferences: a key it holds takes the persisted
   * value, a default key it lacks keeps the default, and no other key appears.
   */
  lemma LoadMergesDefaults(ms: seq<Json.Member>, k: string)
    ensures Json.Get(Json.Obj(ms), k).Some? ==>
      k in WithPrefs(Json.Obj(ms)) && WithPrefs(Json.Obj(ms))[k] == Json.Get(Json.Obj(ms), k).value
    ensures Json.Get(Json.Obj(ms), k).None? && k in DefaultSettings ==>
      k in WithPrefs(Json.Obj(ms)) && WithPrefs(Json.Obj(ms))[k] == DefaultSettings[k]
    ensures k in WithPrefs(Json.Obj(ms)) <==> k in DefaultSettings || Json.Get(Json.Obj(ms), k).Some?
  {
    SpreadReadsProperties(ms, k);
  }

  /** A non-object reply such as `null` or a number leaves the defaults as they are. */
  lemma ScalarPrefsKeepDefaults(v: Json.Value)
    requires v.Null? || v.Bool? || v.Num?
    ensures WithPrefs(v) == DefaultSettings
  {
  }

  // ---------------------------------------------------------------------------
  // Page state

  /** A toast: its message and whether it is an error. */
  datatype Notice = Notice(message: string, isError: bool)

  datatype Page = Page(
    settings: Settings,
    exclusions: seq<string>,
    newExclusion: string,
    appVersion: string,
    loading: bool,
    notification: Option<Notice>,
    darkClass: bool)

  /** The page as first rendered, with whatever `dark` class the layout set. */
  function InitialPage(darkClass: bool): (p: Page)
    ensures p.loading && p.settings == DefaultSettings && p.exclusions == []
  {
    Page(DefaultSettings, [], "", "", true, None, darkClass)
  }

  /** What the three bridge reads resolved to; `exclusions` is `None` when the field is missing. */
  datatype Loaded = Loaded(prefs: Json.Value, exclusions: Option<seq<string>>, version: string)

  /**
   * The load effect as written: without the bridge it returns before the
   * `try`, so the `finally` that clears `loading` never runs.
   */
  function LoadAsWritten(p: Page, hasApi: bool, fetched: Result<Loaded, string>): (r: Page)
    ensures !hasApi ==> r == p
    ensures hasApi ==> r == Load(p, true, fetched)
  {
    if !hasApi then p else Load(p, true, fetched)
  }

  /** Without the bridge the page never leaves its loading spinner. */
  lemma NoBridgeSpinsForever(fetched: Result<Loaded, string>, darkClass: bool)
    ensures LoadAsWritten(InitialPage(darkClass), false, fetched).loading
  {
  }

  /**
   * The load effect as intended, as the history page does it: loading always
   * ends. With the bridge, a successful load merges the preferences over the
   * defaults and takes the exclusions (none when missing) and the version; a
   * failed one keeps the defaults and shows an error.
   */
  function Load(p: Page, hasApi: bool, fetched: Result<Loaded, string>): (r: Page)
    ensures !r.loading
    ensures !hasApi ==> r == p.(loading := false)
    ensures hasApi && fetched.Err? ==>
      r == p.(loading := false, notification := Some(Notice("Failed to load settings", true)))
    ensures hasApi && fetched.Ok? ==>
      r.settings == WithPrefs(fetched.value.prefs)
      && r.exclusions == fetched.value.exclusions.GetOr([])
      && r.appVersion == fetched.value.version
      && r.notification == p.notification && r.darkClass == p.darkClass
  {
    if !hasApi then p.(loading := false)
    else match fetched
      case Err(_) => p.(loading := false, notification := Some(Notice("Failed to load settings", true)))
      case Ok(l) => p.(settings := WithPrefs(l.prefs), exclusions := l.exclusions.GetOr([]),
                       appVersion := l.version, loading := false)
  }

  // ---------------------------------------------------------------------------
  // handleToggle

  /** `!settings[key]`: the JavaScript negation of a value that may be missing. */
  function Flipped(s: Settings, key: string): bool {
    !Json.Truthy(AppStore.Pref(s, key))
  }

  /**
   * `handleToggle`: the key is set to the negation of its value at once (and
   * the `dark` class follows `darkMode`); only a call that throws sets it back
   * to the negation of that, with an error toast. A call that resolves, even
   * with `success: false`, leaves the new value.
   */
  function Toggle(p: Page, key: string, hasApi: bool, reply: ResultsPage.WorkerReply): (r: Page)
    ensures r.settings.Keys == p.settings.Keys + {key}
    ensures forall k :: k in p.settings && k != key ==> r.settings[k] == p.settings[k]
    ensures !(hasApi && reply.Rejected?) ==> r.settings[key] == Json.Bool(Flipped(p.settings, key))
    ensures hasApi && reply.Rejected? ==>
      r.settings[key] == Json.Bool(!Flipped(p.settings, key)) && r.notification == Some(Notice("Failed to save setting", true))
    ensures !(hasApi && reply.Rejected?) ==> r.notification == p.notification
    ensures key == "darkMode" ==> r.darkClass == Json.Truthy(Some(r.settings[key]))
    ensures key != "darkMode" ==> r.darkClass == p.darkClass
    ensures r.exclusions == p.exclusions && r.newExclusion == p.newExclusion && r.loading == p.loading
  {
    var newValue := Flipped(p.settings, key);
    var dark := if key == "darkMode" then newValue else p.darkClass;
    var optimistic := p.(settings := p.settings[key := Json.Bool(newValue)], darkClass := dark);
    if hasApi && reply.Rejected? then
      optimistic.(settings := optimistic.settings[key := Json.Bool(!newValue)],
                  darkClass := if key == "darkMode" then !newValue else dark,
                  notification := Some(Notice("Failed to save setting", true)))
    else optimistic
  }

  /** A failed save of a boolean setting restores the settings exactly. */
  lemma FailedToggleRestoresBoolean(p: Page, key: string, error: string)
    requires key in p.settings && p.settings[key].Bool?
    ensures Toggle(p, key, true, ResultsPage.Rejected(error)).settings == p.settings
  {
  }

  /** A failed save of a key that was missing leaves it present and `false`. */
  lemma FailedToggleOfMissingKey(p: Page, key: string, error: string)
    requires key !in p.settings
    ensures Toggle(p, key, true, ResultsPage.Rejected(error)).settings == p.settings[key := Json.Bool(false)]
  {
  }

  /** Two saved toggles of a boolean setting give back the settings they started from. */
  lemma ToggleTwiceRestores(p: Page, key: string, hasApi: bool, v1: Json.Value, v2: Json.Value)
    requires key in p.settings && p.settings[key].Bool?
    ensures Toggle(Toggle(p, key, hasApi, ResultsPage.Resolved(v1)), key, hasApi, ResultsPage.Resolved(v2)).settings
      == p.settings
  {
    var once := Toggle(p, key, hasApi, ResultsPage.Resolved(v1));
    assert once.settings == p.settings[key := Json.Bool(!p.settings[key].b)];
  }

  // ---------------------------------------------------------------------------
  // Exclusions

  /** The bridge call succeeded: it resolved to a value whose `success` is truthy. */
  predicate Succeeded(reply: ResultsPage.WorkerReply) {
    reply.Resolved? && Json.Truthy(Json.Get(reply.value, "success"))
  }

  /**
   * `addExclusion`: the input is trimmed; an empty path does nothing, a
   * duplicate only raises an error toast; otherwise the path is appended and
   * the input cleared, and a failed call removes the path again.
   */
  function AddExclusion(p: Page, hasApi: bool, reply: ResultsPage.WorkerReply): (r: Page)
    ensures var path := Text.JsTrim(p.newExclusion);
      && (path == "" ==> r == p)
      && (path != "" && path in p.exclusions ==> r == p.(notification := Some(Notice("Exclusion already exists", true))))
      && (path != "" && path !in p.exclusions ==>
            r.newExclusion == ""
            && (!hasApi || Succeeded(reply) ==> r.exclusions == p.exclusions + [path])
            && (hasApi && !Succeeded(reply) ==>
                  r.exclusions == p.exclusions && r.notification == Some(Notice("Failed to add exclusion", true)))
            && (hasApi && Succeeded(reply) ==> r.notification == Some(Notice("Exclusion added", false))))
    ensures r.settings == p.settings && r.darkClass == p.darkClass
  {
    var path := Text.JsTrim(p.newExclusion);
    if path == "" then p
    else if path in p.exclusions then p.(notification := Some(Notice("Exclusion already exists", true)))
    else
      var optimistic := p.(exclusions := p.exclusions + [path], newExclusion := "");
      if !hasApi then optimistic
      else if Succeeded(reply) then optimistic.(notification := Some(Notice("Exclusion added", false)))
      else
        RemoveAppended(p.exclusions, path);
        optimistic.(exclusions := AppStore.RemoveAll(optimistic.exclusions, path),
                    notification := Some(Notice("Failed to add exclusion", true)))
  }

  /** Filtering out a path that was only appended gives back the list before. */
  lemma {:induction false} RemoveAppended(xs: seq<string>, path: string)
    requires path !in xs
    ensures AppStore.RemoveAll(xs + [path], path) == xs
    decreases |xs|
  {
    if |xs| == 0 {
      assert [path][1..] == [];
    } else {
      assert (xs + [path])[1..] == xs[1..] + [path];
      RemoveAppended(xs[1..], path);
    }
  }

  /**
   * `removeExclusion`: nothing unless the user confirms; then every equal
   * entry is removed, and a failed call appends the path back at the end.
   */
  function RemoveExclusion(p: Page, path: string, confirmed: bool, hasApi: bool, reply: ResultsPage.WorkerReply)
    : (r: Page)
    ensures !confirmed ==> r == p
    ensures confirmed && (!hasApi || Succeeded(reply)) ==> r.exclusions == AppStore.RemoveAll(p.exclusions, path)
    ensures confirmed && hasApi && !Succeeded(reply) ==>
      r.exclusions == AppStore.RemoveAll(p.exclusions, path) + [path]
      && r.notification == Some(Notice("Failed to remove exclusion", true))
    ensures confirmed && hasApi && Succeeded(reply) ==> r.notification == Some(Notice("Exclusion removed", false))
    ensures r.settings == p.settings && r.newExclusion == p.newExclusion
  {
    if !confirmed then p
    else
      var optimistic := p.(exclusions := AppStore.RemoveAll(p.exclusions, path));
      if !hasApi then optimistic
      else if Succeeded(reply) then optimistic.(notification := Some(Notice("Exclusion removed", false)))
      else optimistic.(exclusions := optimistic.exclusions + [path],
                       notification := Some(Notice("Failed to remove exclusion", true)))
  }

  /** A failed removal puts the path back, but at the end of the list. */
  lemma FailedRemovalReorders()
    ensures var p := InitialPage(false).(exclusions := ["a", "b"]);
      RemoveExclusion(p, "a", true, true, ResultsPage.Rejected("ipc")).exclusions == ["b", "a"]
  {
    var p := InitialPage(false).(exclusions := ["a", "b"]);
    assert AppStore.RemoveAll(["a", "b"], "a") == ["b"] by {
      assert ["a", "b"][1..] == ["b"];
      assert ["b"][1..] == [];
    }
  }

  /** Both edits keep a repetition-free exclusion list free of repetitions. */
  lemma ExclusionsStayDistinct(p: Page, path: string, confirmed: bool, hasApi: bool, reply: ResultsPage.WorkerReply)
    requires NoDuplicates(p.exclusions)
    ensures NoDuplicates(AddExclusion(p, hasApi, reply).exclusions)
    ensures NoDuplicates(RemoveExclusion(p, path, confirmed, hasApi, reply).exclusions)
  {
    var t := Text.JsTrim(p.newExclusion);
    if t != "" && t !in p.exclusions {
      AppendFresh(p.exclusions, t);
    }
    ResultsPage.RemoveAllKeepsDistinct(p.exclusions, path);
    AppendFresh(AppStore.RemoveAll(p.exclusions, path), path);
  }

  /** Appending an element the list lacks keeps it free of repetitions. */
  lemma AppendFresh(xs: seq<string>, x: string)
    requires NoDuplicates(xs) && x !in xs
    ensures NoDuplicates(xs + [x])
  {
    var ys := xs + [x];
    forall i, j | 0 <= i < j < |ys| ensures ys[i] != ys[j] {
      if j < |xs| {
        assert ys[i] == xs[i] && ys[j] == xs[j];
      } else {
        assert ys[i] == xs[i];
      }
    }
  }

  // ---------------------------------------------------------------------------
  // handleReset

  /** The bridge call that writes one default. */
  function DefaultWrite(i: nat): WorkerIpc.Handler
    requires i < |DefaultEntries|
  {
    WorkerIpc.SetPref(DefaultEntries[i].0, Json.Bool(DefaultEntries[i].1))
  }

  /**
   * `handleReset`: nothing unless the user confirms; then the settings become
   * the defaults and, with the bridge, each default is written in declaration
   * order. `firstThrow` is the index of the first write that throws, which
   * ends the loop before the success toast. The `dark` class is not touched.
   */
  function Reset(p: Page, confirmed: bool, hasApi: bool, firstThrow: Option<nat>): (r: (Page, seq<WorkerIpc.Handler>))
    ensures !confirmed ==> r == (p, [])
    ensures confirmed ==> r.0 == p.(settings := DefaultSettings, notification := r.0.notification)
    ensures confirmed && !hasApi ==> r.1 == [] && r.0.notification == p.notification
    ensures confirmed && hasApi ==>
      0 < |r.1| <= |DefaultEntries| && forall i :: 0 <= i < |r.1| ==> r.1[i] == DefaultWrite(i)
    ensures confirmed && hasApi && !(firstThrow.Some? && firstThrow.value < |DefaultEntries|) ==>
      |r.1| == |DefaultEntries| && r.0.notification == Some(Notice("Settings reset to defaults", false))
    ensures confirmed && hasApi && firstThrow.Some? && firstThrow.value < |DefaultEntries| ==>
      |r.1| == firstThrow.value + 1 && r.0.notification == p.notification
  {
    if !confirmed then (p, [])
    else
      var reset := p.(settings := DefaultSettings);
      if !hasApi then (reset, [])
      else
        var n := if firstThrow.Some? && firstThrow.value < |DefaultEntries| then firstThrow.value + 1 else |DefaultEntries|;
        var writes := seq(n, i requires 0 <= i < n => DefaultWrite(i));
        if firstThrow.Some? && firstThrow.value < |DefaultEntries| then
          (reset, writes)
        else (reset.(notification := Some(Notice("Settings reset to defaults", false))), writes)
  }

  /** A reset whose writes all succeed writes every default key once, with its default value. */
  lemma ResetWritesEveryDefault(p: Page)
    ensures var writes := Reset(p, true, true, None).1;
      |writes| == |DefaultEntries|
      && (forall i :: 0 <= i < |writes| ==>
            writes[i].key in DefaultSettings && DefaultSettings[writes[i].key] == writes[i].value)
      && forall k :: k in DefaultSettings ==> exists i :: 0 <= i < |writes| && writes[i].key == k
  {
    var writes := Reset(p, true, true, None).1;
    DefaultSettingsAreTheEntries();
    forall k | k in DefaultSettings
      ensures exists i :: 0 <= i < |writes| && writes[i].key == k
    {
      var i :| 0 <= i < |DefaultKeys()| && DefaultKeys()[i] == k;
      assert writes[i].key == k;
    }
  }

  /** After a reset with dark mode on, the settings say light but the document stays dark. */
  lemma ResetLeavesDarkClass(p: Page, hasApi: bool, firstThrow: Option<nat>)
    requires p.darkClass
    ensures Reset(p, true, hasApi, firstThrow).0.darkClass
    ensures Reset(p, true, hasApi, firstThrow).0.settings == DefaultSettings
    ensures DefaultSettings["darkMode"] == Json.Bool(false)
  {
  }
}
