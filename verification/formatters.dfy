/**
 * The display helpers of the client (src/utils/formatters.ts) that the
 * model covers: the duration text and the path shortening. Numbers are
 * exact here (`real` for a duration in seconds), so floating-point rounding
 * error is not modelled; `Math.round` is rounding half up.
 */
module Formatters {
  import opened Base
  import Text

  // ---------------------------------------------------------------------------
  // Durations

  /** `Math.round`: the nearest integer, halves rounded up. */
  function Round(x: real): (n: int)
    ensures n as real - 0.5 <= x < n as real + 0.5
  {
    (x + 0.5).Floor
  }

  /** The position of the first `c` in `s`, if any. */
  function FirstIndex(s: string, c: char): (r: Option<nat>)
    ensures r.Some? ==> r.value < |s| && s[r.value] == c && forall j :: 0 <= j < r.value ==> s[j] != c
    ensures r.None? <==> forall j :: 0 <= j < |s| ==> s[j] != c
  {
    if |s| == 0 then None
    else if s[0] == c then Some(0)
    else
      var rest := FirstIndex(s[1..], c);
      assert forall j :: 1 <= j < |s| ==> s[j] == s[1..][j - 1];
      if rest.Some? then Some(rest.value + 1) else None
  }

  /**
   * `formatDuration` exactly as written: below a minute the rounded
   * seconds; otherwise whole minutes and the rounded remainder, which can
   * round up to 60 (`119.6` shows as `1m 60s`, `59.6` as `60s`).
   */
  function FormatDurationAsWritten(seconds: real): (r: string)
    ensures seconds < 60.0 ==> r == Text.IntToString(Round(seconds)) + "s"
    ensures seconds >= 60.0 ==> Text.IntToString((seconds / 60.0).Floor) <= r
  {
    if seconds < 60.0 then Text.IntToString(Round(seconds)) + "s"
    else
      var minutes := (seconds / 60.0).Floor;
      var remaining := Round(seconds - 60.0 * minutes as real);
      if remaining == 0 then Text.IntToString(minutes) + "m"
      else Text.IntToString(minutes) + "m " + Text.IntToString(remaining) + "s"
  }

  /**
   * The duration text with the rounding done first, so the seconds part is
   * always below 60: `Ns` under a minute, `Mm` on a whole minute, `Mm Ss`
   * otherwise.
   */
  function FormatDuration(seconds: real): (r: string)
    ensures |r| >= 2 && (r[|r| - 1] == 's' || r[|r| - 1] == 'm')
    ensures Round(seconds) < 60 <==> r[|r| - 1] == 's' && 'm' !in r
  {
    var n := Round(seconds);
    if n < 60 then Text.IntToString(n) + "s"
    else if n % 60 == 0 then
      var r := Text.IntToString(n / 60) + "m";
      assert r[|r| - 1] == 'm';
      r
    else
      var r := Text.IntToString(n / 60) + "m " + Text.IntToString(n % 60) + "s";
      assert r[|Text.IntToString(n / 60)|] == 'm';
      r
  }

  /**
   * Reads a duration text back into whole seconds, accepting only the
   * canonical forms: a seconds value below 60, a positive number of
   * minutes, or minutes with a seconds part between 1 and 59.
   */
  function ParseDuration(t: string): Option<int> {
    if |t| == 0 then None
    else
      var body := t[..|t| - 1];
      if t[|t| - 1] == 'm' then
        match Text.ParseInt(body)
        case Some(q) => if q >= 1 then Some(60 * q) else None
        case None => None
      else if t[|t| - 1] == 's' then
        match FirstIndex(body, 'm')
        case None =>
          (match Text.ParseInt(body)
           case Some(v) => if v < 60 then Some(v) else None
           case None => None)
        case Some(k) =>
          if k + 1 < |body| && body[k + 1] == ' ' then
            match (Text.ParseInt(body[..k]), Text.ParseInt(body[k + 2..]))
            case (Some(q), Some(s)) => if q >= 1 && 1 <= s < 60 then Some(60 * q + s) else None
            case _ => None
          else None
      else None
  }

  /** A number's decimal text holds no `m`. */
  lemma NoLetterInNumber(n: int)
    ensures 'm' !in Text.IntToString(n)
  {
    if n < 0 {
      assert Text.IntToString(n)[1..] == Text.NatToString(-n);
    }
  }

  /** The duration text reads back as the rounded number of seconds, for every duration. */
  lemma DurationRoundTrip(seconds: real)
    ensures ParseDuration(FormatDuration(seconds)) == Some(Round(seconds))
  {
    var n := Round(seconds);
    if n < 60 {
      assert FormatDuration(seconds) == Text.IntToString(n) + "s";
      SecondsRoundTrip(n);
    } else if n % 60 == 0 {
      var q := n / 60;
      assert FormatDuration(seconds) == Text.IntToString(q) + "m" && 60 * q == n;
      MinutesRoundTrip(q);
    } else {
      var q, s := n / 60, n % 60;
      assert FormatDuration(seconds) == Text.IntToString(q) + "m " + Text.IntToString(s) + "s" && 60 * q + s == n;
      MinutesSecondsRoundTrip(q, s);
    }
  }

  lemma SecondsRoundTrip(n: int)
    requires n < 60
    ensures ParseDuration(Text.IntToString(n) + "s") == Some(n)
  {
    var t := Text.IntToString(n) + "s";
    var body := t[..|t| - 1];
    assert body == Text.IntToString(n);
    NoLetterInNumber(n);
    assert FirstIndex(body, 'm') == None;
    Text.IntToStringRoundTrip(n);
  }

  lemma MinutesRoundTrip(q: int)
    requires q >= 1
    ensures ParseDuration(Text.IntToString(q) + "m") == Some(60 * q)
  {
    var t := Text.IntToString(q) + "m";
    assert t[..|t| - 1] == Text.IntToString(q);
    Text.IntToStringRoundTrip(q);
  }

  lemma MinutesSecondsRoundTrip(q: int, s: int)
    requires q >= 1 && 1 <= s < 60
    ensures ParseDuration(Text.IntToString(q) + "m " + Text.IntToString(s) + "s") == Some(60 * q + s)
  {
    var qs := Text.IntToString(q);
    var ss := Text.IntToString(s);
    var t := qs + "m " + ss + "s";
    var body := t[..|t| - 1];
    assert body == qs + "m " + ss;
    NoLetterInNumber(q);
    assert FirstIndex(body, 'm') == Some(|qs|) by {
      assert body[|qs|] == 'm';
      assert forall j :: 0 <= j < |qs| ==> body[j] == qs[j];
    }
    assert body[..|qs|] == qs;
    assert body[|qs| + 2..] == ss;
    Text.IntToStringRoundTrip(q);
    Text.IntToStringRoundTrip(s);
  }

  /** On whole seconds the written code and the corrected one agree. */
  lemma {:induction false} WholeSecondsAgree(n: int)
    ensures FormatDurationAsWritten(n as real) == FormatDuration(n as real)
  {
    assert Round(n as real) == n;
    if n >= 60 {
      var q := n / 60;
      assert q as real <= n as real / 60.0 < (q + 1) as real;
      assert (n as real / 60.0).Floor == q;
      assert n as real - 60.0 * q as real == (n % 60) as real;
      assert Round((n % 60) as real) == n % 60;
    }
  }

  /** The written code shows a seconds part of 60, a text that is not a canonical duration. */
  lemma SixtySecondsShown()
    ensures FormatDurationAsWritten(119.6) == "1m 60s"
    ensures ParseDuration(FormatDurationAsWritten(119.6)) == None
    ensures FormatDuration(119.6) == "2m"
  {
    assert (119.6 / 60.0).Floor == 1;
    assert Round(119.6 - 60.0) == 60;
    assert Round(119.6) == 120;
    assert Text.IntToString(1) == "1";
    assert Text.IntToString(2) == "2";
    assert Text.IntToString(60) == "60" by {
      assert Text.NatToString(6) == "6";
      assert Text.NatToString(60) == Text.NatToString(6) + [Text.DigitChar(0)];
    }
    var t := "1m 60s";
    var body := t[..|t| - 1];
    assert body == "1m 60";
    assert FirstIndex(body, 'm') == Some(1) by {
      assert body[0] != 'm' && body[1] == 'm';
    }
    assert body[3..] == "60";
    assert Text.ParseInt("60") == Some(60) by {
      Text.IntToStringRoundTrip(60);
    }
  }

  // ---------------------------------------------------------------------------
  // Paths

  /** The separators `truncatePath` splits on: `/` and `\`. */
  predicate IsSeparator(c: char) {
    c == '/' || c == '\\'
  }

  function SeparatorCount(s: string): nat {
    if |s| == 0 then 0 else SeparatorCount(s[..|s| - 1]) + (if IsSeparator(s[|s| - 1]) then 1 else 0)
  }

  /** The first part of the split: everything before the first separator. */
  function FirstSegment(s: string): (r: string)
    ensures r <= s && forall j :: 0 <= j < |r| ==> !IsSeparator(r[j])
    ensures |r| < |s| ==> IsSeparator(s[|r|])
  {
    if |s| == 0 || IsSeparator(s[0]) then ""
    else
      var rest := FirstSegment(s[1..]);
      assert forall j :: 1 <= j < |s| ==> s[j] == s[1..][j - 1];
      [s[0]] + rest
  }

  /** The last part of the split: everything after the last separator. */
  function LastSegment(s: string): (r: string)
    ensures |r| <= |s| && r == s[|s| - |r|..] && forall j :: 0 <= j < |r| ==> !IsSeparator(r[j])
    ensures |r| < |s| ==> IsSeparator(s[|s| - |r| - 1])
  {
    if |s| == 0 || IsSeparator(s[|s| - 1]) then ""
    else
      var init := s[..|s| - 1];
      var rest := LastSegment(init);
      assert s[|s| - |rest| - 1..] == init[|init| - |rest|..] + [s[|s| - 1]];
      assert |rest| < |init| ==> s[|s| - |rest| - 2] == init[|init| - |rest| - 1];
      rest + [s[|s| - 1]]
  }

  /** JavaScript's `s.slice(0, end)`: a negative end counts from the back, and both ends are clamped. */
  function SliceTo(s: string, end: int): (r: string)
    ensures r <= s
    ensures end >= 0 ==> |r| == Min(end, |s|)
    ensures end < 0 ==> |r| == Max(0, |s| + end)
  {
    if end < 0 then s[..Max(0, |s| + end)] else s[..Min(end, |s|)]
  }

  /**
   * `truncatePath`: a path that fits is kept; a path with at most one
   * separator is cut and given `...`; otherwise only its first and last
   * parts are shown, joined by `\...\`, whatever their length.
   */
  function TruncatePath(path: string, maxLength: int): (r: string)
    ensures |path| <= maxLength ==> r == path
    ensures |path| > maxLength && SeparatorCount(path) <= 1 && maxLength >= 3 ==>
      |r| == maxLength && r[..maxLength - 3] == path[..maxLength - 3] && r[maxLength - 3..] == "..."
    ensures |path| > maxLength && SeparatorCount(path) >= 2 ==>
      FirstSegment(path) <= r && |LastSegment(path)| <= |r| && LastSegment(path) == r[|r| - |LastSegment(path)|..]
  {
    if |path| <= maxLength then path
    else if SeparatorCount(path) <= 1 then SliceTo(path, maxLength - 3) + "..."
    else
      var first := FirstSegment(path);
      var last := LastSegment(path);
      var r := first + "\\...\\" + last;
      assert r[..|first|] == first;
      assert r[|r| - |last|..] == last;
      r
  }

  /**
   * A shortened path with several separators keeps the path's first and
   * last parts as its own first and last parts.
   */
  lemma SegmentsSurvive(path: string, maxLength: int)
    requires |path| > maxLength && SeparatorCount(path) >= 2
    ensures FirstSegment(TruncatePath(path, maxLength)) == FirstSegment(path)
    ensures LastSegment(TruncatePath(path, maxLength)) == LastSegment(path)
  {
    var first, last := FirstSegment(path), LastSegment(path);
    assert TruncatePath(path, maxLength) == first + "\\...\\" + last;
    ElidedSegments(first, last);
  }

  lemma ElidedSegments(first: string, last: string)
    requires forall j :: 0 <= j < |first| ==> !IsSeparator(first[j])
    requires forall j :: 0 <= j < |last| ==> !IsSeparator(last[j])
    ensures FirstSegment(first + "\\...\\" + last) == first
    ensures LastSegment(first + "\\...\\" + last) == last
  {
    var w := first + "\\...\\" + last;
    assert w == first + w[|first|..] && IsSeparator(w[|first|..][0]);
    FirstSegmentOfJoin(first, w[|first|..]);
    assert w == w[..|w| - |last|] + last && IsSeparator(w[..|w| - |last|][|w| - |last| - 1]);
    LastSegmentOfJoin(w[..|w| - |last|], last);
  }

  /** A separator-free head followed by a separator is the first part. */
  lemma FirstSegmentOfJoin(a: string, b: string)
    requires forall j :: 0 <= j < |a| ==> !IsSeparator(a[j])
    requires |b| > 0 && IsSeparator(b[0])
    ensures FirstSegment(a + b) == a
  {
    assert FirstSegment(a + b) == (a + b)[..|a|];
  }

  /** A separator-free tail after a separator is the last part. */
  lemma LastSegmentOfJoin(a: string, b: string)
    requires forall j :: 0 <= j < |b| ==> !IsSeparator(b[j])
    requires |a| > 0 && IsSeparator(a[|a| - 1])
    ensures LastSegment(a + b) == b
  {
    assert LastSegment(a + b) == (a + b)[|a|..];
  }

  /** With a long first part the shortened path is longer than the original. */
  lemma ShorteningCanLengthen()
    ensures TruncatePath("abcdef/g/h", 5) == "abcdef\\...\\h"
    ensures |TruncatePath("abcdef/g/h", 5)| > |"abcdef/g/h"|
  {
    var p := "abcdef/g/h";
    ExampleSeparatorCount();
    ExampleSegments();
    ElidedForm(p, 5);
    assert "abcdef" + "\\...\\" + "h" == "abcdef\\...\\h";
  }

  /** With two separators or more, a long path becomes its first part, `\...\` and its last part. */
  lemma ElidedForm(path: string, maxLength: int)
    requires |path| > maxLength && SeparatorCount(path) >= 2
    ensures TruncatePath(path, maxLength) == FirstSegment(path) + "\\...\\" + LastSegment(path)
    ensures |TruncatePath(path, maxLength)| == |FirstSegment(path)| + 5 + |LastSegment(path)|
  {
  }

  /** The first and last parts of the example path of `ShorteningCanLengthen`. */
  lemma ExampleSegments()
    ensures FirstSegment("abcdef/g/h") == "abcdef" && LastSegment("abcdef/g/h") == "h"
  {
    var p := "abcdef/g/h";
    assert p == "abcdef" + "/g/h";
    FirstSegmentOfJoin("abcdef", "/g/h");
    assert p == "abcdef/g/" + "h";
    LastSegmentOfJoin("abcdef/g/", "h");
  }

  /** The example path of `ShorteningCanLengthen` has two separators. */
  lemma ExampleSeparatorCount()
    ensures SeparatorCount("abcdef/g/h") == 2
  {
    var p := "abcdef/g/h";
    assert p[..|p| - 1] == "abcdef/g/";
    assert p[..|p| - 1][..|p| - 2] == "abcdef/g";
    assert SeparatorCount("abcdef/g") == 1 by {
      assert "abcdef/g"[..7] == "abcdef/";
      assert SeparatorCount("abcdef/") == 1 by {
        assert "abcdef/"[..6] == "abcdef";
        assert SeparatorCount("abcdef") == 0 by {
          NoSeparators("abcdef");
        }
      }
    }
  }

  /** A string without separators counts none. */
  lemma NoSeparators(s: string)
    requires forall j :: 0 <= j < |s| ==> !IsSeparator(s[j])
    ensures SeparatorCount(s) == 0
  {
    if |s| > 0 {
      NoSeparators(s[..|s| - 1]);
    }
  }
}
