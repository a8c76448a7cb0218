/**
 * Formatting helpers, the cancellation cutoff and the cancellation token.
 * Instants are milliseconds since the epoch; an instant that the date
 * parser cannot read (an Invalid Date) is `None`.
 */
module Utils {
  import opened Wrappers
  import opened Text

  /** `formatTime`: the first five characters ("HH:MM" of "HH:MM:SS"). */
  function FormatTime(time: string): (r: string)
    ensures |time| >= 5 ==> |r| == 5 && r == time[..5]
    ensures |time| < 5 ==> r == time
  {
    Substring(time, 0, 5)
  }

  lemma FormatTimeIdempotent(time: string)
    ensures FormatTime(FormatTime(time)) == FormatTime(time)
  {
  }

  /** A time of day with seconds loses exactly its seconds. */
  lemma FormatTimeDropsSeconds(hh: string, mm: string, ss: string)
    requires |hh| == 2 && |mm| == 2 && |ss| == 2
    ensures FormatTime(hh + ":" + mm + ":" + ss) == hh + ":" + mm
  {
    var t := hh + ":" + mm + ":" + ss;
    assert t[..5] == hh + ":" + mm;
  }

  /** `formatDateTime`, with the locale date formatter as a parameter. */
  function FormatDateTime(formatDate: string -> string, date: string, time: string): (r: string)
    ensures var d := formatDate(date); |r| == |d| + 4 + Min(|time|, 5) && r[..|d|] == d && r[|d|..|d| + 4] == " om "
    ensures |time| >= 5 ==> r[|r| - 5..] == time[..5]
    ensures |time| < 5 ==> r[|r| - |time|..] == time
  {
    formatDate(date) + " om " + FormatTime(time)
  }

  const DefaultCutoffHours: int := 2
  const MillisPerHour: int := 60 * 60 * 1000

  /**
   * `isWithinCutoff`: now lies strictly before the session start minus the
   * cutoff. An unreadable session instant compares false.
   */
  predicate IsWithinCutoff(sessionStart: Option<int>, now: int, cutoffHours: int) {
    sessionStart.Some? && now < sessionStart.value - cutoffHours * MillisPerHour
  }

  /** The boundary instant itself is not within the cutoff. */
  lemma CutoffBoundaryExcluded(start: int, cutoffHours: int)
    ensures !IsWithinCutoff(Some(start), start - cutoffHours * 3600000, cutoffHours)
    ensures IsWithinCutoff(Some(start), start - cutoffHours * 3600000 - 1, cutoffHours)
  {
  }

  /** A smaller cutoff is easier to meet. */
  lemma CutoffMonotone(start: Option<int>, now: int, h: int, h': int)
    requires h' <= h && IsWithinCutoff(start, now, h)
    ensures IsWithinCutoff(start, now, h')
  {
    assert h' * MillisPerHour <= h * MillisPerHour;
  }

  /** With no cutoff the rule is "the session has not started yet". */
  lemma CutoffZero(start: int, now: int)
    ensures IsWithinCutoff(Some(start), now, 0) <==> now < start
  {
  }

  /** The confirmation page's rule: the session start lies after now plus two hours. */
  predicate CanCancel(sessionStart: Option<int>, now: int) {
    sessionStart.Some? && sessionStart.value > now + DefaultCutoffHours * MillisPerHour
  }

  /** The confirmation page and `isWithinCutoff` with its default agree on every instant. */
  lemma CanCancelIsDefaultCutoff(sessionStart: Option<int>, now: int)
    ensures CanCancel(sessionStart, now) <==> IsWithinCutoff(sessionStart, now, DefaultCutoffHours)
  {
  }

  // ---------------------------------------------------------------- token

  type Base36Digit = d: nat | d < 36

  function Base36Char(d: Base36Digit): (c: char)
    ensures IsBase36Char(c)
  {
    if d < 10 then ('0' as int + d) as char else ('a' as int + d - 10) as char
  }

  predicate IsBase36Char(c: char) {
    ('0' <= c <= '9') || ('a' <= c <= 'z')
  }

  /**
   * One draw of `Math.random()` as its base-36 text: `0` prints as "0",
   * any other value in [0, 1) as "0." followed by its fraction digits.
   */
  datatype RandomDraw = Zero | Fraction(digits: seq<Base36Digit>)

  function DrawText(r: RandomDraw): string {
    match r
    case Zero => "0"
    case Fraction(ds) => "0." + seq(|ds|, i requires 0 <= i < |ds| => Base36Char(ds[i]))
  }

  /** `toString(36).substring(2, 15)`: up to 13 fraction digits. */
  function TokenPart(r: RandomDraw): (p: string)
    ensures |p| <= 13
    ensures forall i :: 0 <= i < |p| ==> IsBase36Char(p[i])
    ensures r.Zero? ==> p == ""
    ensures r.Fraction? ==> |p| == Min(|r.digits|, 13)
  {
    var t := DrawText(r);
    var p := Substring(t, 2, 15);
    assert forall i :: 2 <= i < |t| ==> IsBase36Char(t[i]);
    p
  }

  /** `generateCancellationToken`: two draws, each contributing up to 13 characters. */
  function CancellationToken(r1: RandomDraw, r2: RandomDraw): (token: string)
    ensures |token| <= 26
    ensures forall i :: 0 <= i < |token| ==> IsBase36Char(token[i])
    ensures r1.Fraction? && |r1.digits| >= 13 && r2.Fraction? && |r2.digits| >= 13 ==> |token| == 26
    ensures r1.Zero? && r2.Zero? ==> token == ""
  {
    TokenPart(r1) + TokenPart(r2)
  }
}
