/**
 * The countdown display: `m:ss` text and the CSS class of the timer.
 */
module TimerDisplay {
  import opened Wrappers
  import Text

  /** `formatTime` for a non-negative number of seconds: whole minutes, a colon, and the
      remaining seconds padded to two digits. */
  function FormatTime(seconds: nat): (r: string)
    ensures |r| >= 4 && r[|r| - 3] == ':'
    ensures Text.IsDigit(r[|r| - 2]) && Text.IsDigit(r[|r| - 1])
    ensures r[..|r| - 3] == Text.DecimalString(seconds / 60)
  {
    Text.DecimalString(seconds / 60) + ":" + TwoDigits(seconds % 60)
  }

  /** `secs.toString().padStart(2, '0')` for seconds below 60. */
  function TwoDigits(n: nat): (r: string)
    requires n < 60
    ensures |r| == 2 && Text.AllDigits(r) && Text.DigitsValue(r) == n
  {
    var d := Text.DecimalString(n);
    Text.DecimalRoundTrip(n);
    if n < 10 then
      assert d == [Text.DigitChar(n)];
      Text.PadTwo(d)
    else
      assert |d| == 2 by {
        assert d == Text.DecimalString(n / 10) + [Text.DigitChar(n % 10)];
      }
      Text.PadTwo(d)
  }

  /** Reads an `m:ss` text back into seconds; `None` when it is not of that form. */
  function ParseClock(t: string): Option<nat> {
    ClockOfParts(Text.Split(t, ':'))
  }

  /** The time that the colon-separated pieces of a clock text stand for. */
  function ClockOfParts(parts: seq<string>): Option<nat> {
    if |parts| != 2 || parts[0] == [] || |parts[1]| != 2 then None
    else if !Text.AllDigits(parts[0]) || !Text.AllDigits(parts[1]) then None
    else Some(Text.DigitsValue(parts[0]) * 60 + Text.DigitsValue(parts[1]))
  }

  /** The displayed text determines the time: reading it back gives the seconds. */
  lemma FormatTimeRoundTrip(seconds: nat)
    ensures ParseClock(FormatTime(seconds)) == Some(seconds)
  {
    var m := Text.DecimalString(seconds / 60);
    var s := TwoDigits(seconds % 60);
    calc {
      ParseClock(FormatTime(seconds));
      { assert FormatTime(seconds) == m + [':'] + s; }
      ParseClock(m + [':'] + s);
      { ParseClockOfParts(m, s); }
      Some(Text.DigitsValue(m) * 60 + Text.DigitsValue(s));
      { Text.DecimalRoundTrip(seconds / 60); }
      Some(seconds / 60 * 60 + seconds % 60);
      Some(seconds);
    }
  }

  /** Two digit runs joined by one colon read back as minutes and seconds. */
  lemma ParseClockOfParts(m: string, s: string)
    requires 1 <= |m| && |s| == 2 && Text.AllDigits(m) && Text.AllDigits(s)
    ensures ParseClock(m + [':'] + s) == Some(Text.DigitsValue(m) * 60 + Text.DigitsValue(s))
  {
    SplitAtColon(m, s);
    ClockOfTwoParts(m, s);
  }

  lemma ClockOfTwoParts(m: string, s: string)
    requires 1 <= |m| && |s| == 2 && Text.AllDigits(m) && Text.AllDigits(s)
    ensures ClockOfParts([m, s]) == Some(Text.DigitsValue(m) * 60 + Text.DigitsValue(s))
  {
    var parts := [m, s];
    assert parts[0] == m && parts[1] == s;
  }

  lemma SplitAtColon(m: string, s: string)
    requires Text.AllDigits(m) && Text.AllDigits(s)
    ensures Text.Split(m + [':'] + s, ':') == [m, s]
  {
    NoColonInDigits(m);
    NoColonInDigits(s);
    Text.SplitAppend(m, ':', s);
  }

  lemma NoColonInDigits(d: string)
    requires Text.AllDigits(d)
    ensures ':' !in d
  {
    forall i | 0 <= i < |d| ensures d[i] != ':' {
      assert Text.IsDigit(d[i]);
    }
  }

  /** `getTimerClass`: "timer" plus at most one modifier; paused whenever the timer is not
      running, otherwise critical at 5 seconds or less and warning at 10 or less. */
  function TimerClass(timeRemaining: int, isRunning: bool): (r: string)
    ensures r == "timer paused" <==> !isRunning
    ensures r == "timer critical" <==> isRunning && timeRemaining <= 5
    ensures r == "timer warning" <==> isRunning && 5 < timeRemaining <= 10
    ensures r == "timer" <==> isRunning && timeRemaining > 10
  {
    if !isRunning then "timer paused"
    else if timeRemaining <= 5 then "timer critical"
    else if timeRemaining <= 10 then "timer warning"
    else "timer"
  }
}
