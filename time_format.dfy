/** Subtitle timestamps (app/backend/utils/time.py): seconds as
    `HH:MM:SS,mmm` (SubRip) and `HH:MM:SS.mmm` (WebVTT cue timing). */
module TimeFormat {
  import opened Wrappers
  import opened Strings

  /** Python's `int(x)` on a float: truncation toward zero. */
  function Trunc(x: real): (n: int)
    ensures x >= 0.0 ==> n == x.Floor
    ensures x < 0.0 ==> n == -((-x).Floor)
  {
    if x >= 0.0 then x.Floor else -((-x).Floor)
  }

  /** The four numbers a timestamp shows. */
  datatype Clock = Clock(hours: int, minutes: int, seconds: int, millis: int)

  /** The fields both converters compute: `total = int(seconds)`, then
      Python's floor `//` and `%` (which agree with Dafny's on the positive
      divisors used here), and `int(fraction * 1000)`. */
  function ClockOf(x: real): Clock {
    var total := Trunc(x);
    var frac := x - Trunc(x) as real;
    Clock(total / 3600, (total % 3600) / 60, total % 60, Trunc(frac * 1000.0))
  }

  /** Minutes and seconds are always in range; for a non-negative input the
      fields add back up to the whole seconds and the milliseconds have
      three digits. */
  lemma ClockOfSpec(x: real)
    ensures var c := ClockOf(x);
            0 <= c.minutes <= 59 && 0 <= c.seconds <= 59
            && c.hours * 3600 + c.minutes * 60 + c.seconds == Trunc(x)
            && (x >= 0.0 ==> c.hours >= 0 && c.hours * 3600 + c.minutes * 60 + c.seconds == x.Floor)
            && (x >= 0.0 ==> 0 <= c.millis <= 999)
  {
    var frac := x - Trunc(x) as real;
    assert x >= 0.0 ==> 0.0 <= frac < 1.0;
  }

  /** `seconds_to_timestamp`: the SubRip form, comma before the milliseconds. */
  function SecondsToTimestamp(x: real): string {
    var c := ClockOf(x);
    FormatInt(c.hours, 2) + ":" + FormatInt(c.minutes, 2) + ":" + FormatInt(c.seconds, 2)
      + "," + FormatInt(c.millis, 3)
  }

  /** `seconds_to_vtt`: the WebVTT form, full stop before the milliseconds. */
  function SecondsToVtt(x: real): string {
    var c := ClockOf(x);
    FormatInt(c.hours, 2) + ":" + FormatInt(c.minutes, 2) + ":" + FormatInt(c.seconds, 2)
      + "." + FormatInt(c.millis, 3)
  }

  /** Reads a timestamp back: hours (two digits or more), then two-digit
      minutes and seconds and three-digit milliseconds, with `sep` before
      the milliseconds. */
  function ParseTimestamp(s: string, sep: char): Option<Clock> {
    if |s| < 12 || s[|s| - 4] != sep || s[|s| - 7] != ':' || s[|s| - 10] != ':' then None
    else
      var hh, mm, ss, ms := s[..|s| - 10], s[|s| - 9..|s| - 7], s[|s| - 6..|s| - 4], s[|s| - 3..];
      if AllDigits(hh) && AllDigits(mm) && AllDigits(ss) && AllDigits(ms) then
        Some(Clock(DigitsToNat(hh), DigitsToNat(mm), DigitsToNat(ss), DigitsToNat(ms)))
      else None
  }

  /** For a non-negative time, the clock fields print as
      `hours:minutes:seconds<sep>millis` with the widths given, such that
      reading them back gives the fields again. */
  lemma ClockPrintsBack(x: real, sep: char)
    requires x >= 0.0
    ensures var c := ClockOf(x);
            var s := FormatInt(c.hours, 2) + ":" + FormatInt(c.minutes, 2) + ":" + FormatInt(c.seconds, 2)
                     + [sep] + FormatInt(c.millis, 3);
            ParseTimestamp(s, sep) == Some(c)
  {
    var c := ClockOf(x);
    ClockOfSpec(x);
    var h, m, sc, ms := FormatInt(c.hours, 2), FormatInt(c.minutes, 2), FormatInt(c.seconds, 2), FormatInt(c.millis, 3);
    FormatIntValue(c.hours, 2);
    FormatIntFixedWidth(c.minutes, 2);
    FormatIntFixedWidth(c.seconds, 2);
    FormatIntFixedWidth(c.millis, 3);
    var s := h + ":" + m + ":" + sc + [sep] + ms;
    var n := |s|;
    assert n == |h| + 10;
    assert s[..n - 10] == h;
    assert s[n - 9..n - 7] == m;
    assert s[n - 6..n - 4] == sc;
    assert s[n - 3..] == ms;
  }

  /** The SubRip timestamp of a non-negative time reads back as its clock:
      hours, minutes in [0, 59], seconds in [0, 59], milliseconds in
      [0, 999], zero-padded to 2, 2, 2 and 3 digits. */
  lemma TimestampRoundTrip(x: real)
    requires x >= 0.0
    ensures ParseTimestamp(SecondsToTimestamp(x), ',') == Some(ClockOf(x))
  {
    ClockPrintsBack(x, ',');
  }

  /** The same for the WebVTT form. */
  lemma VttRoundTrip(x: real)
    requires x >= 0.0
    ensures ParseTimestamp(SecondsToVtt(x), '.') == Some(ClockOf(x))
  {
    ClockPrintsBack(x, '.');
  }

  /** The WebVTT form is the SubRip form with its comma replaced by a
      full stop (for every input, negative ones included). */
  lemma VttReplacesComma(x: real)
    ensures var s := SecondsToTimestamp(x);
            exists i :: 0 <= i < |s| && s[i] == ',' && SecondsToVtt(x) == s[..i] + "." + s[i + 1..]
  {
    var c := ClockOf(x);
    var prefix := FormatInt(c.hours, 2) + ":" + FormatInt(c.minutes, 2) + ":" + FormatInt(c.seconds, 2);
    var s := SecondsToTimestamp(x);
    var i := |prefix|;
    assert s == prefix + "," + FormatInt(c.millis, 3);
    assert s[..i] == prefix && s[i] == ',' && s[i + 1..] == FormatInt(c.millis, 3);
  }
}
