/**
 * `format_time(seconds)`: a duration in seconds rendered as minutes, ':' and
 * two-digit seconds. Python's `seconds // 60` and `seconds % 60` floor, and
 * `int()` of the non-negative remainder floors too, so both parts are floors.
 */
module Clock {
  import opened Text

  /** `int(seconds // 60)`. */
  function WholeMinutes(seconds: real): int {
    (seconds / 60.0).Floor
  }

  /** `int(seconds % 60)`: Python's remainder has the divisor's sign, so it lies in [0, 60). */
  function WholeSeconds(seconds: real): (r: nat)
    ensures r < 60
    ensures 60.0 * WholeMinutes(seconds) as real + r as real <= seconds
    ensures seconds < 60.0 * WholeMinutes(seconds) as real + r as real + 1.0
  {
    var m := WholeMinutes(seconds);
    assert m as real <= seconds / 60.0 < m as real + 1.0;
    var rest := seconds - 60.0 * m as real;
    assert 0.0 <= rest < 60.0;
    rest.Floor
  }

  /** `f"{secs:02d}"` for a value below 60: always exactly two digits. */
  function TwoDigits(n: nat): (r: string)
    requires n < 60
    ensures |r| == 2 && AllDigits(r) && DigitsValue(r) == n
  {
    var r := [DigitChar(n / 10), DigitChar(n % 10)];
    assert r[..1] == [DigitChar(n / 10)];
    assert r[..1][..0] == [];
    assert DigitsValue(r[..1]) == n / 10;
    assert n == (n / 10) * 10 + n % 10;
    r
  }

  function FormatTime(seconds: real): string {
    IntToString(WholeMinutes(seconds)) + ":" + TwoDigits(WholeSeconds(seconds))
  }

  /**
   * For a non-negative duration the text splits at its only ':' into the
   * decimal minutes and two decimal digits of seconds below 60, and those two
   * numbers bracket the duration to within one second.
   */
  lemma FormatTimeRoundTrip(seconds: real)
    requires seconds >= 0.0
    ensures var t := FormatTime(seconds);
      && |t| >= 4 && t[|t| - 3] == ':' && ':' !in t[..|t| - 3]
      && AllDigits(t[..|t| - 3]) && DigitsValue(t[..|t| - 3]) == WholeMinutes(seconds)
      && AllDigits(t[|t| - 2..]) && DigitsValue(t[|t| - 2..]) == WholeSeconds(seconds) < 60
      && 60 * DigitsValue(t[..|t| - 3]) + DigitsValue(t[|t| - 2..]) <= seconds.Floor
      && seconds < (60 * DigitsValue(t[..|t| - 3]) + DigitsValue(t[|t| - 2..]) + 1) as real
  {
    var m := WholeMinutes(seconds);
    assert m >= 0;
    var t := FormatTime(seconds);
    var digits := NatToString(m);
    assert t == digits + ":" + TwoDigits(WholeSeconds(seconds));
    assert t[..|t| - 3] == digits;
    assert t[|t| - 2..] == TwoDigits(WholeSeconds(seconds));
    NatToStringRoundTrip(m);
  }
}
