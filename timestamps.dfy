/**
 * The timestamp of a transaction and `DateTime.TryParseExact` with the
 * format "yyyyMMddHHmmss", the invariant culture and no styles: exactly
 * fourteen ASCII digits naming a date of the proleptic Gregorian calendar
 * between the years 1 and 9999 and a time of day to the second.
 */
module Timestamps {
  import opened Wrappers
  import opened Text

  datatype DateTime = DateTime(year: int, month: int, day: int,
                               hour: int, minute: int, second: int)

  predicate IsLeapYear(y: int) {
    y % 4 == 0 && (y % 100 != 0 || y % 400 == 0)
  }

  function DaysInMonth(y: int, m: int): (d: int)
    requires 1 <= m <= 12
    ensures 28 <= d <= 31
    ensures d == 29 <==> (m == 2 && IsLeapYear(y))
  {
    if m == 2 then (if IsLeapYear(y) then 29 else 28)
    else if m == 4 || m == 6 || m == 9 || m == 11 then 30
    else 31
  }

  /** A value `DateTime` can hold. */
  predicate Valid(dt: DateTime) {
    && 1 <= dt.year <= 9999
    && 1 <= dt.month <= 12
    && 1 <= dt.day <= DaysInMonth(dt.year, dt.month)
    && 0 <= dt.hour < 24
    && 0 <= dt.minute < 60
    && 0 <= dt.second < 60
  }

  /** The fourteen-character rendering "yyyyMMddHHmmss" of a valid timestamp. */
  function Format(dt: DateTime): (s: string)
    requires Valid(dt)
    ensures |s| == 14 && AllDigits(s)
  {
    Pad(dt.year, 4) + Pad(dt.month, 2) + Pad(dt.day, 2)
      + Pad(dt.hour, 2) + Pad(dt.minute, 2) + Pad(dt.second, 2)
  }

  /** The components named by a fourteen-digit text, before any range check. */
  function Components(s: string): DateTime
    requires |s| == 14 && AllDigits(s)
  {
    DateTime(DigitsValue(s[0..4]), DigitsValue(s[4..6]), DigitsValue(s[6..8]),
             DigitsValue(s[8..10]), DigitsValue(s[10..12]), DigitsValue(s[12..14]))
  }

  /** `DateTime.TryParseExact(s, "yyyyMMddHHmmss", InvariantCulture, None)`:
      `Some` of the timestamp when it succeeds, `None` when it returns false. */
  function ParseExact(s: string): (r: Option<DateTime>)
    ensures r.Some? ==> Valid(r.value)
  {
    if |s| == 14 && AllDigits(s) && Valid(Components(s)) then Some(Components(s)) else None
  }

  /** Parsing the rendering of a valid timestamp gives it back. */
  lemma ParseFormat(dt: DateTime)
    requires Valid(dt)
    ensures ParseExact(Format(dt)) == Some(dt)
  {
    var s := Format(dt);
    assert s[0..4] == Pad(dt.year, 4);
    assert s[4..6] == Pad(dt.month, 2);
    assert s[6..8] == Pad(dt.day, 2);
    assert s[8..10] == Pad(dt.hour, 2);
    assert s[10..12] == Pad(dt.minute, 2);
    assert s[12..14] == Pad(dt.second, 2);
  }

  /** A text that parses is the rendering of what it parses to: the two
      directions together make `ParseExact` and `Format` inverse bijections
      between accepted texts and valid timestamps. */
  lemma FormatParse(s: string)
    requires ParseExact(s).Some?
    ensures Format(ParseExact(s).value) == s
  {
    var dt := Components(s);
    assert ParseExact(s).value == dt;
    FormatOfComponents(s, dt);
  }

  lemma {:induction false} FormatOfComponents(s: string, dt: DateTime)
    requires |s| == 14 && AllDigits(s) && dt == Components(s) && Valid(dt)
    ensures Format(dt) == s
  {
    PadOfDigitsValue(s[0..4]);
    PadOfDigitsValue(s[4..6]);
    PadOfDigitsValue(s[6..8]);
    PadOfDigitsValue(s[8..10]);
    PadOfDigitsValue(s[10..12]);
    PadOfDigitsValue(s[12..14]);
    assert Format(dt) == s[0..4] + s[4..6] + s[6..8] + s[8..10] + s[10..12] + s[12..14];
    JoinSlices(s, 4, 6);
    JoinSlices(s, 6, 8);
    JoinSlices(s, 8, 10);
    JoinSlices(s, 10, 12);
    JoinSlices(s, 12, 14);
    assert s[0..14] == s;
  }

  /** A prefix extended by the next slice is the longer prefix. */
  lemma JoinSlices(s: string, j: nat, k: nat)
    requires j <= k <= |s|
    ensures s[0..k] == s[0..j] + s[j..k]
  {
  }

  /** A text of the wrong length, or with anything but digits, never parses;
      nor does a month outside 1..12 (such as the "99" of an all-nines field). */
  lemma ParseExactRejects(s: string)
    ensures |s| != 14 ==> ParseExact(s).None?
    ensures !AllDigits(s) ==> ParseExact(s).None?
    ensures |s| == 14 && AllDigits(s) && !(1 <= DigitsValue(s[4..6]) <= 12) ==> ParseExact(s).None?
  {
  }
}
