/** Calendar dates as Python's `datetime(year, month, day)` accepts them, and
    their ISO-8601 rendering. */
module Dates {
  import opened Wrappers
  import opened Text

  datatype Date = Date(year: nat, month: nat, day: nat)

  /** Gregorian leap years. */
  predicate IsLeapYear(y: int) {
    y % 4 == 0 && (y % 100 != 0 || y % 400 == 0)
  }

  function DaysInMonth(y: int, m: int): (n: int)
    requires 1 <= m <= 12
    ensures 28 <= n <= 31
    ensures n == 29 <==> m == 2 && IsLeapYear(y)
  {
    if m == 2 then (if IsLeapYear(y) then 29 else 28)
    else if m == 4 || m == 6 || m == 9 || m == 11 then 30
    else 31
  }

  /** What `datetime(year, month, day)` accepts without raising ValueError:
      years MINYEAR = 1 to MAXYEAR = 9999, months 1-12, days within the month. */
  predicate IsValidDate(d: Date) {
    && 1 <= d.year <= 9999
    && 1 <= d.month <= 12
    && 1 <= d.day <= DaysInMonth(d.year, d.month)
  }

  /** The date built from three digit groups, if it is a real calendar date. */
  function DateFromDigits(y: string, m: string, d: string): (r: Option<Date>)
    requires AllDigits(y) && AllDigits(m) && AllDigits(d)
    ensures r.Some? <==> IsValidDate(Date(NumberValue(y), NumberValue(m), NumberValue(d)))
    ensures r.Some? ==> r.value == Date(NumberValue(y), NumberValue(m), NumberValue(d))
  {
    var date := Date(NumberValue(y), NumberValue(m), NumberValue(d));
    if IsValidDate(date) then Some(date) else None
  }

  /** `YYYY-MM-DD`, each part zero-padded (`date.isoformat()`). */
  function IsoDate(d: Date): (r: string)
    ensures |r| == 10 && r[4] == '-' && r[7] == '-'
    ensures r[..4] == Pad(d.year, 4) && r[5..7] == Pad(d.month, 2) && r[8..] == Pad(d.day, 2)
  {
    Pad(d.year, 4) + "-" + Pad(d.month, 2) + "-" + Pad(d.day, 2)
  }

  /** The shape `DDDD-DD-DD` with ASCII digits. */
  predicate IsIsoDateText(s: string) {
    && |s| == 10 && s[4] == '-' && s[7] == '-'
    && AllDigits(s[..4]) && AllDigits(s[5..7]) && AllDigits(s[8..])
  }

  /** A valid date's rendering has the ISO shape and its digit groups read
      back as the year, month and day. */
  lemma IsoDateReadsBack(d: Date)
    requires IsValidDate(d)
    ensures IsIsoDateText(IsoDate(d))
    ensures NumberValue(IsoDate(d)[..4]) == d.year
    ensures NumberValue(IsoDate(d)[5..7]) == d.month
    ensures NumberValue(IsoDate(d)[8..]) == d.day
  {
    assert Pow10(2) == 100;
    assert Pow10(4) == 10 * 10 * Pow10(2);
    NumberValuePad(d.year, 4);
    NumberValuePad(d.month, 2);
    NumberValuePad(d.day, 2);
  }

  /** Rendering the date read from digit groups of the right widths gives
      back those digits. */
  lemma IsoDateOfDigits(y: string, m: string, d: string)
    requires |y| == 4 && |m| == 2 && |d| == 2
    requires AllDigits(y) && AllDigits(m) && AllDigits(d)
    ensures IsoDate(Date(NumberValue(y), NumberValue(m), NumberValue(d))) == y + "-" + m + "-" + d
  {
    PadNumberValue(y);
    PadNumberValue(m);
    PadNumberValue(d);
  }
}
