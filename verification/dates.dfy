/**
 * Calendar dates and the `strftime` formats the scripts use:
 * `%Y%m%d` for spreadsheet names, `%Y-%m-%d` for post file names,
 * `%Y-%m-%d %H:%M:%S` and `%Y-%m-%d %H:%M` for time stamps.
 * The clock itself (`datetime.now()`) is an input of every operation.
 */
module Dates {
  import opened Options
  import opened Decimal

  function DaysInMonth(year: nat, month: nat): nat {
    if month == 2 then (if (year % 4 == 0 && year % 100 != 0) || year % 400 == 0 then 29 else 28)
    else if month == 4 || month == 6 || month == 9 || month == 11 then 30
    else 31
  }

  /** A calendar date; years are four-digit, as `%Y` writes them without padding. */
  datatype Date = Date(year: nat, month: nat, day: nat) {
    predicate Valid() {
      1000 <= year <= 9999 && 1 <= month <= 12 && 1 <= day <= DaysInMonth(year, month)
    }
  }

  datatype DateTime = DateTime(date: Date, hour: nat, minute: nat, second: nat) {
    predicate Valid() {
      date.Valid() && hour < 24 && minute < 60 && second < 60
    }
  }

  /** `%Y%m%d`. */
  function Compact(d: Date): (r: string)
    requires d.Valid()
    ensures |r| == 8 && AllDigits(r)
  {
    Pad4(d.year) + Pad2(d.month) + Pad2(d.day)
  }

  /** `%Y-%m-%d`. */
  function Iso(d: Date): (r: string)
    requires d.Valid()
    ensures |r| == 10 && r[4] == '-' && r[7] == '-'
    ensures AllDigits(r[..4]) && AllDigits(r[5..7]) && AllDigits(r[8..])
  {
    var r := Pad4(d.year) + "-" + Pad2(d.month) + "-" + Pad2(d.day);
    assert r[..4] == Pad4(d.year) && r[5..7] == Pad2(d.month) && r[8..] == Pad2(d.day);
    r
  }

  /** `%Y-%m-%d %H:%M:%S`. */
  function Stamp(t: DateTime): (r: string)
    requires t.Valid()
    ensures |r| == 19 && r[..10] == Iso(t.date)
  {
    Iso(t.date) + " " + Pad2(t.hour) + ":" + Pad2(t.minute) + ":" + Pad2(t.second)
  }

  /** `%Y-%m-%d %H:%M`. */
  function MinuteStamp(t: DateTime): (r: string)
    requires t.Valid()
    ensures |r| == 16 && r == Stamp(t)[..16]
  {
    Iso(t.date) + " " + Pad2(t.hour) + ":" + Pad2(t.minute)
  }

  /** Reads an eight-digit `%Y%m%d` stamp back into the date it names. */
  function ParseCompact(s: string): (r: Option<Date>)
    ensures r.Some? ==> r.value.Valid()
  {
    if |s| == 8 && AllDigits(s) then
      var d := Date(DigitsValue(s[..4]), DigitsValue(s[4..6]), DigitsValue(s[6..]));
      if d.Valid() then Some(d) else None
    else None
  }

  /** `%Y%m%d` loses nothing: the stamp reads back as the same date, so distinct days get distinct stamps. */
  lemma ParseCompactOfCompact(d: Date)
    requires d.Valid()
    ensures ParseCompact(Compact(d)) == Some(d)
  {
    var s := Compact(d);
    assert s[..4] == Pad4(d.year);
    assert s[4..6] == Pad2(d.month);
    assert s[6..] == Pad2(d.day);
  }

  lemma CompactInjective(d: Date, e: Date)
    requires d.Valid() && e.Valid() && Compact(d) == Compact(e)
    ensures d == e
  {
    ParseCompactOfCompact(d);
    ParseCompactOfCompact(e);
  }
}
