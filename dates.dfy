/**
 * A calendar date as the client reads it from a parsed JavaScript Date in local
 * time: getFullYear(), getMonth() (0-11), getDate() (1-31) and getTime()
 * (milliseconds since the epoch). Parsing date text and converting to local time
 * are done by the JavaScript runtime; the model receives their outcome.
 */
module Dates {
  import opened Strings

  type Month0 = m: int | 0 <= m < 12
  type DayOfMonth = d: int | 1 <= d <= 31 witness 1

  datatype DateParts = DateParts(year: int, month: Month0, day: DayOfMonth, time: int)

  const MonthNames: seq<string> :=
    ["Jan", "Feb", "Mar", "Apr", "May", "Jun", "Jul", "Aug", "Sep", "Oct", "Nov", "Dec"]

  /** One number per calendar month, increasing with (year, month). */
  function MonthIndex(year: int, month: Month0): (k: int)
    ensures k / 12 == year && k % 12 == month
  {
    year * 12 + month
  }

  /** `${year}-${mm}-${dd}` with month and day zero-padded to two digits. */
  function DayLabel(d: DateParts): string
  {
    IntToString(d.year) + "-" + PadStart2(NatToString(d.month + 1)) + "-" + PadStart2(NatToString(d.day))
  }

  /** `${monthNames[m]} ${y}`, e.g. "Mar 2024". */
  function MonthLabel(year: int, month: Month0): string
  {
    MonthNames[month] + " " + IntToString(year)
  }

  /** A month or day number below 100 padded to two digits. */
  lemma TwoDigits(n: nat)
    requires 1 <= n < 100
    ensures |PadStart2(NatToString(n))| == 2
    ensures AllDigits(PadStart2(NatToString(n)))
    ensures DigitsValue(PadStart2(NatToString(n))) == n
  {
    var s := NatToString(n);
    NatToStringValue(n);
    if n < 10 {
      assert PadStart2(s) == "0" + s;
      assert ("0" + s)[..1] == "0";
    } else {
      assert |s| == 2 by {
        assert n / 10 < 10;
      }
    }
  }

  /** The label of a day of years 1000-9999 is "YYYY-MM-DD": ten characters, digits outside the two dashes. */
  lemma DayLabelShape(d: DateParts)
    requires 1000 <= d.year <= 9999
    ensures |DayLabel(d)| == 10
    ensures DayLabel(d)[..4] == NatToString(d.year)
    ensures DayLabel(d)[4] == '-' && DayLabel(d)[7] == '-'
    ensures DayLabel(d)[5..7] == PadStart2(NatToString(d.month + 1))
    ensures DayLabel(d)[8..10] == PadStart2(NatToString(d.day))
    ensures DigitsValue(DayLabel(d)[..4]) == d.year
    ensures DigitsValue(DayLabel(d)[5..7]) == d.month + 1
    ensures DigitsValue(DayLabel(d)[8..10]) == d.day
  {
    assert Pow10(3) == 1000 && Pow10(4) == 10000 by {
      assert Pow10(1) == 10 && Pow10(2) == 100;
    }
    NatToStringLength(d.year, 4);
    NatToStringValue(d.year);
    TwoDigits(d.month + 1);
    TwoDigits(d.day);
    var y := NatToString(d.year);
    var m := PadStart2(NatToString(d.month + 1));
    var dd := PadStart2(NatToString(d.day));
    var l := DayLabel(d);
    assert l == y + "-" + m + "-" + dd;
    assert l[5..7] == m;
    assert l[8..10] == dd;
  }

  /** Distinct days of years 1000-9999 give distinct labels. */
  lemma DayLabelInjective(a: DateParts, b: DateParts)
    requires 1000 <= a.year <= 9999 && 1000 <= b.year <= 9999
    requires DayLabel(a) == DayLabel(b)
    ensures a.year == b.year && a.month == b.month && a.day == b.day
  {
    DayLabelShape(a);
    DayLabelShape(b);
  }
}
