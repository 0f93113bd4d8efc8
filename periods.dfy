/** Monthly periods of instants and their text, as pandas writes them with
    `series.dt.to_period('M').astype(str)`: "YYYY-MM". */
module Periods {
  import opened Wrappers
  import opened Calendar
  import opened Text
  import opened Orders

  /** The year part of a period's text: at least four digits, with a minus sign before a negative year. */
  function YearText(y: int): string {
    if y >= 0 then ZeroPad(Decimal(y), 4) else "-" + ZeroPad(Decimal(-y), 4)
  }

  /** The text of the monthly period of year y, month m. */
  function MonthLabel(y: int, m: int): (s: string)
    requires 1 <= m <= 12
    ensures |s| >= 7 && s[|s| - 3] == '-' && AllDigits(s[|s| - 2..])
    ensures 0 <= y <= 9999 ==> |s| == 7 && AllDigits(s[..4]) && s[4] == '-'
  {
    DecimalShort(m);
    DecimalShort(y);
    YearText(y) + "-" + ZeroPad(Decimal(m), 2)
  }

  lemma DecimalShort(n: int)
    ensures 0 <= n < 100 ==> |Decimal(n)| <= 2
    ensures 0 <= n < 10000 ==> |Decimal(n)| <= 4
  {
    if 10 <= n < 10000 {
      assert |Decimal(n)| == |Decimal(n / 10)| + 1;
      if n >= 100 {
        assert |Decimal(n / 10)| == |Decimal(n / 100)| + 1;
        if n >= 1000 {
          assert |Decimal(n / 100)| == |Decimal(n / 1000)| + 1;
        }
      }
    }
  }

  /** Reads back the year part of a period's text. */
  function ParseYearText(s: string): Option<int> {
    if |s| >= 2 && s[0] == '-' && AllDigits(s[1..]) then Some(0 - DigitsValue(s[1..]))
    else if |s| >= 1 && AllDigits(s) then Some(DigitsValue(s))
    else None
  }

  /** Reads back the year and month of a period's text; None when the text is not of that shape. */
  function ParseMonthLabel(s: string): (r: Option<(int, int)>)
    ensures r.Some? ==> 1 <= r.value.1 <= 12
  {
    if |s| < 4 || s[|s| - 3] != '-' || !AllDigits(s[|s| - 2..]) then None
    else
      var m := DigitsValue(s[|s| - 2..]);
      match ParseYearText(s[..|s| - 3])
      case None => None
      case Some(y) => if 1 <= m <= 12 then Some((y, m)) else None
  }

  lemma {:induction false} YearTextRoundTrip(y: int)
    ensures ParseYearText(YearText(y)) == Some(y)
  {
    if y >= 0 {
      ZeroPadValue(Decimal(y), 4);
      DecimalValue(y);
    } else {
      var s := "-" + ZeroPad(Decimal(-y), 4);
      assert s[1..] == ZeroPad(Decimal(-y), 4);
      ZeroPadValue(Decimal(-y), 4);
      DecimalValue(-y);
    }
  }

  /** The month part of a period's text is two digits that read back as the month. */
  lemma MonthTextValue(m: int)
    requires 1 <= m <= 12
    ensures var mm := ZeroPad(Decimal(m), 2); |mm| == 2 && AllDigits(mm) && DigitsValue(mm) == m
  {
    DecimalShort(m);
    ZeroPadValue(Decimal(m), 2);
    DecimalValue(m);
  }

  /** Reading a year text, a hyphen and a two-digit month. */
  lemma ParseJoinedLabel(yt: string, mm: string)
    requires ParseYearText(yt).Some?
    requires |mm| == 2 && AllDigits(mm) && 1 <= DigitsValue(mm) <= 12
    ensures ParseMonthLabel(yt + "-" + mm) == Some((ParseYearText(yt).value, DigitsValue(mm)))
  {
    var s := yt + "-" + mm;
    assert |s| == |yt| + 3;
    assert s[|s| - 3] == '-';
    assert s[|s| - 2..] == mm;
    assert s[..|s| - 3] == yt;
  }

  /** The text of a monthly period determines its year and month. */
  lemma {:induction false} MonthLabelRoundTrip(y: int, m: int)
    requires 1 <= m <= 12
    ensures ParseMonthLabel(MonthLabel(y, m)) == Some((y, m))
  {
    MonthTextValue(m);
    YearTextRoundTrip(y);
    ParseJoinedLabel(YearText(y), ZeroPad(Decimal(m), 2));
  }

  /** The calendar year of an instant: `series.dt.year`. */
  function YearOf(t: int): int {
    DateOf(t).year
  }

  /** The calendar month (1..12) of an instant. */
  function MonthOf(t: int): int {
    DateOf(t).month
  }

  /** `series.dt.to_period('M').astype(str)` of an instant. */
  function PeriodLabel(t: int): (s: string)
    ensures ParseMonthLabel(s) == Some((YearOf(t), MonthOf(t)))
  {
    MonthLabelRoundTrip(YearOf(t), MonthOf(t));
    MonthLabel(YearOf(t), MonthOf(t))
  }

  /** Within four-digit years the text is "YYYY-MM". */
  lemma PeriodLabelFormat(t: int)
    requires 0 <= YearOf(t) <= 9999
    ensures var s := PeriodLabel(t);
      |s| == 7 && AllDigits(s[..4]) && s[4] == '-' && AllDigits(s[5..])
  {
  }

  /** A four-digit year's text is four digits that read back as the year. */
  lemma YearTextDigits(y: int)
    requires 0 <= y <= 9999
    ensures |YearText(y)| == 4 && AllDigits(YearText(y)) && DigitsValue(YearText(y)) == y
  {
    DecimalShort(y);
    ZeroPadValue(Decimal(y), 4);
    DecimalValue(y);
  }

  /** Within four-digit years, period texts sort in chronological order. */
  lemma MonthLabelOrder(y1: int, m1: int, y2: int, m2: int)
    requires 0 <= y1 <= 9999 && 0 <= y2 <= 9999
    requires 1 <= m1 <= 12 && 1 <= m2 <= 12
    ensures StrLess(MonthLabel(y1, m1), MonthLabel(y2, m2)) <==> y1 < y2 || (y1 == y2 && m1 < m2)
  {
    var yt1, yt2 := YearText(y1), YearText(y2);
    var mt1, mt2 := ZeroPad(Decimal(m1), 2), ZeroPad(Decimal(m2), 2);
    YearTextDigits(y1);
    YearTextDigits(y2);
    MonthTextValue(m1);
    MonthTextValue(m2);
    DigitsOrder(yt1, yt2);
    DigitsOrder(mt1, mt2);
    StrLessAppend(yt1 + "-", yt2 + "-", mt1, mt2);
    StrLessAppend(yt1, yt2, "-", "-");
    StrLessIrreflexive("-");
    assert yt1 + "-" == yt2 + "-" <==> yt1 == yt2 by {
      assert (yt1 + "-")[..4] == yt1 && (yt2 + "-")[..4] == yt2;
    }
  }

  /** The period texts of two instants in four-digit years compare as their (year, month) pairs. */
  lemma PeriodLabelOrder(t1: int, t2: int)
    requires 0 <= YearOf(t1) <= 9999 && 0 <= YearOf(t2) <= 9999
    ensures StrLess(PeriodLabel(t1), PeriodLabel(t2)) <==>
      YearOf(t1) < YearOf(t2) || (YearOf(t1) == YearOf(t2) && MonthOf(t1) < MonthOf(t2))
  {
    MonthLabelOrder(YearOf(t1), MonthOf(t1), YearOf(t2), MonthOf(t2));
  }
}
