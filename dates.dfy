/**
 * The parts of `java.time.LocalDate` the program uses: `LocalDate.of`,
 * `lengthOfMonth`, `withDayOfMonth` and the ISO-8601 `toString`
 * ("YYYY-MM-DD"), together with how those strings compare as TEXT.
 */
module Dates {
  import opened Wrappers
  import opened Text

  const MIN_YEAR := -999_999_999
  const MAX_YEAR := 999_999_999

  datatype Date = Date(year: int, month: nat, day: nat)

  /** The ISO proleptic Gregorian leap-year rule. */
  predicate IsLeapYear(year: int)
  {
    year % 4 == 0 && (year % 100 != 0 || year % 400 == 0)
  }

  function LengthOfMonth(year: int, month: int): (n: int)
    requires 1 <= month <= 12
    ensures 28 <= n <= 31
    ensures month == 2 ==> (n == 29 <==> IsLeapYear(year))
  {
    if month == 2 then (if IsLeapYear(year) then 29 else 28)
    else if month == 4 || month == 6 || month == 9 || month == 11 then 30
    else 31
  }

  ghost predicate ValidDate(d: Date)
  {
    && MIN_YEAR <= d.year <= MAX_YEAR
    && 1 <= d.month <= 12
    && 1 <= d.day <= LengthOfMonth(d.year, d.month)
  }

  /** `LocalDate.of`: the date, or `None` where Java throws `DateTimeException`. */
  function Of(year: int, month: int, day: int): (r: Option<Date>)
    ensures r.Some? <==> MIN_YEAR <= year <= MAX_YEAR && 1 <= month <= 12 && 1 <= day <= LengthOfMonth(year, month)
    ensures r.Some? ==> 1 <= month && 1 <= day && r.value == Date(year, month, day) && ValidDate(r.value)
  {
    if MIN_YEAR <= year <= MAX_YEAR && 1 <= month <= 12 && 1 <= day <= LengthOfMonth(year, month)
    then Some(Date(year, month, day))
    else None
  }

  /** `withDayOfMonth`: the same month, another day (valid for `today`'s month). */
  function WithDayOfMonth(d: Date, day: int): (r: Date)
    requires ValidDate(d) && 1 <= day <= LengthOfMonth(d.year, d.month)
    ensures ValidDate(r) && r.year == d.year && r.month == d.month && r.day == day
  {
    d.(day := day)
  }

  /** The year part of `LocalDate.toString`: four digits at least, a sign past 9999 or below 0. */
  function YearText(year: int): string
  {
    var abs := if year < 0 then -year else year;
    if abs < 1000 then (if year < 0 then "-" else "") + Padded(abs, 4)
    else (if year > 9999 then "+" else if year < 0 then "-" else "") + NatText(abs)
  }

  /** `LocalDate.toString`. */
  function ToText(d: Date): string
  {
    YearText(d.year) + ("-" + (Padded(d.month, 2) + ("-" + Padded(d.day, 2))))
  }

  /** The first and last day of a month as `LocalDate.toString` writes them. */
  function MonthStart(year: int, month: int): string
    requires 1 <= month <= 12
  {
    ToText(Date(year, month, 1))
  }

  function MonthEnd(year: int, month: int): string
    requires 1 <= month <= 12
  {
    ToText(Date(year, month, LengthOfMonth(year, month)))
  }

  /** Chronological order of dates. */
  predicate DateLe(a: Date, b: Date)
  {
    a.year < b.year || (a.year == b.year && (a.month < b.month || (a.month == b.month && a.day <= b.day)))
  }

  lemma {:induction false} NatTextPadded(n: nat, width: nat)
    requires width >= 1 && Pow10(width - 1) <= n < Pow10(width)
    ensures NatText(n) == Padded(n, width)
  {
    if width > 1 {
      NatTextPadded(n / 10, width - 1);
    }
  }

  lemma DigitOrder(x: int, y: int)
    requires 0 <= x < 10 && 0 <= y < 10
    ensures LexLe([Digit(x)], [Digit(y)]) <==> x <= y
  {
    assert [Digit(x)][1..] == [] && [Digit(y)][1..] == [];
  }

  /** Fixed-width digit strings compare as the numbers they write. */
  lemma {:induction false} PaddedOrder(n: nat, m: nat, width: nat)
    requires n < Pow10(width) && m < Pow10(width)
    ensures LexLe(Padded(n, width), Padded(m, width)) <==> n <= m
    ensures Padded(n, width) == Padded(m, width) <==> n == m
  {
    if width == 0 {
      LexLeReflexive([]);
    } else {
      var a, b := Padded(n / 10, width - 1), Padded(m / 10, width - 1);
      var c, d := [Digit(n % 10)], [Digit(m % 10)];
      PaddedOrder(n / 10, m / 10, width - 1);
      DigitOrder(n % 10, m % 10);
      if a == b {
        LexLeCommonPrefix(a, c, d);
        assert n / 10 == m / 10;
        if n != m {
          assert c != d;
          assert Padded(n, width)[width - 1] != Padded(m, width)[width - 1];
        }
      } else if LexLe(a, b) {
        LexLeSameLengthExtend(a, b, c, d);
        assert n / 10 < m / 10;
      } else {
        LexLeTotal(a, b);
        LexLeSameLengthExtend(b, a, d, c);
        assert m / 10 < n / 10;
      }
    }
  }

  /** The text of a date whose year has four digits. */
  lemma FourDigitText(d: Date)
    requires 0 <= d.year <= 9999
    ensures ToText(d) == Padded(d.year, 4) + ("-" + (Padded(d.month, 2) + ("-" + Padded(d.day, 2))))
  {
    if d.year >= 1000 { NatTextPadded(d.year, 4); }
  }

  /** Order of `prefix + rest` strings decided by a fixed-width leading field. */
  lemma OrderByField(p: string, q: string, x: string, y: string)
    requires |p| == |q|
    ensures p == q ==> (LexLe(p + x, q + y) <==> LexLe(x, y))
    ensures p != q ==> (LexLe(p + x, q + y) <==> LexLe(p, q))
  {
    if p == q {
      LexLeCommonPrefix(p, x, y);
    } else if LexLe(p, q) {
      LexLeSameLengthExtend(p, q, x, y);
    } else {
      LexLeTotal(p, q);
      LexLeSameLengthExtend(q, p, y, x);
    }
  }

  /** For four-digit years, comparing `toString` values as TEXT is chronological order. */
  lemma DateTextOrder(a: Date, b: Date)
    requires 0 <= a.year <= 9999 && 0 <= b.year <= 9999
    requires 1 <= a.month <= 12 && 1 <= b.month <= 12 && 1 <= a.day <= 31 && 1 <= b.day <= 31
    ensures LexLe(ToText(a), ToText(b)) <==> DateLe(a, b)
  {
    FourDigitText(a);
    FourDigitText(b);
    var ya, yb := Padded(a.year, 4), Padded(b.year, 4);
    var ma, mb := Padded(a.month, 2), Padded(b.month, 2);
    var da, db := Padded(a.day, 2), Padded(b.day, 2);
    PaddedOrder(a.year, b.year, 4);
    PaddedOrder(a.month, b.month, 2);
    PaddedOrder(a.day, b.day, 2);
    OrderByField(ya, yb, "-" + (ma + ("-" + da)), "-" + (mb + ("-" + db)));
    OrderByField("-", "-", ma + ("-" + da), mb + ("-" + db));
    OrderByField(ma, mb, "-" + da, "-" + db);
    OrderByField("-", "-", da, db);
  }

  /**
   * For four-digit years, the bare date strings BETWEEN the first and the last
   * day of a month are exactly that month's dates.
   */
  lemma DateInMonthRange(d: Date, year: int, month: int)
    requires ValidDate(d) && 0 <= d.year <= 9999 && 0 <= year <= 9999 && 1 <= month <= 12
    ensures LexLe(MonthStart(year, month), ToText(d)) && LexLe(ToText(d), MonthEnd(year, month))
            <==> d.year == year && d.month == month
  {
    DateTextOrder(Date(year, month, 1), d);
    DateTextOrder(d, Date(year, month, LengthOfMonth(year, month)));
  }

  /**
   * A timestamp that extends a date string (SQLite's default
   * "YYYY-MM-DD HH:MM:SS") lies BETWEEN the month's bounds exactly when its date
   * is in the month and is not the month's last day: on the last day the
   * timestamp compares greater than the bare upper bound.
   */
  lemma TimestampInMonthRange(d: Date, time: string, year: int, month: int)
    requires ValidDate(d) && 0 <= d.year <= 9999 && 0 <= year <= 9999 && 1 <= month <= 12
    requires |time| > 0
    ensures LexLe(MonthStart(year, month), ToText(d) + time) && LexLe(ToText(d) + time, MonthEnd(year, month))
            <==> d.year == year && d.month == month && d.day < LengthOfMonth(year, month)
  {
    var first, last := Date(year, month, 1), Date(year, month, LengthOfMonth(year, month));
    var t, lo, hi := ToText(d), ToText(first), ToText(last);
    DateTextOrder(first, d);
    DateTextOrder(d, last);
    DateTextOrder(last, d);
    FourDigitText(d);
    FourDigitText(first);
    FourDigitText(last);
    assert |t| == 10 && |lo| == 10 && |hi| == 10;
    ExtendRight(lo, t, time);
    ExtendLeft(hi, t, time);
    assert t == hi <==> d == last by {
      if t == hi { LexLeReflexive(t); }
    }
  }
}
