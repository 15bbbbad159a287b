/** The proleptic Gregorian calendar as section 15.9.1 of ECMA-262 edition 5.1 computes it: day numbers from
    1970-01-01, their civil dates, and MakeDay. Months count from 0, days from 1. */
module CivilCalendar {

  const MS_PER_DAY: int := 86_400_000
  const MS_PER_HOUR: int := 3_600_000
  const MS_PER_MINUTE: int := 60_000

  datatype Civil = Civil(year: int, month: int, day: int)

  predicate Leap(year: int) {
    year % 4 == 0 && (year % 100 != 0 || year % 400 == 0)
  }

  function DaysInYear(year: int): int {
    if Leap(year) then 366 else 365
  }

  function DayFromYear(year: int): int {
    365 * (year - 1970) + (year - 1969) / 4 - (year - 1901) / 100 + (year - 1601) / 400
  }

  function DaysInMonth(year: int, month: int): (n: int)
    requires 0 <= month < 12
    ensures 28 <= n <= 31
  {
    if month == 1 then if Leap(year) then 29 else 28
    else if month == 3 || month == 5 || month == 8 || month == 10 then 30
    else 31
  }

  /** The lengths of the months, and that the leap years are those of the Gregorian calendar. */
  lemma MonthLengths(year: int, month: int)
    requires 0 <= month < 12
    ensures DaysInMonth(year, month) ==
            [31, if year % 400 == 0 || (year % 4 == 0 && year % 100 != 0) then 29 else 28,
             31, 30, 31, 30, 31, 31, 30, 31, 30, 31][month]
  {
  }

  function DaysBefore(year: int, month: int): (n: int)
    requires 0 <= month <= 12
    decreases month
  {
    if month == 0 then 0 else DaysBefore(year, month - 1) + DaysInMonth(year, month - 1)
  }

  /** Days count from January 1, 1970. */
  lemma Epoch(c: Civil)
    requires c == Civil(1970, 0, 1)
    ensures ToDay(c) == 0 && FromDay(0) == c
  {
    hide FromDay;
    FromToDay(c);
  }

  predicate ValidCivil(c: Civil) {
    0 <= c.month < 12 && 1 <= c.day <= DaysInMonth(c.year, c.month)
  }

  function ToDay(c: Civil): int
    requires 0 <= c.month < 12
  {
    DayFromYear(c.year) + DaysBefore(c.year, c.month) + c.day - 1
  }

  /** Section 15.9.1.12: months and days beyond their range carry over. */
  function MakeDay(year: int, month: int, date: int): int {
    ToDay(Civil(year + month / 12, month % 12, date))
  }

  lemma Floor4(x: int)
    ensures (x + 1) / 4 == x / 4 + if (x + 1) % 4 == 0 then 1 else 0
  {
  }

  lemma Floor100(x: int)
    ensures (x + 1) / 100 == x / 100 + if (x + 1) % 100 == 0 then 1 else 0
  {
  }

  lemma Floor400(x: int)
    ensures (x + 1) / 400 == x / 400 + if (x + 1) % 400 == 0 then 1 else 0
  {
  }

  lemma CenturiesAreMultiples(year: int)
    ensures year % 400 == 0 ==> year % 100 == 0
    ensures year % 100 == 0 ==> year % 4 == 0
    ensures (year - 1968) % 4 == 0 <==> year % 4 == 0
    ensures (year - 1900) % 100 == 0 <==> year % 100 == 0
    ensures (year - 1600) % 400 == 0 <==> year % 400 == 0
  {
  }

  lemma YearStep(year: int)
    ensures DayFromYear(year + 1) == DayFromYear(year) + DaysInYear(year)
  {
    Floor4(year - 1969);
    Floor100(year - 1901);
    Floor400(year - 1601);
    CenturiesAreMultiples(year);
  }

  lemma {:induction false} LaterYear(y: int, z: int)
    requires y <= z
    ensures DayFromYear(y) + 365 * (z - y) <= DayFromYear(z)
    decreases z - y
  {
    if y < z {
      LaterYear(y, z - 1);
      YearStep(z - 1);
    }
  }

  function YearFrom(n: int, y: int): (year: int)
    ensures DayFromYear(year) <= n < DayFromYear(year + 1)
    decreases n < DayFromYear(y), if n < DayFromYear(y) then DayFromYear(y) - n else n - DayFromYear(y)
  {
    YearStep(y);
    YearStep(y - 1);
    if n < DayFromYear(y) then YearFrom(n, y - 1)
    else if n >= DayFromYear(y + 1) then YearFrom(n, y + 1)
    else y
  }

  /** The year a day number falls in. */
  function YearOf(n: int): (year: int)
    ensures DayFromYear(year) <= n < DayFromYear(year + 1)
  {
    YearFrom(n, 1970)
  }

  lemma YearOfUnique(n: int, y: int)
    requires DayFromYear(y) <= n < DayFromYear(y + 1)
    ensures YearOf(n) == y
  {
    var z := YearOf(n);
    if z < y { LaterYear(z + 1, y); } else if y < z { LaterYear(y + 1, z); }
  }

  lemma YearLength(year: int)
    ensures DaysBefore(year, 12) == DaysInYear(year)
  {
    assert DaysBefore(year, 4) == DaysBefore(year, 3) + 30;
    assert DaysBefore(year, 3) == DaysBefore(year, 2) + 31;
    assert DaysBefore(year, 2) == 31 + DaysInMonth(year, 1);
    assert DaysBefore(year, 8) == DaysBefore(year, 4) + 31 + 30 + 31 + 31 by {
      assert DaysBefore(year, 6) == DaysBefore(year, 5) + 30;
      assert DaysBefore(year, 7) == DaysBefore(year, 6) + 31;
    }
    assert DaysBefore(year, 12) == DaysBefore(year, 8) + 30 + 31 + 30 + 31 by {
      assert DaysBefore(year, 10) == DaysBefore(year, 9) + 31;
      assert DaysBefore(year, 11) == DaysBefore(year, 10) + 30;
    }
  }

  lemma {:induction false} LaterMonth(year: int, m: int, k: int)
    requires 0 <= m < k <= 12
    ensures DaysBefore(year, m) + DaysInMonth(year, m) <= DaysBefore(year, k)
    decreases k
  {
    if m < k - 1 {
      LaterMonth(year, m, k - 1);
    }
  }

  /** The month, from `m` down, that day `d` of the year falls in. */
  function MonthDown(year: int, d: int, m: int): (month: int)
    requires 0 <= m < 12 && 0 <= d < DaysBefore(year, m + 1)
    ensures 0 <= month < 12 && DaysBefore(year, month) <= d < DaysBefore(year, month + 1)
    decreases m
  {
    if d >= DaysBefore(year, m) then m else MonthDown(year, d, m - 1)
  }

  /** The civil date of a day number. */
  function FromDay(n: int): (c: Civil)
    ensures ValidCivil(c) && ToDay(c) == n
  {
    var year := YearOf(n);
    YearStep(year);
    YearLength(year);
    var month := MonthDown(year, n - DayFromYear(year), 11);
    Civil(year, month, n - DayFromYear(year) - DaysBefore(year, month) + 1)
  }

  /** Days and dates correspond one to one: every valid date is the date of its day number. */
  lemma FromToDay(c: Civil)
    requires ValidCivil(c)
    ensures FromDay(ToDay(c)) == c
  {
    var n := ToDay(c);
    YearStep(c.year);
    YearLength(c.year);
    LaterMonth(c.year, c.month, 12);
    if c.month > 0 { LaterMonth(c.year, 0, c.month); }
    YearOfUnique(n, c.year);
    var f := FromDay(n);
    if f.month < c.month { LaterMonth(c.year, f.month, c.month); }
    if c.month < f.month { LaterMonth(c.year, c.month, f.month); }
  }
}
