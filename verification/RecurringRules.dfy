/** Recurring rules: when the next run is, and what one cron tick does to the due rules.

    Times are local milliseconds in a zone of fixed offset, where a local day is always 24 hours. */
module RecurringRules {
  import opened CivilCalendar

  datatype Frequency = DAILY | WEEKLY | MONTHLY

  function DayOf(time: int): int {
    time / MS_PER_DAY
  }

  function TimeWithinDay(time: int): (t: int)
    ensures 0 <= t < MS_PER_DAY && time == DayOf(time) * MS_PER_DAY + t
  {
    time % MS_PER_DAY
  }

  /** The same time of day on another date of the month, or on the same date of another month. */
  function WithDate(time: int, date: int): int {
    var c := FromDay(DayOf(time));
    MakeDay(c.year, c.month, date) * MS_PER_DAY + TimeWithinDay(time)
  }

  function WithMonth(time: int, month: int): int {
    var c := FromDay(DayOf(time));
    MakeDay(c.year, month, c.day) * MS_PER_DAY + TimeWithinDay(time)
  }

  /** A mutable date, with the setters of section 15.9.5 of ECMA-262 edition 5.1 that the service calls. */
  class JsDate {
    var time: int

    constructor (t: int)
      ensures time == t
    {
      time := t;
    }

    /** setMinutes(0, 0, 0) */
    method ClearMinutes()
      modifies this
      ensures time == old(time) - old(time) % MS_PER_HOUR
    {
      time := time - time % MS_PER_HOUR;
    }

    method SetHours(hour: int)
      modifies this
      ensures time == DayOf(old(time)) * MS_PER_DAY + hour * MS_PER_HOUR + old(time) % MS_PER_HOUR
    {
      time := DayOf(time) * MS_PER_DAY + hour * MS_PER_HOUR + time % MS_PER_HOUR;
    }

    function GetDate(): int
      reads this
    {
      FromDay(DayOf(time)).day
    }

    function GetMonth(): int
      reads this
    {
      FromDay(DayOf(time)).month
    }

    method SetDate(date: int)
      modifies this
      ensures time == WithDate(old(time), date)
    {
      var c := FromDay(DayOf(time));
      time := MakeDay(c.year, c.month, date) * MS_PER_DAY + TimeWithinDay(time);
    }

    method SetMonth(month: int)
      modifies this
      ensures time == WithMonth(old(time), month)
    {
      var c := FromDay(DayOf(time));
      time := MakeDay(c.year, month, c.day) * MS_PER_DAY + TimeWithinDay(time);
    }
  }

  // ─── The next run ──────────────────────────────────────

  /** How many days one step is: for a monthly rule, the length of the month the step starts in. */
  function Period(time: int, frequency: Frequency): (days: int)
    ensures 1 <= days <= 31
    ensures frequency == MONTHLY ==> 28 <= days
  {
    match frequency
    case DAILY => 1
    case WEEKLY => 7
    case MONTHLY => var c := FromDay(DayOf(time)); DaysInMonth(c.year, c.month)
  }

  lemma MakeDayInYear(year: int, month: int, date: int)
    requires 0 <= month < 12
    ensures MakeDay(year, month, date) == ToDay(Civil(year, month, date))
  {
    assert year + month / 12 == year && month % 12 == month;
  }

  /** Moving the date by `k` is adding `k` days, whatever month that ends in. */
  lemma DateSteps(c: Civil, k: int)
    requires ValidCivil(c)
    ensures MakeDay(c.year, c.month, c.day + k) == ToDay(c) + k
  {
    MakeDayInYear(c.year, c.month, c.day + k);
  }

  function NextMonth(c: Civil): (next: Civil)
    requires 0 <= c.month < 12
    ensures 0 <= next.month < 12
  {
    if c.month == 11 then Civil(c.year + 1, 0, c.day) else Civil(c.year, c.month + 1, c.day)
  }

  lemma NextMonthStart(c: Civil)
    requires 0 <= c.month < 12
    ensures ToDay(NextMonth(c)) == ToDay(c) + DaysInMonth(c.year, c.month)
  {
    if c.month == 11 {
      YearStep(c.year);
      YearLength(c.year);
    }
  }

  lemma MakeDayNextMonth(c: Civil)
    requires 0 <= c.month < 12
    ensures MakeDay(c.year, c.month + 1, c.day) == ToDay(NextMonth(c))
  {
    if c.month == 11 {
      assert c.year + (c.month + 1) / 12 == c.year + 1 && (c.month + 1) % 12 == 0;
    } else {
      MakeDayInYear(c.year, c.month + 1, c.day);
    }
  }

  /** Moving the month by one is adding the length of the current month. */
  lemma MonthSteps(c: Civil)
    requires ValidCivil(c)
    ensures MakeDay(c.year, c.month + 1, c.day) == ToDay(c) + DaysInMonth(c.year, c.month)
  {
    MakeDayNextMonth(c);
    NextMonthStart(c);
  }

  lemma DateForward(time: int, k: int)
    ensures WithDate(time, FromDay(DayOf(time)).day + k) == time + k * MS_PER_DAY
  {
    DateSteps(FromDay(DayOf(time)), k);
  }

  lemma MonthForward(time: int)
    ensures WithMonth(time, FromDay(DayOf(time)).month + 1) == time + Period(time, MONTHLY) * MS_PER_DAY
  {
    MonthSteps(FromDay(DayOf(time)));
  }

  method StepForward(d: int, frequency: Frequency) returns (r: int)
    ensures r == d + Period(d, frequency) * MS_PER_DAY
    ensures match frequency
            case DAILY => r == d + 86_400_000
            case WEEKLY => r == d + 7 * 86_400_000
            case MONTHLY =>
              var c := FromDay(d / 86_400_000); r == d + DaysInMonth(c.year, c.month) * 86_400_000
  {
    hide WithDate, WithMonth, FromDay, DaysInMonth;
    var out := new JsDate(d);
    match frequency {
      case DAILY =>
        DateForward(d, 1);
        out.SetDate(out.GetDate() + 1);
      case WEEKLY =>
        DateForward(d, 7);
        out.SetDate(out.GetDate() + 7);
      case MONTHLY =>
        MonthForward(d);
        out.SetMonth(out.GetMonth() + 1);
    }
    r := out.time;
  }

  /** The configured hour on the day of `from`. */
  function Slot(from: int, hour: nat): int {
    DayOf(from) * MS_PER_DAY + hour * MS_PER_HOUR
  }

  /** What the setters leave, in plain numbers: the configured hour of the day of `from` if the rule is not firing and
      the hour is still ahead; otherwise that hour one day, seven days or one calendar month later. */
  ghost predicate IsNextRun(from: int, frequency: Frequency, hour: nat, advance: bool, r: int) {
    var slot := from / 86_400_000 * 86_400_000 + hour * 3_600_000;
    if !advance && slot > from then r == slot
    else match frequency
      case DAILY => r == slot + 86_400_000
      case WEEKLY => r == slot + 7 * 86_400_000
      case MONTHLY =>
        && r % 86_400_000 == hour * 3_600_000
        && FromDay(r / 86_400_000) == MonthLater(FromDay(from / 86_400_000))
  }

  /** The next run stays on the day of `from` exactly if the rule is not firing and the hour of that day is still
      ahead. */
  lemma NextRunDay(from: int, frequency: Frequency, hour: nat, advance: bool)
    requires hour < 24
    ensures var r := NextRun(from, frequency, hour, advance);
            && IsNextRun(from, frequency, hour, advance, r)
            && (DayOf(r) == DayOf(from) <==> !advance && from % 86_400_000 < hour * 3_600_000)
            && (DayOf(r) != DayOf(from) ==>
                  match frequency
                  case DAILY => DayOf(r) - DayOf(from) == 1
                  case WEEKLY => DayOf(r) - DayOf(from) == 7
                  case MONTHLY => FromDay(DayOf(r)) == MonthLater(FromDay(DayOf(from))))
  {
    NextRunIn(from, frequency, hour, advance);
    MonthlyStepDate(FromDay(DayOf(from)));
    hide MonthLater, NextRun, FromDay;
  }

  /** So many days after the day of `from`, on the hour. */
  lemma NextRunIn(from: int, frequency: Frequency, hour: nat, advance: bool)
    requires hour < 24
    ensures var r := NextRun(from, frequency, hour, advance);
            var days := if !advance && from % 86_400_000 < hour * 3_600_000 then 0 else Period(from, frequency);
            && r == (DayOf(from) + days) * MS_PER_DAY + hour * MS_PER_HOUR && DayOf(r) == DayOf(from) + days
            && r % MS_PER_DAY == hour * MS_PER_HOUR
  {
    hide Period;
    DayAndHour(DayOf(from), hour);
    DayAndHour(DayOf(from) + Period(from, frequency), hour);
  }

  lemma DayAndHour(day: int, hour: nat)
    requires hour < 24
    ensures var r := day * MS_PER_DAY + hour * MS_PER_HOUR; DayOf(r) == day && r % MS_PER_DAY == hour * MS_PER_HOUR
  {
  }

  /** The slot of the day if it is still ahead and the rule is not just firing; otherwise one step past it. */
  function NextRun(from: int, frequency: Frequency, hour: nat, advance: bool): int {
    if !advance && Slot(from, hour) > from then Slot(from, hour)
    else Slot(from, hour) + Period(from, frequency) * MS_PER_DAY
  }

  /** The next run is strictly later, on the hour, and never more than one step past the slot of the day. */
  lemma NextRunIsLater(from: int, frequency: Frequency, hour: nat, advance: bool)
    requires hour < 24
    ensures var r := NextRun(from, frequency, hour, advance);
            r > from && TimeWithinDay(r) == hour * MS_PER_HOUR && r <= from + (Period(from, frequency) + 1) * MS_PER_DAY
  {
    SlotOfDay(from, hour);
    WholeDaysLater(from, hour, Period(from, frequency));
  }

  method ComputeNextRun(from: int, frequency: Frequency, hour: nat, advance: bool) returns (r: int)
    requires hour < 24
    ensures r == NextRun(from, frequency, hour, advance) && IsNextRun(from, frequency, hour, advance, r)
  {
    NextRunDay(from, frequency, hour, advance);
    var next := new JsDate(from);
    next.ClearMinutes();
    SameDay(from, next.time);
    next.SetHours(hour);
    SlotOfDay(from, hour);
    assert next.time == Slot(from, hour);
    if !advance {
      if next.time <= from {
        r := StepForward(next.time, frequency);
        return;
      }
      return next.time;
    }
    r := StepForward(next.time, frequency);
  }

  lemma SameDay(from: int, cleared: int)
    requires cleared == from - from % MS_PER_HOUR
    ensures DayOf(cleared) == DayOf(from) && cleared % MS_PER_HOUR == 0
  {
    var h := from / MS_PER_HOUR;
    assert cleared == h * MS_PER_HOUR;
    assert h * MS_PER_HOUR / MS_PER_DAY == h / 24;
    assert from / MS_PER_DAY == h / 24;
  }

  lemma SlotOfDay(from: int, hour: nat)
    requires hour < 24
    ensures DayOf(Slot(from, hour)) == DayOf(from) && TimeWithinDay(Slot(from, hour)) == hour * MS_PER_HOUR
  {
  }

  lemma WholeDaysLater(from: int, hour: nat, days: int)
    requires hour < 24 && days >= 1
    ensures Slot(from, hour) + days * MS_PER_DAY > from
    ensures TimeWithinDay(Slot(from, hour) + days * MS_PER_DAY) == hour * MS_PER_HOUR
  {
    var t := TimeWithinDay(from);
    assert Slot(from, hour) + days * MS_PER_DAY == (DayOf(from) + days) * MS_PER_DAY + hour * MS_PER_HOUR;
  }

  /** A fresh daily rule runs at the very next time the clock shows its hour. */
  lemma DailyIsTheNextSlot(from: int, hour: nat, t: int)
    requires hour < 24
    requires t > from && TimeWithinDay(t) == hour * MS_PER_HOUR
    ensures NextRun(from, DAILY, hour, false) <= t
  {
    if DayOf(t) < DayOf(from) {
      assert false;
    }
  }

  /** Where one monthly step lands: on the same date when the next month is long enough, and otherwise in the month
      after it, by the days that are missing. */
  function MonthLater(c: Civil): (next: Civil)
    requires ValidCivil(c)
    ensures ValidCivil(next)
  {
    var next := NextMonth(c);
    if ValidCivil(next) then next
    else NextMonth(next).(day := c.day - DaysInMonth(next.year, next.month))
  }

  lemma MonthLaterDay(c: Civil)
    requires ValidCivil(c)
    ensures ToDay(MonthLater(c)) == ToDay(c) + DaysInMonth(c.year, c.month)
  {
    NextMonthStart(c);
    var next := NextMonth(c);
    if !ValidCivil(next) {
      NextMonthStart(next);
    }
  }

  /** January 31 spills into March; the spill is never more than three days. */
  lemma MonthlyStepDate(c: Civil)
    requires ValidCivil(c)
    ensures FromDay(ToDay(c) + DaysInMonth(c.year, c.month)) == MonthLater(c)
    ensures MonthLater(c).day == c.day || MonthLater(c).day <= 3
  {
    MonthLaterDay(c);
    FromToDay(MonthLater(c));
  }
}
