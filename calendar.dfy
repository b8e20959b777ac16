/**
 * The calendar page's month view (lib/hooks/useCalendar.tsx): the viewed
 * month and the selected day, the grid of a month (blank cells up to the
 * weekday of the 1st, then the days 1..n), month navigation and the
 * highlighting tests.
 *
 * Both dates are local calendar days; the time of day a JavaScript `Date`
 * also carries is not modelled. `new Date()` is the parameter `nowMs`.
 */
module Calendar {
  import opened Optional
  import opened Dates
  import CyclePrediction
  import DDayIndicator

  /** `getDaysInMonth(year, month)`: the day of month of `new Date(year, month + 1, 0)`. */
  function GetDaysInMonth(year: int, month: int): (n: int)
    ensures 1 <= n <= 31
  {
    CivilFromDaysValid(JsMakeDay(year, month + 1, 0));
    CivilFromDays(JsMakeDay(year, month + 1, 0)).day
  }

  /** For a 0-based month of a year outside 0..99 that is the Gregorian length of the month. */
  lemma DaysInMonthGregorian(year: int, month: int)
    requires 0 <= month <= 11 && !(0 <= year <= 99)
    ensures GetDaysInMonth(year, month) == DaysInMonth(year, month + 1)
    ensures month == 1 ==> (GetDaysInMonth(year, month) == 29 <==> IsLeapYear(year))
  {
    JsLastDayOfMonth(year, month);
  }

  /** `getFirstDayOfMonth(year, month)`: the weekday (0 = Sunday) of `new Date(year, month, 1)`. */
  function GetFirstDayOfMonth(year: int, month: int): (w: int)
    ensures 0 <= w < 7
    ensures w == Weekday(JsMakeDay(year, month, 1))
  {
    Weekday(JsMakeDay(year, month, 1))
  }

  function Year(z: int): int { CivilFromDays(z).year }

  /** `getMonth()`: the 0-based month. */
  function Month0(z: int): int { CivilFromDays(z).month - 1 }

  /** `getDate()`: the day of month. */
  function DayOfMonth(z: int): int { CivilFromDays(z).day }

  /** The months since year 0: one step of navigation moves it by one. */
  function MonthNumber(z: int): int { 12 * Year(z) + Month0(z) }

  /** `isToday(day)`: a truthy day number that is today's day of month, in today's month and year. */
  predicate IsToday(currentDate: int, day: Option<int>, nowMs: int)
  {
    var today := CyclePrediction.Today(nowMs);
    day.Some? && day.value != 0 &&
    day.value == DayOfMonth(today) && Month0(currentDate) == Month0(today) && Year(currentDate) == Year(today)
  }

  /** `isSelected(day)`: a truthy day number that is the selected day, in the selected month and year. */
  predicate IsSelected(currentDate: int, selectedDate: int, day: Option<int>)
  {
    day.Some? && day.value != 0 &&
    day.value == DayOfMonth(selectedDate) && Month0(currentDate) == Month0(selectedDate) &&
    Year(currentDate) == Year(selectedDate)
  }

  /**
   * A cell showing day `d` of the viewed month is today exactly when that
   * date is today; cells without a number never are.
   */
  lemma IsTodayMeans(currentDate: int, day: Option<int>, nowMs: int)
    requires var c := CivilFromDays(currentDate); !(0 <= c.year <= 99)
    requires day.Some? ==> 1 <= day.value <= DaysInMonth(Year(currentDate), Month0(currentDate) + 1)
    ensures IsToday(currentDate, day, nowMs) <==>
      day.Some? && JsMakeDay(Year(currentDate), Month0(currentDate), day.value) == CyclePrediction.Today(nowMs)
  {
    if day.Some? {
      SameDayOfViewedMonth(currentDate, day.value, CyclePrediction.Today(nowMs));
    }
  }

  /** A cell showing day `d` of the viewed month is selected exactly when that date is the selected one. */
  lemma IsSelectedMeans(currentDate: int, selectedDate: int, day: Option<int>)
    requires var c := CivilFromDays(currentDate); !(0 <= c.year <= 99)
    requires day.Some? ==> 1 <= day.value <= DaysInMonth(Year(currentDate), Month0(currentDate) + 1)
    ensures IsSelected(currentDate, selectedDate, day) <==>
      day.Some? && JsMakeDay(Year(currentDate), Month0(currentDate), day.value) == selectedDate
  {
    if day.Some? {
      SameDayOfViewedMonth(currentDate, day.value, selectedDate);
    }
  }

  /** Day `d` of the viewed month is the date `t` iff `t` has that day, month and year. */
  lemma SameDayOfViewedMonth(currentDate: int, d: int, t: int)
    requires var c := CivilFromDays(currentDate); !(0 <= c.year <= 99)
    requires 1 <= d <= DaysInMonth(Year(currentDate), Month0(currentDate) + 1)
    ensures (d == DayOfMonth(t) && Month0(currentDate) == Month0(t) && Year(currentDate) == Year(t)) <==>
      JsMakeDay(Year(currentDate), Month0(currentDate), d) == t
  {
    CivilFromDaysValid(currentDate);
    var v := Civil(Year(currentDate), Month0(currentDate) + 1, d);
    JsMakeDayOfValid(v);
    var z := JsMakeDay(Year(currentDate), Month0(currentDate), d);
    if CivilFromDays(t) == v {
      CivilFromDaysInjective(t, z);
    }
  }

  /** Cell `i` of the month data shows day `d` exactly when `i` is the weekday of the 1st plus `d - 1`. */
  predicate MonthData(days: seq<Option<int>>, first: int, n: int)
  {
    && |days| == first + n
    && (forall k :: 0 <= k < first && k < |days| ==> days[k].None?)
    && (forall k :: 0 <= first <= k < |days| ==> days[k] == Some(k - first + 1))
  }

  /**
   * The day a numbered cell of the month data shows is the cell's date in
   * the grid the event bars are laid out on.
   */
  lemma MonthDataMatchesGrid(currentDate: int, d: int)
    ensures var first := GetFirstDayOfMonth(Year(currentDate), Month0(currentDate));
      DDayIndicator.CellDate(currentDate, first + d - 1) == JsMakeDay(Year(currentDate), Month0(currentDate), d)
  {
  }

  class CalendarView {
    /** The viewed month is the month of `currentDate`. */
    var currentDate: int
    var selectedDate: int

    /** Both dates start as today. */
    constructor (nowMs: int)
      ensures currentDate == CyclePrediction.Today(nowMs) && selectedDate == CyclePrediction.Today(nowMs)
    {
      currentDate := CyclePrediction.Today(nowMs);
      selectedDate := CyclePrediction.Today(nowMs);
    }

    /** `generateMonthData`: a blank cell for each weekday before the 1st, then the days of the month. */
    method GenerateMonthData() returns (days: seq<Option<int>>)
      ensures MonthData(days, GetFirstDayOfMonth(Year(currentDate), Month0(currentDate)),
                        GetDaysInMonth(Year(currentDate), Month0(currentDate)))
    {
      var year := Year(currentDate);
      var month := Month0(currentDate);
      var daysInMonth := GetDaysInMonth(year, month);
      var firstDayOfMonth := GetFirstDayOfMonth(year, month);
      days := [];
      var i := 0;
      while i < firstDayOfMonth
        invariant 0 <= i <= firstDayOfMonth && |days| == i
        invariant forall k :: 0 <= k < |days| ==> days[k].None?
      {
        days := days + [None];
        i := i + 1;
      }
      i := 1;
      while i <= daysInMonth
        invariant 1 <= i <= daysInMonth + 1 && |days| == firstDayOfMonth + i - 1
        invariant forall k :: 0 <= k < firstDayOfMonth ==> days[k].None?
        invariant forall k :: firstDayOfMonth <= k < |days| ==> days[k] == Some(k - firstDayOfMonth + 1)
      {
        days := days + [Some(i)];
        i := i + 1;
      }
    }

    /** `goToNextMonth`: day 1, then month + 1. */
    method GoToNextMonth()
      modifies this
      ensures currentDate == NextMonth(old(currentDate)) && selectedDate == old(selectedDate)
    {
      var newDate := SetDate(currentDate, 1);
      newDate := SetMonth(newDate, Month0(newDate) + 1);
      currentDate := newDate;
    }

    /** `goToPrevMonth`: day 1, then month - 1. */
    method GoToPrevMonth()
      modifies this
      ensures currentDate == PrevMonth(old(currentDate)) && selectedDate == old(selectedDate)
    {
      var newDate := SetDate(currentDate, 1);
      newDate := SetMonth(newDate, Month0(newDate) - 1);
      currentDate := newDate;
    }

    /** `goToToday`: view and select today. */
    method GoToToday(nowMs: int)
      modifies this
      ensures currentDate == CyclePrediction.Today(nowMs) && selectedDate == CyclePrediction.Today(nowMs)
    {
      var today := CyclePrediction.Today(nowMs);
      currentDate := today;
      selectedDate := today;
    }

    /** `selectDate(day)`: day `day` of the viewed month (rolling over); the view stays. */
    method SelectDate(day: int)
      modifies this
      ensures selectedDate == SetDate(old(currentDate), day) && currentDate == old(currentDate)
      ensures day == DayOfMonth(old(currentDate)) ==> selectedDate == currentDate
    {
      var newDate := SetDate(currentDate, day);
      selectedDate := newDate;
    }
  }

  /** The date `goToNextMonth` moves to. */
  function NextMonth(z: int): int
  {
    var first := SetDate(z, 1);
    SetMonth(first, Month0(first) + 1)
  }

  /** The date `goToPrevMonth` moves to. */
  function PrevMonth(z: int): int
  {
    var first := SetDate(z, 1);
    SetMonth(first, Month0(first) - 1)
  }

  /** The first of a date's month has that month and year. */
  lemma FirstOfMonthOf(z: int)
    ensures 1 <= Month0(z) + 1 <= 12
    ensures CivilFromDays(SetDate(z, 1)) == Civil(Year(z), Month0(z) + 1, 1)
  {
    var c := CivilFromDays(z);
    CivilFromDaysValid(z);
    CivilOfDays(SetDate(z, 1), Civil(c.year, c.month, 1));
  }

  /** `setMonth` on the first of month `m` of year `y`. */
  lemma ShiftFirst(f: int, y: int, m: int, m0: int)
    requires CivilFromDays(f) == Civil(y, m, 1)
    ensures SetMonth(f, m0) == GoDate(y, m0 + 1, 1)
  {
  }

  /** `time.Date(y, m, 1)` for a month one past or one before 1..12. */
  lemma GoDateFirstRolls(y: int, m: int)
    requires 0 <= m <= 13
    ensures m == 0 ==> GoDate(y, m, 1) == DaysFromCivil(y - 1, 12, 1)
    ensures 1 <= m <= 12 ==> GoDate(y, m, 1) == DaysFromCivil(y, m, 1)
    ensures m == 13 ==> GoDate(y, m, 1) == DaysFromCivil(y + 1, 1, 1)
  {
    if m == 0 {
      assert (m - 1) / 12 == -1 && (m - 1) % 12 + 1 == 12;
    } else if m == 13 {
      assert (m - 1) / 12 == 1 && (m - 1) % 12 + 1 == 1;
    } else {
      assert (m - 1) / 12 == 0 && (m - 1) % 12 + 1 == m;
    }
  }

  /** The civil date `goToNextMonth` moves to, from the first of month `m` of year `y`. */
  lemma NextMonthCivil(z: int, y: int, m: int)
    requires 1 <= m <= 12 && CivilFromDays(SetDate(z, 1)) == Civil(y, m, 1)
    ensures CivilFromDays(NextMonth(z)) == if m == 12 then Civil(y + 1, 1, 1) else Civil(y, m + 1, 1)
  {
    ShiftFirst(SetDate(z, 1), y, m, m);
    assert NextMonth(z) == GoDate(y, m + 1, 1);
    CivilOfFirst(NextMonth(z), y, m + 1);
  }

  /** The civil date `goToPrevMonth` moves to, from the first of month `m` of year `y`. */
  lemma PrevMonthCivil(z: int, y: int, m: int)
    requires 1 <= m <= 12 && CivilFromDays(SetDate(z, 1)) == Civil(y, m, 1)
    ensures CivilFromDays(PrevMonth(z)) == if m == 1 then Civil(y - 1, 12, 1) else Civil(y, m - 1, 1)
  {
    ShiftFirst(SetDate(z, 1), y, m, m - 2);
    assert PrevMonth(z) == GoDate(y, m - 1, 1);
    CivilOfFirst(PrevMonth(z), y, m - 1);
  }

  lemma CivilOfFirst(p: int, y: int, m: int)
    requires 0 <= m <= 13 && p == GoDate(y, m, 1)
    ensures CivilFromDays(p) == if m == 0 then Civil(y - 1, 12, 1) else if m == 13 then Civil(y + 1, 1, 1) else Civil(y, m, 1)
  {
    GoDateFirstRolls(y, m);
    if m == 0 {
      CivilOfDays(p, Civil(y - 1, 12, 1));
    } else if m == 13 {
      CivilOfDays(p, Civil(y + 1, 1, 1));
    } else {
      CivilOfDays(p, Civil(y, m, 1));
    }
  }

  /** Next month is the 1st of the following month: the month number grows by one, the year rolls over. */
  lemma NextMonthSteps(z: int)
    ensures DayOfMonth(NextMonth(z)) == 1
    ensures MonthNumber(NextMonth(z)) == MonthNumber(z) + 1
    ensures Month0(z) == 11 ==> Year(NextMonth(z)) == Year(z) + 1 && Month0(NextMonth(z)) == 0
  {
    FirstOfMonthOf(z);
    NextMonthCivil(z, Year(z), Month0(z) + 1);
  }

  /** Previous month is the 1st of the preceding month: the month number drops by one, the year rolls back. */
  lemma PrevMonthSteps(z: int)
    ensures DayOfMonth(PrevMonth(z)) == 1
    ensures MonthNumber(PrevMonth(z)) == MonthNumber(z) - 1
    ensures Month0(z) == 0 ==> Year(PrevMonth(z)) == Year(z) - 1 && Month0(PrevMonth(z)) == 11
  {
    FirstOfMonthOf(z);
    PrevMonthCivil(z, Year(z), Month0(z) + 1);
  }

  /** Selecting a day of the viewed month makes exactly that day's cell selected. */
  lemma SelectedAfterSelect(currentDate: int, day: int, other: int)
    requires 1 <= day <= DaysInMonth(Year(currentDate), Month0(currentDate) + 1)
    ensures IsSelected(currentDate, SetDate(currentDate, day), Some(day))
    ensures other != day ==> !IsSelected(currentDate, SetDate(currentDate, day), Some(other))
  {
    var c := CivilFromDays(currentDate);
    CivilFromDaysValid(currentDate);
    CivilOfDays(SetDate(currentDate, day), Civil(c.year, c.month, day));
  }
}
