/**
 * The event bar drawn in a calendar cell (components/calendar/DDayIndicator.tsx):
 * its border style follows the event's position in a multi-day run, the title
 * is written at the start of an event, on a single day and at the start of
 * each week row, and a written title stretches over as many cells as remain
 * both in the event and in the week row.
 *
 * Grid cells are numbered by `dayIndex` from the Sunday on or before the
 * first of the viewed month, seven to a row.
 */
module DDayIndicator {
  import opened Optional
  import opened Dates
  import opened DDays
  import CyclePrediction

  /** `dayIndex % 7` in JavaScript: the remainder has the sign of the dividend. */
  function WeekColumn(dayIndex: int): (r: int)
    ensures dayIndex >= 0 ==> r == dayIndex % 7
    ensures dayIndex < 0 ==> -7 < r <= 0
    ensures r == 0 <==> dayIndex % 7 == 0
  {
    CyclePrediction.JsRem(dayIndex, 7)
  }

  const StartStyle := "ml-1 rounded-l-full rounded-r-none border-r-0"
  const MiddleStyle := "rounded-none border-l-0 border-r-0"
  const EndStyle := "mr-1 rounded-l-none rounded-r-full border-l-0"
  const SingleStyle := "rounded-full mx-1"

  /** The `position` prop after its default: a missing position is a single day. */
  function PositionOrSingle(position: Option<EventPosition>): EventPosition
  {
    if position.Some? then position.value else Single
  }

  /** `getBorderStyles`: the bar is open on the side where the event continues. */
  function BorderStyles(position: Option<EventPosition>): (s: string)
    ensures PositionOrSingle(position) == Start <==> s == StartStyle
    ensures PositionOrSingle(position) == Middle <==> s == MiddleStyle
    ensures PositionOrSingle(position) == End <==> s == EndStyle
    ensures PositionOrSingle(position) == Single <==> s == SingleStyle
  {
    assert StartStyle[1] != EndStyle[1];
    assert |StartStyle| != |MiddleStyle| && |StartStyle| != |SingleStyle|;
    assert |MiddleStyle| != |EndStyle| && |MiddleStyle| != |SingleStyle| && |EndStyle| != |SingleStyle|;
    match PositionOrSingle(position)
    case Start => StartStyle
    case Middle => MiddleStyle
    case End => EndStyle
    case Single => SingleStyle
  }

  /** Different positions are drawn with different borders. */
  lemma BorderStylesInjective(p: Option<EventPosition>, q: Option<EventPosition>)
    requires BorderStyles(p) == BorderStyles(q)
    ensures PositionOrSingle(p) == PositionOrSingle(q)
  {
  }

  /** `isStartOfWeek`: a known cell index in the first column. */
  predicate IsStartOfWeek(dayIndex: Option<int>)
  {
    dayIndex.Some? && WeekColumn(dayIndex.value) == 0
  }

  /** `showTitle`: at the start of an event, on a single day, or in the first column. */
  function ShowTitle(position: Option<EventPosition>, dayIndex: Option<int>): (b: bool)
    ensures b <==> PositionOrSingle(position) in {Start, Single} || (dayIndex.Some? && dayIndex.value % 7 == 0)
  {
    var p := PositionOrSingle(position);
    p == Start || p == Single || IsStartOfWeek(dayIndex)
  }

  /** `startOfMonth`: `new Date(year, month, 1)` of the date being viewed. */
  function StartOfMonth(currentDate: int): int
  {
    var c := CivilFromDays(currentDate);
    JsMakeDay(c.year, c.month - 1, 1)
  }

  /**
   * `currentCellDate`: `firstDayOfGrid` is the first of the month moved back
   * by its weekday, and the cell lies `dayIndex` days after it.
   */
  function CellDate(currentDate: int, dayIndex: int): (cell: int)
    ensures cell == StartOfMonth(currentDate) - Weekday(StartOfMonth(currentDate)) + dayIndex
  {
    var startOfMonth := StartOfMonth(currentDate);
    var firstDayOfGrid := SetDate(startOfMonth, CivilFromDays(startOfMonth).day - Weekday(startOfMonth));
    SetDate(firstDayOfGrid, CivilFromDays(firstDayOfGrid).day + dayIndex)
  }

  /** The grid starts on the Sunday on or before the first of the viewed month (years outside 0..99). */
  lemma GridStartsOnSunday(currentDate: int, dayIndex: nat)
    requires var y := CivilFromDays(currentDate).year; !(0 <= y <= 99)
    ensures var c := CivilFromDays(currentDate);
      var first := StartOfMonth(currentDate);
      && CivilFromDays(first) == Civil(c.year, c.month, 1)
      && first - 6 <= CellDate(currentDate, 0) <= first
      && Weekday(CellDate(currentDate, dayIndex)) == dayIndex % 7
  {
    FirstOfViewedMonth(currentDate, CivilFromDays(currentDate));
    var first := StartOfMonth(currentDate);
    WeekdayAfterSunday(first, dayIndex);
  }

  lemma FirstOfViewedMonth(currentDate: int, c: Civil)
    requires c == CivilFromDays(currentDate) && !(0 <= c.year <= 99)
    ensures CivilFromDays(StartOfMonth(currentDate)) == Civil(c.year, c.month, 1)
  {
    CivilFromDaysValid(currentDate);
    JsMakeDayFirstOfMonth(c.year, c.month - 1);
    assert (c.month - 1) / 12 == 0 && (c.month - 1) % 12 + 1 == c.month;
  }

  /** Moving back by its weekday reaches a Sunday; `i` days later is weekday `i % 7`. */
  lemma WeekdayAfterSunday(first: int, i: nat)
    ensures Weekday(first - Weekday(first) + i) == i % 7
  {
    var w := (first + 4) % 7;
    assert first + 4 == 7 * ((first + 4) / 7) + w;
    assert first - w + i + 4 == 7 * ((first + 4) / 7) + i;
  }

  /**
   * `getEventWeekSpan`: one cell unless the title is written on a known cell
   * of a known month for a dated event; then the cells left in the week row
   * or in the event, whichever is fewer, and at least one.
   */
  function EventWeekSpan(ev: DDay, position: Option<EventPosition>, dayIndex: Option<int>,
                         currentDate: Option<int>): (span: int)
    ensures span >= 1
    ensures !ShowTitle(position, dayIndex) || dayIndex.None? || currentDate.None? || ev.date.None? ==> span == 1
    ensures dayIndex.Some? && dayIndex.value >= 0 ==> span <= 7 - dayIndex.value % 7
  {
    if !ShowTitle(position, dayIndex) || dayIndex.None? || currentDate.None? || ev.date.None? then 1
    else
      var currentCellDate := CellDate(currentDate.value, dayIndex.value);
      var eventEndDate := LastDay(ev);
      var daysLeftInWeek := 7 - WeekColumn(dayIndex.value);
      var timeDiff := eventEndDate * CyclePrediction.DayMs - currentCellDate * CyclePrediction.DayMs;
      var daysLeftInEvent := timeDiff / CyclePrediction.DayMs + 1;
      Max(1, Min(daysLeftInWeek, daysLeftInEvent))
  }

  function Min(a: int, b: int): int { if a <= b then a else b }

  function Max(a: int, b: int): int { if a >= b then a else b }

  /** Cell `dayIndex + k` is still a day of the event and in the week row of cell `dayIndex`. */
  predicate Spanned(ev: DDay, cell: int, dayIndex: int, k: int)
    requires ev.date.Some?
  {
    cell + k <= LastDay(ev) && (dayIndex + k) / 7 == dayIndex / 7
  }

  /** The span on a cell of a dated event where the title is written, with the cell left abstract. */
  lemma SpanOnCell(ev: DDay, position: Option<EventPosition>, dayIndex: int, currentDate: int, cell: int)
    requires ev.date.Some? && ShowTitle(position, Some(dayIndex)) && cell == CellDate(currentDate, dayIndex)
    ensures EventWeekSpan(ev, position, Some(dayIndex), Some(currentDate)) ==
      Max(1, Min(7 - WeekColumn(dayIndex), LastDay(ev) - cell + 1))
  {
    CyclePrediction.WholeDays(LastDay(ev), cell);
  }

  /**
   * When the title is written on a cell of the event (a non-negative index),
   * the bar covers cells that all lie in the event and in the cell's week
   * row, and stops only at the event's last day or at the row's end.
   */
  lemma WeekSpanCoversEvent(ev: DDay, position: Option<EventPosition>, dayIndex: nat, currentDate: int)
    requires ev.date.Some? && ShowTitle(position, Some(dayIndex))
    requires CellDate(currentDate, dayIndex) <= LastDay(ev)
    ensures var span := EventWeekSpan(ev, position, Some(dayIndex), Some(currentDate));
      var cell := CellDate(currentDate, dayIndex);
      && (forall k :: 0 <= k < span ==> Spanned(ev, cell, dayIndex, k))
      && (cell + span - 1 == LastDay(ev) || (dayIndex + span) % 7 == 0)
  {
    var cell := CellDate(currentDate, dayIndex);
    SpanOnCell(ev, position, dayIndex, currentDate, cell);
    SpanWithin(ev, cell, dayIndex, EventWeekSpan(ev, position, Some(dayIndex), Some(currentDate)));
  }

  lemma SpanWithin(ev: DDay, cell: int, dayIndex: nat, span: int)
    requires ev.date.Some? && cell <= LastDay(ev)
    requires span == Max(1, Min(7 - WeekColumn(dayIndex), LastDay(ev) - cell + 1))
    ensures forall k :: 0 <= k < span ==> Spanned(ev, cell, dayIndex, k)
    ensures cell + span - 1 == LastDay(ev) || (dayIndex + span) % 7 == 0
  {
    forall k | 0 <= k < span ensures Spanned(ev, cell, dayIndex, k) {
      RowOfColumn(dayIndex, k);
    }
  }

  lemma RowOfColumn(i: nat, k: nat)
    requires k < 7 - i % 7
    ensures (i + k) / 7 == i / 7
  {
    assert i == 7 * (i / 7) + i % 7;
    assert i + k == 7 * (i / 7) + (i % 7 + k);
  }

  /** A cell past the event's last day gets the one-cell bar. */
  lemma WeekSpanPastEvent(ev: DDay, position: Option<EventPosition>, dayIndex: int, currentDate: int)
    requires ev.date.Some? && CellDate(currentDate, dayIndex) > LastDay(ev)
    ensures EventWeekSpan(ev, position, Some(dayIndex), Some(currentDate)) == 1
  {
    if ShowTitle(position, Some(dayIndex)) {
      SpanOnCell(ev, position, dayIndex, currentDate, CellDate(currentDate, dayIndex));
    }
  }
}
