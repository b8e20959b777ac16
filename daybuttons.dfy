/**
 * The tracker's strip of day buttons (components/tracker/DayButtonRow.tsx):
 * 77 consecutive days centred on today, shown a page at a time; the page
 * size follows the window width; a tap toggles a period day unless the day
 * lies in the future.
 */
module DayButtonRow {
  import opened Optional
  import Text
  import opened CyclePrediction
  import opened PeriodHandlers
  import opened PeriodHook

  /** Index of today in the strip, and the number of days on each side of it. */
  const TodayIndex := 38
  const DayCount := 77

  /** `getDaysPerPage`: 7 below a width of 768, 11 otherwise; 11 without a window (server rendering). */
  function DaysPerPage(windowWidth: Option<int>): (d: int)
    ensures d == 7 || d == 11
    ensures d == 7 <==> windowWidth.Some? && windowWidth.value < 768
  {
    if windowWidth.Some? then (if windowWidth.value < 768 then 7 else 11) else 11
  }

  /** `allDates`: today and 38 days on each side, built by one push per offset. */
  method AllDates(today: int) returns (dates: seq<int>)
    ensures |dates| == DayCount
    ensures forall k :: 0 <= k < |dates| ==> dates[k] == today - TodayIndex + k
    ensures dates[TodayIndex] == today
  {
    dates := [];
    var i := -TodayIndex;
    while i <= 38
      invariant -TodayIndex <= i <= 39
      invariant |dates| == i + TodayIndex
      invariant forall k :: 0 <= k < |dates| ==> dates[k] == today - TodayIndex + k
    {
      dates := dates + [today + i];
      i := i + 1;
    }
  }

  /** The page that holds today, `Math.floor(38 / daysPerPage)`. */
  function InitialPage(daysPerPage: int): int
    requires daysPerPage >= 1
  {
    TodayIndex / daysPerPage
  }

  /** The last page `paginate` allows, `Math.floor(77 / daysPerPage) - 1`. */
  function MaxPage(daysPerPage: int): int
    requires daysPerPage >= 1
  {
    DayCount / daysPerPage - 1
  }

  /** `Array.prototype.slice(start, end)` for non-negative bounds: both are clamped to the length. */
  function Slice<T>(s: seq<T>, start: nat, end: nat): (r: seq<T>)
    ensures |r| <= end - start || |r| == 0
    ensures start <= end <= |s| ==> |r| == end - start
    ensures forall k :: 0 <= k < |r| ==> start + k < |s| && r[k] == s[start + k]
  {
    var e := if end <= |s| then end else |s|;
    if start >= e then [] else s[start..e]
  }

  /** `getCurrentPageDates`: the slice of `daysPerPage` dates starting at `page * daysPerPage`. */
  function PageDates(allDates: seq<int>, page: nat, daysPerPage: nat): (r: seq<int>)
    ensures |r| <= daysPerPage
    ensures forall k :: 0 <= k < |r| ==> page * daysPerPage + k < |allDates| && r[k] == allDates[page * daysPerPage + k]
  {
    Slice(allDates, page * daysPerPage, page * daysPerPage + daysPerPage)
  }

  /** Today's index lies on the initial page, and that page is one `paginate` can reach. */
  lemma InitialPageHoldsToday(daysPerPage: int)
    requires daysPerPage == 7 || daysPerPage == 11
    ensures var p := InitialPage(daysPerPage);
      0 <= p <= MaxPage(daysPerPage) && p * daysPerPage <= TodayIndex < p * daysPerPage + daysPerPage
  {
  }

  /** For both page sizes every reachable page is full: the 77 days split into whole pages. */
  lemma PagesAreFull(allDates: seq<int>, page: nat, daysPerPage: int)
    requires |allDates| == DayCount && (daysPerPage == 7 || daysPerPage == 11)
    requires page <= MaxPage(daysPerPage)
    ensures |PageDates(allDates, page, daysPerPage)| == daysPerPage
  {
    assert (MaxPage(daysPerPage) + 1) * daysPerPage == DayCount;
    assert page * daysPerPage + daysPerPage <= DayCount by {
      assert page * daysPerPage <= MaxPage(daysPerPage) * daysPerPage;
    }
  }

  /** `isFutureDate`: the day comes after today (both compared at midnight). */
  predicate IsFutureDate(date: int, nowMs: int)
  {
    date > Today(nowMs)
  }

  /** The pager's state: the current page and the page size. */
  class DayPager {
    var currentPage: int
    var daysPerPage: int
    var direction: int

    /** A page size the component can choose and a page `paginate` can reach. */
    predicate Valid()
      reads this
    {
      (daysPerPage == 7 || daysPerPage == 11) && 0 <= currentPage <= MaxPage(daysPerPage)
    }

    /** The first render: 11 days per page, page 0, until the effects run. */
    constructor ()
      ensures currentPage == 0 && daysPerPage == 11 && direction == 0
      ensures Valid()
    {
      currentPage := 0;
      daysPerPage := 11;
      direction := 0;
    }

    /**
     * The effects after the first render: hydration sets the page size from
     * the width, and the effect on `[allDates, daysPerPage]`, which runs on
     * mount and again when the page size changed, moves to today's page.
     */
    method Mount(windowWidth: Option<int>)
      modifies this
      ensures daysPerPage == DaysPerPage(windowWidth)
      ensures currentPage == InitialPage(daysPerPage)
      ensures direction == old(direction)
      ensures Valid()
    {
      daysPerPage := DaysPerPage(windowWidth);
      currentPage := InitialPage(daysPerPage);
      InitialPageHoldsToday(daysPerPage);
    }

    /**
     * `handleResize`: set the page size from the new width. Setting the
     * same size is no state change, so the page effect reruns, moving to
     * today's page, only when the size actually changed.
     */
    method Resize(windowWidth: Option<int>)
      modifies this
      ensures daysPerPage == DaysPerPage(windowWidth)
      ensures old(daysPerPage) == daysPerPage ==> currentPage == old(currentPage)
      ensures old(daysPerPage) != daysPerPage ==> currentPage == InitialPage(daysPerPage)
      ensures direction == old(direction)
      ensures old(Valid()) ==> Valid()
    {
      var d := DaysPerPage(windowWidth);
      if d != daysPerPage {
        daysPerPage := d;
        currentPage := InitialPage(d);
        InitialPageHoldsToday(d);
      }
    }

    /** `paginate`: move by `newDirection` pages when the target page exists; otherwise nothing changes. */
    method Paginate(newDirection: int)
      requires daysPerPage >= 1
      modifies this
      ensures daysPerPage == old(daysPerPage)
      ensures var target := old(currentPage) + newDirection;
        if 0 <= target <= MaxPage(daysPerPage) then currentPage == target && direction == newDirection
        else currentPage == old(currentPage) && direction == old(direction)
      ensures old(Valid()) ==> Valid()
    {
      var maxPage := DayCount / daysPerPage - 1;
      var newPageIndex := currentPage + newDirection;
      if newPageIndex >= 0 && newPageIndex <= maxPage {
        direction := newDirection;
        currentPage := newPageIndex;
      }
    }
  }

  /** `handlePeriodToggle` with the tracker's handler: a future day is ignored, any other day's key is toggled. */
  method HandlePeriodToggle(store: PeriodStore, date: int, nowMs: int)
    modifies store
    ensures IsFutureDate(date, nowMs) ==>
      store.days == old(store.days) && store.nextId == old(store.nextId) && store.settings == old(store.settings)
    ensures !IsFutureDate(date, nowMs) ==>
      store.days == ToggleDays(old(store.days), FormatDateKey(date), Text.NatToString(old(store.nextId)), nowMs)
    ensures old(store.Valid()) ==> store.Valid()
  {
    if IsFutureDate(date, nowMs) {
      return;
    }
    TogglePeriodDay(store, FormatDateKey(date), nowMs);
  }
}
