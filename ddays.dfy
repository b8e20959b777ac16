/**
 * The calendar's event hook (lib/hooks/useDDays.tsx).
 *
 * Events (D-days) come from the backend with their dates as YYYYMMDD
 * strings. The hook turns those into local dates, gives every dated event a
 * display row such that events sharing a day never share a row, lists the
 * events of a grid cell (annual events by month and day of month, the others
 * by their date range), lays a cell's events out by row, and tells where a
 * day lies within a multi-day event.
 *
 * A date is the day number of its local midnight (see `Dates`); the instant
 * of day `z` is `z * 86_400_000` ms, so `getTime()` is 0 exactly on day 0.
 */
module DDays {
  import opened Optional
  import opened Dates
  import opened Text

  /** A calendar event as the hook holds it; `date` and `endDate` are absent when not set. */
  datatype DDay = DDay(
    id: string,
    title: string,
    group: string,
    date: Option<int>,
    endDate: Option<int>,
    description: string,
    days: string,
    isAnnual: bool,
    createdBy: string,
    connectedUsers: seq<string>,
    imageUrl: string,
    editable: Option<bool>)

  // ---------------------------------------------------------------------
  // API date strings (parseDateString / formatDateForAPI)

  predicate EightDigits(s: string)
  {
    |s| == 8 && AllDigits(s)
  }

  /**
   * `parseDateString`: eight digits are read as year, month and day with
   * `parseInt` (`PiecesParse`) and passed to `new Date(year, month - 1, day)`. Any other
   * string goes to JavaScript's own date parser, which is not modelled:
   * the result is then `None`.
   */
  function ParseDateString(s: string): (r: Option<int>)
    ensures r.Some? <==> EightDigits(s)
  {
    if EightDigits(s) then
      var c := StringCivil(s);
      Some(JsMakeDay(c.year, c.month - 1, c.day))
    else
      None
  }

  /** `parseInt` reads each digit piece of an eight-digit string as the piece's value. */
  lemma PiecesParse(s: string)
    requires EightDigits(s)
    ensures JsParseInt(s[..4]) == Some(StringCivil(s).year)
    ensures JsParseInt(s[4..6]) == Some(StringCivil(s).month)
    ensures JsParseInt(s[6..]) == Some(StringCivil(s).day)
  {
    JsParseIntOfDigits(s[..4]);
    JsParseIntOfDigits(s[4..6]);
    JsParseIntOfDigits(s[6..]);
  }

  /** `formatDateForAPI`: "" without a date, otherwise the year, then month and day padded to two digits. */
  function FormatDateForAPI(date: Option<int>): (r: string)
    ensures date.None? <==> r == ""
  {
    match date
    case None => ""
    case Some(z) => CompactCivil(CivilFromDays(z))
  }

  function CompactCivil(c: Civil): (r: string)
    ensures |r| >= 3
  {
    IntToString(c.year) + PadStart2(IntToString(c.month)) + PadStart2(IntToString(c.day))
  }

  /** The date an eight-digit string names. */
  function StringCivil(s: string): Civil
    requires EightDigits(s)
  {
    Civil(DigitsValue(s[..4]), DigitsValue(s[4..6]), DigitsValue(s[6..]))
  }

  /** An API date: eight digits, a year without a leading zero, and an existing month and day. */
  predicate ValidApiDate(s: string)
  {
    EightDigits(s) && s[0] != '0' && ValidCivil(StringCivil(s))
  }

  /** Reading a valid API date and formatting it again gives the same string. */
  lemma FormatParseDateString(s: string)
    requires ValidApiDate(s)
    ensures ParseDateString(s).Some? && FormatDateForAPI(ParseDateString(s)) == s
  {
    var c := StringCivil(s);
    var ys, ms, ds := s[..4], s[4..6], s[6..];
    assert Canonical(ys);
    Power10Four(ys);
    NatToStringOfCanonical(ys);
    TwoDigitsOfDigits(ms);
    TwoDigitsOfDigits(ds);
    CompactPieces(c);
    assert s == ys + ms + ds;
    ParseThenFormat(s, c);
  }

  /** Formatting a date of a four-digit year and reading the string back gives the date. */
  lemma ParseFormatDateString(z: int)
    requires 1000 <= CivilFromDays(z).year <= 9999
    ensures ParseDateString(FormatDateForAPI(Some(z))) == Some(z)
  {
    var c := CivilFromDays(z);
    CivilFromDaysValid(z);
    CompactPieces(c);
    var ys, ms, ds := NatToString(c.year), TwoDigits(c.month), TwoDigits(c.day);
    NatToStringFour(c.year);
    var s := ys + ms + ds;
    assert s[..4] == ys && s[4..6] == ms && s[6..] == ds;
    assert EightDigits(s);
    CivilOfPieces(s, c);
    JsMakeDayOfValid(c);
  }

  /** An eight-digit string whose pieces read as `c` parses to the day `new Date` makes of `c`. */
  lemma CivilOfPieces(s: string, c: Civil)
    requires EightDigits(s) && StringCivil(s) == c
    ensures ParseDateString(s) == Some(JsMakeDay(c.year, c.month - 1, c.day))
  {
  }

  lemma ParseThenFormat(s: string, c: Civil)
    requires EightDigits(s) && StringCivil(s) == c && ValidCivil(c) && c.year >= 1000
    requires CompactCivil(c) == s
    ensures ParseDateString(s).Some? && FormatDateForAPI(ParseDateString(s)) == s
  {
    CivilOfPieces(s, c);
    JsMakeDayOfValid(c);
  }

  lemma CompactPieces(c: Civil)
    requires ValidCivil(c) && c.year >= 0
    ensures CompactCivil(c) == NatToString(c.year) + TwoDigits(c.month) + TwoDigits(c.day)
  {
  }

  // ---------------------------------------------------------------------
  // Sorting for the layout

  /** `a.endDate?.getTime() || aStart`: the end date, unless it is absent or falls on day 0. */
  function SortEnd(ev: DDay): int
    requires ev.date.Some?
  {
    if ev.endDate.Some? && ev.endDate.value != 0 then ev.endDate.value else ev.date.value
  }

  /**
   * The sign of the layout's comparator: 0 when either event has no date,
   * otherwise earlier start first and, for equal starts, later end first.
   * Millisecond differences are day differences times 86_400_000, so their
   * sign is that of the day difference.
   */
  function Compare(a: DDay, b: DDay): int
  {
    if a.date.None? || b.date.None? then 0
    else if a.date.value != b.date.value then a.date.value - b.date.value
    else SortEnd(b) - SortEnd(a)
  }

  /** `a` may come before `b` in the layout order: both dated, and `b` does not sort strictly first. */
  predicate LayoutOrder(a: DDay, b: DDay)
  {
    a.date.Some? && b.date.Some? &&
    (a.date.value < b.date.value || (a.date.value == b.date.value && SortEnd(a) >= SortEnd(b)))
  }

  predicate Dated(s: seq<DDay>)
  {
    forall i :: 0 <= i < |s| ==> s[i].date.Some?
  }

  predicate SortedForLayout(s: seq<DDay>)
  {
    forall i, j :: 0 <= i < j < |s| ==> LayoutOrder(s[i], s[j])
  }

  /** Insert `x` after every element it does not sort strictly before (a stable insertion). */
  function InsertEvent(x: DDay, s: seq<DDay>): (r: seq<DDay>)
    ensures multiset(r) == multiset(s) + multiset{x}
  {
    if |s| == 0 then [x]
    else if Compare(x, s[0]) < 0 then [x] + s
    else
      assert s == [s[0]] + s[1..];
      [s[0]] + InsertEvent(x, s[1..])
  }

  /** `[...events].sort(comparator)`, as a stable insertion sort. */
  function SortEvents(events: seq<DDay>): (r: seq<DDay>)
    ensures multiset(r) == multiset(events)
  {
    if |events| == 0 then []
    else
      assert events == events[..|events| - 1] + [events[|events| - 1]];
      InsertEvent(events[|events| - 1], SortEvents(events[..|events| - 1]))
  }

  lemma {:induction false} InsertSorted(x: DDay, s: seq<DDay>)
    requires x.date.Some? && Dated(s) && SortedForLayout(s)
    ensures SortedForLayout(InsertEvent(x, s))
  {
    if |s| > 0 && Compare(x, s[0]) >= 0 {
      InsertSorted(x, s[1..]);
      var r := InsertEvent(x, s);
      assert r == [s[0]] + InsertEvent(x, s[1..]);
      forall j | 0 < j < |r| ensures LayoutOrder(r[0], r[j]) {
        assert r[j] in multiset(InsertEvent(x, s[1..]));
        assert r[j] == x || r[j] in s[1..];
        if r[j] != x {
          var k :| 0 <= k < |s[1..]| && s[1..][k] == r[j];
          assert s[k + 1] == r[j];
        }
      }
    }
  }

  /** When every event is dated, the sort orders them by start and, for equal starts, longer first. */
  lemma {:induction false} SortEventsSorted(events: seq<DDay>)
    requires Dated(events)
    ensures SortedForLayout(SortEvents(events))
  {
    if |events| > 0 {
      var init := events[..|events| - 1];
      SortEventsSorted(init);
      var s := SortEvents(init);
      assert Dated(s) by {
        forall i | 0 <= i < |s| ensures s[i].date.Some? {
          assert s[i] in multiset(init);
        }
      }
      InsertSorted(events[|events| - 1], s);
    }
  }

  // ---------------------------------------------------------------------
  // Row layout (calculateEventLayout)

  /** The slot table: the rows taken on each day. An absent day has no row taken. */
  type Slots = map<int, set<nat>>

  datatype LayoutState = LayoutState(slots: Slots, rows: map<string, nat>)

  function At(slots: Slots, d: int): set<nat>
  {
    if d in slots then slots[d] else {}
  }

  /** `event.endDate || event.date` in the row search: the end date when present, else the start. */
  function LastDay(ev: DDay): int
    requires ev.date.Some?
  {
    if ev.endDate.Some? then ev.endDate.value else ev.date.value
  }

  /** The event spans day `d` in the row search. */
  predicate Covers(ev: DDay, d: int)
  {
    ev.date.Some? && ev.date.value <= d <= LastDay(ev)
  }

  /** Two dated events have a day in common. */
  predicate Overlap(a: DDay, b: DDay)
  {
    a.date.Some? && b.date.Some? &&
    a.date.value <= LastDay(b) && b.date.value <= LastDay(a) &&
    a.date.value <= LastDay(a) && b.date.value <= LastDay(b)
  }

  /** The rows taken on some day of the event. */
  function Taken(slots: Slots, ev: DDay): (t: set<nat>)
    ensures forall r :: r in t <==> exists d :: Covers(ev, d) && r in At(slots, d)
  {
    var t := set d, r | d in slots && r in slots[d] && Covers(ev, d) :: r;
    assert forall r :: (exists d :: Covers(ev, d) && r in At(slots, d)) ==> r in t by {
      forall r | exists d :: Covers(ev, d) && r in At(slots, d) ensures r in t {
        var d :| Covers(ev, d) && r in At(slots, d);
        assert d in slots && r in slots[d];
      }
    }
    t
  }

  /** A number above every element of `t`. */
  ghost function Above(t: set<nat>): (b: nat)
    ensures forall k :: k in t ==> k < b
  {
    if t == {} then 0
    else
      var x :| x in t;
      var b := Above(t - {x});
      assert forall k :: k in t ==> k == x || k in t - {x};
      if x < b then b else x + 1
  }

  /** The smallest row from `r` on that is not in `t`. */
  function MinFreeFrom(t: set<nat>, r: nat): (m: nat)
    ensures r <= m && m !in t
    ensures forall k :: r <= k < m ==> k in t
    decreases Above(t) - r
  {
    if r in t then MinFreeFrom(t, r + 1) else r
  }

  /** The smallest row not in `t`. */
  function MinFree(t: set<nat>): (m: nat)
    ensures m !in t && forall k :: 0 <= k < m ==> k in t
  {
    MinFreeFrom(t, 0)
  }

  /** The table with `row` taken from day `s` to day `e`. */
  function Mark(slots: Slots, s: int, e: int, row: nat): (m: Slots)
    ensures forall d :: d in m <==> d in slots || s <= d <= e
    ensures forall d :: At(m, d) == At(slots, d) + (if s <= d <= e then {row} else {})
    decreases e - s
  {
    if e < s then slots
    else
      var m := Mark(slots, s, e - 1, row);
      m[e := At(m, e) + {row}]
  }

  /** One step of the layout: a dated event takes the smallest row free on all of its days. */
  function Place(st: LayoutState, ev: DDay): LayoutState
  {
    if ev.date.None? then st
    else
      var row := MinFree(Taken(st.slots, ev));
      LayoutState(Mark(st.slots, ev.date.value, LastDay(ev), row), st.rows[ev.id := row])
  }

  /** The state after the first `i` events of `order`. */
  function LayoutUpTo(order: seq<DDay>, i: nat): LayoutState
    requires i <= |order|
  {
    if i == 0 then LayoutState(map[], map[]) else Place(LayoutUpTo(order, i - 1), order[i - 1])
  }

  /** The row the `i`-th event of `order` takes. */
  function RowOf(order: seq<DDay>, i: nat): nat
    requires i < |order| && order[i].date.Some?
  {
    MinFree(Taken(LayoutUpTo(order, i).slots, order[i]))
  }

  /** The map from event id to row that the layout computes. */
  function EventLayout(events: seq<DDay>): map<string, nat>
  {
    var order := SortEvents(events);
    assert |order| == |multiset(order)| == |events|;
    LayoutUpTo(order, |order|).rows
  }

  /** The rows search of `calculateEventLayout`: is `row` free on every day of the event? */
  method RowAvailable(daySlots: Slots, event: DDay, row: nat) returns (available: bool)
    requires event.date.Some?
    ensures available <==> row !in Taken(daySlots, event)
  {
    var eventEndDate := LastDay(event);
    var d := event.date.value;
    while d <= eventEndDate
      invariant event.date.value <= d
      invariant d <= eventEndDate + 1 || d == event.date.value
      invariant forall e :: event.date.value <= e < d ==> row !in At(daySlots, e)
      decreases eventEndDate - d
    {
      if d in daySlots && row in daySlots[d] {
        assert Covers(event, d) && row in At(daySlots, d);
        return false;
      }
      d := d + 1;
    }
    return true;
  }

  /** `while (true)`: try rows 0, 1, 2, ... until one is free on every day of the event. */
  method FindRow(daySlots: Slots, event: DDay) returns (row: nat)
    requires event.date.Some?
    ensures row == MinFree(Taken(daySlots, event))
  {
    ghost var t := Taken(daySlots, event);
    row := 0;
    while true
      invariant row <= MinFree(t)
      invariant forall k :: 0 <= k < row ==> k in t
      decreases MinFree(t) - row
    {
      var isRowAvailable := RowAvailable(daySlots, event, row);
      if isRowAvailable {
        return;
      }
      row := row + 1;
    }
  }

  /** Mark `row` as taken on every day of the event, creating a day's entry when it is missing. */
  method MarkRow(daySlots: Slots, event: DDay, row: nat) returns (slots: Slots)
    requires event.date.Some?
    ensures slots == Mark(daySlots, event.date.value, LastDay(event), row)
  {
    var eventEndDate := LastDay(event);
    var d := event.date.value;
    slots := daySlots;
    while d <= eventEndDate
      invariant event.date.value <= d
      invariant d <= eventEndDate + 1 || d == event.date.value
      invariant slots == Mark(daySlots, event.date.value, d - 1, row)
      decreases eventEndDate - d
    {
      ghost var before := slots;
      if d !in slots {
        slots := slots[d := {}];
      }
      slots := slots[d := slots[d] + {row}];
      assert slots == before[d := At(before, d) + {row}];
      d := d + 1;
    }
  }

  /** `calculateEventLayout`: sort the events, then give each dated one the smallest free row. */
  method CalculateEventLayout(events: seq<DDay>) returns (layout: map<string, nat>)
    ensures layout == EventLayout(events)
  {
    var sortedEvents := SortEvents(events);
    assert |sortedEvents| == |multiset(sortedEvents)| == |events|;
    layout := map[];
    var daySlots: Slots := map[];
    var i := 0;
    while i < |sortedEvents|
      invariant 0 <= i <= |sortedEvents|
      invariant LayoutState(daySlots, layout) == LayoutUpTo(sortedEvents, i)
    {
      var event := sortedEvents[i];
      if event.date.Some? {
        var row := FindRow(daySlots, event);
        layout := layout[event.id := row];
        daySlots := MarkRow(daySlots, event, row);
      }
      i := i + 1;
    }
  }

  // ---------------------------------------------------------------------
  // What the layout guarantees

  predicate DistinctIds(s: seq<DDay>)
  {
    forall i, j :: 0 <= i < j < |s| ==> s[i].id != s[j].id
  }

  /** Every dated event placed so far holds its row in the table on each of its days. */
  ghost predicate RowsHeld(order: seq<DDay>, i: nat, slots: Slots)
    requires i <= |order|
  {
    forall j, d :: 0 <= j < i && Covers(order[j], d) ==> RowOf(order, j) in At(slots, d)
  }

  /** Every taken slot belongs to a placed event spanning that day. */
  ghost predicate SlotsOwned(order: seq<DDay>, i: nat, slots: Slots)
    requires i <= |order|
  {
    forall d, r :: r in At(slots, d) ==> exists j :: 0 <= j < i && Covers(order[j], d) && RowOf(order, j) == r
  }

  /** Exactly the ids of the dated events placed so far have entries. */
  ghost predicate EntriesPlaced(order: seq<DDay>, i: nat, rows: map<string, nat>)
    requires i <= |order|
  {
    (forall j :: 0 <= j < i && order[j].date.Some? ==> order[j].id in rows) &&
    (forall id :: id in rows ==> exists j :: 0 <= j < i && order[j].date.Some? && order[j].id == id)
  }

  /** The invariant of the layout after `i` events of `order`. */
  ghost predicate LayoutInv(order: seq<DDay>, i: nat, st: LayoutState)
    requires i <= |order|
  {
    RowsHeld(order, i, st.slots) && SlotsOwned(order, i, st.slots) && EntriesPlaced(order, i, st.rows)
  }

  lemma {:induction false} LayoutInvHolds(order: seq<DDay>, i: nat)
    requires i <= |order|
    ensures LayoutInv(order, i, LayoutUpTo(order, i))
  {
    if i > 0 {
      LayoutInvHolds(order, i - 1);
      var prev := LayoutUpTo(order, i - 1);
      var x := order[i - 1];
      if x.date.Some? {
        var row := RowOf(order, i - 1);
        var slots := Mark(prev.slots, x.date.value, LastDay(x), row);
        assert LayoutUpTo(order, i) == LayoutState(slots, prev.rows[x.id := row]);
        DatedStep(order, i - 1, prev, row);
      } else {
        assert LayoutUpTo(order, i) == prev;
        UndatedStep(order, i - 1, prev);
      }
    }
  }

  /** A dated event takes its row on each of its days and gets its entry. */
  lemma DatedStep(order: seq<DDay>, i: nat, st: LayoutState, row: nat)
    requires i < |order| && order[i].date.Some? && LayoutInv(order, i, st) && row == RowOf(order, i)
    ensures LayoutInv(order, i + 1, LayoutState(Mark(st.slots, order[i].date.value, LastDay(order[i]), row), st.rows[order[i].id := row]))
  {
    HeldStep(order, i, st.slots, row);
    OwnedStep(order, i, st.slots, row);
    EntriesStep(order, i, st.rows, row);
  }

  /** An undated event is skipped: the invariant carries over unchanged. */
  lemma UndatedStep(order: seq<DDay>, i: nat, st: LayoutState)
    requires i < |order| && order[i].date.None? && LayoutInv(order, i, st)
    ensures LayoutInv(order, i + 1, st)
  {
    assert EntriesPlaced(order, i + 1, st.rows) by {
      forall id | id in st.rows
        ensures exists j :: 0 <= j < i + 1 && order[j].date.Some? && order[j].id == id
      {
        var j :| 0 <= j < i && order[j].date.Some? && order[j].id == id;
      }
    }
    assert RowsHeld(order, i + 1, st.slots);
    assert SlotsOwned(order, i + 1, st.slots) by {
      forall d, r | r in At(st.slots, d)
        ensures exists j :: 0 <= j < i + 1 && Covers(order[j], d) && RowOf(order, j) == r
      {
        var j :| 0 <= j < i && Covers(order[j], d) && RowOf(order, j) == r;
      }
    }
  }

  lemma HeldStep(order: seq<DDay>, i: nat, slots: Slots, row: nat)
    requires i < |order| && order[i].date.Some? && RowsHeld(order, i, slots) && row == RowOf(order, i)
    ensures RowsHeld(order, i + 1, Mark(slots, order[i].date.value, LastDay(order[i]), row))
  {
    var m := Mark(slots, order[i].date.value, LastDay(order[i]), row);
    forall j, d | 0 <= j < i + 1 && Covers(order[j], d) ensures RowOf(order, j) in At(m, d) {
      if j < i {
        assert RowOf(order, j) in At(slots, d);
      }
    }
  }

  lemma OwnedStep(order: seq<DDay>, i: nat, slots: Slots, row: nat)
    requires i < |order| && order[i].date.Some? && SlotsOwned(order, i, slots) && row == RowOf(order, i)
    ensures SlotsOwned(order, i + 1, Mark(slots, order[i].date.value, LastDay(order[i]), row))
  {
    var m := Mark(slots, order[i].date.value, LastDay(order[i]), row);
    forall d, r | r in At(m, d)
      ensures exists j :: 0 <= j < i + 1 && Covers(order[j], d) && RowOf(order, j) == r
    {
      if r in At(slots, d) {
        var j :| 0 <= j < i && Covers(order[j], d) && RowOf(order, j) == r;
      } else {
        assert Covers(order[i], d) && RowOf(order, i) == r;
      }
    }
  }

  lemma EntriesStep(order: seq<DDay>, i: nat, rows: map<string, nat>, row: nat)
    requires i < |order| && order[i].date.Some? && EntriesPlaced(order, i, rows)
    ensures EntriesPlaced(order, i + 1, rows[order[i].id := row])
  {
    var rows' := rows[order[i].id := row];
    forall id | id in rows'
      ensures exists j :: 0 <= j < i + 1 && order[j].date.Some? && order[j].id == id
    {
      if id != order[i].id {
        var j :| 0 <= j < i && order[j].date.Some? && order[j].id == id;
      }
    }
  }

  /** With distinct ids, once an event has its row no later event changes it. */
  lemma {:induction false} RowsStable(order: seq<DDay>, j: nat, i: nat)
    requires DistinctIds(order) && j < i <= |order| && order[j].date.Some?
    ensures order[j].id in LayoutUpTo(order, i).rows
    ensures LayoutUpTo(order, i).rows[order[j].id] == RowOf(order, j)
  {
    if i > j + 1 {
      RowsStable(order, j, i - 1);
      assert order[i - 1].id != order[j].id;
    }
  }

  lemma {:induction false} InsertDistinct(x: DDay, s: seq<DDay>)
    requires DistinctIds(s) && forall k :: 0 <= k < |s| ==> s[k].id != x.id
    ensures DistinctIds(InsertEvent(x, s))
  {
    if |s| > 0 && Compare(x, s[0]) >= 0 {
      InsertDistinct(x, s[1..]);
      var r := InsertEvent(x, s);
      forall j | 0 < j < |r| ensures r[0].id != r[j].id {
        assert r[j] in multiset(InsertEvent(x, s[1..]));
        if r[j] != x {
          var k :| 0 <= k < |s[1..]| && s[1..][k] == r[j];
          assert s[k + 1] == r[j];
        }
      }
    }
  }

  lemma {:induction false} SortDistinct(events: seq<DDay>)
    requires DistinctIds(events)
    ensures DistinctIds(SortEvents(events))
  {
    if |events| > 0 {
      var init := events[..|events| - 1];
      var x := events[|events| - 1];
      SortDistinct(init);
      var s := SortEvents(init);
      forall k | 0 <= k < |s| ensures s[k].id != x.id {
        assert s[k] in multiset(init);
        var p :| 0 <= p < |init| && init[p] == s[k];
        assert events[p] == s[k];
      }
      InsertDistinct(x, s);
    }
  }

  /** An event in the input sits somewhere in the sorted order. */
  lemma InOrder(events: seq<DDay>, ev: DDay) returns (i: nat)
    requires ev in events
    ensures i < |SortEvents(events)| && SortEvents(events)[i] == ev
  {
    assert ev in multiset(SortEvents(events));
    i :| 0 <= i < |SortEvents(events)| && SortEvents(events)[i] == ev;
  }

  /** Row `r` is held by an event before the `i`-th that shares a day with it. */
  ghost predicate HeldBefore(order: seq<DDay>, layout: map<string, nat>, i: nat, r: nat)
    requires i < |order|
  {
    exists j :: 0 <= j < i && Overlap(order[j], order[i]) && order[j].id in layout && layout[order[j].id] == r
  }

  /**
   * Each dated event, in the sorted order, gets a row that no earlier event
   * sharing one of its days holds, and every smaller row is held by such an
   * earlier event: the smallest row free on all of its days.
   */
  lemma LayoutSmallestFreeRow(events: seq<DDay>, i: nat)
    requires DistinctIds(events)
    requires i < |SortEvents(events)| && SortEvents(events)[i].date.Some?
    ensures var order, layout := SortEvents(events), EventLayout(events);
      && order[i].id in layout
      && (forall j :: 0 <= j < i && Overlap(order[j], order[i]) ==>
            order[j].id in layout && layout[order[j].id] != layout[order[i].id])
      && (forall r :: 0 <= r < layout[order[i].id] ==> HeldBefore(order, layout, i, r))
  {
    var order := SortEvents(events);
    var n := |order|;
    var x := order[i];
    SortDistinct(events);
    RowsStable(order, i, n);
    var st := LayoutUpTo(order, i);
    LayoutInvHolds(order, i);
    var layout := EventLayout(events);
    assert layout == LayoutUpTo(order, n).rows;
    var row := RowOf(order, i);
    assert layout[x.id] == row;
    forall j | 0 <= j < i && Overlap(order[j], x)
      ensures order[j].id in layout && layout[order[j].id] != row
    {
      RowsStable(order, j, n);
      var d := if order[j].date.value < x.date.value then x.date.value else order[j].date.value;
      assert Covers(order[j], d) && Covers(x, d);
      assert RowOf(order, j) in At(st.slots, d);
    }
    forall r | 0 <= r < row ensures HeldBefore(order, layout, i, r) {
      assert r in Taken(st.slots, x);
      var d :| Covers(x, d) && r in At(st.slots, d);
      var j :| 0 <= j < i && Covers(order[j], d) && RowOf(order, j) == r;
      RowsStable(order, j, n);
      assert Overlap(order[j], x);
    }
  }

  /** Events that share a day never share a row. */
  lemma NoSharedRow(events: seq<DDay>, a: DDay, b: DDay)
    requires DistinctIds(events) && a in events && b in events && a.id != b.id && Overlap(a, b)
    ensures a.id in EventLayout(events) && b.id in EventLayout(events)
    ensures EventLayout(events)[a.id] != EventLayout(events)[b.id]
  {
    var i := InOrder(events, a);
    var j := InOrder(events, b);
    if j < i {
      LayoutSmallestFreeRow(events, i);
    } else {
      assert i != j;
      LayoutSmallestFreeRow(events, j);
    }
  }

  /** Every event with a date gets a row, and with distinct ids no event without one does. */
  lemma RowsForDatedOnly(events: seq<DDay>, ev: DDay)
    requires ev in events
    ensures ev.date.Some? ==> ev.id in EventLayout(events)
    ensures DistinctIds(events) && ev.date.None? ==> ev.id !in EventLayout(events)
  {
    var order := SortEvents(events);
    var n := |order|;
    assert n == |multiset(order)| == |events|;
    LayoutInvHolds(order, n);
    var i := InOrder(events, ev);
    if DistinctIds(events) && ev.id in EventLayout(events) {
      SortDistinct(events);
      var j :| 0 <= j < n && order[j].date.Some? && order[j].id == ev.id;
      assert i == j;
    }
  }

  // ---------------------------------------------------------------------
  // Events of a grid cell (getDDaysForDay)

  function MonthOf(z: int): int { CivilFromDays(z).month }

  function DayOfMonth(z: int): int { CivilFromDays(z).day }

  /**
   * The filter of `getDDaysForDay` for the cell's date: an annual event when
   * the months agree and the cell's day of month lies between the start's
   * and the end's; any other event when the cell lies in its date range.
   */
  predicate ShowsOn(ev: DDay, cell: int)
  {
    ev.date.Some? &&
    if ev.isAnnual then
      MonthOf(cell) == MonthOf(ev.date.value) &&
      DayOfMonth(ev.date.value) <= DayOfMonth(cell) <= DayOfMonth(LastDay(ev))
    else
      ev.date.value <= cell <= LastDay(ev)
  }

  /** The events of `ddays` shown on `cell`, in their order. */
  function DDaysOn(ddays: seq<DDay>, cell: int): (r: seq<DDay>)
    ensures forall ev :: ev in r <==> ev in ddays && ShowsOn(ev, cell)
    ensures |r| <= |ddays|
  {
    if |ddays| == 0 then []
    else
      assert ddays == [ddays[0]] + ddays[1..];
      (if ShowsOn(ddays[0], cell) then [ddays[0]] else []) + DDaysOn(ddays[1..], cell)
  }

  /** `getDDaysForDay`: no events for a missing or zero day, else those shown on `new Date(year, month, day)`. */
  function GetDDaysForDay(ddays: seq<DDay>, day: Option<int>, viewYear: int, viewMonth: int): (r: seq<DDay>)
    ensures day.None? || day.value == 0 ==> r == []
    ensures day.Some? && day.value != 0 ==>
      forall ev :: ev in r <==> ev in ddays && ShowsOn(ev, JsMakeDay(viewYear, viewMonth, day.value))
  {
    if day.None? || day.value == 0 then [] else DDaysOn(ddays, JsMakeDay(viewYear, viewMonth, day.value))
  }

  /** On a non-annual event the filter and the layout agree on the days the event spans. */
  lemma ShowsOnCovers(ev: DDay, cell: int)
    requires !ev.isAnnual
    ensures ShowsOn(ev, cell) <==> Covers(ev, cell)
  {
  }

  /**
   * For a real day of the viewed month, an annual event is listed exactly when
   * its start lies in that month (of any year) and the day of month lies
   * between the start's and the end's.
   */
  lemma AnnualCell(ev: DDay, viewYear: int, viewMonth: int, day: int)
    requires ev.isAnnual && ev.date.Some?
    requires 0 <= viewMonth <= 11 && !(0 <= viewYear <= 99) && 1 <= day <= DaysInMonth(viewYear, viewMonth + 1)
    ensures ShowsOn(ev, JsMakeDay(viewYear, viewMonth, day)) <==>
      MonthOf(ev.date.value) == viewMonth + 1 &&
      DayOfMonth(ev.date.value) <= day <= DayOfMonth(LastDay(ev))
  {
    JsMakeDayOfValid(Civil(viewYear, viewMonth + 1, day));
  }

  // ---------------------------------------------------------------------
  // A cell's events by row (getRenderableDDaysForDay)

  /** The slots with `ev` written at `row`, padded with empty slots up to it. */
  function PlaceAt(r: seq<Option<DDay>>, row: nat, ev: DDay): (p: seq<Option<DDay>>)
    ensures |p| == if |r| <= row then row + 1 else |r|
    ensures p[row] == Some(ev)
    ensures forall k :: 0 <= k < |p| && k != row ==> p[k] == if k < |r| then r[k] else None
  {
    var padded := if |r| <= row then r + seq(row + 1 - |r|, _ => None) else r;
    padded[row := Some(ev)]
  }

  /** Each event with a row, in turn, written at its row. */
  function Renderable(events: seq<DDay>, layout: map<string, nat>): seq<Option<DDay>>
  {
    if |events| == 0 then []
    else
      var r := Renderable(events[..|events| - 1], layout);
      var ev := events[|events| - 1];
      if ev.id in layout then PlaceAt(r, layout[ev.id], ev) else r
  }

  /** `getRenderableDDaysForDay` on the day's events: pad with nulls up to each row, then write the event there. */
  method RenderRows(eventsForDay: seq<DDay>, layout: map<string, nat>) returns (renderableEvents: seq<Option<DDay>>)
    ensures renderableEvents == Renderable(eventsForDay, layout)
  {
    renderableEvents := [];
    var i := 0;
    while i < |eventsForDay|
      invariant 0 <= i <= |eventsForDay|
      invariant renderableEvents == Renderable(eventsForDay[..i], layout)
    {
      var event := eventsForDay[i];
      assert eventsForDay[..i + 1][..i] == eventsForDay[..i];
      if event.id in layout {
        var row := layout[event.id];
        ghost var before := renderableEvents;
        while |renderableEvents| <= row
          invariant |before| <= |renderableEvents| <= if |before| <= row then row + 1 else |before|
          invariant renderableEvents[..|before|] == before
          invariant forall k :: |before| <= k < |renderableEvents| ==> renderableEvents[k] == None
        {
          renderableEvents := renderableEvents + [None];
        }
        renderableEvents := renderableEvents[row := Some(event)];
        ghost var p := PlaceAt(before, row, event);
        assert |renderableEvents| == |p|;
        forall k | 0 <= k < |p| ensures renderableEvents[k] == p[k] {
          if k < |before| && k != row {
            assert renderableEvents[k] == renderableEvents[..|before|][k];
          }
        }
      }
      i := i + 1;
    }
    assert eventsForDay[..|eventsForDay|] == eventsForDay;
  }

  /** The `i`-th event has row `k`. */
  predicate HasRow(events: seq<DDay>, layout: map<string, nat>, i: int, k: nat)
  {
    0 <= i < |events| && events[i].id in layout && layout[events[i].id] == k
  }

  /** The `i`-th event has row `k`, and no later event has that row. */
  predicate LastWithRow(events: seq<DDay>, layout: map<string, nat>, i: int, k: nat)
  {
    HasRow(events, layout, i, k) && forall j :: i < j < |events| ==> !HasRow(events, layout, j, k)
  }

  /** The `i`-th event has the row just below `n`. */
  predicate TopRow(events: seq<DDay>, layout: map<string, nat>, i: int, n: int)
  {
    0 <= i < |events| && events[i].id in layout && layout[events[i].id] + 1 == n
  }

  /** How one more event changes the rendered slots. */
  lemma RenderableStep(events: seq<DDay>, layout: map<string, nat>)
    requires |events| > 0
    ensures var init, last := events[..|events| - 1], |events| - 1;
      var r0, r := Renderable(init, layout), Renderable(events, layout);
      && (forall i :: 0 <= i < last ==> events[i] == init[i])
      && |r0| <= |r|
      && (forall k: nat :: HasRow(events, layout, last, k) ==> k < |r| && r[k] == Some(events[last]))
      && (forall k :: 0 <= k < |r| && !HasRow(events, layout, last, k) ==> r[k] == if k < |r0| then r0[k] else None)
      && (|r0| < |r| ==> TopRow(events, layout, last, |r|))
  {
  }

  /** The rendered slots reach one past the largest row of the events. */
  lemma {:induction false} RenderableLength(events: seq<DDay>, layout: map<string, nat>)
    ensures var r := Renderable(events, layout);
      && (forall i, k: nat :: HasRow(events, layout, i, k) ==> k < |r|)
      && (|r| > 0 ==> exists i :: TopRow(events, layout, i, |r|))
  {
    if |events| > 0 {
      var init, last := events[..|events| - 1], |events| - 1;
      RenderableLength(init, layout);
      RenderableStep(events, layout);
      var r0, r := Renderable(init, layout), Renderable(events, layout);
      forall i, k: nat | HasRow(events, layout, i, k) ensures k < |r| {
        if i < last {
          assert HasRow(init, layout, i, k);
        }
      }
      if |r| > 0 && |r| == |r0| {
        var i :| TopRow(init, layout, i, |r0|);
        assert TopRow(events, layout, i, |r|);
      }
    }
  }

  /** A slot is filled exactly when some event has that row. */
  lemma {:induction false} RenderableFilled(events: seq<DDay>, layout: map<string, nat>)
    ensures var r := Renderable(events, layout);
      forall k: nat :: k < |r| ==> (r[k].Some? <==> exists i :: HasRow(events, layout, i, k))
  {
    if |events| > 0 {
      var init, last := events[..|events| - 1], |events| - 1;
      RenderableFilled(init, layout);
      RenderableLength(init, layout);
      RenderableStep(events, layout);
      var r0, r := Renderable(init, layout), Renderable(events, layout);
      forall k: nat | k < |r| ensures r[k].Some? <==> exists i :: HasRow(events, layout, i, k) {
        if !HasRow(events, layout, last, k) {
          if exists i :: HasRow(events, layout, i, k) {
            var i :| HasRow(events, layout, i, k);
            assert HasRow(init, layout, i, k);
            assert k < |r0| && r0[k].Some?;
          }
          if r[k].Some? {
            assert k < |r0| && r0[k].Some?;
            var i :| HasRow(init, layout, i, k);
            assert HasRow(events, layout, i, k);
          }
        }
      }
    }
  }

  /** A filled slot holds the last event with that row. */
  lemma {:induction false} RenderableLastWriter(events: seq<DDay>, layout: map<string, nat>)
    ensures var r := Renderable(events, layout);
      forall k: nat :: k < |r| && r[k].Some? ==>
        exists i :: LastWithRow(events, layout, i, k) && events[i] == r[k].value
  {
    if |events| > 0 {
      var init, last := events[..|events| - 1], |events| - 1;
      RenderableLastWriter(init, layout);
      RenderableStep(events, layout);
      var r0, r := Renderable(init, layout), Renderable(events, layout);
      forall k: nat | k < |r| && r[k].Some?
        ensures exists i :: LastWithRow(events, layout, i, k) && events[i] == r[k].value
      {
        if HasRow(events, layout, last, k) {
          assert LastWithRow(events, layout, last, k);
        } else {
          assert k < |r0| && r0[k] == r[k];
          var i :| LastWithRow(init, layout, i, k) && init[i] == r0[k].value;
          forall j | i < j < |events| ensures !HasRow(events, layout, j, k) {
            if j < last {
              assert !HasRow(init, layout, j, k);
            }
          }
          assert LastWithRow(events, layout, i, k);
        }
      }
    }
  }

  // ---------------------------------------------------------------------
  // Position within a multi-day event (getEventPosition)

  datatype EventPosition = Start | Middle | End | Single

  /** `getEventPosition`: where `current` lies within the event's days. */
  function GetEventPosition(ev: DDay, current: int): (p: EventPosition)
    ensures p == Start <==> ev.date.Some? && current == ev.date.value < LastDay(ev)
    ensures p == End <==> ev.date.Some? && ev.date.value < current == LastDay(ev)
    ensures p == Middle <==> ev.date.Some? && ev.date.value < current < LastDay(ev)
    ensures p == Single <==> !(ev.date.Some? && ev.date.value <= current <= LastDay(ev) && ev.date.value < LastDay(ev))
  {
    if ev.date.None? then Single
    else
      var eventStart := ev.date.value;
      var eventEnd := LastDay(ev);
      if current < eventStart || current > eventEnd then Single
      else if eventStart == eventEnd then Single
      else if current == eventStart then Start
      else if current == eventEnd then End
      else Middle
  }

  /** Along the days of an event longer than one day the positions read start, middles, end. */
  lemma SpanPositions(ev: DDay)
    requires ev.date.Some? && ev.date.value < LastDay(ev)
    ensures var s, n := ev.date.value, LastDay(ev) - ev.date.value + 1;
      seq(n, k => GetEventPosition(ev, s + k)) == [Start] + seq(n - 2, _ => Middle) + [End]
  {
    var s, n := ev.date.value, LastDay(ev) - ev.date.value + 1;
    var a := seq(n, k => GetEventPosition(ev, s + k));
    var b := [Start] + seq(n - 2, _ => Middle) + [End];
    assert |a| == |b|;
    forall k | 0 <= k < n ensures a[k] == b[k] {
      assert a[k] == GetEventPosition(ev, s + k);
      if k == 0 {
        assert b[k] == Start;
      } else if k == n - 1 {
        assert b[k] == End;
      } else {
        assert b[k] == seq(n - 2, _ => Middle)[k - 1] == Middle;
      }
    }
  }

  // ---------------------------------------------------------------------
  // Removing an event from the list (deleteDDay)

  /** `prev.filter((dday) => dday.id !== id)`. */
  function RemoveById(ddays: seq<DDay>, id: string): seq<DDay>
  {
    if |ddays| == 0 then []
    else (if ddays[0].id != id then [ddays[0]] else []) + RemoveById(ddays[1..], id)
  }

  /** The events with that id are gone; every other event is kept as often as it occurred. */
  lemma {:induction false} RemoveByIdCounts(ddays: seq<DDay>, id: string)
    ensures forall ev :: multiset(RemoveById(ddays, id))[ev] == if ev.id == id then 0 else multiset(ddays)[ev]
  {
    if |ddays| > 0 {
      RemoveByIdCounts(ddays[1..], id);
      assert ddays == [ddays[0]] + ddays[1..];
    }
  }

  /** Removing distributes over concatenation, so the kept events stay in their order. */
  lemma {:induction false} RemoveByIdAppend(a: seq<DDay>, b: seq<DDay>, id: string)
    ensures RemoveById(a + b, id) == RemoveById(a, id) + RemoveById(b, id)
  {
    if |a| > 0 {
      var ab := a + b;
      assert ab[0] == a[0] && ab[1..] == a[1..] + b;
      RemoveByIdAppend(a[1..], b, id);
      var head := if a[0].id != id then [a[0]] else [];
      assert RemoveById(ab, id) == head + RemoveById(a[1..] + b, id);
      assert RemoveById(a, id) == head + RemoveById(a[1..], id);
    } else {
      assert a + b == b;
    }
  }

  // ---------------------------------------------------------------------
  // The hook's state

  /** The hook's `ddays` and `eventLayout` state. */
  class DDayHook {
    var ddays: seq<DDay>
    var eventLayout: map<string, nat>

    constructor ()
      ensures ddays == [] && eventLayout == map[]
    {
      ddays := [];
      eventLayout := map[];
    }

    /** The end of a successful `fetchDDays`: store the month's events and lay them out. */
    method Loaded(formattedDdays: seq<DDay>)
      modifies this
      ensures ddays == formattedDdays && eventLayout == EventLayout(formattedDdays)
    {
      ddays := formattedDdays;
      eventLayout := CalculateEventLayout(formattedDdays);
    }

    /** `deleteDDay`: on a successful delete drop the events with that id; the layout is kept. */
    method DeleteDDay(id: string, responseOk: bool) returns (deleted: bool)
      modifies this
      ensures deleted == responseOk
      ensures ddays == if responseOk then RemoveById(old(ddays), id) else old(ddays)
      ensures eventLayout == old(eventLayout)
    {
      if !responseOk {
        return false;
      }
      ddays := RemoveById(ddays, id);
      return true;
    }

    /** `getRenderableDDaysForDay`. */
    method GetRenderableDDaysForDay(day: Option<int>, viewYear: int, viewMonth: int) returns (r: seq<Option<DDay>>)
      ensures r == Renderable(GetDDaysForDay(ddays, day, viewYear, viewMonth), eventLayout)
    {
      var eventsForDay := GetDDaysForDay(ddays, day, viewYear, viewMonth);
      r := RenderRows(eventsForDay, eventLayout);
    }
  }

  /**
   * After a load, a non-annual event listed on a cell sits in the slot of
   * its own row; only an annual event, laid out by its original dates, can
   * take that slot instead.
   */
  lemma RenderedInOwnRow(ddays: seq<DDay>, day: Option<int>, viewYear: int, viewMonth: int, ev: DDay)
    requires DistinctIds(ddays)
    requires var shown := GetDDaysForDay(ddays, day, viewYear, viewMonth); ev in shown && !ev.isAnnual
    ensures var layout := EventLayout(ddays);
      var r := Renderable(GetDDaysForDay(ddays, day, viewYear, viewMonth), layout);
      ev.id in layout && layout[ev.id] < |r| && r[layout[ev.id]].Some? &&
      (r[layout[ev.id]].value == ev || r[layout[ev.id]].value.isAnnual)
  {
    var layout := EventLayout(ddays);
    var shown := GetDDaysForDay(ddays, day, viewYear, viewMonth);
    var cell := JsMakeDay(viewYear, viewMonth, day.value);
    RowsForDatedOnly(ddays, ev);
    RenderableLength(shown, layout);
    RenderableFilled(shown, layout);
    RenderableLastWriter(shown, layout);
    var r := Renderable(shown, layout);
    var k := layout[ev.id];
    var p :| 0 <= p < |shown| && shown[p] == ev;
    assert HasRow(shown, layout, p, k);
    var x := r[k].value;
    var i :| LastWithRow(shown, layout, i, k) && shown[i] == x;
    if x != ev && !x.isAnnual {
      assert ShowsOn(x, cell) && ShowsOn(ev, cell);
      assert Covers(x, cell) && Covers(ev, cell);
      assert Overlap(x, ev);
      NoSharedRow(ddays, x, ev);
      assert false;
    }
  }
}
