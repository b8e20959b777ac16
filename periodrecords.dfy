/**
 * The period-day record shared by the Go handlers and the tracker hook
 * (lib/types/periods.ts, the `PeriodDay` struct of the period handlers),
 * and the set of period-day keys the tracker derives from a list of
 * records (`periodDaysSet`).
 */
module PeriodRecords {
  import opened Optional

  /** One logged day. Times are milliseconds; `date` is a YYYY-MM-DD key. */
  datatype PeriodDay = PeriodDay(
    id: string,
    date: string,
    isPeriod: bool,
    symptoms: seq<string>,
    crampIntensity: int,
    mood: seq<string>,
    activities: seq<string>,
    sexActivity: seq<string>,
    notes: string,
    createdAt: int,
    updatedAt: int)

  /** The elements of `s` without repetition, in order of first occurrence (the iteration order of `new Set(s)`). */
  function Distinct(s: seq<string>): (r: seq<string>)
    ensures forall x :: x in r <==> x in s
    ensures forall i, j :: 0 <= i < j < |r| ==> r[i] != r[j]
  {
    if |s| == 0 then []
    else
      var r := Distinct(s[..|s| - 1]);
      assert forall x :: x in s <==> x in s[..|s| - 1] || x == s[|s| - 1];
      if s[|s| - 1] in r then r else r + [s[|s| - 1]]
  }

  /** The dates of the records marked as period days, in record order. */
  function PeriodDates(days: seq<PeriodDay>): (dates: seq<string>)
    ensures |dates| <= |days|
    ensures forall k :: k in dates <==> exists i :: 0 <= i < |days| && days[i].isPeriod && days[i].date == k
  {
    if |days| == 0 then []
    else
      var rest := PeriodDates(days[1..]);
      assert forall i :: 1 <= i < |days| ==> days[i] == days[1..][i - 1];
      if days[0].isPeriod then [days[0].date] + rest else rest
  }

  /**
   * `periodDaysSet`: `new Set(periodDays.filter(pd => pd.isPeriod).map(pd => pd.date))`,
   * as the sequence of its elements in iteration order.
   */
  function PeriodDayKeys(days: seq<PeriodDay>): (keys: seq<string>)
    ensures forall i, j :: 0 <= i < j < |keys| ==> keys[i] != keys[j]
    ensures forall k :: k in keys <==> exists i :: 0 <= i < |days| && days[i].isPeriod && days[i].date == k
  {
    Distinct(PeriodDates(days))
  }

  /** The same set, for membership tests. */
  function PeriodDaySet(days: seq<PeriodDay>): (s: set<string>)
    ensures forall k :: k in s <==> k in PeriodDayKeys(days)
  {
    set i | 0 <= i < |days| && days[i].isPeriod :: days[i].date
  }

  /** The first record with the given date (`periodDays.find(pd => pd.date === date)`). */
  function FindByDate(days: seq<PeriodDay>, date: string): (r: Option<nat>)
    ensures r.Some? ==>
              r.value < |days| && days[r.value].date == date &&
              forall j :: 0 <= j < r.value ==> days[j].date != date
    ensures r.None? ==> forall j :: 0 <= j < |days| ==> days[j].date != date
  {
    if |days| == 0 then None
    else if days[0].date == date then Some(0)
    else
      match FindByDate(days[1..], date)
      case None => None
      case Some(j) => Some(j + 1)
  }
}
