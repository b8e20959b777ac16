/**
 * The tracker's period-day hook (lib/hooks/usePeriod.tsx) on top of the
 * period handlers. Every write goes through `CreatePeriodDay` or
 * `DeletePeriodDay` and is followed by a reload, so the hook's list of
 * records is the store's collection; the hook's operations are therefore
 * methods on the store.
 */
module PeriodHook {
  import opened Optional
  import opened Text
  import opened PeriodRecords
  import opened PeriodHandlers

  /** The six log fields `updatePeriodDay` receives. */
  datatype LogData = LogData(
    symptoms: seq<string>,
    crampIntensity: int,
    mood: seq<string>,
    activities: seq<string>,
    sexActivity: seq<string>,
    notes: string)

  /** The request `addPeriodDay` sends: empty lists, no cramps, no notes. */
  function AddRequest(date: string, isPeriod: bool): (req: DayRequest)
    ensures req.date == date && req.isPeriod == isPeriod
    ensures req.symptoms == [] && req.mood == [] && req.activities == [] && req.sexActivity == []
    ensures req.crampIntensity == 0 && req.notes == ""
  {
    DayRequest(date, isPeriod, [], 0, [], [], [], "")
  }

  /** `getLogForDate`: the first record with the date, or nothing. */
  function GetLogForDate(days: seq<PeriodDay>, date: string): (r: Option<PeriodDay>)
    ensures r.Some? <==> exists i :: 0 <= i < |days| && days[i].date == date
    ensures r.Some? ==> r.value.date == date && r.value in days
    ensures r.Some? ==>
      exists i :: 0 <= i < |days| && days[i] == r.value && forall j :: 0 <= j < i ==> days[j].date != date
  {
    match FindByDate(days, date)
    case Some(i) => Some(days[i])
    case None => None
  }

  /** The request `updatePeriodDay` sends: the new log fields, keeping the record's period flag (false without a record). */
  function UpdateRequest(days: seq<PeriodDay>, date: string, data: LogData): DayRequest
  {
    var existing := GetLogForDate(days, date);
    DayRequest(date, existing.Some? && existing.value.isPeriod, data.symptoms, data.crampIntensity,
               data.mood, data.activities, data.sexActivity, data.notes)
  }

  /** The collection after `togglePeriodDay`: a period day is deleted, any other date is added as one. */
  function ToggleDays(days: seq<PeriodDay>, date: string, id: string, now: int): seq<PeriodDay>
  {
    var existing := GetLogForDate(days, date);
    if existing.Some? && existing.value.isPeriod then
      (if date == "" then days else RemoveFirst(days, date))
    else if DateShape(date) then Upsert(days, AddRequest(date, true), id, now)
    else days
  }

  /** Toggling a well-shaped date flips whether it is a period day, and keeps one record per date. */
  lemma ToggleFlips(days: seq<PeriodDay>, date: string, id: string, now: int)
    requires UniqueDates(days) && DateShape(date)
    ensures var r := ToggleDays(days, date, id, now);
      && UniqueDates(r)
      && (date in PeriodDaySet(r) <==> date !in PeriodDaySet(days))
  {
    var r := ToggleDays(days, date, id, now);
    var existing := GetLogForDate(days, date);
    if existing.Some? && existing.value.isPeriod {
      RemoveFirstEffect(days, date);
      assert date in PeriodDaySet(days) by {
        var i :| 0 <= i < |days| && days[i] == existing.value;
        assert days[i].isPeriod && days[i].date == date;
      }
      assert date !in PeriodDaySet(r);
    } else {
      UpsertUnique(days, AddRequest(date, true), id, now);
      UpsertLookup(days, AddRequest(date, true), id, now);
      var k := FindByDate(r, date).value;
      assert r[k].isPeriod && r[k].date == date;
      assert date in PeriodDaySet(r);
      forall i | 0 <= i < |days| && days[i].date == date ensures !days[i].isPeriod {
        var j :| 0 <= j < |days| && days[j] == existing.value && forall m :: 0 <= m < j ==> days[m].date != date;
        assert i == j;
      }
    }
  }

  /** Toggling every other date leaves their records as they were. */
  lemma ToggleOthers(days: seq<PeriodDay>, date: string, id: string, now: int, other: string)
    requires DateShape(date) && other != date
    ensures GetLogForDate(ToggleDays(days, date, id, now), other) == GetLogForDate(days, other)
  {
    var existing := GetLogForDate(days, date);
    if existing.Some? && existing.value.isPeriod {
      RemoveFirstOther(days, date, other);
    } else {
      UpsertOther(days, AddRequest(date, true), id, now, other);
    }
  }

  /**
   * Turning a logged day that is not a period day into one sends the empty
   * log of `addPeriodDay`, so the day's symptoms, mood, activities, notes
   * and cramp intensity are cleared.
   */
  lemma ToggleClearsLog(days: seq<PeriodDay>, date: string, id: string, now: int)
    requires UniqueDates(days) && DateShape(date)
    requires GetLogForDate(days, date).Some? && !GetLogForDate(days, date).value.isPeriod
    ensures var r := GetLogForDate(ToggleDays(days, date, id, now), date);
      r.Some? && r.value.isPeriod && r.value.symptoms == [] && r.value.mood == [] &&
      r.value.activities == [] && r.value.sexActivity == [] && r.value.notes == "" && r.value.crampIntensity == 0
  {
    UpsertLookup(days, AddRequest(date, true), id, now);
  }

  /** After `updatePeriodDay` the date's record holds the new log and the period flag it had (false if new). */
  lemma UpdateKeepsFlag(days: seq<PeriodDay>, date: string, data: LogData, id: string, now: int)
    ensures var r := GetLogForDate(Upsert(days, UpdateRequest(days, date, data), id, now), date);
      && r.Some?
      && r.value.symptoms == data.symptoms && r.value.mood == data.mood
      && r.value.crampIntensity == data.crampIntensity && r.value.activities == data.activities
      && r.value.sexActivity == data.sexActivity && r.value.notes == data.notes
      && r.value.isPeriod == (GetLogForDate(days, date).Some? && GetLogForDate(days, date).value.isPeriod)
  {
    UpsertLookup(days, UpdateRequest(days, date, data), id, now);
  }

  /** `addPeriodDay`. */
  method AddPeriodDay(store: PeriodStore, date: string, isPeriod: bool, now: int) returns (resp: DayResponse)
    modifies store
    ensures store.settings == old(store.settings)
    ensures DateShape(date) ==> store.days == Upsert(old(store.days), AddRequest(date, isPeriod), NatToString(old(store.nextId)), now)
    ensures !DateShape(date) ==> store.days == old(store.days) && resp.DayRejected?
    ensures old(store.Valid()) ==> store.Valid()
  {
    resp := store.CreatePeriodDay(AddRequest(date, isPeriod), now);
  }

  /** `togglePeriodDay`: delete the date when it is a period day, otherwise add it as one. */
  method TogglePeriodDay(store: PeriodStore, date: string, now: int)
    modifies store
    ensures store.settings == old(store.settings)
    ensures store.days == ToggleDays(old(store.days), date, NatToString(old(store.nextId)), now)
    ensures old(store.Valid()) ==> store.Valid()
  {
    var existing := GetLogForDate(store.days, date);
    if existing.Some? && existing.value.isPeriod {
      var _ := store.DeletePeriodDay(date);
    } else {
      var _ := AddPeriodDay(store, date, true, now);
    }
  }

  /** `updatePeriodDay`: send the new log with the record's current period flag. */
  method UpdatePeriodDay(store: PeriodStore, date: string, data: LogData, now: int) returns (resp: DayResponse)
    modifies store
    ensures store.settings == old(store.settings)
    ensures DateShape(date) ==>
      store.days == Upsert(old(store.days), UpdateRequest(old(store.days), date, data), NatToString(old(store.nextId)), now)
    ensures !DateShape(date) ==> store.days == old(store.days) && resp.DayRejected?
    ensures old(store.Valid()) ==> store.Valid()
  {
    resp := store.CreatePeriodDay(UpdateRequest(store.days, date, data), now);
  }
}
