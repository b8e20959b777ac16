/**
 * The period-day and cycle-settings handlers of the Go backend
 * (go/handlers/periods.go), over one user's two collections held in memory:
 * the `periodDays` documents in query order and the `cycleSettings`
 * documents in query order. "The first document" of a query is the first
 * matching element of the sequence.
 */
module PeriodHandlers {
  import opened Optional
  import opened Text
  import opened PeriodRecords

  // ---------------------------------------------------------------------
  // Period days

  /** The only date check the handler makes: ten characters with '-' at positions 4 and 7. */
  predicate DateShape(date: string)
  {
    |date| == 10 && date[4] == '-' && date[7] == '-'
  }

  /** The body of a create request (the fields of `PeriodDay` the handler reads). */
  datatype DayRequest = DayRequest(
    date: string,
    isPeriod: bool,
    symptoms: seq<string>,
    crampIntensity: int,
    mood: seq<string>,
    activities: seq<string>,
    sexActivity: seq<string>,
    notes: string)

  /** The answer of `CreatePeriodDay`: 200 with the updated record, 201 with the new one, or 400. */
  datatype DayResponse =
    | DayUpdated(day: PeriodDay)
    | DayCreated(day: PeriodDay)
    | DayRejected(error: string)

  /** The answer of `DeletePeriodDay`: 200, 400 or 404. */
  datatype DeleteResponse = Deleted | DeleteRejected(error: string) | DeleteNotFound(error: string)

  /** At most one record per date. */
  predicate UniqueDates(days: seq<PeriodDay>)
  {
    forall i, j :: 0 <= i < j < |days| ==> days[i].date != days[j].date
  }

  /** The merge-write of an existing record: the seven log fields and the update time. */
  function Updated(d: PeriodDay, req: DayRequest, now: int): (r: PeriodDay)
  {
    d.(isPeriod := req.isPeriod, symptoms := req.symptoms, mood := req.mood,
       crampIntensity := req.crampIntensity, activities := req.activities,
       sexActivity := req.sexActivity, notes := req.notes, updatedAt := now)
  }

  /** A new record, created and updated now. */
  function NewRecord(id: string, req: DayRequest, now: int): PeriodDay
  {
    PeriodDay(id, req.date, req.isPeriod, req.symptoms, req.crampIntensity, req.mood,
              req.activities, req.sexActivity, req.notes, now, now)
  }

  /** The log fields of a record agree with a request. */
  predicate HoldsRequest(d: PeriodDay, req: DayRequest)
  {
    d.date == req.date && d.isPeriod == req.isPeriod && d.symptoms == req.symptoms &&
    d.crampIntensity == req.crampIntensity && d.mood == req.mood && d.activities == req.activities &&
    d.sexActivity == req.sexActivity && d.notes == req.notes
  }

  /** The collection after a create request with a well-shaped date: update the first record of that date, or add one. */
  function Upsert(days: seq<PeriodDay>, req: DayRequest, id: string, now: int): seq<PeriodDay>
  {
    match FindByDate(days, req.date)
    case Some(i) => days[i := Updated(days[i], req, now)]
    case None => days + [NewRecord(id, req, now)]
  }

  /** The collection after deleting a date: the first record of that date is removed. */
  function RemoveFirst(days: seq<PeriodDay>, date: string): seq<PeriodDay>
  {
    match FindByDate(days, date)
    case Some(i) => days[..i] + days[i + 1..]
    case None => days
  }

  /** An upsert keeps one record per date. */
  lemma UpsertUnique(days: seq<PeriodDay>, req: DayRequest, id: string, now: int)
    requires UniqueDates(days)
    ensures UniqueDates(Upsert(days, req, id, now))
  {
  }

  /**
   * After an upsert the date's record holds the request; an existing record
   * keeps its id and creation time, and every other record is untouched.
   */
  lemma UpsertLookup(days: seq<PeriodDay>, req: DayRequest, id: string, now: int)
    ensures var r := Upsert(days, req, id, now);
      && FindByDate(r, req.date).Some?
      && HoldsRequest(r[FindByDate(r, req.date).value], req)
      && r[FindByDate(r, req.date).value].updatedAt == now
      && (FindByDate(days, req.date).Some? ==>
            |r| == |days| && FindByDate(r, req.date) == FindByDate(days, req.date) &&
            r[FindByDate(r, req.date).value].id == days[FindByDate(days, req.date).value].id &&
            r[FindByDate(r, req.date).value].createdAt == days[FindByDate(days, req.date).value].createdAt)
      && (FindByDate(days, req.date).None? ==>
            r == days + [NewRecord(id, req, now)] && r[|days|].createdAt == now)
      && (forall k :: 0 <= k < |days| && days[k].date != req.date ==> r[k] == days[k])
  {
    var r := Upsert(days, req, id, now);
    match FindByDate(days, req.date)
    case Some(i) =>
      assert FindByDate(r, req.date) == Some(i) by { FindAfterUpdate(days, i, Updated(days[i], req, now)); }
    case None =>
      assert FindByDate(r, req.date) == Some(|days|) by { FindAfterAppend(days, NewRecord(id, req, now)); }
  }

  lemma FindAfterUpdate(days: seq<PeriodDay>, i: nat, d: PeriodDay)
    requires FindByDate(days, d.date) == Some(i)
    ensures FindByDate(days[i := d], d.date) == Some(i)
  {
    FindFirst(days[i := d], d.date, i);
  }

  lemma FindAfterAppend(days: seq<PeriodDay>, d: PeriodDay)
    requires FindByDate(days, d.date).None?
    ensures FindByDate(days + [d], d.date) == Some(|days|)
  {
    FindFirst(days + [d], d.date, |days|);
  }

  /** The index of the first record with a date is what `FindByDate` returns. */
  lemma FindFirst(days: seq<PeriodDay>, date: string, i: nat)
    requires i < |days| && days[i].date == date
    requires forall j :: 0 <= j < i ==> days[j].date != date
    ensures FindByDate(days, date) == Some(i)
  {
    var r := FindByDate(days, date);
    assert r.Some?;
  }

  /** Deleting a date from a collection with one record per date leaves no record of it and keeps the rest in order. */
  lemma RemoveFirstEffect(days: seq<PeriodDay>, date: string)
    requires UniqueDates(days)
    ensures var r := RemoveFirst(days, date);
      && UniqueDates(r)
      && (forall k :: 0 <= k < |r| ==> r[k].date != date)
      && (FindByDate(days, date).Some? ==> |r| == |days| - 1)
      && (forall d :: d in r <==> d in days && d.date != date)
  {
    var r := RemoveFirst(days, date);
    match FindByDate(days, date)
    case None =>
    case Some(i) =>
      assert r == days[..i] + days[i + 1..];
      forall d ensures d in r <==> d in days && d.date != date {
        if d in days && d.date != date {
          var k :| 0 <= k < |days| && days[k] == d;
          if k < i { assert r[k] == d; } else { assert r[k - 1] == d; }
        }
      }
  }

  /** Deleting one date does not change which record another date finds. */
  lemma RemoveFirstOther(days: seq<PeriodDay>, date: string, other: string)
    requires other != date
    ensures var r := RemoveFirst(days, date);
      && (FindByDate(r, other).Some? <==> FindByDate(days, other).Some?)
      && (FindByDate(r, other).Some? ==> r[FindByDate(r, other).value] == days[FindByDate(days, other).value])
  {
    match FindByDate(days, date)
    case None =>
    case Some(i) =>
      var r := days[..i] + days[i + 1..];
      assert forall k :: 0 <= k < |r| ==> r[k] == if k < i then days[k] else days[k + 1];
      match FindByDate(days, other)
      case None =>
      case Some(j) =>
        var j' := if j < i then j else j - 1;
        assert r[j'] == days[j];
        FindFirst(r, other, j');
  }

  /** An upsert of one date does not change which record another date finds. */
  lemma UpsertOther(days: seq<PeriodDay>, req: DayRequest, id: string, now: int, other: string)
    requires other != req.date
    ensures var r := Upsert(days, req, id, now);
      && (FindByDate(r, other).Some? <==> FindByDate(days, other).Some?)
      && (FindByDate(r, other).Some? ==> r[FindByDate(r, other).value] == days[FindByDate(days, other).value])
  {
    var r := Upsert(days, req, id, now);
    assert forall k :: 0 <= k < |days| && days[k].date != req.date ==> r[k] == days[k] by {
      UpsertLookup(days, req, id, now);
    }
    assert |r| > |days| ==> r[|days|].date == req.date;
    match FindByDate(days, other)
    case None =>
    case Some(j) =>
      FindFirst(r, other, j);
  }

  // ---------------------------------------------------------------------
  // Cycle settings

  /** A stored settings document. Times are milliseconds. */
  datatype SettingsDoc = SettingsDoc(id: string, cycleLength: int, periodLength: int, createdAt: int, updatedAt: int)

  /** The `CycleSettings` the handlers answer with; `None` is Go's zero time. */
  datatype SettingsView = SettingsView(
    id: string, cycleLength: int, periodLength: int, createdAt: Option<int>, updatedAt: Option<int>)

  /** The body of an update request: the id and creation time are whatever the client sent. */
  datatype SettingsRequest = SettingsRequest(id: string, cycleLength: int, periodLength: int, createdAt: Option<int>)

  datatype SettingsResponse = SettingsSaved(settings: SettingsView) | SettingsRejected(error: string)

  const DefaultCycleLength := 28
  const DefaultPeriodLength := 5

  /** `GetCycleSettings`: the first stored document, or the defaults 28 and 5 when there is none. */
  function CurrentSettings(settings: seq<SettingsDoc>): (v: SettingsView)
    ensures |settings| == 0 ==> v == SettingsView("", DefaultCycleLength, DefaultPeriodLength, None, None)
    ensures |settings| > 0 ==>
      v.id == settings[0].id && v.cycleLength == settings[0].cycleLength && v.periodLength == settings[0].periodLength
  {
    if |settings| == 0 then SettingsView("", DefaultCycleLength, DefaultPeriodLength, None, None)
    else
      var d := settings[0];
      SettingsView(d.id, d.cycleLength, d.periodLength, Some(d.createdAt), Some(d.updatedAt))
  }

  /** The bounds `UpdateCycleSettings` checks, in its order; `None` when both hold. */
  function SettingsError(cycleLength: int, periodLength: int): (e: Option<string>)
    ensures e.None? <==> 20 <= cycleLength <= 45 && 1 <= periodLength <= 10
  {
    if cycleLength < 20 || cycleLength > 45 then Some("Cycle length must be between 20 and 45 days")
    else if periodLength < 1 || periodLength > 10 then Some("Period length must be between 1 and 10 days")
    else None
  }

  /** The collection after a valid update: the first document's lengths change, or a document is added. */
  function SaveSettings(settings: seq<SettingsDoc>, cycleLength: int, periodLength: int, id: string, now: int): seq<SettingsDoc>
  {
    if |settings| > 0 then
      settings[0 := settings[0].(cycleLength := cycleLength, periodLength := periodLength, updatedAt := now)]
    else [SettingsDoc(id, cycleLength, periodLength, now, now)]
  }

  /** Reading the settings after saving gives the saved lengths; only the first document changes. */
  lemma SaveThenRead(settings: seq<SettingsDoc>, cycleLength: int, periodLength: int, id: string, now: int)
    ensures var s := SaveSettings(settings, cycleLength, periodLength, id, now);
      && CurrentSettings(s).cycleLength == cycleLength
      && CurrentSettings(s).periodLength == periodLength
      && CurrentSettings(s).updatedAt == Some(now)
      && |s| == (if |settings| == 0 then 1 else |settings|)
      && s[1..] == (if |settings| == 0 then [] else settings[1..])
  {
  }

  /** Lengths within the bounds stay within them: what a valid update stores passes its own check. */
  lemma SettingsBoundsKept(settings: seq<SettingsDoc>, cycleLength: int, periodLength: int, id: string, now: int)
    requires SettingsError(cycleLength, periodLength).None?
    requires |settings| > 0 ==> SettingsError(settings[0].cycleLength, settings[0].periodLength).None?
    ensures var v := CurrentSettings(SaveSettings(settings, cycleLength, periodLength, id, now));
      SettingsError(v.cycleLength, v.periodLength).None?
  {
  }

  // ---------------------------------------------------------------------
  // The store and its handlers

  class PeriodStore {
    /** The `periodDays` collection, in query order. */
    var days: seq<PeriodDay>
    /** The `cycleSettings` collection, in query order. */
    var settings: seq<SettingsDoc>
    /** Source of fresh document ids (Firestore's automatic ids). */
    var nextId: nat

    /** One record per date: what sequential use of the handlers maintains. */
    predicate Valid()
      reads this
    {
      UniqueDates(days)
    }

    constructor ()
      ensures days == [] && settings == [] && nextId == 0
      ensures Valid()
    {
      days := [];
      settings := [];
      nextId := 0;
    }

    /** `CreatePeriodDay`: reject a badly shaped date, otherwise update the date's record or add one. */
    method CreatePeriodDay(req: DayRequest, now: int) returns (resp: DayResponse)
      modifies this
      ensures settings == old(settings)
      ensures !DateShape(req.date) ==>
        resp == DayRejected("Invalid date format. Use YYYY-MM-DD") && days == old(days) && nextId == old(nextId)
      ensures DateShape(req.date) ==> days == Upsert(old(days), req, NatToString(old(nextId)), now)
      ensures DateShape(req.date) && FindByDate(old(days), req.date).Some? ==>
        nextId == old(nextId) && resp == DayUpdated(days[FindByDate(old(days), req.date).value])
      ensures DateShape(req.date) && FindByDate(old(days), req.date).None? ==>
        nextId == old(nextId) + 1 && resp == DayCreated(NewRecord(NatToString(old(nextId)), req, now))
      ensures old(Valid()) ==> Valid()
    {
      if !DateShape(req.date) {
        return DayRejected("Invalid date format. Use YYYY-MM-DD");
      }
      if Valid() {
        UpsertUnique(days, req, NatToString(nextId), now);
      }
      var existing := FindByDate(days, req.date);
      if existing.Some? {
        var i := existing.value;
        days := days[i := Updated(days[i], req, now)];
        resp := DayUpdated(days[i]);
      } else {
        var d := NewRecord(NatToString(nextId), req, now);
        days := days + [d];
        nextId := nextId + 1;
        resp := DayCreated(d);
      }
    }

    /** `DeletePeriodDay`: an empty date is rejected, a date without a record is not found, otherwise its first record goes. */
    method DeletePeriodDay(date: string) returns (resp: DeleteResponse)
      modifies this
      ensures settings == old(settings) && nextId == old(nextId)
      ensures date == "" ==> resp == DeleteRejected("Date parameter is required") && days == old(days)
      ensures date != "" && FindByDate(old(days), date).None? ==>
        resp == DeleteNotFound("Period day not found") && days == old(days)
      ensures date != "" && FindByDate(old(days), date).Some? ==>
        resp == Deleted && days == RemoveFirst(old(days), date)
      ensures old(Valid()) ==> Valid() && forall k :: 0 <= k < |days| ==> days[k].date != date || date == ""
    {
      if date == "" {
        return DeleteRejected("Date parameter is required");
      }
      var found := FindByDate(days, date);
      if found.None? {
        return DeleteNotFound("Period day not found");
      }
      if Valid() {
        RemoveFirstEffect(days, date);
      }
      var i := found.value;
      days := days[..i] + days[i + 1..];
      resp := Deleted;
    }

    /** `GetCycleSettings`. */
    function GetCycleSettings(): (v: SettingsView)
      reads this
      ensures |settings| == 0 ==> v.cycleLength == DefaultCycleLength && v.periodLength == DefaultPeriodLength
    {
      CurrentSettings(settings)
    }

    /** `UpdateCycleSettings`: check both bounds before any write, then update the first document or add one. */
    method UpdateCycleSettings(req: SettingsRequest, now: int) returns (resp: SettingsResponse)
      modifies this
      ensures days == old(days)
      ensures SettingsError(req.cycleLength, req.periodLength).Some? ==>
        resp == SettingsRejected(SettingsError(req.cycleLength, req.periodLength).value) &&
        settings == old(settings) && nextId == old(nextId)
      ensures SettingsError(req.cycleLength, req.periodLength).None? ==>
        settings == SaveSettings(old(settings), req.cycleLength, req.periodLength, NatToString(old(nextId)), now) &&
        nextId == (if |old(settings)| == 0 then old(nextId) + 1 else old(nextId)) &&
        resp == SettingsSaved(SettingsView(
          if |old(settings)| == 0 then NatToString(old(nextId)) else req.id,
          req.cycleLength, req.periodLength, req.createdAt, Some(now)))
    {
      var e := SettingsError(req.cycleLength, req.periodLength);
      if e.Some? {
        return SettingsRejected(e.value);
      }
      var id := req.id;
      if |settings| > 0 {
        settings := settings[0 := settings[0].(cycleLength := req.cycleLength, periodLength := req.periodLength, updatedAt := now)];
      } else {
        id := NatToString(nextId);
        settings := [SettingsDoc(id, req.cycleLength, req.periodLength, now, now)];
        nextId := nextId + 1;
      }
      resp := SettingsSaved(SettingsView(id, req.cycleLength, req.periodLength, req.createdAt, Some(now)));
    }
  }
}
