/**
 * The daily check-in handlers of the Go backend (go/handlers/checkin.go)
 * over one user's `checkins` subcollection, held in query order: "the first
 * document" of the query on a date is the first element of the sequence
 * with that date. Times are milliseconds.
 */
module CheckinHandlers {
  import opened Optional
  import opened Text
  import opened Http

  /** A stored check-in. The optional answers are absent unless given; `createdAt` may be `null`. */
  datatype CheckinDoc = CheckinDoc(
    id: string,
    userId: string,
    date: string,
    mood: string,
    energy: string,
    periodStatus: Option<string>,
    sexualMood: Option<string>,
    note: Option<string>,
    createdAt: Option<int>,
    updatedAt: int)

  /** The fields of a create request the handler reads. */
  datatype CheckinRequest = CheckinRequest(
    date: string, mood: string, energy: string,
    periodStatus: string, sexualMood: string, note: string)

  /** `CheckinData` as the handlers answer with it: a missing answer reads as "". */
  datatype CheckinView = CheckinView(
    id: string,
    userId: string,
    date: string,
    mood: string,
    energy: string,
    periodStatus: string,
    sexualMood: string,
    note: string,
    createdAt: int,
    updatedAt: int)

  const DateRequired := "Date is required"
  const MoodRequired := "Mood is required"
  const EnergyRequired := "Energy is required"
  const InvalidDateFormat := "Invalid date format. Use YYYY-MM-DD"
  const DateParamRequired := "Date parameter is required"
  const CheckinNotFound := "Checkin not found for the specified date"
  const CheckinDeleted := "Checkin deleted successfully"

  /** The only date check the handlers make: ten characters with '-' at positions 4 and 7. */
  predicate DateShape(date: string)
  {
    |date| == 10 && date[4] == '-' && date[7] == '-'
  }

  /** The checks of `CreateCheckin`, in its order; `None` when the request passes them all. */
  function CreateError(req: CheckinRequest): (e: Option<string>)
    ensures e.None? <==> req.date != "" && req.mood != "" && req.energy != "" && DateShape(req.date)
    ensures req.date == "" ==> e == Some(DateRequired)
    ensures req.date != "" && req.mood == "" ==> e == Some(MoodRequired)
    ensures req.date != "" && req.mood != "" && req.energy == "" ==> e == Some(EnergyRequired)
    ensures req.date != "" && req.mood != "" && req.energy != "" && !DateShape(req.date) ==> e == Some(InvalidDateFormat)
  {
    if req.date == "" then Some(DateRequired)
    else if req.mood == "" then Some(MoodRequired)
    else if req.energy == "" then Some(EnergyRequired)
    else if !DateShape(req.date) then Some(InvalidDateFormat)
    else None
  }

  /** The checks of `GetTodayCheckin` and `DeleteCheckin` on the date parameter. */
  function DateParamError(date: string): (e: Option<string>)
    ensures e.None? <==> DateShape(date)
    ensures date == "" ==> e == Some(DateParamRequired)
    ensures date != "" && !DateShape(date) ==> e == Some(InvalidDateFormat)
  {
    if date == "" then Some(DateParamRequired)
    else if !DateShape(date) then Some(InvalidDateFormat)
    else None
  }

  /** The index of the first check-in of `date`. */
  function FindCheckin(docs: seq<CheckinDoc>, date: string): (r: Option<nat>)
    ensures r.Some? ==>
      r.value < |docs| && docs[r.value].date == date && forall j :: 0 <= j < r.value ==> docs[j].date != date
    ensures r.None? ==> forall j :: 0 <= j < |docs| ==> docs[j].date != date
  {
    if |docs| == 0 then None
    else if docs[0].date == date then Some(0)
    else
      match FindCheckin(docs[1..], date)
      case None => None
      case Some(j) => Some(j + 1)
  }

  /** An answer that is given when non-empty and left out of the document otherwise. */
  function Given(s: string): (o: Option<string>)
    ensures o.None? <==> s == ""
    ensures o.Some? ==> o.value == s
  {
    if s == "" then None else Some(s)
  }

  /**
   * The document `CreateCheckin` writes with a full `Set`: the request's
   * answers, the date's existing document id and creation time, or a new id
   * and `now` as the creation time.
   */
  function Written(existing: Option<CheckinDoc>, req: CheckinRequest, userID: string, newId: string, now: int): CheckinDoc
  {
    var id := if existing.Some? then existing.value.id else newId;
    var createdAt := if existing.Some? then existing.value.createdAt else Some(now);
    CheckinDoc(id, userID, req.date, req.mood, req.energy,
               Given(req.periodStatus), Given(req.sexualMood), Given(req.note), createdAt, now)
  }

  /** The subcollection after a create that passed its checks: the date's first document is replaced, or one is added. */
  function Upsert(docs: seq<CheckinDoc>, req: CheckinRequest, userID: string, newId: string, now: int): seq<CheckinDoc>
  {
    match FindCheckin(docs, req.date)
    case Some(i) => docs[i := Written(Some(docs[i]), req, userID, newId, now)]
    case None => docs + [Written(None, req, userID, newId, now)]
  }

  /** How a stored check-in is answered with: a missing answer is "", a `null` creation time is `now`. */
  function ViewOf(doc: CheckinDoc, userID: string, now: int): (v: CheckinView)
    ensures v.id == doc.id && v.userId == userID && v.date == doc.date
    ensures doc.createdAt.Some? ==> v.createdAt == doc.createdAt.value
    ensures doc.createdAt.None? ==> v.createdAt == now
  {
    CheckinView(doc.id, userID, doc.date, doc.mood, doc.energy,
                OrEmpty(doc.periodStatus), OrEmpty(doc.sexualMood), OrEmpty(doc.note),
                if doc.createdAt.Some? then doc.createdAt.value else now, doc.updatedAt)
  }

  /** `util.GetStringValue` on a field that is a string when present. */
  function OrEmpty(o: Option<string>): string
  {
    if o.Some? then o.value else ""
  }

  /** `GetTodayCheckin`: the date's first check-in, or an error. */
  function TodayCheckin(docs: seq<CheckinDoc>, userID: string, date: string, now: int): (r: Reply<CheckinView>)
    ensures r.Fail? && r.status == BadRequest <==> !DateShape(date)
    ensures DateShape(date) ==> (r.Fail? <==> forall j :: 0 <= j < |docs| ==> docs[j].date != date)
    ensures r.Fail? && DateShape(date) ==> r == Fail(NotFound, CheckinNotFound)
    ensures r.Ok? ==> exists j :: 0 <= j < |docs| && docs[j].date == date && r.body == ViewOf(docs[j], userID, now)
    ensures !r.Panicked?
  {
    match DateParamError(date)
    case Some(e) => Fail(BadRequest, e)
    case None =>
      match FindCheckin(docs, date)
      case None => Fail(NotFound, CheckinNotFound)
      case Some(i) => Ok(ViewOf(docs[i], userID, now))
  }

  /** The subcollection after deleting the date's first check-in. */
  function RemoveFirst(docs: seq<CheckinDoc>, date: string): seq<CheckinDoc>
  {
    match FindCheckin(docs, date)
    case Some(i) => docs[..i] + docs[i + 1..]
    case None => docs
  }

  // ---------------------------------------------------------------------
  // What the handlers maintain

  /** At most one check-in per date. */
  predicate UniqueDates(docs: seq<CheckinDoc>)
  {
    forall i, j :: 0 <= i < j < |docs| ==> docs[i].date != docs[j].date
  }

  /** Every check-in has a creation time. */
  predicate Stamped(docs: seq<CheckinDoc>)
  {
    forall i :: 0 <= i < |docs| ==> docs[i].createdAt.Some?
  }

  lemma FindFirst(docs: seq<CheckinDoc>, date: string, i: nat)
    requires i < |docs| && docs[i].date == date
    requires forall j :: 0 <= j < i ==> docs[j].date != date
    ensures FindCheckin(docs, date) == Some(i)
  {
    var r := FindCheckin(docs, date);
    assert r.Some?;
  }

  /**
   * After a create the date's check-in is the written document: an existing
   * one keeps its place, its id and its creation time, a new one is
   * appended with the new id and created now, and no other check-in changes.
   */
  lemma UpsertLookup(docs: seq<CheckinDoc>, req: CheckinRequest, userID: string, newId: string, now: int)
    ensures var r := Upsert(docs, req, userID, newId, now);
      var found := FindCheckin(docs, req.date);
      && FindCheckin(r, req.date).Some?
      && r[FindCheckin(r, req.date).value] == Written(if found.Some? then Some(docs[found.value]) else None, req, userID, newId, now)
      && (found.Some? ==>
            |r| == |docs| && FindCheckin(r, req.date) == found
            && r[found.value].id == docs[found.value].id && r[found.value].createdAt == docs[found.value].createdAt)
      && (found.None? ==> |r| == |docs| + 1 && r[|docs|].id == newId && r[|docs|].createdAt == Some(now))
      && (forall k :: 0 <= k < |docs| && docs[k].date != req.date ==> r[k] == docs[k])
  {
    var r := Upsert(docs, req, userID, newId, now);
    match FindCheckin(docs, req.date)
    case Some(i) =>
      FindFirst(r, req.date, i);
    case None =>
      FindFirst(r, req.date, |docs|);
  }

  /** A create keeps one check-in per date and a creation time on each. */
  lemma UpsertKeeps(docs: seq<CheckinDoc>, req: CheckinRequest, userID: string, newId: string, now: int)
    requires UniqueDates(docs) && Stamped(docs)
    ensures UniqueDates(Upsert(docs, req, userID, newId, now)) && Stamped(Upsert(docs, req, userID, newId, now))
  {
  }

  /**
   * Reading a date back after creating its check-in answers with the
   * request's answers: the optional ones exactly as sent, so an empty one
   * clears what an earlier check-in of that date held.
   */
  lemma CreateThenGet(docs: seq<CheckinDoc>, req: CheckinRequest, userID: string, newId: string, now: int, later: int)
    requires CreateError(req).None?
    ensures var r := TodayCheckin(Upsert(docs, req, userID, newId, now), userID, req.date, later);
      && r.Ok? && r.body.date == req.date && r.body.mood == req.mood && r.body.energy == req.energy
      && r.body.periodStatus == req.periodStatus && r.body.sexualMood == req.sexualMood && r.body.note == req.note
      && r.body.userId == userID && r.body.updatedAt == now
  {
    UpsertLookup(docs, req, userID, newId, now);
  }

  /** Re-sending a check-in for a date changes neither the number of check-ins, nor the date's id, nor its creation time. */
  lemma CreateTwice(docs: seq<CheckinDoc>, req: CheckinRequest, userID: string, newId: string, newId2: string, now: int, later: int)
    ensures var once := Upsert(docs, req, userID, newId, now);
      var twice := Upsert(once, req, userID, newId2, later);
      && |twice| == |once|
      && FindCheckin(twice, req.date) == FindCheckin(once, req.date)
      && twice[FindCheckin(twice, req.date).value].id == once[FindCheckin(once, req.date).value].id
      && twice[FindCheckin(twice, req.date).value].createdAt == once[FindCheckin(once, req.date).value].createdAt
  {
    UpsertLookup(docs, req, userID, newId, now);
    UpsertLookup(Upsert(docs, req, userID, newId, now), req, userID, newId2, later);
  }

  /** A create for one date does not change what another date reads. */
  lemma CreateOther(docs: seq<CheckinDoc>, req: CheckinRequest, userID: string, newId: string, now: int, date: string, later: int)
    requires date != req.date
    ensures TodayCheckin(Upsert(docs, req, userID, newId, now), userID, date, later) == TodayCheckin(docs, userID, date, later)
  {
    var r := Upsert(docs, req, userID, newId, now);
    UpsertLookup(docs, req, userID, newId, now);
    assert |r| > |docs| ==> r[|docs|].date == req.date;
    match FindCheckin(docs, date)
    case None =>
      assert FindCheckin(r, date).None?;
    case Some(j) =>
      FindFirst(r, date, j);
  }

  /** With one check-in per date, a deleted date then reads as not found; the others stay, in order. */
  lemma DeleteThenGet(docs: seq<CheckinDoc>, userID: string, date: string, now: int)
    requires UniqueDates(docs) && DateShape(date)
    ensures var r := RemoveFirst(docs, date);
      && TodayCheckin(r, userID, date, now) == Fail(NotFound, CheckinNotFound)
      && UniqueDates(r)
      && (forall d :: d in r <==> d in docs && d.date != date)
  {
    var r := RemoveFirst(docs, date);
    match FindCheckin(docs, date)
    case None =>
    case Some(i) =>
      assert r == docs[..i] + docs[i + 1..];
      forall d ensures d in r <==> d in docs && d.date != date {
        if d in docs && d.date != date {
          var k :| 0 <= k < |docs| && docs[k] == d;
          if k < i { assert r[k] == d; } else { assert r[k - 1] == d; }
        }
      }
  }

  /** Deleting one date does not change what another date reads. */
  lemma DeleteOther(docs: seq<CheckinDoc>, userID: string, date: string, other: string, now: int)
    requires other != date
    ensures TodayCheckin(RemoveFirst(docs, date), userID, other, now) == TodayCheckin(docs, userID, other, now)
  {
    match FindCheckin(docs, date)
    case None =>
    case Some(i) =>
      var r := docs[..i] + docs[i + 1..];
      assert forall k :: 0 <= k < |r| ==> r[k] == if k < i then docs[k] else docs[k + 1];
      match FindCheckin(docs, other)
      case None =>
        assert FindCheckin(r, other).None?;
      case Some(j) =>
        var j' := if j < i then j else j - 1;
        assert r[j'] == docs[j];
        FindFirst(r, other, j');
  }

  // ---------------------------------------------------------------------
  // The store and its handlers

  class CheckinStore {
    /** The signed-in user's id. */
    const userID: string
    /** The user's `checkins` subcollection, in query order. */
    var checkins: seq<CheckinDoc>
    /** Source of fresh document ids (Firestore's automatic ids). */
    var nextId: nat

    /** One check-in per date, each with a creation time. */
    predicate Valid()
      reads this
    {
      UniqueDates(checkins) && Stamped(checkins)
    }

    constructor (uid: string)
      ensures userID == uid && checkins == [] && nextId == 0
      ensures Valid()
    {
      userID := uid;
      checkins := [];
      nextId := 0;
    }

    /** `CreateCheckin`: the checks, then the full write of the date's document, answered as read back. */
    method CreateCheckin(req: CheckinRequest, now: int) returns (r: Reply<CheckinView>)
      modifies this
      ensures CreateError(req).Some? ==>
        r == Fail(BadRequest, CreateError(req).value) && checkins == old(checkins) && nextId == old(nextId)
      ensures CreateError(req).None? ==>
        && checkins == Upsert(old(checkins), req, userID, NatToString(old(nextId)), now)
        && r == TodayCheckin(checkins, userID, req.date, now)
        && nextId == (if FindCheckin(old(checkins), req.date).Some? then old(nextId) else old(nextId) + 1)
      ensures old(Valid()) ==> Valid()
    {
      var e := CreateError(req);
      if e.Some? {
        return Fail(BadRequest, e.value);
      }
      var existing := FindCheckin(checkins, req.date);
      var newId := NatToString(nextId);
      if Valid() {
        UpsertKeeps(checkins, req, userID, newId, now);
      }
      UpsertLookup(checkins, req, userID, newId, now);
      var doc: CheckinDoc;
      var i: nat;
      if existing.Some? {
        i := existing.value;
        doc := Written(Some(checkins[i]), req, userID, newId, now);
        checkins := checkins[i := doc];
      } else {
        i := |checkins|;
        doc := Written(None, req, userID, newId, now);
        checkins := checkins + [doc];
        nextId := nextId + 1;
      }
      r := Ok(ViewOf(doc, userID, now));
    }

    /** `DeleteCheckin`: the checks on the date, then removal of its first check-in. */
    method DeleteCheckin(date: string) returns (r: Reply<string>)
      modifies this
      ensures nextId == old(nextId)
      ensures DateParamError(date).Some? ==> r == Fail(BadRequest, DateParamError(date).value) && checkins == old(checkins)
      ensures DateParamError(date).None? && FindCheckin(old(checkins), date).None? ==>
        r == Fail(NotFound, CheckinNotFound) && checkins == old(checkins)
      ensures DateParamError(date).None? && FindCheckin(old(checkins), date).Some? ==>
        r == Ok(CheckinDeleted) && checkins == RemoveFirst(old(checkins), date)
      ensures old(Valid()) ==> Valid()
    {
      var e := DateParamError(date);
      if e.Some? {
        return Fail(BadRequest, e.value);
      }
      var found := FindCheckin(checkins, date);
      if found.None? {
        return Fail(NotFound, CheckinNotFound);
      }
      if Valid() {
        DeleteThenGet(checkins, userID, date, 0);
      }
      var i := found.value;
      checkins := checkins[..i] + checkins[i + 1..];
      r := Ok(CheckinDeleted);
    }
  }
}
