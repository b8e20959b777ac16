/**
 * The event handlers of go/handlers/ddays.go over an in-memory `ddays`
 * collection: the month feed with its three queries, visibility filter and
 * de-duplication, creation with the date and title checks and the partner
 * added to `connectedUsers`, updates that skip the protected fields, deletion
 * by the creator only, and the upload size limit.
 *
 * Event documents are field maps (`GoUtil.Document`), as Firestore stores
 * them; dates are YYYYMMDD strings. The caller's e-mail, which the handlers
 * read from the `users` collection, is a parameter, and so is the clock.
 */
module EventHandlers {
  import opened Optional
  import opened Text
  import opened Dates
  import opened GoUtil
  import opened Http
  import DDays

  const FormatError := "Invalid date format. Use YYYYMMDD"
  const ValuesError := "Invalid date values"

  // ---------------------------------------------------------------------
  // Date strings

  /** `strconv.Atoi` with its error ignored: 0 when the string does not parse. */
  function AtoiOrZero(s: string): (n: int)
    ensures AllDigits(s) && |s| >= 1 ==> n == DigitsValue(s)
  {
    var r := GoAtoi(s);
    if r.Some? then r.value else 0
  }

  lemma DigitPieces(date: string)
    ensures |date| == 8 && AllDigits(date) ==> AllDigits(date[0..4]) && AllDigits(date[4..6]) && AllDigits(date[6..8])
  {
    if |date| == 8 {
      assert forall i :: 0 <= i < 2 ==> date[4..6][i] == date[4 + i] && date[6..8][i] == date[6 + i];
      assert forall i :: 0 <= i < 4 ==> date[0..4][i] == date[i];
    }
  }

  /**
   * The check CreateDDay and UpdateDDay make of a non-empty event date:
   * eight characters whose year, month and day pieces parse as integers,
   * with the month in 1..12 and the day in 1..31.
   */
  function DateError(date: string): (e: Option<string>)
    ensures date == "" ==> e.None?
    ensures date != "" && |date| != 8 ==> e == Some(FormatError)
    ensures |date| == 8 && AllDigits(date) ==>
      (e.None? <==> 1 <= DigitsValue(date[4..6]) <= 12 && 1 <= DigitsValue(date[6..8]) <= 31)
    ensures e.Some? ==> e.value == FormatError || e.value == ValuesError
  {
    if date == "" then None
    else if |date| != 8 then Some(FormatError)
    else
      var year, month, day := GoAtoi(date[0..4]), GoAtoi(date[4..6]), GoAtoi(date[6..8]);
      DigitPieces(date);
      if year.None? || month.None? || day.None? || month.value < 1 || month.value > 12 || day.value < 1 || day.value > 31
      then Some(ValuesError)
      else None
  }

  /** Every date the calendar's own date format can produce passes the check. */
  lemma ApiDatesAccepted(s: string)
    requires DDays.ValidApiDate(s)
    ensures DateError(s).None?
  {
    DigitPieces(s);
    assert s[6..8] == s[6..];
  }

  /**
   * The check is looser than the format: a sign inside a piece and a day
   * past the end of its month both pass, and a letter in the year does not.
   */
  lemma DateCheckExamples()
    ensures DateError("2025+101").None?
    ensures DateError("20250231").None?
    ensures DateError("2025a101") == Some(ValuesError)
    ensures DateError("2025131") == Some(FormatError)
  {
    assert "2025+101"[4..6] == "+1" && "2025+101"[6..8] == "01" && "2025+101"[0..4] == "2025";
    assert AllDigits("2025") && AllDigits("01") && AllDigits("1");
    assert "+1"[1..] == "1";
    assert DigitsValue("1") == 1 && DigitsValue("01") == 1;
    assert "20250231"[4..6] == "02" && "20250231"[6..8] == "31" && "20250231"[0..4] == "2025";
    assert AllDigits("02") && AllDigits("31");
    assert DigitsValue("0") == 0 && DigitsValue("3") == 3;
    assert DigitsValue("02") == 2 && DigitsValue("31") == 31;
    assert "2025a101"[0..4] == "2025" && "2025a101"[4..6] == "a1";
    assert !IsDigit('a');
  }

  // ---------------------------------------------------------------------
  // The viewed month

  /** `viewMonthStartStr`: the view followed by "01". */
  function MonthStart(viewDate: string): string
  {
    viewDate + "01"
  }

  /**
   * `lastDayOfMonth`: the day of `time.Date(year, month + 1, 0)`, the day
   * before the first of the next month; an unparsable piece counts as 0.
   */
  function LastDayOfViewMonth(viewDate: string): (d: int)
    requires |viewDate| >= 6
    ensures 1 <= d <= 31
  {
    var z := GoDate(AtoiOrZero(viewDate[0..4]), AtoiOrZero(viewDate[4..6]) + 1, 0);
    CivilFromDaysValid(z);
    CivilFromDays(z).day
  }

  /** `viewMonthEndStr`: the view followed by the two-digit last day (`%02d`). */
  function MonthEnd(viewDate: string): string
    requires |viewDate| >= 6
  {
    viewDate + TwoDigits(LastDayOfViewMonth(viewDate))
  }

  /** For a YYYYMM view of an existing month, the feed ends on that month's last day. */
  lemma MonthBounds(viewDate: string)
    requires |viewDate| == 6 && AllDigits(viewDate)
    requires 1 <= DigitsValue(viewDate[4..6]) <= 12
    ensures var year, month := DigitsValue(viewDate[0..4]), DigitsValue(viewDate[4..6]);
      MonthEnd(viewDate) == viewDate + TwoDigits(DaysInMonth(year, month)) &&
      MonthStart(viewDate) == viewDate + TwoDigits(1)
  {
    assert forall i :: 0 <= i < 4 ==> viewDate[0..4][i] == viewDate[i];
    assert forall i :: 0 <= i < 2 ==> viewDate[4..6][i] == viewDate[4 + i];
    var year, month := DigitsValue(viewDate[0..4]), DigitsValue(viewDate[4..6]);
    LastDayOfMonth(year, month);
    assert TwoDigits(1) == "01";
  }

  // ---------------------------------------------------------------------
  // Documents and their fields

  /** A document of the `ddays` collection. */
  datatype EventDoc = EventDoc(id: string, data: Document)

  /** Go's map index: a missing key reads as `nil`. */
  function FieldOrNil(data: Document, key: string): Value
  {
    if key in data then data[key] else Nil
  }

  /** `data[key].(bool)` in its comma-ok form: false unless the field is a boolean. */
  function BoolField(data: Document, key: string): bool
  {
    key in data && data[key].Bool? && data[key].b
  }

  /** `data[key].(time.Time)` in its comma-ok form: absent (the zero time) unless the field is a time. */
  function TimeField(data: Document, key: string): Option<int>
  {
    if key in data && data[key].Time? then Some(data[key].t) else None
  }

  /** `endDateStr`: the end date, or the date when the end date is empty. */
  function EndDateOrDate(data: Document): string
  {
    var endDate := GetStringValue(data, "endDate");
    if endDate == "" then GetStringValue(data, "date") else endDate
  }

  /**
   * The filter of the feed loop. An annual event with an eight-character
   * date is kept when its month characters are the view's; a shorter date
   * keeps it. Any other event is kept unless its end date (its date when it
   * has none) is set and sorts before the first of the month.
   */
  predicate Visible(data: Document, viewDate: string)
  {
    var dateStr := GetStringValue(data, "date");
    var endDateStr := EndDateOrDate(data);
    if BoolField(data, "isAnnual") then
      (|dateStr| >= 8 && |viewDate| >= 6) ==> dateStr[4..6] == viewDate[4..6]
    else
      !(endDateStr != "" && StrLt(endDateStr, MonthStart(viewDate)))
  }

  /** An event in the feed response; `createdAt`/`updatedAt` are absent for the zero time. */
  datatype EventView = EventView(
    id: string,
    title: string,
    group: string,
    description: string,
    date: string,
    endDate: string,
    imageUrl: string,
    isAnnual: bool,
    createdBy: string,
    connectedUsers: StringSlice,
    createdAt: Option<int>,
    updatedAt: Option<int>,
    editable: bool)

  /** `editable`: the stored boolean, and true when the field is absent or not a boolean. */
  function Editable(data: Document): (b: bool)
    ensures "editable" in data && data["editable"].Bool? ==> b == data["editable"].b
    ensures !("editable" in data && data["editable"].Bool?) ==> b
  {
    if "editable" in data then
      match data["editable"]
      case Bool(b) => b
      case _ => true
    else true
  }

  /** The event the feed builds from a kept document. */
  function ViewOf(doc: EventDoc): EventView
  {
    var data := doc.data;
    EventView(doc.id, GetStringValue(data, "title"), GetStringValue(data, "group"),
      GetStringValue(data, "description"), GetStringValue(data, "date"), EndDateOrDate(data),
      GetStringValue(data, "imageUrl"), BoolField(data, "isAnnual"), GetStringValue(data, "createdBy"),
      StringsOf(FieldOrNil(data, "connectedUsers")), TimeField(data, "createdAt"), TimeField(data, "updatedAt"),
      Editable(data))
  }

  /** `ToStringSlice(data["connectedUsers"])` panics on this document. */
  predicate PanicsOn(doc: EventDoc)
  {
    StringsOf(FieldOrNil(doc.data, "connectedUsers")).Panics?
  }

  // ---------------------------------------------------------------------
  // The three feed queries

  /**
   * Q1: created by the user and dated on or before the month end; Q2: the
   * user is in `connectedUsers` and dated on or before the month end; Q3:
   * created by the user and annual. A range filter on `date` only matches
   * documents whose `date` is a string.
   */
  datatype Query = OwnDated(email: string, end: string) | SharedDated(email: string, end: string) | OwnAnnual(email: string)

  predicate CreatedBy(doc: EventDoc, email: string)
  {
    "createdBy" in doc.data && doc.data["createdBy"] == Str(email)
  }

  predicate DatedBy(doc: EventDoc, end: string)
  {
    "date" in doc.data && doc.data["date"].Str? && StrLe(doc.data["date"].s, end)
  }

  predicate SharedWith(doc: EventDoc, email: string)
  {
    "connectedUsers" in doc.data && doc.data["connectedUsers"].List? && Str(email) in doc.data["connectedUsers"].items
  }

  predicate Matches(q: Query, doc: EventDoc)
  {
    match q
    case OwnDated(email, end) => CreatedBy(doc, email) && DatedBy(doc, end)
    case SharedDated(email, end) => SharedWith(doc, email) && DatedBy(doc, end)
    case OwnAnnual(email) => CreatedBy(doc, email) && "isAnnual" in doc.data && doc.data["isAnnual"] == Bool(true)
  }

  /** The documents a query returns, in collection order. */
  function Run(docs: seq<EventDoc>, q: Query): (r: seq<EventDoc>)
    ensures forall d :: d in r <==> d in docs && Matches(q, d)
  {
    if |docs| == 0 then []
    else
      var rest := Run(docs[..|docs| - 1], q);
      var last := docs[|docs| - 1];
      assert forall d :: d in docs <==> d in docs[..|docs| - 1] || d == last;
      if Matches(q, last) then rest + [last] else rest
  }

  /** The three queries of the feed, in the order the handler runs them. */
  function FeedQueries(docs: seq<EventDoc>, email: string, viewDate: string): (qs: seq<seq<EventDoc>>)
    requires |viewDate| >= 6
    ensures |qs| == 3
  {
    var end := MonthEnd(viewDate);
    [Run(docs, OwnDated(email, end)), Run(docs, SharedDated(email, end)), Run(docs, OwnAnnual(email))]
  }

  /** The query results one after another. */
  function Flatten(qs: seq<seq<EventDoc>>): seq<EventDoc>
  {
    if |qs| == 0 then [] else Flatten(qs[..|qs| - 1]) + qs[|qs| - 1]
  }

  lemma {:induction false} InFlatten(qs: seq<seq<EventDoc>>, d: EventDoc)
    ensures d in Flatten(qs) <==> exists i :: 0 <= i < |qs| && d in qs[i]
  {
    if |qs| > 0 {
      InFlatten(qs[..|qs| - 1], d);
      assert forall i :: 0 <= i < |qs| - 1 ==> qs[..|qs| - 1][i] == qs[i];
    }
  }

  // ---------------------------------------------------------------------
  // The feed loop

  /** The loop's state: the events so far and the `seen` ids (Go's `map[string]bool`, true entries only). */
  datatype Collected = Collected(events: seq<EventView>, seen: set<string>)

  /** One iteration: skip a seen or invisible document, otherwise mark it seen and add its event. */
  function Step(st: Collected, doc: EventDoc, viewDate: string): Collected
  {
    if doc.id in st.seen || !Visible(doc.data, viewDate) then st
    else Collected(st.events + [ViewOf(doc)], st.seen + {doc.id})
  }

  /** The state after the loop has gone through `docs`. */
  function Gather(docs: seq<EventDoc>, viewDate: string): Collected
  {
    if |docs| == 0 then Collected([], {})
    else Step(Gather(docs[..|docs| - 1], viewDate), docs[|docs| - 1], viewDate)
  }

  /** An event of the feed comes from a visible document of the queried ones. */
  predicate FromVisible(docs: seq<EventDoc>, e: EventView, viewDate: string)
  {
    exists d :: d in docs && Visible(d.data, viewDate) && e == ViewOf(d)
  }

  predicate DistinctViewIds(events: seq<EventView>)
  {
    forall i, j :: 0 <= i < j < |events| ==> events[i].id != events[j].id
  }

  /**
   * What the feed loop keeps: each id listed once, `seen` holding exactly
   * the listed ids, every event from a visible document of `docs`, and every
   * visible document of `docs` seen.
   */
  ghost predicate FeedInvariant(docs: seq<EventDoc>, st: Collected, viewDate: string)
  {
    && DistinctViewIds(st.events)
    && (forall x :: x in st.seen <==> exists i :: 0 <= i < |st.events| && st.events[i].id == x)
    && (forall i :: 0 <= i < |st.events| ==> FromVisible(docs, st.events[i], viewDate))
    && (forall d :: d in docs && Visible(d.data, viewDate) ==> d.id in st.seen)
  }

  /** The loop keeps its invariant over any sequence of documents. */
  lemma GatherFacts(docs: seq<EventDoc>, viewDate: string)
    ensures FeedInvariant(docs, Gather(docs, viewDate), viewDate)
  {
    GatherSeen(docs, viewDate);
    GatherDistinct(docs, viewDate);
    GatherFrom(docs, viewDate);
    GatherVisibleSeen(docs, viewDate);
  }

  lemma {:induction false} GatherSeen(docs: seq<EventDoc>, viewDate: string)
    ensures forall x :: x in Gather(docs, viewDate).seen <==>
      exists i :: 0 <= i < |Gather(docs, viewDate).events| && Gather(docs, viewDate).events[i].id == x
  {
    if |docs| > 0 {
      var pre := docs[..|docs| - 1];
      var last := docs[|docs| - 1];
      GatherSeen(pre, viewDate);
      var st0 := Gather(pre, viewDate);
      var st := Gather(docs, viewDate);
      if st != st0 {
        assert st.events == st0.events + [ViewOf(last)] && st.seen == st0.seen + {last.id};
        forall x | x in st.seen
          ensures exists i :: 0 <= i < |st.events| && st.events[i].id == x
        {
          if x in st0.seen {
            var i :| 0 <= i < |st0.events| && st0.events[i].id == x;
            assert st.events[i] == st0.events[i];
          } else {
            assert st.events[|st0.events|].id == x;
          }
        }
      }
    }
  }

  lemma {:induction false} GatherDistinct(docs: seq<EventDoc>, viewDate: string)
    ensures DistinctViewIds(Gather(docs, viewDate).events)
  {
    if |docs| > 0 {
      var pre := docs[..|docs| - 1];
      GatherDistinct(pre, viewDate);
      GatherSeen(pre, viewDate);
    }
  }

  lemma {:induction false} GatherFrom(docs: seq<EventDoc>, viewDate: string)
    ensures forall i :: 0 <= i < |Gather(docs, viewDate).events| ==> FromVisible(docs, Gather(docs, viewDate).events[i], viewDate)
  {
    if |docs| > 0 {
      var pre := docs[..|docs| - 1];
      var last := docs[|docs| - 1];
      GatherFrom(pre, viewDate);
      var st0 := Gather(pre, viewDate);
      var st := Gather(docs, viewDate);
      forall i | 0 <= i < |st.events|
        ensures FromVisible(docs, st.events[i], viewDate)
      {
        if i < |st0.events| {
          assert st.events[i] == st0.events[i];
          assert FromVisible(pre, st0.events[i], viewDate);
          var d :| d in pre && Visible(d.data, viewDate) && st0.events[i] == ViewOf(d);
          assert d in docs;
        } else {
          assert st.events[i] == ViewOf(last);
        }
      }
    }
  }

  lemma {:induction false} GatherVisibleSeen(docs: seq<EventDoc>, viewDate: string)
    ensures forall d :: d in docs && Visible(d.data, viewDate) ==> d.id in Gather(docs, viewDate).seen
  {
    if |docs| > 0 {
      var pre := docs[..|docs| - 1];
      GatherVisibleSeen(pre, viewDate);
      assert forall d :: d in docs <==> d in pre || d == docs[|docs| - 1];
    }
  }

  /** Distinct documents of the collection have distinct ids. */
  predicate UniqueIds(docs: seq<EventDoc>)
  {
    forall i, j :: 0 <= i < j < |docs| ==> docs[i].id != docs[j].id
  }

  /** The feed over documents drawn from a collection with unique ids. */
  lemma GatherOfSubset(docs: seq<EventDoc>, all: seq<EventDoc>, viewDate: string)
    requires UniqueIds(docs)
    requires forall d :: d in all ==> d in docs
    ensures DistinctViewIds(Gather(all, viewDate).events)
    ensures forall d :: d in all && Visible(d.data, viewDate) ==> ViewOf(d) in Gather(all, viewDate).events
    ensures forall e :: e in Gather(all, viewDate).events ==> FromVisible(all, e, viewDate)
  {
    GatherFacts(all, viewDate);
    var st := Gather(all, viewDate);
    forall d | d in all && Visible(d.data, viewDate)
      ensures ViewOf(d) in st.events
    {
      assert d.id in st.seen;
      var i :| 0 <= i < |st.events| && st.events[i].id == d.id;
      assert FromVisible(all, st.events[i], viewDate);
      var d' :| d' in all && Visible(d'.data, viewDate) && st.events[i] == ViewOf(d');
      SameId(docs, d, d');
    }
    forall e | e in st.events
      ensures FromVisible(all, e, viewDate)
    {
      var i :| 0 <= i < |st.events| && st.events[i] == e;
    }
  }

  lemma SameId(docs: seq<EventDoc>, a: EventDoc, b: EventDoc)
    requires UniqueIds(docs)
    requires a in docs && b in docs && a.id == b.id
    ensures a == b
  {
    var i :| 0 <= i < |docs| && docs[i] == a;
    var j :| 0 <= j < |docs| && docs[j] == b;
  }

  /** Going through one more document is one more step. */
  lemma GatherSnoc(docs: seq<EventDoc>, doc: EventDoc, viewDate: string)
    ensures Gather(docs + [doc], viewDate) == Step(Gather(docs, viewDate), doc, viewDate)
  {
    assert (docs + [doc])[..|docs|] == docs;
  }

  // ---------------------------------------------------------------------
  // The feed

  const MissingViewError := "Missing view date parameter"

  /** A document that one of the three feed queries returns. */
  predicate Queried(doc: EventDoc, email: string, viewDate: string)
    requires |viewDate| >= 6
  {
    var end := MonthEnd(viewDate);
    Matches(OwnDated(email, end), doc) || Matches(SharedDated(email, end), doc) || Matches(OwnAnnual(email), doc)
  }

  /**
   * `GetDDays` as a value: a missing view is a bad request, a view shorter
   * than six characters panics at its slicing, and so does a queried
   * document whose `connectedUsers` holds a non-string; otherwise the events
   * the loop collects over the three query results.
   */
  function Feed(docs: seq<EventDoc>, email: string, viewDate: string): Reply<seq<EventView>>
  {
    if viewDate == "" then Fail(BadRequest, MissingViewError)
    else if |viewDate| < 6 then Panicked
    else
      var all := Flatten(FeedQueries(docs, email, viewDate));
      if exists d :: d in all && PanicsOn(d) then Panicked
      else Ok(Gather(all, viewDate).events)
  }

  /** The three query results together hold exactly the queried documents. */
  lemma FeedMembers(docs: seq<EventDoc>, email: string, viewDate: string)
    requires |viewDate| >= 6
    ensures forall d :: d in Flatten(FeedQueries(docs, email, viewDate)) <==> d in docs && Queried(d, email, viewDate)
  {
    forall d
      ensures d in Flatten(FeedQueries(docs, email, viewDate)) <==> d in docs && Queried(d, email, viewDate)
    {
      FeedMember(docs, email, viewDate, d);
    }
  }

  lemma FeedMember(docs: seq<EventDoc>, email: string, viewDate: string, d: EventDoc)
    requires |viewDate| >= 6
    ensures d in Flatten(FeedQueries(docs, email, viewDate)) <==> d in docs && Queried(d, email, viewDate)
  {
    var end := MonthEnd(viewDate);
    var qs := FeedQueries(docs, email, viewDate);
    InFlatten(qs, d);
    assert qs[0] == Run(docs, OwnDated(email, end));
    assert qs[1] == Run(docs, SharedDated(email, end));
    assert qs[2] == Run(docs, OwnAnnual(email));
  }

  /** When the feed answers and when it fails. */
  lemma FeedOutcome(docs: seq<EventDoc>, email: string, viewDate: string)
    ensures viewDate == "" ==> Feed(docs, email, viewDate) == Fail(BadRequest, MissingViewError)
    ensures viewDate != "" && !Feed(docs, email, viewDate).Ok? ==> Feed(docs, email, viewDate).Panicked?
    ensures Feed(docs, email, viewDate).Ok? <==>
      |viewDate| >= 6 && forall d :: d in docs && Queried(d, email, viewDate) ==> !PanicsOn(d)
  {
    if |viewDate| >= 6 {
      FeedMembers(docs, email, viewDate);
    }
  }

  /**
   * With unique document ids, the feed lists each id once, holds the event
   * of every visible document a query returns, and nothing else.
   */
  lemma FeedContents(docs: seq<EventDoc>, email: string, viewDate: string)
    requires UniqueIds(docs)
    requires Feed(docs, email, viewDate).Ok?
    ensures DistinctViewIds(Feed(docs, email, viewDate).body)
    ensures forall d :: d in docs && Queried(d, email, viewDate) && Visible(d.data, viewDate) ==>
      ViewOf(d) in Feed(docs, email, viewDate).body
    ensures forall e :: e in Feed(docs, email, viewDate).body ==>
      exists d :: d in docs && Queried(d, email, viewDate) && Visible(d.data, viewDate) && e == ViewOf(d)
  {
    var all := Flatten(FeedQueries(docs, email, viewDate));
    FeedMembers(docs, email, viewDate);
    GatherOfSubset(docs, all, viewDate);
  }

  /** No event of an answered feed carries a failed `connectedUsers` conversion. */
  lemma FeedConverts(docs: seq<EventDoc>, email: string, viewDate: string)
    requires Feed(docs, email, viewDate).Ok?
    ensures forall e :: e in Feed(docs, email, viewDate).body ==> !e.connectedUsers.Panics?
  {
    var all := Flatten(FeedQueries(docs, email, viewDate));
    var events := Gather(all, viewDate).events;
    assert Feed(docs, email, viewDate).body == events;
    assert forall d :: d in all ==> !PanicsOn(d);
    GatherFrom(all, viewDate);
    forall e | e in events
      ensures !e.connectedUsers.Panics?
    {
      var i :| 0 <= i < |events| && events[i] == e;
      assert FromVisible(all, events[i], viewDate);
      var d :| d in all && Visible(d.data, viewDate) && e == ViewOf(d);
      assert !PanicsOn(d);
    }
  }

  // ---------------------------------------------------------------------
  // Visibility read as dates

  /**
   * For a non-annual event whose end date and view are digit strings of
   * eight and six characters, the string test is the date order: the event
   * is kept exactly when it ends on or after the first of the month.
   */
  lemma VisibleDigits(data: Document, viewDate: string)
    requires !BoolField(data, "isAnnual")
    requires |EndDateOrDate(data)| == 8 && AllDigits(EndDateOrDate(data))
    requires |viewDate| == 6 && AllDigits(viewDate)
    ensures Visible(data, viewDate) <==> DigitsValue(EndDateOrDate(data)) >= 100 * DigitsValue(viewDate) + 1
  {
    var start := MonthStart(viewDate);
    assert start[..|start| - 1] == viewDate + "0" && (viewDate + "0")[..6] == viewDate;
    assert AllDigits(start);
    StrLeDigits(start, EndDateOrDate(data));
  }

  /** An annual event with a full date is kept exactly in the months whose month characters are its own. */
  lemma VisibleAnnual(data: Document, viewDate: string, endDate: Value)
    requires BoolField(data, "isAnnual")
    requires |GetStringValue(data, "date")| >= 8 && |viewDate| >= 6
    ensures Visible(data, viewDate) <==> GetStringValue(data, "date")[4..6] == viewDate[4..6]
    ensures Visible(data["endDate" := endDate], viewDate) == Visible(data, viewDate)
  {
  }

  /** An event without date and end date is kept in every month while it is not annual. */
  lemma VisibleUndated(data: Document, viewDate: string)
    requires !BoolField(data, "isAnnual") && EndDateOrDate(data) == ""
    ensures Visible(data, viewDate)
  {
  }

  // ---------------------------------------------------------------------
  // Creation

  const TitleRequired := "Title is required"

  /** The two checks of `CreateDDay`, in order: the date, then the title. */
  function CreateError(req: EventView): (e: Option<string>)
    ensures e.None? <==> DateError(req.date).None? && req.title != ""
    ensures DateError(req.date).Some? ==> e == DateError(req.date)
    ensures DateError(req.date).None? && req.title == "" ==> e == Some(TitleRequired)
  {
    if DateError(req.date).Some? then DateError(req.date)
    else if req.title == "" then Some(TitleRequired)
    else None
  }

  /** `connectedUsers` after the partner is appended unless already present. */
  function WithPartner(users: StringSlice, partner: Option<string>): (r: StringSlice)
    requires !users.Panics?
  {
    if partner.None? || partner.value in users.Elements() then users
    else Slice(users.Elements() + [partner.value])
  }

  /**
   * The partner is in the result exactly once more than nothing: a partner
   * already listed is not listed again, an absent one is listed once, at
   * the end, and nobody else is added or dropped.
   */
  lemma WithPartnerCounts(users: StringSlice, partner: Option<string>)
    requires !users.Panics?
    ensures !WithPartner(users, partner).Panics?
    ensures partner.Some? ==> partner.value in WithPartner(users, partner).Elements()
    ensures partner.Some? ==>
      multiset(WithPartner(users, partner).Elements())[partner.value] ==
      (if partner.value in users.Elements() then multiset(users.Elements())[partner.value] else 1)
    ensures multiset(WithPartner(users, partner).Elements()) == multiset(users.Elements()) +
      (if partner.Some? && partner.value !in users.Elements() then multiset{partner.value} else multiset{})
  {
    if partner.Some? && partner.value !in users.Elements() {
      assert multiset(users.Elements())[partner.value] == 0;
    }
  }

  /** A string slice as Firestore stores it: `nil` as null, otherwise an array. */
  function SliceValue(users: StringSlice): Value
    requires !users.Panics?
  {
    if users.NilSlice? then Nil else StringsValue(users.items)
  }

  /** The document `CreateDDay` writes. */
  function NewEventData(req: EventView, userEmail: string, users: StringSlice, now: int): Document
    requires !users.Panics?
  {
    map[
      "title" := Str(req.title),
      "group" := Str(req.group),
      "description" := Str(req.description),
      "date" := Str(req.date),
      "endDate" := Str(req.endDate),
      "imageUrl" := Str(req.imageUrl),
      "isAnnual" := Bool(req.isAnnual),
      "createdBy" := Str(userEmail),
      "connectedUsers" := SliceValue(users),
      "createdAt" := Time(now),
      "updatedAt" := Time(now),
      "editable" := Bool(req.editable || true)]
  }

  /** A document holding the request's fields as `CreateDDay` writes them. */
  predicate HoldsRequest(data: Document, req: EventView, userEmail: string, users: StringSlice, now: int)
    requires !users.Panics?
  {
    HoldsText(data, req) && HoldsRest(data, req, userEmail, users, now)
  }

  predicate HoldsText(data: Document, req: EventView)
  {
    && "title" in data && data["title"] == Str(req.title)
    && "group" in data && data["group"] == Str(req.group)
    && "description" in data && data["description"] == Str(req.description)
    && "date" in data && data["date"] == Str(req.date)
    && "endDate" in data && data["endDate"] == Str(req.endDate)
    && "imageUrl" in data && data["imageUrl"] == Str(req.imageUrl)
  }

  predicate HoldsRest(data: Document, req: EventView, userEmail: string, users: StringSlice, now: int)
    requires !users.Panics?
  {
    && "isAnnual" in data && data["isAnnual"] == Bool(req.isAnnual)
    && "createdBy" in data && data["createdBy"] == Str(userEmail)
    && "connectedUsers" in data && data["connectedUsers"] == SliceValue(users)
    && "createdAt" in data && data["createdAt"] == Time(now)
    && "updatedAt" in data && data["updatedAt"] == Time(now)
    && "editable" in data && data["editable"] == Bool(true)
  }

  lemma NewEventFields(req: EventView, userEmail: string, users: StringSlice, now: int)
    requires !users.Panics?
    ensures HoldsRequest(NewEventData(req, userEmail, users, now), req, userEmail, users, now)
  {
    NewEventText(req, userEmail, users, now);
    NewEventRest(req, userEmail, users, now);
  }

  lemma NewEventText(req: EventView, userEmail: string, users: StringSlice, now: int)
    requires !users.Panics?
    ensures HoldsText(NewEventData(req, userEmail, users, now), req)
  {
  }

  lemma NewEventRest(req: EventView, userEmail: string, users: StringSlice, now: int)
    requires !users.Panics?
    ensures HoldsRest(NewEventData(req, userEmail, users, now), req, userEmail, users, now)
  {
  }

  /** What a document holding a request reads back as, in the feed and through `DataTo`. */
  lemma RequestReadsBack(data: Document, req: EventView, id: string, userEmail: string, users: StringSlice, now: int)
    requires !users.Panics? && HoldsRequest(data, req, userEmail, users, now)
    ensures ViewOf(EventDoc(id, data)) ==
      CreatedReply(req, id, userEmail, now).(
        endDate := if req.endDate == "" then req.date else req.endDate,
        connectedUsers := users, editable := true)
    ensures DecodeEvent(id, data) == Some(CreatedReply(req, id, userEmail, now).(connectedUsers := users, editable := true))
  {
    if users.Slice? {
      StringsRoundTrip(users.items);
      DecodeListOfStrings(users.items);
    }
  }

  /** The created event the response echoes: the request with id, creator and times filled in. */
  function CreatedReply(req: EventView, id: string, userEmail: string, now: int): EventView
  {
    req.(id := id, createdBy := userEmail, createdAt := Some(now), updatedAt := Some(now))
  }

  /**
   * A created event reads back as its request: the creator, the times, the
   * `connectedUsers` with the partner, always editable, and the end date
   * defaulting to the date.
   */
  lemma CreatedEventReadsBack(req: EventView, id: string, userEmail: string, partner: Option<string>, now: int)
    requires !req.connectedUsers.Panics?
    ensures var users := WithPartner(req.connectedUsers, partner);
      ViewOf(EventDoc(id, NewEventData(req, userEmail, users, now))) ==
        CreatedReply(req, id, userEmail, now).(
          endDate := if req.endDate == "" then req.date else req.endDate,
          connectedUsers := users, editable := true)
  {
    var users := WithPartner(req.connectedUsers, partner);
    NewEventFields(req, userEmail, users, now);
    RequestReadsBack(NewEventData(req, userEmail, users, now), req, id, userEmail, users, now);
  }

  /** The created event is the caller's, and a created event with no date is in every month of the caller's feed. */
  lemma CreatedEventOwned(req: EventView, id: string, userEmail: string, users: StringSlice, now: int, viewDate: string)
    requires !users.Panics? && |viewDate| >= 6
    ensures CreatedBy(EventDoc(id, NewEventData(req, userEmail, users, now)), userEmail)
    ensures req.date == "" && req.endDate == "" && !req.isAnnual ==>
      (var doc := EventDoc(id, NewEventData(req, userEmail, users, now));
       Queried(doc, userEmail, viewDate) && Visible(doc.data, viewDate))
  {
    NewEventFields(req, userEmail, users, now);
  }

  // ---------------------------------------------------------------------
  // Updates

  const DateNotString := "date field must be a string"
  const TitleEmpty := "Title cannot be empty if provided"
  const UpdateFailed := "Failed to update event: "
  const DecodeFailed := "Failed to parse updated event data"

  /** The checks `UpdateDDay` makes of the update map before reading the event. */
  function UpdateError(updates: Document): (e: Option<string>)
    ensures e.None? <==>
      ("date" in updates ==> updates["date"].Str? && DateError(updates["date"].s).None?) &&
      ("title" in updates ==> updates["title"].Str? && updates["title"].s != "")
  {
    if "date" in updates && !updates["date"].Str? then Some(DateNotString)
    else if "date" in updates && DateError(updates["date"].s).Some? then DateError(updates["date"].s)
    else if "title" in updates && (!updates["title"].Str? || updates["title"].s == "") then Some(TitleEmpty)
    else None
  }

  /** The keys a client may not overwrite. */
  predicate Protected(key: string)
  {
    key == "id" || key == "createdBy" || key == "createdAt"
  }

  /** One entry of the `firestoreUpdates` list. */
  datatype FieldUpdate = FieldUpdate(path: string, value: Value)

  /** The list the loop builds from the keys in the order it meets them: one entry per unprotected key. */
  function UpdateList(keys: seq<string>, updates: Document): (list: seq<FieldUpdate>)
    requires forall k :: k in keys ==> k in updates
  {
    if |keys| == 0 then []
    else
      var rest := UpdateList(keys[..|keys| - 1], updates);
      var k := keys[|keys| - 1];
      if Protected(k) then rest else rest + [FieldUpdate(k, updates[k])]
  }

  /** Two entries name the same field: the client refuses such an update. */
  predicate DuplicatePaths(list: seq<FieldUpdate>)
  {
    exists i, j :: 0 <= i < j < |list| && list[i].path == list[j].path
  }

  /** Firestore applying the list: each entry sets its field. */
  function Apply(data: Document, list: seq<FieldUpdate>): Document
  {
    if |list| == 0 then data
    else Apply(data, list[..|list| - 1])[list[|list| - 1].path := list[|list| - 1].value]
  }

  /** The fields the update writes. */
  function Unprotected(updates: Document): Document
  {
    map k | k in updates && !Protected(k) :: updates[k]
  }

  /**
   * The document after an accepted update: the client's unprotected fields,
   * then `updatedAt` set to the time of the update.
   */
  function UpdatedData(data: Document, updates: Document, now: int): Document
  {
    (data + Unprotected(updates))["updatedAt" := Time(now)]
  }

  lemma {:induction false} UpdateListMembers(keys: seq<string>, updates: Document)
    requires forall k :: k in keys ==> k in updates
    ensures forall u :: u in UpdateList(keys, updates) <==> u.path in keys && !Protected(u.path) && u.value == updates[u.path]
  {
    if |keys| > 0 {
      var pre := keys[..|keys| - 1];
      assert forall x :: x in keys <==> x in pre || x == keys[|keys| - 1];
      UpdateListMembers(pre, updates);
    }
  }

  lemma {:induction false} UpdateListDistinct(keys: seq<string>, updates: Document)
    requires forall k :: k in keys ==> k in updates
    requires forall i, j :: 0 <= i < j < |keys| ==> keys[i] != keys[j]
    ensures !DuplicatePaths(UpdateList(keys, updates))
  {
    if |keys| > 0 {
      var pre := keys[..|keys| - 1];
      var k := keys[|keys| - 1];
      UpdateListDistinct(pre, updates);
      UpdateListMembers(pre, updates);
      var rest := UpdateList(pre, updates);
      if !Protected(k) {
        var list := rest + [FieldUpdate(k, updates[k])];
        forall i, j | 0 <= i < j < |list|
          ensures list[i].path != list[j].path
        {
          if j == |rest| {
            assert list[i] in rest;
            assert k !in pre;
          }
        }
      }
    }
  }

  /** The fields the list writes, collected in the same order. */
  function Kept(keys: seq<string>, updates: Document): Document
    requires forall k :: k in keys ==> k in updates
  {
    if |keys| == 0 then map[]
    else
      var rest := Kept(keys[..|keys| - 1], updates);
      var k := keys[|keys| - 1];
      if Protected(k) then rest else rest[k := updates[k]]
  }

  lemma {:induction false} UpdateListApply(keys: seq<string>, updates: Document, data: Document)
    requires forall k :: k in keys ==> k in updates
    ensures Apply(data, UpdateList(keys, updates)) == data + Kept(keys, updates)
  {
    if |keys| > 0 {
      var pre := keys[..|keys| - 1];
      var k := keys[|keys| - 1];
      assert forall x :: x in pre ==> x in keys;
      UpdateListApply(pre, updates, data);
      var rest := UpdateList(pre, updates);
      if !Protected(k) {
        assert UpdateList(keys, updates)[..|rest|] == rest;
        assert (data + Kept(pre, updates))[k := updates[k]] == data + Kept(pre, updates)[k := updates[k]];
      }
    }
  }

  lemma {:induction false} KeptFields(keys: seq<string>, updates: Document)
    requires forall k :: k in keys ==> k in updates
    ensures forall k :: k in Kept(keys, updates) <==> k in keys && !Protected(k)
    ensures forall k :: k in Kept(keys, updates) ==> Kept(keys, updates)[k] == updates[k]
  {
    if |keys| > 0 {
      var pre := keys[..|keys| - 1];
      assert forall x :: x in keys <==> x in pre || x == keys[|keys| - 1];
      KeptFields(pre, updates);
    }
  }

  /** Keys that enumerate the update map keep exactly its unprotected fields. */
  lemma KeptUnprotected(keys: seq<string>, updates: Document)
    requires forall k :: k in keys <==> k in updates
    ensures Kept(keys, updates) == Unprotected(updates)
  {
    KeptFields(keys, updates);
  }

  /**
   * The list built from every key once, with `updatedAt` appended, names a
   * field twice exactly when the client also sent `updatedAt`.
   */
  lemma UpdateListDuplicates(keys: seq<string>, updates: Document, now: int)
    requires forall k :: k in keys <==> k in updates
    requires forall i, j :: 0 <= i < j < |keys| ==> keys[i] != keys[j]
    ensures DuplicatePaths(UpdateList(keys, updates) + [FieldUpdate("updatedAt", Time(now))]) <==> "updatedAt" in updates
  {
    UpdateListMembers(keys, updates);
    UpdateListDistinct(keys, updates);
    var rest := UpdateList(keys, updates);
    var list := rest + [FieldUpdate("updatedAt", Time(now))];
    assert list[..|rest|] == rest;
    if "updatedAt" in updates {
      assert FieldUpdate("updatedAt", updates["updatedAt"]) in rest;
      var i :| 0 <= i < |rest| && rest[i] == FieldUpdate("updatedAt", updates["updatedAt"]);
      assert list[i].path == list[|rest|].path;
    }
  }

  /** Applying that list, when the client did not send `updatedAt`, gives `UpdatedData`. */
  lemma UpdateListApplied(keys: seq<string>, updates: Document, data: Document, now: int)
    requires forall k :: k in keys <==> k in updates
    ensures Apply(data, UpdateList(keys, updates) + [FieldUpdate("updatedAt", Time(now))]) == UpdatedData(data, updates, now)
  {
    UpdateListApply(keys, updates, data);
    KeptUnprotected(keys, updates);
    var rest := UpdateList(keys, updates);
    assert (rest + [FieldUpdate("updatedAt", Time(now))])[..|rest|] == rest;
  }

  /**
   * An accepted update keeps the protected fields as they were, stamps
   * `updatedAt`, writes each other field the client sent, and leaves every
   * other field alone.
   */
  lemma UpdatedFields(data: Document, updates: Document, now: int)
    ensures var d := UpdatedData(data, updates, now);
      && d["updatedAt"] == Time(now)
      && (forall k :: Protected(k) ==> (k in d <==> k in data) && (k in data ==> d[k] == data[k]))
      && (forall k :: k in updates && !Protected(k) && k != "updatedAt" ==> k in d && d[k] == updates[k])
      && (forall k :: k !in updates && k != "updatedAt" ==> (k in d <==> k in data) && (k in data ==> d[k] == data[k]))
  {
  }

  /**
   * `DataTo` into the `DDay` struct for a field of string type: absent or
   * null reads as "", a string as itself, anything else fails.
   */
  function DecodeString(data: Document, key: string): Option<string>
  {
    if key !in data || data[key].Nil? then Some("")
    else if data[key].Str? then Some(data[key].s)
    else None
  }

  function DecodeBool(data: Document, key: string): Option<bool>
  {
    if key !in data || data[key].Nil? then Some(false)
    else if data[key].Bool? then Some(data[key].b)
    else None
  }

  /** A time field: absent or null is the zero time. */
  function DecodeTime(data: Document, key: string): Option<Option<int>>
  {
    if key !in data || data[key].Nil? then Some(None)
    else if data[key].Time? then Some(Some(data[key].t))
    else None
  }

  /** `DataTo` of one array element into a `string`: null leaves the zero value "", anything but a string fails. */
  function DecodeElement(v: Value): Option<string>
  {
    if v.Nil? then Some("") else if v.Str? then Some(v.s) else None
  }

  /**
   * `DataTo` of a field into a `[]string`: null or absent is a `nil` slice,
   * an array decodes element by element, anything else fails. Unlike
   * `ToStringSlice`, a null element is no error.
   */
  function DecodeList(v: Value): (r: Option<StringSlice>)
    ensures r == Some(NilSlice) <==> v.Nil?
    ensures r.Some? ==> !r.value.Panics?
    ensures r.Some? && r.value.Slice? ==>
      v.List? && |r.value.items| == |v.items| &&
      forall i :: 0 <= i < |v.items| ==> v.items[i] == Str(r.value.items[i]) || (v.items[i].Nil? && r.value.items[i] == "")
    ensures r.None? <==> !v.Nil? && (!v.List? || exists i :: 0 <= i < |v.items| && !v.items[i].Nil? && !v.items[i].Str?)
  {
    if v.Nil? then Some(NilSlice)
    else if !v.List? then None
    else if forall i :: 0 <= i < |v.items| ==> DecodeElement(v.items[i]).Some? then
      Some(Slice(seq(|v.items|, i requires 0 <= i < |v.items| => DecodeElement(v.items[i]).value)))
    else None
  }

  /** On a field `ToStringSlice` converts without a panic, `DataTo` gives the same slice. */
  lemma DecodeListAgrees(v: Value)
    requires v.Nil? || v.List?
    requires !StringsOf(v).Panics?
    ensures DecodeList(v) == Some(StringsOf(v))
  {
    if v.List? {
      var r := DecodeList(v).value;
      assert r.items == StringsOf(v).items;
    }
  }

  /** A stored string array decodes back to its strings. */
  lemma DecodeListOfStrings(items: seq<string>)
    ensures DecodeList(StringsValue(items)) == Some(Slice(items))
  {
    StringsRoundTrip(items);
    DecodeListAgrees(StringsValue(items));
  }

  /** An array with a null element: `DataTo` reads the null as "", where `ToStringSlice` panics. */
  lemma NullElementDecodes()
    ensures DecodeList(List([Str("a"), Nil])) == Some(Slice(["a", ""]))
    ensures StringsOf(List([Str("a"), Nil])) == Panics
  {
    var v := List([Str("a"), Nil]);
    assert DecodeElement(v.items[0]) == Some("a") && DecodeElement(v.items[1]) == Some("");
    assert seq(|v.items|, i requires 0 <= i < |v.items| => DecodeElement(v.items[i]).value) == ["a", ""];
    assert !v.items[1].Str?;
  }

  function DecodeStrings(data: Document, key: string): Option<StringSlice>
  {
    DecodeList(FieldOrNil(data, key))
  }

  /** `DataTo` of the updated document, with the id set from the document's reference. */
  function DecodeEvent(id: string, data: Document): Option<EventView>
  {
    var title, group, description := DecodeString(data, "title"), DecodeString(data, "group"), DecodeString(data, "description");
    var date, endDate, imageUrl := DecodeString(data, "date"), DecodeString(data, "endDate"), DecodeString(data, "imageUrl");
    var createdBy, isAnnual, editable := DecodeString(data, "createdBy"), DecodeBool(data, "isAnnual"), DecodeBool(data, "editable");
    var users, createdAt, updatedAt := DecodeStrings(data, "connectedUsers"), DecodeTime(data, "createdAt"), DecodeTime(data, "updatedAt");
    if title.None? || group.None? || description.None? || date.None? || endDate.None? || imageUrl.None? ||
       createdBy.None? || isAnnual.None? || editable.None? || users.None? || createdAt.None? || updatedAt.None?
    then None
    else Some(EventView(id, title.value, group.value, description.value, date.value, endDate.value, imageUrl.value,
      isAnnual.value, createdBy.value, users.value, createdAt.value, updatedAt.value, editable.value))
  }

  /** A created event decodes to what the creation response says, except for the partner added to `connectedUsers`. */
  lemma CreatedEventDecodes(req: EventView, id: string, userEmail: string, partner: Option<string>, now: int)
    requires !req.connectedUsers.Panics?
    ensures var users := WithPartner(req.connectedUsers, partner);
      DecodeEvent(id, NewEventData(req, userEmail, users, now)) ==
        Some(CreatedReply(req, id, userEmail, now).(connectedUsers := users, editable := true))
  {
    var users := WithPartner(req.connectedUsers, partner);
    NewEventFields(req, userEmail, users, now);
    RequestReadsBack(NewEventData(req, userEmail, users, now), req, id, userEmail, users, now);
  }

  /** After an accepted update the event decodes with the new title and the update time, and the creator and creation time it had. */
  lemma UpdatedEventDecodes(id: string, data: Document, updates: Document, now: int)
    requires UpdateError(updates).None? && "title" in updates
    requires DecodeEvent(id, UpdatedData(data, updates, now)).Some?
    ensures var e := DecodeEvent(id, UpdatedData(data, updates, now)).value;
      && e.id == id
      && e.title == updates["title"].s
      && e.updatedAt == Some(now)
      && e.createdBy == DecodeString(data, "createdBy").value
      && e.createdAt == DecodeTime(data, "createdAt").value
  {
    UpdatedFields(data, updates, now);
  }

  // ---------------------------------------------------------------------
  // Access to one event

  const NotFoundError := "D-Day not found"
  const UpdateForbidden := "Only creator can update"
  const DeleteForbidden := "Only creator can delete"
  const Deleted := "D-Day deleted"

  /** The position of the document with this id. */
  function FindEvent(docs: seq<EventDoc>, id: string): (r: Option<nat>)
    ensures r.None? <==> forall k :: 0 <= k < |docs| ==> docs[k].id != id
    ensures r.Some? ==> r.value < |docs| && docs[r.value].id == id
  {
    if |docs| == 0 then None
    else if docs[|docs| - 1].id == id then Some(|docs| - 1)
    else FindEvent(docs[..|docs| - 1], id)
  }

  /**
   * How `UpdateDDay` and `DeleteDDay` fare at the event: missing, stored
   * without a string creator (the type assertion panics), created by
   * someone else, or the creator's own at `index`.
   */
  datatype Access = Missing | Unreadable | NotCreator | Granted(index: nat)

  function AccessTo(docs: seq<EventDoc>, id: string, userEmail: string): (a: Access)
    ensures a.Granted? ==> a.index < |docs| && docs[a.index].id == id && CreatedBy(docs[a.index], userEmail)
    ensures a == Unreadable ==> exists k :: 0 <= k < |docs| && docs[k].id == id && !("createdBy" in docs[k].data && docs[k].data["createdBy"].Str?)
    ensures a == Missing <==> forall k :: 0 <= k < |docs| ==> docs[k].id != id
  {
    match FindEvent(docs, id)
    case None => Missing
    case Some(k) =>
      if "createdBy" !in docs[k].data || !docs[k].data["createdBy"].Str? then Unreadable
      else if docs[k].data["createdBy"].s != userEmail then NotCreator
      else Granted(k)
  }

  /** With unique ids, only the creator is granted access, and the creator of an event is. */
  lemma AccessOnlyCreator(docs: seq<EventDoc>, id: string, userEmail: string, k: nat)
    requires UniqueIds(docs) && k < |docs| && docs[k].id == id
    ensures AccessTo(docs, id, userEmail).Granted? <==> CreatedBy(docs[k], userEmail)
    ensures AccessTo(docs, id, userEmail).Granted? ==> AccessTo(docs, id, userEmail).index == k
  {
  }

  /** The document list without the one at `i`. */
  function RemoveAt(docs: seq<EventDoc>, i: nat): (r: seq<EventDoc>)
    requires i < |docs|
    ensures |r| == |docs| - 1
    ensures forall d :: d in r ==> d in docs
  {
    docs[..i] + docs[i + 1..]
  }

  /** With unique ids, removing the event at `i` removes exactly the event with its id. */
  lemma RemoveAtEffect(docs: seq<EventDoc>, i: nat)
    requires UniqueIds(docs) && i < |docs|
    ensures UniqueIds(RemoveAt(docs, i))
    ensures forall d :: d in RemoveAt(docs, i) <==> d in docs && d.id != docs[i].id
  {
    var r := RemoveAt(docs, i);
    forall a, b | 0 <= a < b < |r|
      ensures r[a].id != r[b].id
    {
      var a' := if a < i then a else a + 1;
      var b' := if b < i then b else b + 1;
      assert r[a] == docs[a'] && r[b] == docs[b'];
    }
    forall d
      ensures d in r <==> d in docs && d.id != docs[i].id
    {
      if d in docs && d.id != docs[i].id {
        var k :| 0 <= k < |docs| && docs[k] == d;
        assert k != i;
        if k < i {
          assert r[k] == d;
        } else {
          assert r[k - 1] == d;
        }
      }
      if d in r {
        var k :| 0 <= k < |r| && r[k] == d;
        var k' := if k < i then k else k + 1;
        assert docs[k'] == d && k' != i;
      }
    }
  }

  // ---------------------------------------------------------------------
  // Upload size

  /** `maxUploadSize`: five mebibytes. */
  const MaxUploadSize := 5 * 1024 * 1024
  const TooLarge := "File size exceeds the 5MB limit"

  /** The size check of `GetDDayUploadURL`, made before any presigning. */
  function UploadSizeError(fileSize: int): (r: Option<Reply<()>>)
    ensures r.Some? <==> fileSize > 5242880
    ensures r.Some? ==> r.value == Fail(EntityTooLarge, TooLarge)
  {
    if fileSize > MaxUploadSize then Some(Fail(EntityTooLarge, TooLarge)) else None
  }

  lemma FlattenSnoc(qs: seq<seq<EventDoc>>, i: nat)
    requires i < |qs|
    ensures Flatten(qs[..i + 1]) == Flatten(qs[..i]) + qs[i]
  {
    assert qs[..i + 1][..i] == qs[..i];
  }

  /** The filter of the feed loop, step by step as the handler makes it. */
  method Keep(data: Document, viewDate: string, monthStart: string) returns (keep: bool)
    requires monthStart == MonthStart(viewDate)
    ensures keep == Visible(data, viewDate)
  {
    var dateStr := GetStringValue(data, "date");
    var endDateStr := GetStringValue(data, "endDate");
    if endDateStr == "" {
      endDateStr := dateStr;
    }
    var isAnnual := BoolField(data, "isAnnual");
    if isAnnual {
      if |dateStr| >= 8 && |viewDate| >= 6 && dateStr[4..6] != viewDate[4..6] {
        return false;
      }
    } else if endDateStr != "" && StrLt(endDateStr, monthStart) {
      return false;
    }
    return true;
  }

  /** The event the loop appends for a kept document. */
  method EventOf(doc: EventDoc) returns (e: EventView)
    ensures e == ViewOf(doc)
  {
    var data := doc.data;
    var dateStr := GetStringValue(data, "date");
    var endDateStr := GetStringValue(data, "endDate");
    if endDateStr == "" {
      endDateStr := dateStr;
    }
    var users := ToStringSlice(FieldOrNil(data, "connectedUsers"));
    e := EventView(doc.id, GetStringValue(data, "title"), GetStringValue(data, "group"),
      GetStringValue(data, "description"), dateStr, endDateStr, GetStringValue(data, "imageUrl"),
      BoolField(data, "isAnnual"), GetStringValue(data, "createdBy"), users, TimeField(data, "createdAt"),
      TimeField(data, "updatedAt"), Editable(data));
  }

  /** The debug pass over one query's results: it converts each `connectedUsers` and panics at the first failure. */
  method ConvertsAll(docs: seq<EventDoc>) returns (ok: bool)
    ensures ok <==> forall k :: 0 <= k < |docs| ==> !PanicsOn(docs[k])
  {
    var j := 0;
    while j < |docs|
      invariant 0 <= j <= |docs|
      invariant forall k :: 0 <= k < j ==> !PanicsOn(docs[k])
    {
      var users := ToStringSlice(FieldOrNil(docs[j].data, "connectedUsers"));
      if users.Panics? {
        return false;
      }
      j := j + 1;
    }
    return true;
  }

  /**
   * The main pass over one query's results, continuing the loop state left
   * by the earlier queries' results `before`.
   */
  method CollectFrom(docs: seq<EventDoc>, viewDate: string, monthStart: string, events0: seq<EventView>,
                     seen0: set<string>, ghost before: seq<EventDoc>) returns (events: seq<EventView>, seen: set<string>)
    requires monthStart == MonthStart(viewDate)
    requires Collected(events0, seen0) == Gather(before, viewDate)
    ensures Collected(events, seen) == Gather(before + docs, viewDate)
  {
    events, seen := events0, seen0;
    assert before + docs[..0] == before;
    var j := 0;
    while j < |docs|
      invariant 0 <= j <= |docs|
      invariant Collected(events, seen) == Gather(before + docs[..j], viewDate)
    {
      var doc := docs[j];
      assert before + docs[..j + 1] == (before + docs[..j]) + [doc];
      GatherSnoc(before + docs[..j], doc, viewDate);
      if doc.id in seen {
        j := j + 1;
        continue;
      }
      var keep := Keep(doc.data, viewDate, monthStart);
      if !keep {
        j := j + 1;
        continue;
      }
      seen := seen + {doc.id};
      var e := EventOf(doc);
      events := events + [e];
      j := j + 1;
    }
    assert docs[..j] == docs;
  }

  /**
   * The `firestoreUpdates` loop: one entry per key of the update map, in the
   * order the map hands them out, skipping the protected keys, and then
   * `updatedAt`.
   */
  method FirestoreUpdates(updates: Document, data: Document, now: int) returns (list: seq<FieldUpdate>)
    ensures DuplicatePaths(list) <==> "updatedAt" in updates
    ensures Apply(data, list) == UpdatedData(data, updates, now)
  {
    var keys := GetMapKeys(updates);
    list := [];
    var i := 0;
    while i < |keys|
      invariant 0 <= i <= |keys|
      invariant list == UpdateList(keys[..i], updates)
    {
      assert keys[..i + 1][..i] == keys[..i];
      if !Protected(keys[i]) {
        list := list + [FieldUpdate(keys[i], updates[keys[i]])];
      }
      i := i + 1;
    }
    assert keys[..i] == keys;
    list := list + [FieldUpdate("updatedAt", Time(now))];
    UpdateListDuplicates(keys, updates, now);
    UpdateListApplied(keys, updates, data, now);
  }

  // ---------------------------------------------------------------------
  // Update and delete as values

  /** A handler's reply together with the collection it leaves behind. */
  datatype Outcome<T> = Outcome(reply: Reply<T>, docs: seq<EventDoc>)

  /**
   * `UpdateDDay` as a value: the update map's checks, then the event's
   * access, then the client's refusal of a second `updatedAt`, then the
   * write and `DataTo` of the written event.
   */
  function UpdateOutcome(docs: seq<EventDoc>, userEmail: string, id: string, updates: Document, now: int): Outcome<EventView>
  {
    if UpdateError(updates).Some? then Outcome(Fail(BadRequest, UpdateError(updates).value), docs)
    else match AccessTo(docs, id, userEmail)
      case Missing => Outcome(Fail(NotFound, NotFoundError), docs)
      case Unreadable => Outcome(Panicked, docs)
      case NotCreator => Outcome(Fail(Forbidden, UpdateForbidden), docs)
      case Granted(k) =>
        if "updatedAt" in updates then Outcome(Fail(InternalError, UpdateFailed), docs)
        else
          var doc := EventDoc(id, UpdatedData(docs[k].data, updates, now));
          var reply := match DecodeEvent(id, doc.data)
            case Some(e) => Ok(e)
            case None => Fail(InternalError, DecodeFailed);
          Outcome(reply, docs[k := doc])
  }

  /** `DeleteDDay` as a value. */
  function DeleteOutcome(docs: seq<EventDoc>, userEmail: string, id: string): Outcome<string>
  {
    match AccessTo(docs, id, userEmail)
    case Missing => Outcome(Fail(NotFound, NotFoundError), docs)
    case Unreadable => Outcome(Panicked, docs)
    case NotCreator => Outcome(Fail(Forbidden, DeleteForbidden), docs)
    case Granted(k) => Outcome(Ok(Deleted), RemoveAt(docs, k))
  }

  /** Unique ids below the id counter, and a string creator on every event: what the handlers maintain. */
  predicate WellFormed(docs: seq<EventDoc>, nextId: nat)
  {
    && UniqueIds(docs)
    && (forall k :: 0 <= k < |docs| ==> AllDigits(docs[k].id) && DigitsValue(docs[k].id) < nextId)
    && (forall k :: 0 <= k < |docs| ==> "createdBy" in docs[k].data && docs[k].data["createdBy"].Str?)
  }

  /**
   * Only the creator changes an event: an update that succeeds or writes
   * was made by the event's creator and rewrites that one event; every
   * other outcome leaves the collection as it was.
   */
  lemma UpdateOnlyByCreator(docs: seq<EventDoc>, userEmail: string, id: string, updates: Document, now: int)
    requires UniqueIds(docs)
    ensures var o := UpdateOutcome(docs, userEmail, id, updates, now);
      (o.reply.Ok? || o.docs != docs) ==>
        exists k :: 0 <= k < |docs| && docs[k].id == id && CreatedBy(docs[k], userEmail) &&
          o.docs == docs[k := EventDoc(id, UpdatedData(docs[k].data, updates, now))]
  {
  }

  /** A failed check of the update map, a missing event and a foreign event leave the collection alone, with their replies. */
  lemma UpdateRejections(docs: seq<EventDoc>, userEmail: string, id: string, updates: Document, now: int)
    ensures var o := UpdateOutcome(docs, userEmail, id, updates, now);
      && (UpdateError(updates).Some? ==> o == Outcome(Fail(BadRequest, UpdateError(updates).value), docs))
      && (UpdateError(updates).None? && (forall k :: 0 <= k < |docs| ==> docs[k].id != id) ==>
            o == Outcome(Fail(NotFound, NotFoundError), docs))
      && (UpdateError(updates).None? && UniqueIds(docs) &&
          (exists k :: 0 <= k < |docs| && docs[k].id == id && docs[k].data.Keys >= {"createdBy"} &&
             docs[k].data["createdBy"].Str? && docs[k].data["createdBy"].s != userEmail) ==>
            o == Outcome(Fail(Forbidden, UpdateForbidden), docs))
  {
  }

  lemma UpdateKeepsWellFormed(docs: seq<EventDoc>, nextId: nat, userEmail: string, id: string, updates: Document, now: int)
    requires WellFormed(docs, nextId)
    ensures WellFormed(UpdateOutcome(docs, userEmail, id, updates, now).docs, nextId)
  {
    var o := UpdateOutcome(docs, userEmail, id, updates, now);
    if o.docs != docs {
      var k := AccessTo(docs, id, userEmail).index;
      UpdatedFields(docs[k].data, updates, now);
    }
  }

  /**
   * Only the creator deletes an event; a deletion removes the event with
   * that id and keeps every other event.
   */
  lemma DeleteOnlyByCreator(docs: seq<EventDoc>, userEmail: string, id: string)
    requires UniqueIds(docs)
    ensures var o := DeleteOutcome(docs, userEmail, id);
      && (o.reply.Ok? <==> o.docs != docs)
      && (o.reply.Ok? ==> exists k :: 0 <= k < |docs| && docs[k].id == id && CreatedBy(docs[k], userEmail))
      && (o.reply.Ok? ==> forall d :: d in o.docs <==> d in docs && d.id != id)
  {
    var o := DeleteOutcome(docs, userEmail, id);
    if AccessTo(docs, id, userEmail).Granted? {
      RemoveAtEffect(docs, AccessTo(docs, id, userEmail).index);
    }
  }

  lemma DeleteKeepsWellFormed(docs: seq<EventDoc>, nextId: nat, userEmail: string, id: string)
    requires WellFormed(docs, nextId)
    ensures WellFormed(DeleteOutcome(docs, userEmail, id).docs, nextId)
  {
    if AccessTo(docs, id, userEmail).Granted? {
      var k := AccessTo(docs, id, userEmail).index;
      RemoveAtEffect(docs, k);
      var r := RemoveAt(docs, k);
      forall i | 0 <= i < |r|
        ensures AllDigits(r[i].id) && DigitsValue(r[i].id) < nextId
        ensures "createdBy" in r[i].data && r[i].data["createdBy"].Str?
      {
        assert r[i] == if i < k then docs[i] else docs[i + 1];
      }
    }
  }

  // ---------------------------------------------------------------------
  // The store and its handlers

  class EventStore {
    /** The `ddays` collection, in query order. */
    var ddays: seq<EventDoc>
    /** Source of fresh document ids (Firestore's automatic ids). */
    var nextId: nat

    /** Unique ids below the id counter, and a string creator on every event: what the handlers maintain. */
    predicate Valid()
      reads this
    {
      WellFormed(ddays, nextId)
    }

    constructor ()
      ensures ddays == [] && nextId == 0
      ensures Valid()
    {
      ddays := [];
      nextId := 0;
    }

    /**
     * `GetDDays`: run the three queries; for each, first convert every
     * result's `connectedUsers` (the debug pass), then go through the
     * results, skipping seen ids and invisible events.
     */
    method GetDDays(userEmail: string, viewDate: string) returns (r: Reply<seq<EventView>>)
      ensures r == Feed(ddays, userEmail, viewDate)
    {
      if viewDate == "" {
        return Fail(BadRequest, MissingViewError);
      }
      if |viewDate| < 6 {
        return Panicked;
      }
      var monthStart := MonthStart(viewDate);
      var queries := FeedQueries(ddays, userEmail, viewDate);
      var events: seq<EventView> := [];
      var seen: set<string> := {};
      var i := 0;
      while i < |queries|
        invariant 0 <= i <= |queries|
        invariant Collected(events, seen) == Gather(Flatten(queries[..i]), viewDate)
        invariant forall d :: d in Flatten(queries[..i]) ==> !PanicsOn(d)
      {
        var docs := queries[i];
        FlattenSnoc(queries, i);
        var converts := ConvertsAll(docs);
        if !converts {
          var k :| 0 <= k < |docs| && PanicsOn(docs[k]);
          InFlatten(queries, docs[k]);
          return Panicked;
        }
        events, seen := CollectFrom(docs, viewDate, monthStart, events, seen, Flatten(queries[..i]));
        forall d | d in Flatten(queries[..i + 1])
          ensures !PanicsOn(d)
        {
          if d in docs {
            var k :| 0 <= k < |docs| && docs[k] == d;
          }
        }
        i := i + 1;
      }
      assert queries[..i] == queries;
      r := Ok(events);
    }

    /**
     * `CreateDDay`: check the date and the title, add the partner (the
     * caller's first active connection, if any) to `connectedUsers` unless
     * listed, store the new event and echo the request with its id.
     */
    method CreateDDay(userEmail: string, req: EventView, partner: Option<string>, now: int) returns (r: Reply<EventView>)
      requires !req.connectedUsers.Panics?
      modifies this
      ensures CreateError(req).Some? ==>
        r == Fail(BadRequest, CreateError(req).value) && ddays == old(ddays) && nextId == old(nextId)
      ensures CreateError(req).None? ==>
        && ddays == old(ddays) + [EventDoc(NatToString(old(nextId)),
             NewEventData(req, userEmail, WithPartner(req.connectedUsers, partner), now))]
        && nextId == old(nextId) + 1
        && r == Ok(CreatedReply(req, NatToString(old(nextId)), userEmail, now))
      ensures old(Valid()) ==> Valid()
    {
      var e := DateError(req.date);
      if e.Some? {
        return Fail(BadRequest, e.value);
      }
      if req.title == "" {
        return Fail(BadRequest, TitleRequired);
      }
      var users := req.connectedUsers;
      if partner.Some? {
        var listed := Contains(users.Elements(), partner.value);
        if !listed {
          users := Slice(users.Elements() + [partner.value]);
        }
      }
      var id := NatToString(nextId);
      ddays := ddays + [EventDoc(id, NewEventData(req, userEmail, users, now))];
      nextId := nextId + 1;
      r := Ok(CreatedReply(req, id, userEmail, now));
    }

    /**
     * `UpdateDDay`: check the update map, find the event, require the
     * caller to be its creator, build the update list without the protected
     * keys and with `updatedAt`, apply it, and decode the result.
     */
    method UpdateDDay(userEmail: string, id: string, updates: Document, now: int) returns (r: Reply<EventView>)
      modifies this
      ensures Outcome(r, ddays) == UpdateOutcome(old(ddays), userEmail, id, updates, now)
      ensures nextId == old(nextId)
      ensures old(Valid()) ==> Valid()
    {
      if Valid() {
        UpdateKeepsWellFormed(ddays, nextId, userEmail, id, updates, now);
      }
      var e := UpdateError(updates);
      if e.Some? {
        return Fail(BadRequest, e.value);
      }
      var found := FindEvent(ddays, id);
      if found.None? {
        return Fail(NotFound, NotFoundError);
      }
      var k := found.value;
      var data := ddays[k].data;
      if "createdBy" !in data || !data["createdBy"].Str? {
        return Panicked;
      }
      if data["createdBy"].s != userEmail {
        return Fail(Forbidden, UpdateForbidden);
      }
      var list := FirestoreUpdates(updates, data, now);
      if DuplicatePaths(list) {
        return Fail(InternalError, UpdateFailed);
      }
      var doc := EventDoc(id, Apply(data, list));
      ddays := ddays[k := doc];
      var decoded := DecodeEvent(id, doc.data);
      if decoded.None? {
        return Fail(InternalError, DecodeFailed);
      }
      r := Ok(decoded.value);
    }

    /** `DeleteDDay`: find the event, require the caller to be its creator, and delete it. */
    method DeleteDDay(userEmail: string, id: string) returns (r: Reply<string>)
      modifies this
      ensures Outcome(r, ddays) == DeleteOutcome(old(ddays), userEmail, id)
      ensures nextId == old(nextId)
      ensures old(Valid()) ==> Valid()
    {
      if Valid() {
        DeleteKeepsWellFormed(ddays, nextId, userEmail, id);
      }
      var found := FindEvent(ddays, id);
      if found.None? {
        return Fail(NotFound, NotFoundError);
      }
      var k := found.value;
      var data := ddays[k].data;
      if "createdBy" !in data || !data["createdBy"].Str? {
        return Panicked;
      }
      if data["createdBy"].s != userEmail {
        return Fail(Forbidden, DeleteForbidden);
      }
      ddays := RemoveAt(ddays, k);
      r := Ok(Deleted);
    }
  }
}
