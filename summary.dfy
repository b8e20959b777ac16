/**
 * The presentation rules of the tracker's "Today's Summary" card
 * (components/tracker/TodaysSummary.tsx): whether today is a period day,
 * the day of the current period, the list of suggestions, the closest
 * upcoming event, the pregnancy-chance level and the "days away" text.
 */
module TodaysSummary {
  import opened Optional
  import opened Text
  import opened PeriodRecords
  import opened CyclePrediction

  // ---------------------------------------------------------------------
  // Today and the current period

  /** `isInPeriod`: today's key is among the period days, or the caller marks today as one. */
  predicate IsInPeriod(todayKey: string, periodDaysSet: Option<set<string>>, isTodayPeriodDay: bool)
  {
    (periodDaysSet.Some? && todayKey in periodDaysSet.value) || isTodayPeriodDay
  }

  /** With the tracker's own set, today is in a period iff some record of today is marked as a period day. */
  lemma InPeriodOfRecords(days: seq<PeriodDay>, todayKey: string)
    ensures IsInPeriod(todayKey, Some(PeriodDaySet(days)), false) <==>
      exists i :: 0 <= i < |days| && days[i].isPeriod && days[i].date == todayKey
  {
  }

  /** `isFirstDay`: the caller's flag, or the most recent start has today's key. */
  predicate IsFirstDay(isFirstDayOfPeriod: bool, mostRecentPeriodStart: Option<int>, nowMs: int)
  {
    isFirstDayOfPeriod ||
    (mostRecentPeriodStart.Some? && FormatDateKey(mostRecentPeriodStart.value) == FormatDateKey(Today(nowMs)))
  }

  /** Comparing keys is comparing days: without the flag, today is the first day iff the period started today. */
  lemma FirstDayIsStartDay(start: int, nowMs: int)
    ensures IsFirstDay(false, Some(start), nowMs) <==> start == Today(nowMs)
  {
    if FormatDateKey(start) == FormatDateKey(Today(nowMs)) {
      FormatDateKeyInjective(start, Today(nowMs));
    }
  }

  /**
   * `getCurrentPeriodDay`: 0 outside a period or without a start; otherwise
   * the whole days elapsed since the start (a local midnight) plus one.
   */
  function CurrentPeriodDay(mostRecentPeriodStart: Option<int>, isInPeriod: bool, nowMs: int): int
  {
    if mostRecentPeriodStart.None? || !isInPeriod then 0
    else (nowMs - mostRecentPeriodStart.value * DayMs) / DayMs + 1
  }

  /** The period day counts calendar days: the start day is day 1 and each later day adds one. */
  lemma CurrentPeriodDayCounts(mostRecentPeriodStart: Option<int>, isInPeriod: bool, nowMs: int)
    ensures var r := CurrentPeriodDay(mostRecentPeriodStart, isInPeriod, nowMs);
      && (mostRecentPeriodStart.None? || !isInPeriod ==> r == 0)
      && (mostRecentPeriodStart.Some? && isInPeriod ==> r == Today(nowMs) - mostRecentPeriodStart.value + 1)
      && (mostRecentPeriodStart.Some? && isInPeriod && mostRecentPeriodStart.value <= Today(nowMs) ==> r >= 1)
  {
    if mostRecentPeriodStart.Some? && isInPeriod {
      var s, t, f := mostRecentPeriodStart.value, nowMs / DayMs, nowMs % DayMs;
      assert nowMs - s * DayMs == (t - s) * DayMs + f;
    }
  }

  // ---------------------------------------------------------------------
  // Suggestions

  const PartnerNotTracking := "Your partner hasn't started tracking their period yet"
  const PartnerWillSee := "Once they begin tracking, you'll see their cycle insights here"
  const StartTracking := "Start tracking your period to get personalized insights"
  const LogFirstDay := "Log your first period day to begin cycle predictions"
  const GentleExercise := "Consider gentle exercise and rest during your period"
  const StayHydrated := "Stay hydrated and maintain a balanced diet"
  const FertileWindow := "This is your fertile window - plan accordingly"
  const CervicalMucus := "Consider tracking cervical mucus for fertility awareness"
  const EnergyRises := "Energy levels typically increase during this phase"
  const HighIntensity := "Great time for high-intensity workouts"
  const PmsSelfCare := "PMS symptoms may appear - practice self-care"
  const LessCaffeine := "Consider reducing caffeine and increasing magnesium"
  const HeatTherapy := "Try heat therapy or gentle stretching for cramps"
  const RestWhenNeeded := "Listen to your body and rest when needed"
  const LessSalt := "Reduce salt intake and stay hydrated"
  const DeepBreathing := "Practice deep breathing or meditation"
  const TakeBreaks := "Take breaks and avoid stressful situations"
  const KeepTracking := "Keep tracking to receive personalized insights"
  const RegularExercise := "Regular exercise can help with cycle regularity"

  /** The two messages shown without period data; the partner view has its own pair. */
  function NoDataSuggestions(isPartnerData: bool): seq<string>
  {
    if isPartnerData then [PartnerNotTracking, PartnerWillSee] else [StartTracking, LogFirstDay]
  }

  /** The pair of messages for a cycle day: days up to 5, 11-17, 18-25, and 26 on; none for 6-10. */
  function CycleSuggestions(currentCycleDay: Option<int>): seq<string>
  {
    // `if (currentCycleDay)` is false for a missing day and for 0
    if currentCycleDay.None? || currentCycleDay.value == 0 then []
    else
      var d := currentCycleDay.value;
      if d <= 5 then [GentleExercise, StayHydrated]
      else if 11 <= d <= 17 then [FertileWindow, CervicalMucus]
      else if 18 <= d <= 25 then [EnergyRises, HighIntensity]
      else if d >= 26 then [PmsSelfCare, LessCaffeine]
      else []
  }

  /** One message per recognised symptom of today's log, in a fixed order. */
  function SymptomSuggestions(todaysData: Option<PeriodDay>): seq<string>
  {
    if todaysData.None? then []
    else
      var s := todaysData.value.symptoms;
      (if "cramps" in s then [HeatTherapy] else []) +
      (if "fatigue" in s then [RestWhenNeeded] else []) +
      (if "bloating" in s then [LessSalt] else [])
  }

  /** One message per recognised mood of today's log, in a fixed order. */
  function MoodSuggestions(todaysData: Option<PeriodDay>): seq<string>
  {
    if todaysData.None? then []
    else
      var m := todaysData.value.mood;
      (if "anxious" in m then [DeepBreathing] else []) +
      (if "irritable" in m then [TakeBreaks] else [])
  }

  /**
   * The suggestions shown: the no-data pair, or the cycle, symptom and mood
   * messages in that order (two defaults when there are none), cut to three.
   */
  function Suggestions(hasPeriodData: bool, isPartnerData: bool, currentCycleDay: Option<int>,
                       todaysData: Option<PeriodDay>): seq<string>
  {
    if !hasPeriodData then NoDataSuggestions(isPartnerData)
    else
      var all := CycleSuggestions(currentCycleDay) + SymptomSuggestions(todaysData) + MoodSuggestions(todaysData);
      var shown := if |all| == 0 then [KeepTracking, RegularExercise] else all;
      shown[..if |shown| < 3 then |shown| else 3]
  }

  /** `generateSuggestions`: pushes the messages one by one and keeps the first three. */
  method GenerateSuggestions(hasPeriodData: bool, isPartnerData: bool, currentCycleDay: Option<int>,
                             todaysData: Option<PeriodDay>) returns (result: seq<string>)
    ensures result == Suggestions(hasPeriodData, isPartnerData, currentCycleDay, todaysData)
  {
    var suggestions: seq<string> := [];
    if !hasPeriodData {
      if isPartnerData {
        suggestions := suggestions + [PartnerNotTracking];
        suggestions := suggestions + [PartnerWillSee];
      } else {
        suggestions := suggestions + [StartTracking];
        suggestions := suggestions + [LogFirstDay];
      }
      return suggestions;
    }
    suggestions := PushCycleSuggestions(suggestions, currentCycleDay);
    suggestions := PushLogSuggestions(suggestions, todaysData);
    if |suggestions| == 0 {
      suggestions := suggestions + [KeepTracking];
      suggestions := suggestions + [RegularExercise];
    }
    result := suggestions[..if |suggestions| < 3 then |suggestions| else 3];
  }

  /** The cycle-day block of `generateSuggestions`. */
  method PushCycleSuggestions(suggestions: seq<string>, currentCycleDay: Option<int>) returns (r: seq<string>)
    ensures r == suggestions + CycleSuggestions(currentCycleDay)
  {
    r := suggestions;
    if currentCycleDay.Some? && currentCycleDay.value != 0 {
      var d := currentCycleDay.value;
      if d <= 5 {
        r := r + [GentleExercise];
        r := r + [StayHydrated];
      } else if d >= 11 && d <= 17 {
        r := r + [FertileWindow];
        r := r + [CervicalMucus];
      } else if d >= 18 && d <= 25 {
        r := r + [EnergyRises];
        r := r + [HighIntensity];
      } else if d >= 26 {
        r := r + [PmsSelfCare];
        r := r + [LessCaffeine];
      }
    }
  }

  /** The symptom and mood blocks of `generateSuggestions`. */
  method PushLogSuggestions(suggestions: seq<string>, todaysData: Option<PeriodDay>) returns (r: seq<string>)
    ensures r == suggestions + SymptomSuggestions(todaysData) + MoodSuggestions(todaysData)
  {
    r := suggestions;
    if todaysData.Some? {
      var symptoms := todaysData.value.symptoms;
      if "cramps" in symptoms {
        r := r + [HeatTherapy];
      }
      if "fatigue" in symptoms {
        r := r + [RestWhenNeeded];
      }
      if "bloating" in symptoms {
        r := r + [LessSalt];
      }
      assert r == suggestions + SymptomSuggestions(todaysData);
      var mood := todaysData.value.mood;
      if "anxious" in mood {
        r := r + [DeepBreathing];
      }
      if "irritable" in mood {
        r := r + [TakeBreaks];
      }
    }
  }

  /** Without period data the card shows exactly the two fixed messages of its view. */
  lemma SuggestionsWithoutData(isPartnerData: bool, currentCycleDay: Option<int>, todaysData: Option<PeriodDay>)
    ensures Suggestions(false, isPartnerData, currentCycleDay, todaysData) ==
      (if isPartnerData then [PartnerNotTracking, PartnerWillSee] else [StartTracking, LogFirstDay])
  {
  }

  /** With period data there is always something to show, and never more than three messages. */
  lemma SuggestionsBounds(isPartnerData: bool, currentCycleDay: Option<int>, todaysData: Option<PeriodDay>)
    ensures 1 <= |Suggestions(true, isPartnerData, currentCycleDay, todaysData)| <= 3
  {
  }

  /** Cycle days 6 to 10 contribute no message; any other positive day contributes a pair. */
  lemma CycleBands(d: int)
    ensures 6 <= d <= 10 ==> CycleSuggestions(Some(d)) == []
    ensures d != 0 && !(6 <= d <= 10) ==> |CycleSuggestions(Some(d))| == 2
  {
  }

  /** A cycle day's pair, when there is one, heads the list ahead of symptom and mood messages. */
  lemma CycleMessagesFirst(isPartnerData: bool, d: int, todaysData: Option<PeriodDay>)
    requires d != 0 && !(6 <= d <= 10)
    ensures Suggestions(true, isPartnerData, Some(d), todaysData)[..2] == CycleSuggestions(Some(d))
  {
    var all := CycleSuggestions(Some(d)) + SymptomSuggestions(todaysData) + MoodSuggestions(todaysData);
    assert all[..2] == CycleSuggestions(Some(d));
  }

  /** The defaults appear exactly when neither the cycle day nor today's log gives a message. */
  lemma DefaultSuggestions(isPartnerData: bool, currentCycleDay: Option<int>, todaysData: Option<PeriodDay>)
    ensures Suggestions(true, isPartnerData, currentCycleDay, todaysData) == [KeepTracking, RegularExercise] <==>
      CycleSuggestions(currentCycleDay) == [] && SymptomSuggestions(todaysData) == [] && MoodSuggestions(todaysData) == []
  {
    var all := CycleSuggestions(currentCycleDay) + SymptomSuggestions(todaysData) + MoodSuggestions(todaysData);
    if |all| > 0 {
      var r := Suggestions(true, isPartnerData, currentCycleDay, todaysData);
      assert r[0] == all[0];
      assert all[0] != KeepTracking;
    }
  }

  // ---------------------------------------------------------------------
  // Closest event

  datatype EventKind = CurrentPeriod | NextPeriod | Ovulation

  /** Extra facts shown for the current period. */
  datatype PeriodDetails = PeriodDetails(isFirstDay: bool, cycleLength: int, currentPeriodDay: int)

  /** `EventInfo` without its icon and colour, which follow from the kind. */
  datatype EventInfo = EventInfo(kind: EventKind, days: int, details: Option<PeriodDetails>)

  /**
   * The index `events.reduce((closest, e) => e.days < closest.days ? e : closest)`
   * ends on: the first event with the fewest days.
   */
  function ClosestIndex(events: seq<EventInfo>): (i: nat)
    requires |events| >= 1
    ensures i < |events|
    ensures forall j :: 0 <= j < |events| ==> events[i].days <= events[j].days
    ensures forall j :: 0 <= j < i ==> events[j].days > events[i].days
  {
    if |events| == 1 then 0
    else
      var c := ClosestIndex(events[..|events| - 1]);
      if events[|events| - 1].days < events[c].days then |events| - 1 else c
  }

  /**
   * `getClosestEvent`: nothing without period data; the current period
   * (0 days away) while in one; otherwise the closer of the next period and
   * ovulation among those known.
   */
  function ClosestEvent(hasPeriodData: bool, isInPeriod: bool, details: PeriodDetails,
                        daysUntilNextPeriod: Option<int>, daysUntilOvulation: Option<int>): Option<EventInfo>
  {
    if !hasPeriodData then None
    else if isInPeriod then Some(EventInfo(CurrentPeriod, 0, Some(details)))
    else
      var events :=
        (if daysUntilNextPeriod.Some? then [EventInfo(NextPeriod, daysUntilNextPeriod.value, None)] else []) +
        (if daysUntilOvulation.Some? then [EventInfo(Ovulation, daysUntilOvulation.value, None)] else []);
      if |events| == 0 then None else Some(events[ClosestIndex(events)])
  }

  /** Outside a period the closest event is the nearer of the two, and a tie goes to the period. */
  lemma ClosestEventChoice(details: PeriodDetails, next: Option<int>, ovulation: Option<int>)
    ensures var r := ClosestEvent(true, false, details, next, ovulation);
      && (r.None? <==> next.None? && ovulation.None?)
      && (next.Some? && (ovulation.None? || next.value <= ovulation.value) ==>
            r == Some(EventInfo(NextPeriod, next.value, None)))
      && (ovulation.Some? && (next.None? || ovulation.value < next.value) ==>
            r == Some(EventInfo(Ovulation, ovulation.value, None)))
  {
  }

  /** Without period data there is no event, and in a period the event is the current period. */
  lemma ClosestEventInPeriod(isInPeriod: bool, details: PeriodDetails, next: Option<int>, ovulation: Option<int>)
    ensures ClosestEvent(false, isInPeriod, details, next, ovulation).None?
    ensures ClosestEvent(true, true, details, next, ovulation) == Some(EventInfo(CurrentPeriod, 0, Some(details)))
  {
  }

  // ---------------------------------------------------------------------
  // Pregnancy chance

  /** The four outcomes of `getPregnancyChance`; the last two share the level "Low". */
  datatype Chance = VeryLow | High | LowAfterOvulation | LowBeforeOvulation

  function Level(c: Chance): string
  {
    match c
    case VeryLow => "Very Low"
    case High => "High"
    case LowAfterOvulation => "Low"
    case LowBeforeOvulation => "Low"
  }

  /** `getPregnancyChance`: by period, then by the days until ovulation. */
  function PregnancyChance(isInPeriod: bool, daysUntilOvulation: Option<int>): (r: Chance)
    ensures r == VeryLow <==> isInPeriod
    ensures r == High <==> !isInPeriod && daysUntilOvulation.Some? && -3 <= daysUntilOvulation.value <= 3
    ensures r == LowAfterOvulation <==> !isInPeriod && daysUntilOvulation.Some? && daysUntilOvulation.value < -3
    ensures r == LowBeforeOvulation <==>
      !isInPeriod && (daysUntilOvulation.None? || daysUntilOvulation.value > 3)
  {
    if isInPeriod then VeryLow
    else if daysUntilOvulation.Some? && -3 <= daysUntilOvulation.value <= 3 then High
    else if daysUntilOvulation.Some? && daysUntilOvulation.value < -3 then LowAfterOvulation
    else LowBeforeOvulation
  }

  /** The chance reads "Low" exactly outside a period and outside the three days around ovulation. */
  lemma LowChance(isInPeriod: bool, daysUntilOvulation: Option<int>)
    ensures Level(PregnancyChance(isInPeriod, daysUntilOvulation)) == "Low" <==>
      !isInPeriod && !(daysUntilOvulation.Some? && -3 <= daysUntilOvulation.value <= 3)
  {
    var r := PregnancyChance(isInPeriod, daysUntilOvulation);
    if r == VeryLow {
      assert Level(r)[0] == 'V';
    } else if r == High {
      assert Level(r)[0] == 'H';
    }
  }

  // ---------------------------------------------------------------------
  // "Days away" text

  function DayWord(n: nat): string
  {
    if n == 1 then "day" else "days"
  }

  /** "in N day(s)" for a distance ahead. */
  function AheadText(n: nat): string
  {
    "in " + NatToString(n) + " " + DayWord(n)
  }

  /** "N day(s) ago" for a distance behind. */
  function AgoText(n: nat): string
  {
    NatToString(n) + " " + DayWord(n) + " ago"
  }

  lemma AheadTextShape(n: nat)
    ensures var r := AheadText(n);
      |r| >= 4 && r[..3] == "in " && r[|r| - 1] != 'o' && r[3..] == NatToString(n) + (" " + DayWord(n))
  {
    var r := AheadText(n);
    assert r[|r| - 1] == DayWord(n)[|DayWord(n)| - 1];
  }

  lemma AgoTextShape(n: nat)
    ensures var r := AgoText(n);
      |r| >= 4 && r[|r| - 4..] == " ago" && IsDigit(r[0]) && r == NatToString(n) + (" " + DayWord(n) + " ago")
  {
    var r := AgoText(n);
    assert r[0] == NatToString(n)[0];
  }

  /** `formatDaysAwayText`: "in N day(s)", "today", or "|N| day(s) ago". */
  function DaysAwayText(days: int): (r: string)
    ensures days == 0 <==> r == "today"
    ensures days > 0 <==> |r| >= 3 && r[..3] == "in "
    ensures days < 0 <==> |r| >= 4 && r[|r| - 4..] == " ago"
  {
    if days > 0 then
      AheadTextShape(days);
      AheadText(days)
    else if days == 0 then
      assert "today"[0] == 't' && "today"[1] == 'o';
      "today"
    else
      AgoTextShape(-days);
      AgoText(-days)
  }

  /** The number in the text reads back as the distance in days. */
  lemma DaysAwayTextCount(days: int)
    ensures days > 0 ==> DigitsValue(DigitPrefix(DaysAwayText(days)[3..])) == days
    ensures days < 0 ==> DigitsValue(DigitPrefix(DaysAwayText(days))) == -days
  {
    if days > 0 {
      AheadTextShape(days);
      DigitPrefixOfDigits(NatToString(days), " " + DayWord(days));
    } else if days < 0 {
      AgoTextShape(-days);
      DigitPrefixOfDigits(NatToString(-days), " " + DayWord(-days) + " ago");
    }
  }

  /** Different distances give different texts. */
  lemma DaysAwayTextInjective(a: int, b: int)
    requires DaysAwayText(a) == DaysAwayText(b)
    ensures a == b
  {
    DaysAwayTextCount(a);
    DaysAwayTextCount(b);
  }

  /** The plural "s" appears exactly when the distance is not one day. */
  lemma DaysAwayPlural(days: int)
    requires days != 0
    ensures 's' in DaysAwayText(days) <==> days != 1 && days != -1
  {
    var n := if days > 0 then days else -days;
    var digits := NatToString(n);
    assert 's' !in digits by {
      forall i | 0 <= i < |digits| ensures digits[i] != 's' {
        assert IsDigit(digits[i]);
      }
    }
    if days > 0 {
      assert DaysAwayText(days) == "in " + digits + " " + DayWord(n);
    } else {
      assert DaysAwayText(days) == digits + " " + DayWord(n) + " ago";
    }
  }
}
