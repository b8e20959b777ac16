/**
 * The cycle predictor of the tracker page (app/tracker/page.tsx).
 *
 * Logged period days are YYYY-MM-DD keys. The page parses them to local
 * midnights, sorts them, groups days that are at most 3 days apart into
 * periods, takes the mean start-to-start gap as the cycle length and
 * derives from the most recent period start the next period, the cycle day,
 * a fixed fertile window and the ovulation day. It also generates the key
 * sets of predicted period days and fertile days for the current cycle and
 * three more.
 *
 * The page holds two copies of the computation: one for the user's own
 * days (falling back to the stored cycle length) and one for the partner's
 * days (falling back to 28, and without a period end); both are `Predict`
 * here, with the fallback as a parameter.
 *
 * Clock times are milliseconds of local time; a date is the day number of
 * its local midnight, so date `z` is the instant `z * DayMs`. Daylight-saving
 * shifts are not modelled: every day has 86_400_000 ms.
 */
module CyclePrediction {
  import opened Optional
  import opened Dates
  import opened Text

  const DayMs: int := 86_400_000

  // ---------------------------------------------------------------------
  // Date keys (formatDateKey / parseDateKey)

  /** `formatDateKey`: year, then month and day padded to two digits, joined by '-'. */
  function FormatDateKey(z: int): string
  {
    FormatCivil(CivilFromDays(z))
  }

  function FormatCivil(c: Civil): string
  {
    IntToString(c.year) + "-" + PadStart2(IntToString(c.month)) + "-" + PadStart2(IntToString(c.day))
  }

  /**
   * `parseDateKey`: split on '-', apply `Number` to the first three pieces and
   * build `new Date(year, month - 1, day)`. `None` is an Invalid Date (a
   * missing piece or a piece that is not a number).
   */
  function ParseDateKey(key: string): Option<int>
  {
    match KeyFields(key)
    case Some((y, m, d)) => Some(JsMakeDay(y, m - 1, d))
    case None => None
  }

  /** The numbers of the first three '-'-separated pieces of a key. */
  function KeyFields(key: string): Option<(int, int, int)>
  {
    PartsFields(Split(key, '-'))
  }

  /** `Number` applied to the first three pieces; fewer than three pieces is no date. */
  function PartsFields(parts: seq<string>): Option<(int, int, int)>
  {
    if |parts| < 3 then None
    else
      match (JsNumber(parts[0]), JsNumber(parts[1]), JsNumber(parts[2]))
      case (Some(y), Some(m), Some(d)) => Some((y, m, d))
      case _ => None
  }

  /** Three non-empty digit strings joined by '-' read as their three values. */
  lemma DigitPiecesFields(k: string, ys: string, ms: string, ds: string)
    requires AllDigits(ys) && AllDigits(ms) && AllDigits(ds)
    requires |ys| >= 1 && |ms| >= 1 && |ds| >= 1
    requires k == ys + "-" + ms + "-" + ds
    ensures KeyFields(k) == Some((DigitsValue(ys), DigitsValue(ms), DigitsValue(ds)))
  {
    DigitsExclude(ys, '-');
    DigitsExclude(ms, '-');
    DigitsExclude(ds, '-');
    SplitThree(ys, ms, ds, '-');
    assert Split(k, '-') == [ys, ms, ds];
  }

  /** A key whose numbers are known parses to the day those numbers make. */
  lemma ParseOfFields(k: string, y: int, m: int, d: int)
    requires KeyFields(k) == Some((y, m, d))
    ensures ParseDateKey(k) == Some(JsMakeDay(y, m - 1, d))
  {
  }

  /** The shape YYYY-MM-DD: a four-digit year without a leading zero, two-digit month and day. */
  predicate KeyShape(k: string)
  {
    |k| == 10 && k[4] == '-' && k[7] == '-' &&
    Canonical(k[..4]) && AllDigits(k[5..7]) && AllDigits(k[8..])
  }

  /** The date a key of that shape names. */
  function KeyCivil(k: string): Civil
    requires KeyShape(k)
  {
    Civil(DigitsValue(k[..4]), DigitsValue(k[5..7]), DigitsValue(k[8..]))
  }

  /** A zero-padded key YYYY-MM-DD naming an existing date of a four-digit year. */
  predicate ValidDateKey(k: string)
  {
    KeyShape(k) && ValidCivil(KeyCivil(k))
  }

  /** A valid key reads as its three numbers, and writing them out again gives the key. */
  lemma ValidKeyFields(k: string)
    requires ValidDateKey(k)
    ensures KeyFields(k) == Some((KeyCivil(k).year, KeyCivil(k).month, KeyCivil(k).day))
    ensures FormatCivil(KeyCivil(k)) == k
    ensures KeyCivil(k).year >= 1000
  {
    var ys, ms, ds := k[..4], k[5..7], k[8..];
    assert k == ys + "-" + ms + "-" + ds;
    DigitPiecesFields(k, ys, ms, ds);
    Power10Four(ys);
    NatToStringOfCanonical(ys);
    TwoDigitsOfDigits(ms);
    TwoDigitsOfDigits(ds);
  }

  /** A formatted date of a year from 0 on reads back as its three numbers. */
  lemma FormatCivilFields(c: Civil)
    requires TwoDigitFields(c) && c.year >= 0
    ensures KeyFields(FormatCivil(c)) == Some((c.year, c.month, c.day))
  {
    FormatCivilPieces(c);
    DigitPiecesFields(FormatCivil(c), IntToString(c.year), TwoDigits(c.month), TwoDigits(c.day));
  }

  /** Parsing a valid key and formatting the date again gives the key back. */
  lemma FormatParseDateKey(k: string)
    requires ValidDateKey(k)
    ensures ParseDateKey(k).Some? && FormatDateKey(ParseDateKey(k).value) == k
  {
    ValidKeyFields(k);
    KeyRoundTrip(k, KeyCivil(k));
  }

  /** The round trip for a key that reads as, and is written from, the date `c`. */
  lemma KeyRoundTrip(k: string, c: Civil)
    requires KeyFields(k) == Some((c.year, c.month, c.day)) && FormatCivil(c) == k
    requires ValidCivil(c) && c.year >= 1000
    ensures ParseDateKey(k).Some? && FormatDateKey(ParseDateKey(k).value) == k
  {
    ParseOfFields(k, c.year, c.month, c.day);
    FormatMadeDay(c);
  }

  lemma FormatMadeDay(c: Civil)
    requires ValidCivil(c) && c.year >= 1000
    ensures FormatDateKey(JsMakeDay(c.year, c.month - 1, c.day)) == FormatCivil(c)
  {
    JsMakeDayOfValid(c);
  }

  /** Formatting a date of a year from 100 on and parsing the key gives the date back. */
  lemma ParseFormatDateKey(z: int)
    requires CivilFromDays(z).year >= 100
    ensures ParseDateKey(FormatDateKey(z)) == Some(z)
  {
    var c := CivilFromDays(z);
    CivilFromDaysValid(z);
    assert TwoDigitFields(c);
    FormatCivilFields(c);
    JsMakeDayOfValid(c);
  }

  /** Two keys with two-character month and day pieces are equal only piece by piece. */
  lemma KeyPiecesEqual(y1: string, m1: string, d1: string, y2: string, m2: string, d2: string)
    requires |m1| == 2 && |d1| == 2 && |m2| == 2 && |d2| == 2
    requires y1 + "-" + m1 + "-" + d1 == y2 + "-" + m2 + "-" + d2
    ensures y1 == y2 && m1 == m2 && d1 == d2
  {
    var k := y1 + "-" + m1 + "-" + d1;
    var n := |k|;
    assert k[..n - 6] == y1 && k[n - 5..n - 3] == m1 && k[n - 2..] == d1;
    var k2 := y2 + "-" + m2 + "-" + d2;
    assert k2[..n - 6] == y2 && k2[n - 5..n - 3] == m2 && k2[n - 2..] == d2;
  }

  /** Month and day numbers that fit in two digits. */
  predicate TwoDigitFields(c: Civil)
  {
    0 <= c.month < 100 && 0 <= c.day < 100
  }

  lemma FormatCivilPieces(c: Civil)
    requires TwoDigitFields(c)
    ensures FormatCivil(c) == IntToString(c.year) + "-" + TwoDigits(c.month) + "-" + TwoDigits(c.day)
  {
  }

  /** Distinct dates with two-digit months and days have distinct keys. */
  lemma FormatCivilInjective(c1: Civil, c2: Civil)
    requires TwoDigitFields(c1) && TwoDigitFields(c2) && FormatCivil(c1) == FormatCivil(c2)
    ensures c1 == c2
  {
    FormatCivilPieces(c1);
    FormatCivilPieces(c2);
    KeyPiecesEqual(IntToString(c1.year), TwoDigits(c1.month), TwoDigits(c1.day),
                   IntToString(c2.year), TwoDigits(c2.month), TwoDigits(c2.day));
    TwoDigitsInjective(c1.day, c2.day);
    TwoDigitsInjective(c1.month, c2.month);
    IntToStringInjective(c1.year, c2.year);
  }

  /** Distinct dates have distinct keys, for every year. */
  lemma FormatDateKeyInjective(z1: int, z2: int)
    requires FormatDateKey(z1) == FormatDateKey(z2)
    ensures z1 == z2
  {
    CivilFromDaysValid(z1);
    CivilFromDaysValid(z2);
    assert TwoDigitFields(CivilFromDays(z1)) && TwoDigitFields(CivilFromDays(z2));
    FormatCivilInjective(CivilFromDays(z1), CivilFromDays(z2));
    CivilFromDaysInjective(z1, z2);
  }

  // ---------------------------------------------------------------------
  // Clock arithmetic

  /** `Math.ceil(a / b)` for a positive divisor. */
  function CeilDiv(a: int, b: int): int
    requires b > 0
  {
    -((-a) / b)
  }

  lemma CeilDivDays(a: int)
    ensures DayMs * (CeilDiv(a, DayMs) - 1) < a <= DayMs * CeilDiv(a, DayMs)
  {
  }

  /** The day containing the instant `nowMs`. */
  function Today(nowMs: int): int { nowMs / DayMs }

  /** The difference of two midnights, divided by the length of a day, is the number of days between them. */
  lemma WholeDays(a: int, b: int)
    ensures (a * DayMs - b * DayMs) / DayMs == a - b
  {
    assert a * DayMs - b * DayMs == (a - b) * DayMs;
  }

  /** `Math.ceil((target - now) / day)` for a target at midnight. */
  function DaysUntil(target: int, nowMs: int): int
  {
    CeilDiv(target * DayMs - nowMs, DayMs)
  }

  /** `Math.ceil((now - start) / day)` for a start at midnight. */
  function DaysSince(start: int, nowMs: int): int
  {
    CeilDiv(nowMs - start * DayMs, DayMs)
  }

  /** Counting down to a midnight gives the plain difference of days. */
  lemma DaysUntilIsDayDifference(target: int, nowMs: int)
    ensures DaysUntil(target, nowMs) == target - Today(nowMs)
  {
    var t, f := nowMs / DayMs, nowMs % DayMs;
    assert target * DayMs - nowMs == (target - t) * DayMs - f;
  }

  /** Counting up from a midnight gives the difference of days plus one once the clock is past midnight. */
  lemma DaysSinceCountsToday(start: int, nowMs: int)
    ensures DaysSince(start, nowMs) == Today(nowMs) - start + (if nowMs % DayMs == 0 then 0 else 1)
  {
    var t, f := nowMs / DayMs, nowMs % DayMs;
    assert nowMs - start * DayMs == (t - start) * DayMs + f;
  }

  /** Once the clock is past a midnight, at least one day has started since. */
  lemma DaysSincePositive(start: int, nowMs: int)
    requires nowMs > start * DayMs
    ensures DaysSince(start, nowMs) >= 1
  {
    CeilDivDays(nowMs - start * DayMs);
  }

  /** Two midnights are exactly their difference of days apart. */
  lemma MidnightDifference(a: int, b: int)
    ensures CeilDiv(b * DayMs - a * DayMs, DayMs) == b - a
  {
    assert b * DayMs - a * DayMs == (b - a) * DayMs;
  }

  /** JavaScript `a % b`: the remainder takes the sign of the dividend. */
  function JsRem(a: int, b: int): int
    requires b != 0
  {
    var m := (if a < 0 then -a else a) % (if b < 0 then -b else b);
    if a < 0 then -m else m
  }

  /** `Math.round(a / k)` for k > 0: halves round towards +infinity. */
  function RoundDiv(a: int, k: int): int
    requires k > 0
  {
    (2 * a + k) / (2 * k)
  }

  /** The rounded quotient is within one half of the exact one, halves going up. */
  lemma RoundDivBounds(a: int, k: int)
    requires k > 0
    ensures 2 * k * RoundDiv(a, k) - k <= 2 * a < 2 * k * RoundDiv(a, k) + k
  {
    var q, r := (2 * a + k) / (2 * k), (2 * a + k) % (2 * k);
    assert 2 * a + k == 2 * k * q + r && 0 <= r < 2 * k;
  }

  /** The quotient and remainder of a positive divisor are the only such pair. */
  lemma DivModUnique(a: int, b: int, q: int, r: int)
    requires b > 0 && a == b * q + r && 0 <= r < b
    ensures a / b == q && a % b == r
  {
    var q', r' := a / b, a % b;
    assert a == b * q' + r' && 0 <= r' < b;
    assert b * (q - q') == r' - r;
    if q - q' >= 1 {
      MulMono(b, 1, q - q');
    } else if q - q' <= -1 {
      MulMono(b, q - q', -1);
    }
  }

  /** `cycleDay`: the day count modulo the cycle length, a remainder of 0 meaning the last day. */
  function CycleDay(daysSince: int, cycleLength: int): int
    requires cycleLength != 0
  {
    var r := JsRem(daysSince, cycleLength);
    if r == 0 then cycleLength else r
  }

  /**
   * From the first day on, the cycle day is the count of days into the
   * current cycle: one more than `daysSince - 1` modulo the length, so it
   * lies in 1..cycleLength and steps through the cycle with the days.
   */
  lemma CycleDayInRange(daysSince: int, cycleLength: int)
    requires daysSince >= 1 && cycleLength >= 1
    ensures CycleDay(daysSince, cycleLength) == (daysSince - 1) % cycleLength + 1
    ensures 1 <= CycleDay(daysSince, cycleLength) <= cycleLength
  {
    var q, r := (daysSince - 1) / cycleLength, (daysSince - 1) % cycleLength;
    assert daysSince - 1 == cycleLength * q + r && 0 <= r < cycleLength;
    if r + 1 < cycleLength {
      DivModUnique(daysSince, cycleLength, q, r + 1);
    } else {
      DivModUnique(daysSince, cycleLength, q + 1, 0);
    }
  }

  /** Before the start, the truncated remainder makes the cycle day 0 or negative, or the full length. */
  lemma CycleDayBeforeStart(daysSince: int, cycleLength: int)
    requires daysSince <= 0 && cycleLength >= 1
    ensures -cycleLength < CycleDay(daysSince, cycleLength) <= cycleLength
    ensures CycleDay(daysSince, cycleLength) > 0 ==> CycleDay(daysSince, cycleLength) == cycleLength
  {
    var m := (-daysSince) % cycleLength;
    assert 0 <= m < cycleLength;
    assert JsRem(daysSince, cycleLength) == -m;
  }

  // ---------------------------------------------------------------------
  // Sorting and grouping

  predicate Sorted(s: seq<int>)
  {
    forall i, j :: 0 <= i < j < |s| ==> s[i] <= s[j]
  }

  function Insert(x: int, s: seq<int>): (r: seq<int>)
    requires Sorted(s)
    ensures Sorted(r) && multiset(r) == multiset(s) + multiset{x}
    ensures |r| == |s| + 1 && r[0] == (if |s| == 0 || x <= s[0] then x else s[0])
  {
    if |s| == 0 || x <= s[0] then
      SortedCons(x, s);
      [x] + s
    else
      var rest := Insert(x, s[1..]);
      assert s == [s[0]] + s[1..];
      SortedCons(s[0], rest);
      [s[0]] + rest
  }

  lemma SortedCons(h: int, t: seq<int>)
    requires Sorted(t) && (|t| > 0 ==> h <= t[0])
    ensures Sorted([h] + t)
  {
  }

  /** `sort((a, b) => a.getTime() - b.getTime())`: the days in ascending order. */
  function SortDays(s: seq<int>): (r: seq<int>)
    ensures Sorted(r) && multiset(r) == multiset(s)
  {
    if |s| == 0 then []
    else
      assert s == [s[0]] + s[1..];
      Insert(s[0], SortDays(s[1..]))
  }

  /** The parsed dates of the keys that name one (the Invalid Dates dropped). */
  function ParsedDays(keys: seq<string>): (days: seq<int>)
    ensures |days| <= |keys|
  {
    if |keys| == 0 then []
    else
      var rest := ParsedDays(keys[1..]);
      match ParseDateKey(keys[0])
      case Some(z) => [z] + rest
      case None => rest
  }

  /**
   * The parsed days are exactly the dates the keys name: a day is listed
   * when some key parses to it, and when every key parses none is dropped.
   */
  lemma {:induction false} ParsedDaysMembers(keys: seq<string>)
    ensures forall z :: z in ParsedDays(keys) <==> exists k :: k in keys && ParseDateKey(k) == Some(z)
    ensures (forall k :: k in keys ==> ParseDateKey(k).Some?) ==> |ParsedDays(keys)| == |keys|
  {
    if |keys| > 0 {
      ParsedDaysMembers(keys[1..]);
      assert forall k :: k in keys <==> k == keys[0] || k in keys[1..];
    }
  }

  function Last<T>(s: seq<T>): T
    requires |s| > 0
  {
    s[|s| - 1]
  }

  function Flatten(groups: seq<seq<int>>): seq<int>
  {
    if |groups| == 0 then [] else Flatten(groups[..|groups| - 1]) + Last(groups)
  }

  predicate NonEmptyGroups(groups: seq<seq<int>>)
  {
    forall i :: 0 <= i < |groups| ==> |groups[i]| > 0
  }

  /**
   * The grouping: a day joins the current period when it lies at most 3 days
   * after the period's last day (two midnights differ by exactly their number
   * of days, lemma MidnightDifference), and starts a new period otherwise.
   */
  function Groups(days: seq<int>): (groups: seq<seq<int>>)
    ensures NonEmptyGroups(groups)
    ensures |days| > 0 <==> |groups| > 0
  {
    if |days| == 0 then []
    else
      var g := Groups(days[..|days| - 1]);
      var x := Last(days);
      if |g| == 0 then [[x]]
      else if x - Last(Last(g)) <= 3 then g[..|g| - 1] + [Last(g) + [x]]
      else g + [[x]]
  }

  /** Concatenating the periods gives back the days. */
  lemma {:induction false} GroupsFlatten(days: seq<int>)
    ensures Flatten(Groups(days)) == days
  {
    if |days| > 0 {
      var pre := days[..|days| - 1];
      GroupsFlatten(pre);
      var g := Groups(pre);
      var x := Last(days);
      assert days == pre + [x];
      if |g| > 0 && x - Last(Last(g)) <= 3 {
        var g' := g[..|g| - 1] + [Last(g) + [x]];
        assert g'[..|g'| - 1] == g[..|g| - 1];
        assert Flatten(g) == Flatten(g[..|g| - 1]) + Last(g);
      } else if |g| > 0 {
        assert (g + [[x]])[..|g|] == g;
      } else {
        assert [[x]][..0] == [];
      }
    }
  }

  /** Inside a period, consecutive days are at most 3 days apart. */
  predicate TightGroups(groups: seq<seq<int>>)
  {
    forall i, j :: 0 <= i < |groups| && 0 < j < |groups[i]| ==> groups[i][j] - groups[i][j - 1] <= 3
  }

  /** Between consecutive periods, the gap from the last day to the next first day exceeds 3 days. */
  predicate SeparatedGroups(groups: seq<seq<int>>)
    requires NonEmptyGroups(groups)
  {
    forall i :: 0 < i < |groups| ==> groups[i][0] - Last(groups[i - 1]) > 3
  }

  lemma GroupsGaps(days: seq<int>)
    ensures TightGroups(Groups(days)) && SeparatedGroups(Groups(days))
  {
    GroupsTight(days);
    GroupsSeparated(days);
  }

  lemma {:induction false} GroupsTight(days: seq<int>)
    ensures TightGroups(Groups(days))
  {
    if |days| > 0 {
      var pre := days[..|days| - 1];
      GroupsTight(pre);
      var g := Groups(pre);
      var x := Last(days);
      var g' := Groups(days);
      if |g| > 0 && x - Last(Last(g)) <= 3 {
        assert g' == g[..|g| - 1] + [Last(g) + [x]];
        forall i, j | 0 <= i < |g'| && 0 < j < |g'[i]| ensures g'[i][j] - g'[i][j - 1] <= 3 {
          if i < |g| - 1 {
            assert g'[i] == g[i];
          }
        }
      } else if |g| > 0 {
        assert g' == g + [[x]];
        forall i, j | 0 <= i < |g'| && 0 < j < |g'[i]| ensures g'[i][j] - g'[i][j - 1] <= 3 {
          assert g'[i] == g[i];
        }
      }
    }
  }

  lemma {:induction false} GroupsSeparated(days: seq<int>)
    ensures SeparatedGroups(Groups(days))
  {
    if |days| > 0 {
      var pre := days[..|days| - 1];
      GroupsSeparated(pre);
      var g := Groups(pre);
      var x := Last(days);
      var g' := Groups(days);
      if |g| > 0 && x - Last(Last(g)) <= 3 {
        assert g' == g[..|g| - 1] + [Last(g) + [x]];
        forall i | 0 < i < |g'| ensures g'[i][0] - Last(g'[i - 1]) > 3 {
          assert g'[i][0] == g[i][0];
          assert Last(g'[i - 1]) == Last(g[i - 1]);
        }
      } else if |g| > 0 {
        assert g' == g + [[x]];
        forall i | 0 < i < |g'| ensures g'[i][0] - Last(g'[i - 1]) > 3 {
          if i < |g| {
            assert g'[i] == g[i] && g'[i - 1] == g[i - 1];
          }
        }
      }
    }
  }

  /** On sorted days, the periods are in order: each starts after the previous one ends. */
  lemma {:induction false} GroupsSorted(days: seq<int>)
    requires Sorted(days)
    ensures forall i :: 0 <= i < |Groups(days)| ==> Sorted(Groups(days)[i])
  {
    if |days| > 0 {
      var pre := days[..|days| - 1];
      GroupsSorted(pre);
      var g := Groups(pre);
      var x := Last(days);
      if |g| > 0 && x - Last(Last(g)) <= 3 {
        GroupsFlatten(pre);
        LastOfFlatten(g);
        assert Last(Last(g)) == Last(pre);
        assert Last(pre) <= x;
        assert Sorted(Last(g) + [x]);
      }
    }
  }

  lemma LastOfFlatten(groups: seq<seq<int>>)
    requires |groups| > 0 && NonEmptyGroups(groups)
    ensures |Flatten(groups)| > 0 && Last(Flatten(groups)) == Last(Last(groups))
  {
  }

  /**
   * The grouping loop of the page: `currentPeriod` collects days while they
   * are close to its last day and is pushed onto `potentialPeriods` when a
   * gap of more than 3 days opens, and once more at the end.
   */
  method GroupPeriods(sortedDates: seq<int>) returns (potentialPeriods: seq<seq<int>>)
    ensures potentialPeriods == Groups(sortedDates)
  {
    potentialPeriods := [];
    var currentPeriod: seq<int> := [];
    var i := 0;
    while i < |sortedDates|
      invariant 0 <= i <= |sortedDates|
      invariant i == 0 <==> |currentPeriod| == 0
      invariant i == 0 ==> potentialPeriods == []
      invariant i > 0 ==> potentialPeriods + [currentPeriod] == Groups(sortedDates[..i])
    {
      var currentDate := sortedDates[i];
      assert sortedDates[..i + 1][..i] == sortedDates[..i];
      if |currentPeriod| == 0 {
        currentPeriod := [currentDate];
      } else {
        var lastDate := currentPeriod[|currentPeriod| - 1];
        var daysDiff := currentDate - lastDate;
        ghost var g := Groups(sortedDates[..i]);
        assert g[..|g| - 1] == potentialPeriods && Last(g) == currentPeriod;
        if daysDiff <= 3 {
          currentPeriod := currentPeriod + [currentDate];
        } else {
          potentialPeriods := potentialPeriods + [currentPeriod];
          currentPeriod := [currentDate];
        }
      }
      i := i + 1;
    }
    assert sortedDates[..i] == sortedDates;
    if |currentPeriod| > 0 {
      potentialPeriods := potentialPeriods + [currentPeriod];
    }
  }

  /** `periodStartDates`: the first day of every period. */
  function Starts(groups: seq<seq<int>>): (starts: seq<int>)
    requires NonEmptyGroups(groups)
    ensures |starts| == |groups| && forall i :: 0 <= i < |groups| ==> starts[i] == groups[i][0]
  {
    seq(|groups|, i requires 0 <= i < |groups| => groups[i][0])
  }

  /**
   * The cycle length: the fallback with fewer than two periods, and otherwise
   * the rounded mean gap between consecutive starts, which telescopes to the
   * span from the first to the last start over the number of gaps.
   */
  function MeanCycleLength(starts: seq<int>, fallback: int): int
  {
    if |starts| < 2 then fallback else RoundDiv(Last(starts) - starts[0], |starts| - 1)
  }

  /** The average cycle length loop: sums the start-to-start gaps and rounds their mean. */
  method AverageCycleLength(periodStartDates: seq<int>, fallback: int) returns (avgCycleLength: int)
    ensures avgCycleLength == MeanCycleLength(periodStartDates, fallback)
  {
    avgCycleLength := fallback;
    if |periodStartDates| > 1 {
      var totalCycleDays := 0;
      var i := 1;
      while i < |periodStartDates|
        invariant 1 <= i <= |periodStartDates|
        invariant totalCycleDays == periodStartDates[i - 1] - periodStartDates[0]
      {
        var diff := periodStartDates[i] - periodStartDates[i - 1];
        totalCycleDays := totalCycleDays + diff;
        i := i + 1;
      }
      avgCycleLength := RoundDiv(totalCycleDays, |periodStartDates| - 1);
    }
  }

  /** Every gap between consecutive starts is at least `lo` days. */
  predicate GapsAtLeast(starts: seq<int>, lo: int)
  {
    forall i :: 0 < i < |starts| ==> starts[i] - starts[i - 1] >= lo
  }

  /** Every gap between consecutive starts is at most `hi` days. */
  predicate GapsAtMost(starts: seq<int>, hi: int)
  {
    forall i :: 0 < i < |starts| ==> starts[i] - starts[i - 1] <= hi
  }

  lemma {:induction false} SpanBounds(starts: seq<int>, lo: int, hi: int)
    requires |starts| >= 1
    ensures GapsAtLeast(starts, lo) ==> Last(starts) - starts[0] >= (|starts| - 1) * lo
    ensures GapsAtMost(starts, hi) ==> Last(starts) - starts[0] <= (|starts| - 1) * hi
  {
    if |starts| > 1 {
      var pre := starts[..|starts| - 1];
      SpanBounds(pre, lo, hi);
      assert (|starts| - 1) * lo == (|pre| - 1) * lo + lo;
      assert (|starts| - 1) * hi == (|pre| - 1) * hi + hi;
      assert GapsAtLeast(starts, lo) ==> GapsAtLeast(pre, lo);
      assert GapsAtMost(starts, hi) ==> GapsAtMost(pre, hi);
    }
  }

  /** The mean cycle length lies between the shortest and the longest gap. */
  lemma MeanBetweenGaps(starts: seq<int>, lo: int, hi: int, fallback: int)
    requires |starts| >= 2
    ensures GapsAtLeast(starts, lo) ==> MeanCycleLength(starts, fallback) >= lo
    ensures GapsAtMost(starts, hi) ==> MeanCycleLength(starts, fallback) <= hi
  {
    var k := |starts| - 1;
    var span := Last(starts) - starts[0];
    SpanBounds(starts, lo, hi);
    assert MeanCycleLength(starts, fallback) == (2 * span + k) / (2 * k);
    if GapsAtLeast(starts, lo) {
      RoundLower(span, k, lo);
    }
    if GapsAtMost(starts, hi) {
      RoundUpper(span, k, hi);
    }
  }

  lemma RoundLower(span: int, k: int, lo: int)
    requires k > 0 && span >= (k * lo)
    ensures (2 * span + k) / (2 * k) >= lo
  {
    assert (2 * k) * lo == 2 * (k * lo);
    DivLower(2 * span + k, 2 * k, lo);
  }

  lemma RoundUpper(span: int, k: int, hi: int)
    requires k > 0 && span <= k * hi
    ensures (2 * span + k) / (2 * k) <= hi
  {
    assert (2 * k) * (hi + 1) == 2 * (k * hi) + 2 * k;
    DivUpper(2 * span + k, 2 * k, hi);
  }

  lemma DivLower(x: int, m: int, lo: int)
    requires m > 0 && x >= m * lo
    ensures x / m >= lo
  {
    var q, r := x / m, x % m;
    assert x == m * q + r && r < m;
    if q < lo {
      MulMono(m, q + 1, lo);
    }
  }

  lemma DivUpper(x: int, m: int, hi: int)
    requires m > 0 && x < m * (hi + 1)
    ensures x / m <= hi
  {
    var q, r := x / m, x % m;
    assert x == m * q + r && 0 <= r;
    if q > hi {
      MulMono(m, hi + 1, q);
    }
  }

  lemma MulMono(k: int, a: int, b: int)
    requires k >= 0 && a <= b
    ensures k * a <= k * b
  {
    assert k * b - k * a == k * (b - a);
  }

  /** On sorted days the period starts are more than 3 days apart, so a computed cycle length is at least 4. */
  lemma StartsSeparated(days: seq<int>)
    requires Sorted(days)
    ensures GapsAtLeast(Starts(Groups(days)), 4)
  {
    var g := Groups(days);
    GroupsGaps(days);
    GroupsSorted(days);
    var st := Starts(g);
    forall i | 0 < i < |st| ensures st[i] - st[i - 1] >= 4 {
      assert g[i][0] - Last(g[i - 1]) > 3;
      assert g[i - 1][0] <= Last(g[i - 1]);
    }
  }

  // ---------------------------------------------------------------------
  // The prediction

  /** What the page derives from the logged days; `None` is `null`. */
  datatype CycleData = CycleData(
    mostRecentPeriodStart: Option<int>,
    mostRecentPeriodEnd: Option<int>,
    cycleLength: int,
    nextPeriod: Option<int>,
    daysUntilNextPeriod: Option<int>,
    currentCycleDay: Option<int>,
    fertileStart: Option<int>,
    fertileEnd: Option<int>,
    daysUntilOvulation: Option<int>)

  /** The periods of a list of keys: parse, sort ascending, group. */
  function PeriodGroups(keys: seq<string>): (groups: seq<seq<int>>)
    ensures NonEmptyGroups(groups)
    ensures TightGroups(groups) && SeparatedGroups(groups)
    ensures Flatten(groups) == SortDays(ParsedDays(keys))
    ensures |groups| > 0 <==> |ParsedDays(keys)| > 0
  {
    var days := SortDays(ParsedDays(keys));
    GroupsGaps(days);
    GroupsFlatten(days);
    Groups(days)
  }

  /** A day lies in one of the periods exactly when some key names it. */
  lemma PeriodGroupsMembers(keys: seq<string>)
    ensures forall z :: z in Flatten(PeriodGroups(keys)) <==> exists k :: k in keys && ParseDateKey(k) == Some(z)
  {
    ParsedDaysMembers(keys);
    var days := ParsedDays(keys);
    assert forall z :: z in SortDays(days) <==> z in multiset(SortDays(days));
    assert forall z :: z in days <==> z in multiset(days);
  }

  /** The first day of the last period, if any. */
  function PeriodStart(groups: seq<seq<int>>): Option<int>
    requires NonEmptyGroups(groups)
  {
    if |groups| == 0 then None else Some(Last(groups)[0])
  }

  /** The last day of the last period, if any. */
  function PeriodEnd(groups: seq<seq<int>>): Option<int>
    requires NonEmptyGroups(groups)
  {
    if |groups| == 0 then None else Some(Last(Last(groups)))
  }

  /** The cycle length of some keys; never 0 when the fallback is not. */
  function CycleLengthOf(keys: seq<string>, fallback: int): (len: int)
    ensures |PeriodGroups(keys)| < 2 ==> len == fallback
    ensures |PeriodGroups(keys)| >= 2 ==> len >= 4
    ensures |PeriodGroups(keys)| >= 2 ==>
      len == RoundDiv(Last(PeriodGroups(keys))[0] - PeriodGroups(keys)[0][0], |PeriodGroups(keys)| - 1)
  {
    var groups := PeriodGroups(keys);
    var len := MeanCycleLength(Starts(groups), fallback);
    assert |groups| >= 2 ==> len == RoundDiv(Last(groups)[0] - groups[0][0], |groups| - 1) by {
      if |groups| >= 2 {
        MeanOfStarts(groups, fallback);
      }
    }
    assert |groups| >= 2 ==> len >= 4 by {
      if |groups| >= 2 {
        StartsSeparated(SortDays(ParsedDays(keys)));
        MeanBetweenGaps(Starts(groups), 4, 0, fallback);
      }
    }
    len
  }

  /**
   * Everything derived from the most recent start: the next period is the
   * start plus the cycle length, the fertile window is days 11 to 17 after
   * the start and ovulation day 14. Without a start all of them are `null`.
   */
  function Derive(start: Option<int>, end: Option<int>, cycleLength: int, nowMs: int): CycleData
    requires cycleLength != 0
  {
    match start
    case None => CycleData(None, end, cycleLength, None, None, None, None, None, None)
    case Some(s) =>
      CycleData(
        Some(s), end, cycleLength,
        Some(s + cycleLength), Some(DaysUntil(s + cycleLength, nowMs)),
        Some(CycleDay(DaysSince(s, nowMs), cycleLength)),
        Some(s + 11), Some(s + 17), Some(DaysUntil(s + 14, nowMs)))
  }

  /** The user's computation: start and end of the last period and the cycle length with a fallback. */
  function Predict(keys: seq<string>, fallback: int, nowMs: int): (r: CycleData)
    requires fallback != 0
    ensures r.cycleLength != 0
  {
    var groups := PeriodGroups(keys);
    Derive(PeriodStart(groups), PeriodEnd(groups), CycleLengthOf(keys, fallback), nowMs)
  }

  /** `x || d` on a number: 0 and a missing value are falsy. */
  function OrDefault(x: Option<int>, d: int): (r: int)
    ensures x.Some? && x.value != 0 ==> r == x.value
    ensures x.None? || x == Some(0) ==> r == d
  {
    if x.Some? && x.value != 0 then x.value else d
  }

  /** The user's copy: keys of the user's period days, falling back to the stored cycle length or 28. */
  function UserCycleData(periodDays: seq<string>, settingCycleLength: Option<int>, nowMs: int): CycleData
  {
    Predict(periodDays, OrDefault(settingCycleLength, 28), nowMs)
  }

  /** The partner's copy: `null` for no days; otherwise the fallback is 28 and no period end is computed. */
  function PartnerCycleData(periodDays: seq<string>, nowMs: int): (r: Option<CycleData>)
    ensures r.None? <==> |periodDays| == 0
    ensures r.Some? ==> r.value.mostRecentPeriodEnd.None?
  {
    if |periodDays| == 0 then None
    else
      var groups := PeriodGroups(periodDays);
      Some(Derive(PeriodStart(groups), None, CycleLengthOf(periodDays, 28), nowMs))
  }

  /** Without a parsable day there is no start and every derived value is `null`; the length is the fallback. */
  lemma PredictWithoutData(keys: seq<string>, fallback: int, nowMs: int)
    requires fallback != 0 && |ParsedDays(keys)| == 0
    ensures Predict(keys, fallback, nowMs) == CycleData(None, None, fallback, None, None, None, None, None, None)
  {
  }

  /** With data, the start and end are the first and last day of the last period. */
  lemma PredictMostRecentPeriod(keys: seq<string>, fallback: int, nowMs: int)
    requires fallback != 0 && |ParsedDays(keys)| > 0
    ensures var r := Predict(keys, fallback, nowMs);
      var g := PeriodGroups(keys);
      && |g| > 0
      && r.mostRecentPeriodStart == Some(g[|g| - 1][0])
      && r.mostRecentPeriodEnd == Some(g[|g| - 1][|g[|g| - 1]| - 1])
      && r.mostRecentPeriodStart.value <= r.mostRecentPeriodEnd.value
      && (forall i :: 0 <= i < |g| - 1 ==> Last(g[i]) < r.mostRecentPeriodStart.value)
  {
    var days := SortDays(ParsedDays(keys));
    var g := PeriodGroups(keys);
    assert g == Groups(days);
    LastGroupFacts(days);
    DeriveLastPeriod(g, CycleLengthOf(keys, fallback), nowMs);
  }

  lemma DeriveLastPeriod(g: seq<seq<int>>, cycleLength: int, nowMs: int)
    requires NonEmptyGroups(g) && |g| > 0 && cycleLength != 0
    ensures var r := Derive(PeriodStart(g), PeriodEnd(g), cycleLength, nowMs);
      r.mostRecentPeriodStart == Some(Last(g)[0]) && r.mostRecentPeriodEnd == Some(Last(Last(g)))
  {
  }

  /** On sorted days the last period starts no later than it ends, and after every earlier period. */
  lemma LastGroupFacts(days: seq<int>)
    requires Sorted(days) && |days| > 0
    ensures var g := Groups(days);
      && |g| > 0
      && g[|g| - 1][0] <= Last(g[|g| - 1])
      && (forall i :: 0 <= i < |g| - 1 ==> Last(g[i]) < g[|g| - 1][0])
  {
    var g := Groups(days);
    GroupsSorted(days);
    GroupsGaps(days);
    assert Sorted(g[|g| - 1]);
    forall i | 0 <= i < |g| - 1 ensures Last(g[i]) < g[|g| - 1][0] {
      StartsAscending(g, i, |g| - 1);
    }
  }

  lemma {:induction false} StartsAscending(g: seq<seq<int>>, i: int, j: int)
    requires NonEmptyGroups(g) && SeparatedGroups(g)
    requires forall k :: 0 <= k < |g| ==> Sorted(g[k])
    requires 0 <= i < j < |g|
    ensures Last(g[i]) < g[j][0]
    decreases j - i
  {
    if i + 1 < j {
      StartsAscending(g, i + 1, j);
      assert g[i + 1][0] <= Last(g[i + 1]);
    }
  }

  /**
   * With a start, everything but the next period is a fixed offset from it:
   * the fertile window is days 11 to 17, the countdowns are plain day
   * differences from today, and the cycle day is in range once the clock is
   * past the start.
   */
  lemma DeriveOffsets(s: int, end: Option<int>, cycleLength: int, nowMs: int)
    requires cycleLength != 0
    ensures var r := Derive(Some(s), end, cycleLength, nowMs);
      && r.mostRecentPeriodStart == Some(s) && r.mostRecentPeriodEnd == end
      && r.nextPeriod == Some(s + cycleLength)
      && r.fertileStart == Some(s + 11) && r.fertileEnd == Some(s + 17)
      && r.daysUntilNextPeriod == Some(s + cycleLength - Today(nowMs))
      && r.daysUntilOvulation == Some(s + 14 - Today(nowMs))
      && (cycleLength > 0 && nowMs > s * DayMs ==> 1 <= r.currentCycleDay.value <= cycleLength)
  {
    DaysUntilIsDayDifference(s + cycleLength, nowMs);
    DaysUntilIsDayDifference(s + 14, nowMs);
    if cycleLength > 0 && nowMs > s * DayMs {
      DaysSincePositive(s, nowMs);
      CycleDayInRange(DaysSince(s, nowMs), cycleLength);
    }
  }

  /** Without a start, nothing is derived. */
  lemma DeriveWithoutStart(end: Option<int>, cycleLength: int, nowMs: int)
    requires cycleLength != 0
    ensures var r := Derive(None, end, cycleLength, nowMs);
      && r.nextPeriod.None? && r.daysUntilNextPeriod.None? && r.currentCycleDay.None?
      && r.fertileStart.None? && r.fertileEnd.None? && r.daysUntilOvulation.None?
  {
  }

  /** The user's cycle length: the stored length (28 when unset or 0) unless at least two periods are logged. */
  lemma UserCycleLength(periodDays: seq<string>, settingCycleLength: Option<int>, nowMs: int)
    ensures var len := UserCycleData(periodDays, settingCycleLength, nowMs).cycleLength;
      var g := PeriodGroups(periodDays);
      && (|g| < 2 ==> len == OrDefault(settingCycleLength, 28))
      && (|g| >= 2 ==> len == RoundDiv(Last(g)[0] - g[0][0], |g| - 1) && len >= 4)
  {
    var g := PeriodGroups(periodDays);
    var fallback := OrDefault(settingCycleLength, 28);
    assert UserCycleData(periodDays, settingCycleLength, nowMs).cycleLength == CycleLengthOf(periodDays, fallback);
  }

  lemma MeanOfStarts(g: seq<seq<int>>, fallback: int)
    requires NonEmptyGroups(g) && |g| >= 2
    ensures MeanCycleLength(Starts(g), fallback) == RoundDiv(Last(g)[0] - g[0][0], |g| - 1)
  {
    var starts := Starts(g);
    assert Last(starts) - starts[0] == Last(g)[0] - g[0][0];
  }


  /** Leaving out the end changes nothing else. */
  lemma DeriveWithoutEnd(start: Option<int>, end: Option<int>, cycleLength: int, nowMs: int)
    requires cycleLength != 0
    ensures Derive(start, None, cycleLength, nowMs) == Derive(start, end, cycleLength, nowMs).(mostRecentPeriodEnd := None)
  {
  }

  /** The partner's cycle length falls back to 28 whatever the user's setting, and only the end differs from the user's copy with that fallback. */
  lemma PartnerCycleLength(periodDays: seq<string>, nowMs: int)
    requires |periodDays| > 0
    ensures var r := PartnerCycleData(periodDays, nowMs);
      && r == Some(UserCycleData(periodDays, Some(28), nowMs).(mostRecentPeriodEnd := None))
      && (|PeriodGroups(periodDays)| < 2 ==> r.value.cycleLength == 28)
  {
    var g := PeriodGroups(periodDays);
    var len := CycleLengthOf(periodDays, 28);
    assert OrDefault(Some(28), 28) == 28;
    assert UserCycleData(periodDays, Some(28), nowMs) == Derive(PeriodStart(g), PeriodEnd(g), len, nowMs);
    DeriveWithoutEnd(PeriodStart(g), PeriodEnd(g), len, nowMs);
  }

  // ---------------------------------------------------------------------
  // Generated day sets
  //
  // The generators and their sets are written for any key function `key`;
  // the page passes key, whose keys of distinct days are distinct
  // (FormatDateKeyInjective). Keeping the key a parameter keeps these proofs
  // independent of the calendar arithmetic.

  /** The keys of days `from + lo` up to, not including, `from + hi`. */
  function Window(key: int -> string, from: int, lo: int, hi: int): set<string>
  {
    set z | from + lo <= z < from + hi :: key(z)
  }

  lemma WindowStep(key: int -> string, from: int, lo: int, hi: int)
    requires lo <= hi
    ensures Window(key, from, lo, hi + 1) == Window(key, from, lo, hi) + {key(from + hi)}
  {
  }

  lemma WindowMembers(key: int -> string, from: int, lo: int, hi: int, x: string)
    ensures x in Window(key, from, lo, hi) <==> exists d :: lo <= d < hi && x == key(Shift(from, d))
  {
    if x in Window(key, from, lo, hi) {
      var z :| from + lo <= z < from + hi && x == key(z);
      assert Shift(from, z - from) == z;
    }
  }

  function Shift(from: int, d: int): int { from + d }

  /** The start of cycle `k`, counting cycles of length `c` from `from`. */
  function CycleStart(from: int, c: int, k: nat): int
  {
    if k == 0 then from else CycleStart(from, c, k - 1) + c
  }

  lemma {:induction false} CycleStartIs(from: int, c: int, k: nat)
    ensures CycleStart(from, c, k) == from + k * c
  {
    if k > 0 {
      CycleStartIs(from, c, k - 1);
      assert (k - 1) * c + c == k * c;
    }
  }

  /** The windows `[lo, hi)` of `n` cycles of length `c`, the first starting at `from`. */
  function CycleWindows(key: int -> string, from: int, c: int, lo: int, hi: int, n: nat): set<string>
  {
    if n == 0 then {} else CycleWindows(key, from, c, lo, hi, n - 1) + Window(key, CycleStart(from, c, n - 1), lo, hi)
  }

  /** The day `d` of cycle `k` of length `c` from `from`. */
  function CycleDay0(from: int, c: int, k: int, d: int): int
  {
    from + k * c + d
  }

  /** Day `d` of cycle `k` counted from the next start is day `d` of cycle `k + 1`. */
  lemma CycleDay0Next(from: int, c: int, k: int, d: int)
    ensures CycleDay0(from + c, c, k, d) == CycleDay0(from, c, k + 1, d)
  {
    assert (k + 1) * c == k * c + c;
  }

  /** A key is in the windows iff it is the key of day `d` in `[lo, hi)` of some cycle `k < n`. */
  lemma {:induction false} CycleWindowsMembers(key: int -> string, from: int, c: int, lo: int, hi: int, n: nat, x: string)
    ensures x in CycleWindows(key, from, c, lo, hi, n) <==>
      exists k, d :: 0 <= k < n && lo <= d < hi && x == key(CycleDay0(from, c, k, d))
  {
    if n > 0 {
      CycleWindowsMembers(key, from, c, lo, hi, n - 1, x);
      var k := n - 1;
      var st := CycleStart(from, c, k);
      CycleStartIs(from, c, k);
      WindowMembers(key, st, lo, hi, x);
      if x in Window(key, st, lo, hi) {
        var d :| lo <= d < hi && x == key(Shift(st, d));
        assert Shift(st, d) == CycleDay0(from, c, k, d);
      }
      if exists d :: lo <= d < hi && x == key(CycleDay0(from, c, k, d)) {
        var d :| lo <= d < hi && x == key(CycleDay0(from, c, k, d));
        assert Shift(st, d) == CycleDay0(from, c, k, d);
      }
    }
  }

  /** The number of days `0 <= d < n` after `start` whose key is logged. */
  function ConfirmedCount(key: int -> string, start: int, logged: set<string>, n: int): (count: nat)
    ensures count <= (if n < 0 then 0 else n)
    decreases n
  {
    if n <= 0 then 0
    else ConfirmedCount(key, start, logged, n - 1) + (if key(start + n - 1) in logged then 1 else 0)
  }

  lemma ConfirmedStep(key: int -> string, start: int, logged: set<string>, n: int)
    requires n >= 0
    ensures ConfirmedCount(key, start, logged, n + 1) ==
      ConfirmedCount(key, start, logged, n) + (if key(start + n) in logged then 1 else 0)
  {
  }

  /** The keys of days `0 <= d < n` after `start` that are not logged. */
  function Unlogged(key: int -> string, start: int, logged: set<string>, n: int): set<string>
  {
    set z | start <= z < start + n && key(z) !in logged :: key(z)
  }

  lemma UnloggedStep(key: int -> string, start: int, logged: set<string>, n: int)
    requires n >= 0
    ensures Unlogged(key, start, logged, n + 1) ==
      Unlogged(key, start, logged, n) + (if key(start + n) in logged then {} else {key(start + n)})
  {
  }

  /** When every day of the window is logged, nothing in it is unlogged. */
  lemma {:induction false} FullWindowAllLogged(key: int -> string, start: int, logged: set<string>, n: int)
    requires n >= 0 && ConfirmedCount(key, start, logged, n) == n
    ensures Unlogged(key, start, logged, n) == {}
    decreases n
  {
    if n > 0 {
      FullWindowAllLogged(key, start, logged, n - 1);
      UnloggedStep(key, start, logged, n - 1);
    }
  }

  /**
   * `generatePredictedPeriodDays`: the unlogged days of the current period
   * (checked only when fewer than periodLength of its days are logged, which
   * changes nothing, since a complete window has no unlogged day) and
   * periodLength days from each of the next three cycle starts.
   */
  function PredictedDays(key: int -> string, start: Option<int>, cycleLength: int, periodLength: int, logged: set<string>): set<string>
  {
    match start
    case None => {}
    case Some(s) =>
      Unlogged(key, s, logged, periodLength) +
      CycleWindows(key, s + cycleLength, cycleLength, 0, periodLength, 3)
  }

  /** `generateFertilityWindowDays`: days 11 to 17 of the current cycle and of the next three. */
  function FertilityDays(key: int -> string, start: Option<int>, cycleLength: int): set<string>
  {
    match start
    case None => {}
    case Some(s) => CycleWindows(key, s, cycleLength, 11, 18, 4)
  }

  /** The page's inner loop: add the keys of days `start + lo` up to, not including, `start + hi`. */
  method AddDayKeys(key: int -> string, days: set<string>, start: int, lo: int, hi: int) returns (r: set<string>)
    ensures r == days + Window(key, start, lo, hi)
  {
    r := days;
    if lo >= hi {
      assert Window(key, start, lo, hi) == {};
      return;
    }
    var day := lo;
    while day < hi
      invariant lo <= day <= hi
      invariant r == days + Window(key, start, lo, day)
    {
      WindowStep(key, start, lo, day);
      r := r + {key(start + day)};
      day := day + 1;
    }
  }

  /**
   * The first block of `generatePredictedPeriodDays`: count the logged days
   * of the current period window and, when fewer than periodLength are
   * logged, add the unlogged ones.
   */
  method PredictCurrentPeriod(key: int -> string, s: int, periodLength: int, periodDaysSet: set<string>) returns (predicted: set<string>)
    ensures predicted == Unlogged(key, s, periodDaysSet, periodLength)
  {
    predicted := {};
    var confirmedDays := 0;
    var day := 0;
    while day < periodLength
      invariant 0 <= day && (periodLength >= 0 ==> day <= periodLength)
      invariant confirmedDays == ConfirmedCount(key, s, periodDaysSet, day)
    {
      ConfirmedStep(key, s, periodDaysSet, day);
      var periodDayKey := key(s + day);
      if periodDayKey in periodDaysSet {
        confirmedDays := confirmedDays + 1;
      }
      day := day + 1;
    }
    if confirmedDays < periodLength {
      day := 0;
      while day < periodLength
        invariant 0 <= day <= periodLength
        invariant predicted == Unlogged(key, s, periodDaysSet, day)
      {
        UnloggedStep(key, s, periodDaysSet, day);
        var periodDayKey := key(s + day);
        if periodDayKey !in periodDaysSet {
          predicted := predicted + {periodDayKey};
        }
        day := day + 1;
      }
    } else if periodLength >= 0 {
      FullWindowAllLogged(key, s, periodDaysSet, periodLength);
    } else {
      assert Unlogged(key, s, periodDaysSet, periodLength) == {};
    }
  }

  /** The page's loops filling the set of predicted period days. */
  method GeneratePredictedPeriodDays(key: int -> string, mostRecentPeriodStart: Option<int>, cycleLength: int, periodLength: int,
                                     periodDaysSet: set<string>)
    returns (predicted: set<string>)
    ensures predicted == PredictedDays(key, mostRecentPeriodStart, cycleLength, periodLength, periodDaysSet)
  {
    if mostRecentPeriodStart.None? {
      return {};
    }
    var s := mostRecentPeriodStart.value;
    predicted := PredictCurrentPeriod(key, s, periodLength, periodDaysSet);
    ghost var current := predicted;
    var currentPeriodStart := s + cycleLength;
    var i := 0;
    while i < 3
      invariant 0 <= i <= 3
      invariant currentPeriodStart == CycleStart(s + cycleLength, cycleLength, i)
      invariant predicted == current + CycleWindows(key, s + cycleLength, cycleLength, 0, periodLength, i)
    {
      predicted := AddDayKeys(key, predicted, currentPeriodStart, 0, periodLength);
      currentPeriodStart := currentPeriodStart + cycleLength;
      i := i + 1;
    }
  }

  /** The page's loops filling the set of fertile days. */
  method GenerateFertilityWindowDays(key: int -> string, mostRecentPeriodStart: Option<int>, cycleLength: int)
    returns (fertilityDays: set<string>)
    ensures fertilityDays == FertilityDays(key, mostRecentPeriodStart, cycleLength)
  {
    if mostRecentPeriodStart.None? {
      return {};
    }
    var s := mostRecentPeriodStart.value;
    fertilityDays := AddDayKeys(key, {}, s, 11, 18);
    var currentPeriodStart := s + cycleLength;
    var i := 1;
    while i < 4
      invariant 1 <= i <= 4
      invariant currentPeriodStart == CycleStart(s, cycleLength, i)
      invariant fertilityDays == CycleWindows(key, s, cycleLength, 11, 18, i)
    {
      fertilityDays := AddDayKeys(key, fertilityDays, currentPeriodStart, 11, 18);
      currentPeriodStart := currentPeriodStart + cycleLength;
      i := i + 1;
    }
  }

  /**
   * The predicted days are exactly the unlogged keys of days 0 to
   * periodLength - 1 of the current cycle and the keys of those days of
   * cycles 1 to 3.
   */
  lemma PredictedDaysMembers(key: int -> string, s: int, cycleLength: int, periodLength: int, logged: set<string>, x: string)
    ensures x in PredictedDays(key, Some(s), cycleLength, periodLength, logged) <==>
      (exists d :: 0 <= d < periodLength && x == key(CycleDay0(s, cycleLength, 0, d)) && x !in logged) ||
      (exists k, d :: 1 <= k <= 3 && 0 <= d < periodLength && x == key(CycleDay0(s, cycleLength, k, d)))
  {
    UnloggedMembers(key, s, cycleLength, periodLength, logged, x);
    FutureMembers(key, s, cycleLength, periodLength, x);
  }

  lemma UnloggedMembers(key: int -> string, s: int, cycleLength: int, periodLength: int, logged: set<string>, x: string)
    ensures x in Unlogged(key, s, logged, periodLength) <==>
      exists d :: 0 <= d < periodLength && x == key(CycleDay0(s, cycleLength, 0, d)) && x !in logged
  {
    if x in Unlogged(key, s, logged, periodLength) {
      var z :| s <= z < s + periodLength && key(z) !in logged && x == key(z);
      assert CycleDay0(s, cycleLength, 0, z - s) == z;
    }
    if exists d :: 0 <= d < periodLength && x == key(CycleDay0(s, cycleLength, 0, d)) && x !in logged {
      var d :| 0 <= d < periodLength && x == key(CycleDay0(s, cycleLength, 0, d)) && x !in logged;
      assert CycleDay0(s, cycleLength, 0, d) == s + d;
    }
  }

  lemma FutureMembers(key: int -> string, s: int, cycleLength: int, periodLength: int, x: string)
    ensures x in CycleWindows(key, s + cycleLength, cycleLength, 0, periodLength, 3) <==>
      exists k, d :: 1 <= k <= 3 && 0 <= d < periodLength && x == key(CycleDay0(s, cycleLength, k, d))
  {
    var next := s + cycleLength;
    CycleWindowsMembers(key, next, cycleLength, 0, periodLength, 3, x);
    if exists k, d :: 0 <= k < 3 && 0 <= d < periodLength && x == key(CycleDay0(next, cycleLength, k, d)) {
      var k, d :| 0 <= k < 3 && 0 <= d < periodLength && x == key(CycleDay0(next, cycleLength, k, d));
      CycleDay0Next(s, cycleLength, k, d);
    }
    if exists k, d :: 1 <= k <= 3 && 0 <= d < periodLength && x == key(CycleDay0(s, cycleLength, k, d)) {
      var k, d :| 1 <= k <= 3 && 0 <= d < periodLength && x == key(CycleDay0(s, cycleLength, k, d));
      CycleDay0Next(s, cycleLength, k - 1, d);
    }
  }

  /** The fertile days are exactly days 11 to 17 of cycles 0 to 3; with no start both sets are empty. */
  lemma FertilityDaysMembers(key: int -> string, start: Option<int>, cycleLength: int, periodLength: int, logged: set<string>, x: string)
    ensures start.None? ==> FertilityDays(key, start, cycleLength) == {} && PredictedDays(key, start, cycleLength, periodLength, logged) == {}
    ensures start.Some? ==> (x in FertilityDays(key, start, cycleLength) <==>
      exists k, d :: 0 <= k < 4 && 11 <= d <= 17 && x == key(CycleDay0(start.value, cycleLength, k, d)))
  {
    if start.Some? {
      CycleWindowsMembers(key, start.value, cycleLength, 11, 18, 4, x);
    }
  }
}
