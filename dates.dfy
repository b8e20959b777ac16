/**
 * Calendar arithmetic on day numbers.
 *
 * Every date in the application is a local calendar day. The model numbers
 * days consecutively, day 0 being 1970-01-01 (a Thursday), and converts
 * between day numbers and proleptic Gregorian (year, month, day) triples.
 * The conversion from a triple is the classic era-based formula (eras of
 * 400 years starting on 1 March); the conversion back splits an era into
 * centuries, four-year blocks and years.
 *
 * `JsMakeDay` models `new Date(year, monthIndex, day)` of JavaScript at local
 * midnight, with its roll-over of out-of-range months and days and its
 * mapping of the years 0..99 onto 1900..1999; `GoDate` models Go's
 * `time.Date`, which normalises the same way but keeps every year as given.
 */
module Dates {

  /** A calendar date; `month` is 1..12. */
  datatype Civil = Civil(year: int, month: int, day: int)

  predicate IsLeapYear(y: int)
  {
    (y % 4 == 0 && y % 100 != 0) || y % 400 == 0
  }

  function DaysInMonth(y: int, m: int): (n: int)
    requires 1 <= m <= 12
    ensures 28 <= n <= 31
    ensures n == 29 <==> m == 2 && IsLeapYear(y)
  {
    if m == 2 then (if IsLeapYear(y) then 29 else 28)
    else if m == 4 || m == 6 || m == 9 || m == 11 then 30
    else 31
  }

  predicate ValidCivil(c: Civil)
  {
    1 <= c.month <= 12 && 1 <= c.day <= DaysInMonth(c.year, c.month)
  }

  // Months counted from March: March is 0, February is 11.
  function MarchMonth(m: int): int { if m > 2 then m - 3 else m + 9 }

  function CivilMonth(mp: int): int { if mp < 10 then mp + 3 else mp - 9 }

  /** Days of a March-based year that precede its month `mp`. */
  function DaysBeforeMonth(mp: int): int { (153 * mp + 2) / 5 }

  /** Days of an era that precede its year `yoe` (0..399). */
  function DaysBeforeYear(yoe: int): int { 365 * yoe + yoe / 4 - yoe / 100 }

  /** Length of the March-based year `yoe` of an era: it ends with February of the next civil year. */
  function YearLength(yoe: int): int
  {
    if (yoe + 1) % 4 == 0 && ((yoe + 1) % 100 != 0 || yoe + 1 == 400) then 366 else 365
  }

  /** The day number of a date; a day outside the month counts on linearly from its first day. */
  function DaysFromCivil(y: int, m: int, d: int): int
    requires 1 <= m <= 12
  {
    var y' := if m <= 2 then y - 1 else y;
    146097 * (y' / 400) + DaysBeforeYear(y' % 400) + DaysBeforeMonth(MarchMonth(m)) + d - 1 - 719468
  }

  /** Splits a day of an era into (year of the era, day of that year). */
  function YearOfEra(doe: int): (int, int)
  {
    var c := if doe / 36524 < 3 then doe / 36524 else 3;
    var doc := doe - 36524 * c;
    var doq := doc % 1461;
    var r := if doq / 365 < 3 then doq / 365 else 3;
    (100 * c + 4 * (doc / 1461) + r, doq - 365 * r)
  }

  /** Splits a day of a March-based year into (civil month, day of month). */
  function MonthOfYear(doy: int): (int, int)
  {
    var mp := (5 * doy + 2) / 153;
    (CivilMonth(mp), doy - DaysBeforeMonth(mp) + 1)
  }

  function CivilFromDays(z: int): Civil
  {
    var era := (z + 719468) / 146097;
    var (yoe, doy) := YearOfEra((z + 719468) % 146097);
    var (m, d) := MonthOfYear(doy);
    Civil(400 * era + yoe + (if m <= 2 then 1 else 0), m, d)
  }

  /** `new Date(year, monthIndex, day)`: years 0..99 mean 1900..1999, months and days roll over. */
  function JsMakeDay(year: int, monthIndex: int, day: int): int
  {
    var y := if 0 <= year <= 99 then 1900 + year else year;
    DaysFromCivil(y + monthIndex / 12, monthIndex % 12 + 1, 1) + day - 1
  }

  /** Go's `time.Date(year, month, day, ...)`: months and days roll over, years are kept. */
  function GoDate(year: int, month: int, day: int): int
  {
    DaysFromCivil(year + (month - 1) / 12, (month - 1) % 12 + 1, 1) + day - 1
  }

  /** Day of the week, 0 for Sunday (JavaScript's `getDay`). */
  function Weekday(z: int): (w: int)
    ensures 0 <= w < 7
  {
    (z + 4) % 7
  }

  // ---------------------------------------------------------------------
  // The two conversions are inverse to each other.

  /** Every day number names a valid date, and converts back to itself. */
  lemma CivilFromDaysValid(z: int)
    ensures ValidCivil(CivilFromDays(z))
    ensures var c := CivilFromDays(z); DaysFromCivil(c.year, c.month, c.day) == z
  {
    var era, yoe, doy := EraOfDays(z);
    CivilFromDaysParts(z, era, yoe, doy);
    var (m, d) := MonthOfYear(doy);
    var y := 400 * era + yoe + (if m <= 2 then 1 else 0);
    assert CivilFromDays(z) == Civil(y, m, d);
    LeapOfEra(era, yoe);
    MonthOfYearValid(doy, 400 * era + yoe + 1);
    assert 1 <= d <= DaysInMonth(y, m) by {
      if m > 2 {
        assert DaysInMonth(y, m) == DaysInMonth(400 * era + yoe + 1, m);
      }
    }
    DaysFromCivilParts(y, m, d, era, yoe);
    assert DaysBeforeMonth(MarchMonth(m)) + d - 1 == doy;
  }

  /** Every valid date converts to a day number that converts back to it. */
  lemma DaysFromCivilRoundTrip(c: Civil)
    requires ValidCivil(c)
    ensures CivilFromDays(DaysFromCivil(c.year, c.month, c.day)) == c
  {
    var y' := if c.month <= 2 then c.year - 1 else c.year;
    var era, yoe := y' / 400, y' % 400;
    LeapOfEra(era, yoe);
    assert 400 * era + yoe == y';
    var doy := MonthOfYearInverse(c.year, c.month, c.day);
    assert doy < YearLength(yoe);
    DaysFromCivilParts(c.year, c.month, c.day, era, yoe);
    CivilFromDaysParts(DaysFromCivil(c.year, c.month, c.day), era, yoe, doy);
  }

  /** Different day numbers name different dates. */
  lemma CivilFromDaysInjective(z1: int, z2: int)
    requires CivilFromDays(z1) == CivilFromDays(z2)
    ensures z1 == z2
  {
    CivilFromDaysValid(z1);
    CivilFromDaysValid(z2);
  }

  /** `new Date(y, m - 1, d)` names the date (y, m, d) itself when it is valid and y is not 0..99. */
  lemma JsMakeDayOfValid(c: Civil)
    requires ValidCivil(c) && !(0 <= c.year <= 99)
    ensures JsMakeDay(c.year, c.month - 1, c.day) == DaysFromCivil(c.year, c.month, c.day)
    ensures CivilFromDays(JsMakeDay(c.year, c.month - 1, c.day)) == c
  {
    JsMakeDayOfMonth(c.year, c.month, c.day);
    DaysFromCivilRoundTrip(c);
  }

  lemma JsMakeDayOfMonth(y: int, m: int, d: int)
    requires 1 <= m <= 12 && !(0 <= y <= 99)
    ensures JsMakeDay(y, m - 1, d) == DaysFromCivil(y, m, d)
  {
    assert (m - 1) / 12 == 0 && (m - 1) % 12 == m - 1;
    assert JsMakeDay(y, m - 1, d) == DaysFromCivil(y, m, 1) + d - 1;
  }

  /** `new Date(y, m0, 1)` is the first of the month m0 counted on from January of year y (y not 0..99). */
  lemma JsMakeDayFirstOfMonth(y: int, m0: int)
    requires !(0 <= y <= 99)
    ensures CivilFromDays(JsMakeDay(y, m0, 1)) == Civil(y + m0 / 12, m0 % 12 + 1, 1)
  {
    var c := Civil(y + m0 / 12, m0 % 12 + 1, 1);
    assert ValidCivil(c);
    assert JsMakeDay(y, m0, 1) == DaysFromCivil(c.year, c.month, c.day);
    DaysFromCivilRoundTrip(c);
  }

  /** The day before the first of the next month is the last day of the month. */
  lemma LastDayOfMonth(y: int, m: int)
    requires 1 <= m <= 12
    ensures GoDate(y, m + 1, 0) == DaysFromCivil(y, m, DaysInMonth(y, m))
    ensures CivilFromDays(GoDate(y, m + 1, 0)) == Civil(y, m, DaysInMonth(y, m))
  {
    GoDateDayZero(y, m);
    DaysFromCivilRoundTrip(Civil(y, m, DaysInMonth(y, m)));
  }

  lemma GoDateDayZero(y: int, m: int)
    requires 1 <= m <= 12
    ensures GoDate(y, m + 1, 0) == DaysFromCivil(y, m, DaysInMonth(y, m))
  {
    NextMonthStart(y, m);
    if m == 12 {
      assert m / 12 == 1 && m % 12 == 0;
    } else {
      assert m / 12 == 0 && m % 12 == m;
    }
  }

  /** `new Date(y, m0 + 1, 0)` is the last day of month m0 (0-based) when y is not 0..99. */
  lemma JsLastDayOfMonth(y: int, m0: int)
    requires 0 <= m0 <= 11 && !(0 <= y <= 99)
    ensures CivilFromDays(JsMakeDay(y, m0 + 1, 0)) == Civil(y, m0 + 1, DaysInMonth(y, m0 + 1))
  {
    JsMakeDayGoDate(y, m0 + 1, 0);
    GoDateDayZero(y, m0 + 1);
    CivilOfDays(JsMakeDay(y, m0 + 1, 0), Civil(y, m0 + 1, DaysInMonth(y, m0 + 1)));
  }

  /** The date of the day number of a valid date is that date. */
  lemma CivilOfDays(z: int, c: Civil)
    requires ValidCivil(c) && z == DaysFromCivil(c.year, c.month, c.day)
    ensures CivilFromDays(z) == c
  {
    DaysFromCivilRoundTrip(c);
  }

  /** For a year outside 0..99 `new Date(y, m0, d)` and `time.Date(y, m0 + 1, d)` are the same day. */
  lemma JsMakeDayGoDate(y: int, m0: int, d: int)
    requires !(0 <= y <= 99)
    ensures JsMakeDay(y, m0, d) == GoDate(y, m0 + 1, d)
  {
  }

  /**
   * `date.setDate(d)`: day `d` of the date's own month (`time.Date`-style
   * roll-over, no year mapping), i.e. the date moved by `d` minus its day of month.
   */
  function SetDate(z: int, d: int): (r: int)
    ensures r == z - CivilFromDays(z).day + d
  {
    var c := CivilFromDays(z);
    CivilFromDaysValid(z);
    GoDateInMonth(z, c, d);
    GoDate(c.year, c.month, d)
  }

  /** `date.setMonth(m0)`: the same day of month in month `m0` (0-based) of the date's year, rolling over. */
  function SetMonth(z: int, m0: int): (r: int)
  {
    var c := CivilFromDays(z);
    GoDate(c.year, m0 + 1, c.day)
  }

  lemma GoDateInMonth(z: int, c: Civil, d: int)
    requires 1 <= c.month <= 12 && DaysFromCivil(c.year, c.month, c.day) == z
    ensures GoDate(c.year, c.month, d) == z - c.day + d
  {
    assert (c.month - 1) / 12 == 0 && (c.month - 1) % 12 + 1 == c.month;
  }

  // ---------------------------------------------------------------------
  // Helper lemmas about the pieces of the conversions.

  lemma NextMonthStart(y: int, m: int)
    requires 1 <= m <= 12
    ensures m < 12 ==> DaysFromCivil(y, m, DaysInMonth(y, m)) + 1 == DaysFromCivil(y, m + 1, 1)
    ensures m == 12 ==> DaysFromCivil(y, m, DaysInMonth(y, m)) + 1 == DaysFromCivil(y + 1, 1, 1)
  {
    if m == 2 {
      FebruaryToMarch(y);
    } else if m == 12 {
      assert MarchMonth(1) == MarchMonth(12) + 1;
    } else {
      assert DaysBeforeMonth(MarchMonth(m) + 1) - DaysBeforeMonth(MarchMonth(m)) == DaysInMonth(y, m);
      assert MarchMonth(m + 1) == MarchMonth(m) + 1;
    }
  }

  lemma FebruaryToMarch(y: int)
    ensures DaysFromCivil(y, 2, DaysInMonth(y, 2)) + 1 == DaysFromCivil(y, 3, 1)
  {
    var e, t := (y - 1) / 400, (y - 1) % 400;
    EraYearStep(y - 1);
    LeapOfEra(e, t);
    assert 400 * e + t + 1 == y;
    assert DaysBeforeMonth(MarchMonth(2)) == 337 && MarchMonth(3) == 0;
    assert DaysInMonth(y, 2) == YearLength(t) - 337;
  }

  /** Moving from one March-based year to the next adds that year's length. */
  lemma EraYearStep(y: int)
    ensures 146097 * ((y + 1) / 400) + DaysBeforeYear((y + 1) % 400)
         == 146097 * (y / 400) + DaysBeforeYear(y % 400) + YearLength(y % 400)
  {
    var era, t := y / 400, y % 400;
    if t < 399 {
      assert (y + 1) / 400 == era && (y + 1) % 400 == t + 1;
      assert (t + 1) / 4 - t / 4 == (if (t + 1) % 4 == 0 then 1 else 0);
      assert (t + 1) / 100 - t / 100 == (if (t + 1) % 100 == 0 then 1 else 0);
    } else {
      assert (y + 1) / 400 == era + 1 && (y + 1) % 400 == 0;
    }
  }

  lemma YearOffset(c: int, q: int, r: int)
    requires 0 <= c <= 3 && 0 <= q <= 24 && 0 <= r <= 3
    ensures DaysBeforeYear(100 * c + 4 * q + r) == 36524 * c + 1461 * q + 365 * r
  {
    var yoe := 100 * c + 4 * q + r;
    assert yoe / 4 == 25 * c + q;
    assert yoe / 100 == c;
  }

  lemma DoyInBlock(c: int, q: int, r: int, doy: int)
    requires 0 <= c <= 3 && 0 <= q <= 24 && 0 <= r <= 3
    requires 0 <= doy < YearLength(100 * c + 4 * q + r)
    ensures 365 * r + doy < 1461
    ensures c < 3 ==> 1461 * q + 365 * r + doy < 36524
  {
    var t := 100 * c + 4 * q + r + 1;
    if r < 3 {
      assert t % 4 != 0;
    } else if q == 24 && c < 3 {
      assert t == 100 * (c + 1);
      assert t % 100 == 0;
    }
  }

  lemma YearOfEraBounds(doe: int)
    requires 0 <= doe < 146097
    ensures var (yoe, doy) := YearOfEra(doe);
            0 <= yoe < 400 && 0 <= doy < YearLength(yoe) && doe == DaysBeforeYear(yoe) + doy
  {
    var c := if doe / 36524 < 3 then doe / 36524 else 3;
    var doc := doe - 36524 * c;
    var q := doc / 1461;
    var doq := doc % 1461;
    var r := if doq / 365 < 3 then doq / 365 else 3;
    assert 0 <= c <= 3 && 0 <= doc;
    assert c < 3 ==> doc < 36524;
    assert 0 <= q <= 24;
    assert 0 <= r <= 3 && 0 <= doq - 365 * r;
    YearOffset(c, q, r);
    var yoe := 100 * c + 4 * q + r;
    assert YearOfEra(doe) == (yoe, doq - 365 * r);
    assert doe == 36524 * c + 1461 * q + doq;
    DoyBound(c, q, r, doq);
  }

  lemma DoyBound(c: int, q: int, r: int, doq: int)
    requires 0 <= c <= 3 && 0 <= q <= 24 && 0 <= r <= 3 && 0 <= doq < 1461
    requires r == (if doq / 365 < 3 then doq / 365 else 3)
    requires c < 3 && q == 24 ==> 35064 + doq < 36524
    requires c == 3 ==> 109572 + 1461 * q + doq < 146097
    ensures doq - 365 * r < YearLength(100 * c + 4 * q + r)
  {
    var t := 100 * c + 4 * q + r + 1;
    if r == 3 {
      assert t % 4 == 0;
      if q == 24 {
        assert t == 100 * (c + 1);
        assert t % 100 == 0;
        if c == 3 {
          assert t == 400;
        }
      } else {
        assert t % 100 != 0;
      }
    }
  }

  lemma YearOfEraInverse(yoe: int, doy: int)
    requires 0 <= yoe < 400 && 0 <= doy < YearLength(yoe)
    ensures 0 <= DaysBeforeYear(yoe) + doy < 146097
    ensures YearOfEra(DaysBeforeYear(yoe) + doy) == (yoe, doy)
  {
    var c, q, r := SplitYoe(yoe);
    YearOffset(c, q, r);
    DoyInBlock(c, q, r, doy);
    ShortYears(c, q, r, doy);
    YearOfEraOf(DaysBeforeYear(yoe) + doy, c, q, r, doy);
  }

  /** A year of an era as centuries, four-year blocks and years. */
  lemma SplitYoe(yoe: int) returns (c: int, q: int, r: int)
    requires 0 <= yoe < 400
    ensures 0 <= c <= 3 && 0 <= q <= 24 && 0 <= r <= 3 && yoe == 100 * c + 4 * q + r
  {
    c, q, r := yoe / 100, (yoe % 100) / 4, yoe % 4;
  }

  /** Only the last year of a four-year block can have 366 days. */
  lemma ShortYears(c: int, q: int, r: int, doy: int)
    requires 0 <= c <= 3 && 0 <= q <= 24 && 0 <= r <= 3
    requires 0 <= doy < YearLength(100 * c + 4 * q + r)
    ensures r < 3 ==> doy < 365
  {
    if r < 3 {
      assert (100 * c + 4 * q + r + 1) % 4 != 0;
    }
  }

  lemma YearOfEraOf(doe: int, c: int, q: int, r: int, doy: int)
    requires 0 <= c <= 3 && 0 <= q <= 24 && 0 <= r <= 3 && 0 <= doy
    requires doe == 36524 * c + 1461 * q + 365 * r + doy && doe < 146097
    requires 365 * r + doy < 1461 && (c < 3 ==> 1461 * q + 365 * r + doy < 36524)
    requires r < 3 ==> doy < 365
    ensures YearOfEra(doe) == (100 * c + 4 * q + r, doy)
  {
    CenturyOfDoe(doe, c, 1461 * q + 365 * r + doy);
    BlockOfDoc(doe - 36524 * c, q, 365 * r + doy);
    YearOfBlock(365 * r + doy, r, doy);
  }

  lemma CenturyOfDoe(doe: int, c: int, rest: int)
    requires 0 <= c <= 3 && 0 <= rest && doe == 36524 * c + rest && doe < 146097
    requires c < 3 ==> rest < 36524
    ensures (if doe / 36524 < 3 then doe / 36524 else 3) == c
  {
  }

  lemma BlockOfDoc(doc: int, q: int, rest: int)
    requires 0 <= q && 0 <= rest < 1461 && doc == 1461 * q + rest
    ensures doc / 1461 == q && doc % 1461 == rest
  {
  }

  lemma YearOfBlock(doq: int, r: int, doy: int)
    requires 0 <= r <= 3 && 0 <= doy && doq == 365 * r + doy && doq < 1461
    requires r < 3 ==> doy < 365
    ensures (if doq / 365 < 3 then doq / 365 else 3) == r
  {
  }

  lemma DoyToMonth(doy: int)
    requires 0 <= doy < 366
    ensures var mp := (5 * doy + 2) / 153;
            0 <= mp <= 11 && DaysBeforeMonth(mp) <= doy < DaysBeforeMonth(mp + 1)
  {
  }

  lemma MonthToDoy(mp: int, d: int)
    requires 0 <= mp <= 11 && 1 <= d <= DaysBeforeMonth(mp + 1) - DaysBeforeMonth(mp)
    ensures (5 * (DaysBeforeMonth(mp) + d - 1) + 2) / 153 == mp
  {
  }

  lemma MonthOfYearValid(doy: int, y: int)
    requires 0 <= doy < (if IsLeapYear(y) then 366 else 365)
    ensures var (m, d) := MonthOfYear(doy);
            1 <= m <= 12 && 1 <= d <= DaysInMonth(y, m) &&
            DaysBeforeMonth(MarchMonth(m)) + d - 1 == doy
  {
    DoyToMonth(doy);
  }

  lemma MonthOfYearInverse(y: int, m: int, d: int) returns (doy: int)
    requires ValidCivil(Civil(y, m, d))
    ensures doy == DaysBeforeMonth(MarchMonth(m)) + d - 1
    ensures 0 <= doy && (doy < 365 || (doy == 365 && m == 2 && IsLeapYear(y)))
    ensures MonthOfYear(doy) == (m, d)
  {
    doy := DaysBeforeMonth(MarchMonth(m)) + d - 1;
    MonthToDoy(MarchMonth(m), d);
  }

  lemma ShiftMod4(era: int, t: int)
    ensures (400 * era + t) % 4 == t % 4
  {
    assert 400 * era + t == 4 * (100 * era + t / 4) + t % 4;
  }

  lemma ShiftMod100(era: int, t: int)
    ensures (400 * era + t) % 100 == t % 100
  {
    assert 400 * era + t == 100 * (4 * era + t / 100) + t % 100;
  }

  lemma ShiftMod400(era: int, t: int)
    ensures (400 * era + t) % 400 == t % 400
  {
    assert 400 * era + t == 400 * (era + t / 400) + t % 400;
  }

  /** The March-based year yoe of an era is long exactly when the February ending it is a leap one. */
  lemma LeapOfEra(era: int, yoe: int)
    requires 0 <= yoe < 400
    ensures IsLeapYear(400 * era + yoe + 1) <==> YearLength(yoe) == 366
  {
    ShiftMod4(era, yoe + 1);
    ShiftMod100(era, yoe + 1);
    ShiftMod400(era, yoe + 1);
  }

  lemma EraSplit(era: int, yoe: int)
    requires 0 <= yoe < 400
    ensures (400 * era + yoe) / 400 == era && (400 * era + yoe) % 400 == yoe
  {
  }

  lemma DivMod146097(x: int, q: int, r: int)
    requires 0 <= r < 146097 && x == 146097 * q + r
    ensures x / 146097 == q && x % 146097 == r
  {
  }

  lemma DaysFromCivilParts(y: int, m: int, d: int, era: int, yoe: int)
    requires 1 <= m <= 12 && 0 <= yoe < 400
    requires (if m <= 2 then y - 1 else y) == 400 * era + yoe
    ensures DaysFromCivil(y, m, d) ==
      146097 * era + DaysBeforeYear(yoe) + DaysBeforeMonth(MarchMonth(m)) + d - 1 - 719468
  {
    EraSplit(era, yoe);
  }

  lemma CivilFromDaysParts(z: int, era: int, yoe: int, doy: int)
    requires 0 <= yoe < 400 && 0 <= doy < YearLength(yoe)
    requires z + 719468 == 146097 * era + DaysBeforeYear(yoe) + doy
    ensures var (m, d) := MonthOfYear(doy);
            CivilFromDays(z) == Civil(400 * era + yoe + (if m <= 2 then 1 else 0), m, d)
  {
    YearOfEraInverse(yoe, doy);
    DivMod146097(z + 719468, era, DaysBeforeYear(yoe) + doy);
  }

  lemma EraOfDays(z: int) returns (era: int, yoe: int, doy: int)
    ensures 0 <= yoe < 400 && 0 <= doy < YearLength(yoe)
    ensures z + 719468 == 146097 * era + DaysBeforeYear(yoe) + doy
  {
    era := (z + 719468) / 146097;
    var doe := (z + 719468) % 146097;
    YearOfEraBounds(doe);
    yoe, doy := YearOfEra(doe).0, YearOfEra(doe).1;
  }
}
