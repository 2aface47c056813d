/** The date part of the database's timestamps (core/src/db.rs, `chrono_now_iso`): civil dates
    from a day count, in a year that starts in March. */
module Calendar {

  datatype Date = Date(year: int, month: int, day: int)

  // ---------- the Gregorian calendar ----------

  /** Leap years as in RFC 3339, appendix C. */
  predicate Leap(year: int) {
    year % 4 == 0 && (year % 100 != 0 || year % 400 == 0)
  }

  function DaysInMonth(year: int, month: int): int {
    if month == 2 then (if Leap(year) then 29 else 28)
    else if month == 4 || month == 6 || month == 9 || month == 11 then 30
    else 31
  }

  predicate Valid(d: Date) {
    1 <= d.month <= 12 && 1 <= d.day <= DaysInMonth(d.year, d.month)
  }

  function NextDay(d: Date): Date {
    if d.day < DaysInMonth(d.year, d.month) then d.(day := d.day + 1)
    else if d.month < 12 then Date(d.year, d.month + 1, 1)
    else Date(d.year + 1, 1, 1)
  }

  const EPOCH := Date(1970, 1, 1)

  function DaysInYear(year: int): int {
    if Leap(year) then 366 else 365
  }

  /** Days from 1970-01-01 to the first of a year, a month, and to a date. */
  function DaysBeforeYear(year: int): int
    requires year >= 1970
    decreases year
  {
    if year == 1970 then 0 else DaysBeforeYear(year - 1) + DaysInYear(year - 1)
  }

  function DaysBeforeMonth(year: int, month: int): int
    requires 1 <= month <= 13
    decreases month
  {
    if month == 1 then 0 else DaysBeforeMonth(year, month - 1) + DaysInMonth(year, month - 1)
  }

  function DaysFromCivil(d: Date): int
    requires d.year >= 1970 && Valid(d)
  {
    DaysBeforeYear(d.year) + DaysBeforeMonth(d.year, d.month) + d.day - 1
  }

  // ---------- the algorithm ----------

  const ERA := 146_097

  function YearOfEra(doe: nat): int {
    (doe - doe / 1460 + doe / 36524 - doe / 146_096) / 365
  }

  function MonthStart(mp: int): int {
    (153 * mp + 2) / 5
  }

  /** The date of day `doy` of the March-based year `y`. */
  function FromMarch(y: int, doy: int): Date {
    var mp := (5 * doy + 2) / 153;
    var d := doy - MonthStart(mp) + 1;
    var m := if mp < 10 then mp + 3 else mp - 9;
    Date(if m <= 2 then y + 1 else y, m, d)
  }

  function YearStart(y: int): int {
    365 * y + y / 4 - y / 100
  }

  function CivilFromDays(days: nat): Date {
    var z := days + 719_468;
    var era := z / ERA;
    var doe := z - era * ERA;
    var yoe := YearOfEra(doe);
    FromMarch(yoe + era * 400, doe - YearStart(yoe))
  }

  // ---------- the year of the era ----------

  /** A March-based year holds the February of the next. */
  function YearLength(y: int): int {
    DaysInYear(y + 1)
  }

  predicate MarchDay(y: int, doy: int, doe: int) {
    0 <= y < 400 && 0 <= doy < YearLength(y) && doe == YearStart(y) + doy
  }

  /** The nested divisions find the year: centuries `c`, leap cycles `q`, years `t`. */
  lemma YearFound(c: int, q: int, t: int, doy: int)
    requires 0 <= c < 4 && 0 <= q < 25 && 0 <= t < 4 && 0 <= doy <= 365
    requires doy == 365 ==> t == 3 && (q < 24 || c == 3)
    ensures YearOfEra(36524 * c + 1461 * q + 365 * t + doy) == 100 * c + 4 * q + t
  {
    var doe := 36524 * c + 1461 * q + 365 * t + doy;
    var w := if 24 * c + q + 365 * t + doy >= 1460 then 1 else 0;
    assert doe / 1460 == 25 * c + q + w;
    var e := if doe == 146_096 then 1 else 0;
    assert doe / 146_096 == e;
    assert doe / 36524 == c + e;
  }

  lemma YearStartSplit(c: int, q: int, t: int)
    requires 0 <= c < 4 && 0 <= q < 25 && 0 <= t < 4
    ensures YearStart(100 * c + 4 * q + t) == 36524 * c + 1461 * q + 365 * t
    ensures Leap(100 * c + 4 * q + t + 1) <==> t == 3 && (q < 24 || c == 3)
  {
    var y := 100 * c + 4 * q + t;
    assert y / 4 == 25 * c + q && y / 100 == c;
    assert (y + 1) % 4 == (t + 1) % 4;
    assert (y + 1) % 100 == 0 <==> q == 24 && t == 3;
    assert q == 24 && t == 3 ==> ((y + 1) % 400 == 0 <==> c == 3);
  }

  lemma MarchDayOf(doe: int)
    requires 0 <= doe < ERA
    ensures MarchDay(YearOfEra(doe), doe - YearStart(YearOfEra(doe)), doe)
  {
    var c := if doe == 146_096 then 3 else doe / 36524;
    var r := doe - 36524 * c;
    var q := r / 1461;
    var s := r - 1461 * q;
    var t := if s == 1460 then 3 else s / 365;
    var doy := s - 365 * t;
    YearStartSplit(c, q, t);
    YearFound(c, q, t, doy);
  }

  lemma MarchDayUnique(y: int, doy: int, doe: int)
    requires MarchDay(y, doy, doe)
    ensures 0 <= doe < ERA && YearOfEra(doe) == y && doe - YearStart(y) == doy
  {
    var c, q, t := y / 100, y % 100 / 4, y % 4;
    assert y == 100 * c + 4 * q + t;
    YearStartSplit(c, q, t);
    YearFound(c, q, t, doy);
  }

  /** Year starts follow from year lengths, except at the end of an era. */
  lemma NextYearStart(y: int)
    requires 0 <= y < 400
    ensures YearStart(y) + YearLength(y) == if y == 399 then ERA else YearStart(y + 1)
  {
    var c, q, t := y / 100, y % 100 / 4, y % 4;
    assert y == 100 * c + 4 * q + t;
    YearStartSplit(c, q, t);
    if t < 3 { YearStartSplit(c, q, t + 1); }
    else if q < 24 { YearStartSplit(c, q + 1, 0); }
    else if c < 3 { YearStartSplit(c + 1, 0, 0); }
  }

  // ---------- the months ----------

  lemma MonthFound(mp: int, doy: int)
    requires 0 <= mp < 12 && MonthStart(mp) <= doy < MonthStart(mp + 1)
    ensures (5 * doy + 2) / 153 == mp
  {}

  lemma MonthOf(doy: int)
    requires 0 <= doy < 366
    ensures var mp := (5 * doy + 2) / 153;
            0 <= mp < 12 && MonthStart(mp) <= doy < MonthStart(mp + 1)
  {}

  lemma MonthLength(y: int, mp: int)
    requires 0 <= mp < 12
    ensures var m := if mp < 10 then mp + 3 else mp - 9;
            if mp == 11 then DaysInMonth(y + 1, m) == YearLength(y) - MonthStart(11)
            else DaysInMonth(if m <= 2 then y + 1 else y, m) == MonthStart(mp + 1) - MonthStart(mp)
  {
    assert MonthStart(mp) == [0, 31, 61, 92, 122, 153, 184, 214, 245, 275, 306, 337][mp];
    assert mp < 11 ==> MonthStart(mp + 1) == [31, 61, 92, 122, 153, 184, 214, 245, 275, 306, 337][mp];
  }

  /** The day after, within a March-based year and at its end. */
  lemma FromMarchNext(y: int, doy: int)
    requires 0 <= doy < YearLength(y)
    ensures Valid(FromMarch(y, doy))
    ensures NextDay(FromMarch(y, doy))
         == if doy + 1 < YearLength(y) then FromMarch(y, doy + 1) else FromMarch(y + 1, 0)
  {
    MonthOf(doy);
    var mp := (5 * doy + 2) / 153;
    MonthLength(y, mp);
    hide DaysInMonth, Leap;
    if doy + 1 < YearLength(y) {
      if doy + 1 < MonthStart(mp + 1) {
        MonthFound(mp, doy + 1);
      } else {
        MonthFound(mp + 1, doy + 1);
      }
    } else {
      assert mp == 11;
    }
  }

  // ---------- the whole algorithm ----------

  lemma LeapEra(y: int, era: int)
    ensures Leap(y + 400 * era) == Leap(y)
  {
    Remainder4(y, 100 * era);
    Remainder100(y, 4 * era);
    Remainder400(y, era);
  }

  lemma Remainder4(y: int, k: int)
    ensures (y + 4 * k) % 4 == y % 4
  {}

  lemma Remainder100(y: int, k: int)
    ensures (y + 100 * k) % 100 == y % 100
  {}

  lemma Remainder400(y: int, k: int)
    ensures (y + 400 * k) % 400 == y % 400
  {}

  lemma EraFound(z: int, era: int)
    requires 0 <= z - era * ERA < ERA
    ensures z / ERA == era
  {}

  /** Where the algorithm finds a day: the era, the year of the era and the day of that year. */
  lemma Located(days: nat, era: int, y: int, doy: int)
    requires MarchDay(y, doy, days + 719_468 - era * ERA)
    ensures CivilFromDays(days) == FromMarch(y + era * 400, doy)
  {
    hide YearOfEra, YearStart, FromMarch, MarchDay;
    MarchDayUnique(y, doy, days + 719_468 - era * ERA);
    EraFound(days + 719_468, era);
  }

  lemma FirstYear()
    ensures YearStart(0) == 0 && YearLength(0) == 365
    ensures forall y :: YearLength(y) > 0
  {}

  lemma Locate(days: nat) returns (era: int, y: int, doy: int)
    ensures MarchDay(y, doy, days + 719_468 - era * ERA)
  {
    era := (days + 719_468) / ERA;
    var doe := days + 719_468 - era * ERA;
    MarchDayOf(doe);
    y := YearOfEra(doe);
    doy := doe - YearStart(y);
  }

  /** Every computed date is valid, and the next day count gives the next calendar day. */
  lemma CivilNext(days: nat)
    ensures Valid(CivilFromDays(days))
    ensures CivilFromDays(days + 1) == NextDay(CivilFromDays(days))
  {
    hide FromMarch, NextDay, Valid, CivilFromDays, Leap, YearStart;
    var era, y, doy := Locate(days);
    Located(days, era, y, doy);
    NextYearStart(y);
    LeapEra(y + 1, era);
    assert YearLength(y + era * 400) == YearLength(y);
    FromMarchNext(y + era * 400, doy);
    FirstYear();
    if doy + 1 < YearLength(y) {
      Located(days + 1, era, y, doy + 1);
    } else if y < 399 {
      Located(days + 1, era, y + 1, 0);
    } else {
      Located(days + 1, era + 1, 0, 0);
    }
  }

  lemma CivilAtEpoch()
    ensures CivilFromDays(0) == EPOCH
  {
    assert 719_468 / 146_097 == 4 && 719_468 % 146_097 == 135_080;
    assert YearOfEra(135_080) == 369;
  }

  // ---------- the inverse ----------

  lemma {:induction false} MonthsFillYear(year: int, month: int)
    requires 1 <= month <= 13
    ensures DaysBeforeMonth(year, month)
         == [0, 0, 31, 59, 90, 120, 151, 181, 212, 243, 273, 304, 334, 365][month]
            + if month > 2 && Leap(year) then 1 else 0
  {
    if month > 1 { MonthsFillYear(year, month - 1); }
  }

  lemma NextDayCounts(d: Date)
    requires d.year >= 1970 && Valid(d)
    ensures NextDay(d).year >= 1970 && Valid(NextDay(d)) && DaysFromCivil(NextDay(d)) == DaysFromCivil(d) + 1
  {
    MonthsFillYear(d.year, 13);
    MonthsFillYear(d.year, 12);
  }

  /** Counting the days of the computed date gives the day count back, for every day from 1970. */
  lemma {:induction false} CountAndBack(days: nat)
    ensures CivilFromDays(days).year >= 1970 && Valid(CivilFromDays(days))
    ensures DaysFromCivil(CivilFromDays(days)) == days
  {
    hide CivilFromDays, DaysBeforeMonth;
    if days == 0 {
      CivilAtEpoch();
      assert DaysFromCivil(EPOCH) == 0 by { assert DaysBeforeYear(1970) == 0; MonthsFillYear(1970, 1); }
    } else {
      CountAndBack(days - 1);
      CivilNext(days - 1);
      NextDayCounts(CivilFromDays(days - 1));
    }
  }

  // ---------- calendar order ----------

  predicate Before(a: Date, b: Date) {
    a.year < b.year || (a.year == b.year && (a.month < b.month || (a.month == b.month && a.day < b.day)))
  }

  lemma NextDayLater(d: Date)
    requires Valid(d)
    ensures Before(d, NextDay(d))
  {}

  /** Later day counts are later dates. */
  lemma {:induction false} CivilMonotone(a: nat, b: nat)
    requires a < b
    ensures Before(CivilFromDays(a), CivilFromDays(b))
    decreases b
  {
    hide CivilFromDays, NextDay, Valid;
    CivilNext(b - 1);
    NextDayLater(CivilFromDays(b - 1));
    if a < b - 1 { CivilMonotone(a, b - 1); }
  }
}
