/** Civil dates to days since 1970-01-01. */
module Calendar {

  // ---------------------------------------------------------------- counting days one by one

  predicate IsLeap(y: int) {
    y % 4 == 0 && (y % 100 != 0 || y % 400 == 0)
  }

  function YearLength(y: int): nat {
    if IsLeap(y) then 366 else 365
  }

  function MonthLength(y: int, m: nat): nat {
    if m == 2 then if IsLeap(y) then 29 else 28
    else if m == 4 || m == 6 || m == 9 || m == 11 then 30
    else 31
  }

  predicate IsDate(y: int, m: nat, d: nat) {
    1 <= m <= 12 && 1 <= d <= MonthLength(y, m)
  }

  /** Days from 1970-01-01 to the first day of year `y`, a year at a time. */
  function YearStart(y: int): int
    decreases if y >= 1970 then y - 1970 else 1970 - y
  {
    if y == 1970 then 0
    else if y > 1970 then YearStart(y - 1) + YearLength(y - 1)
    else YearStart(y + 1) - YearLength(y)
  }

  function MonthStart(y: int, m: nat): nat {
    if m <= 1 then 0 else MonthStart(y, m - 1) + MonthLength(y, m - 1)
  }

  /** The proleptic Gregorian day count. */
  function DayCount(y: int, m: nat, d: nat): int
    requires IsDate(y, m, d)
  {
    YearStart(y) + MonthStart(y, m) + d - 1
  }

  datatype Date = Date(y: int, m: nat, d: nat)

  function NextDay(t: Date): Date {
    if t.d < MonthLength(t.y, t.m) then Date(t.y, t.m, t.d + 1)
    else if t.m < 12 then Date(t.y, t.m + 1, 1)
    else Date(t.y + 1, 1, 1)
  }

  // ---------------------------------------------------------------- the arithmetic

  /** Division that truncates toward zero. */
  function Quotient(a: int, b: nat): int
    requires b > 0
  {
    if a >= 0 then a / b else -((-a) / b)
  }

  /** Days before month `m` of a year that starts in March. */
  function DayOfYear(m: nat, d: nat): int {
    (153 * (if m > 2 then m - 3 else m + 9) + 2) / 5 + d - 1
  }

  function DaysFromCivil(y: int, m: nat, d: nat): int {
    var y1 := if m <= 2 then y - 1 else y;
    var era := Quotient(if y1 >= 0 then y1 else y1 - 399, 400);
    var yoe := y1 - era * 400;
    var doe := yoe * 365 + yoe / 4 - yoe / 100 + DayOfYear(m, d);
    era * 146097 + doe - 719468
  }

  /** The same over whole years, without eras. */
  function MarchCount(y1: int, doy: int): int {
    365 * y1 + y1 / 4 - y1 / 100 + y1 / 400 + doy - 719468
  }

  lemma EraIsFloor(y1: int)
    ensures Quotient(if y1 >= 0 then y1 else y1 - 399, 400) == y1 / 400
  {
    var q, r := y1 / 400, y1 % 400;
    assert y1 == 400 * q + r;
    if y1 < 0 {
      assert 399 - y1 == 400 * (-q) + (399 - r);
    }
  }

  lemma Divisions(era: int, yoe: int)
    requires 0 <= yoe < 400
    ensures (400 * era + yoe) / 4 == 100 * era + yoe / 4
    ensures (400 * era + yoe) / 100 == 4 * era + yoe / 100
    ensures (400 * era + yoe) / 400 == era
  {
  }

  lemma CivilIsMarchCount(y: int, m: nat, d: nat)
    ensures DaysFromCivil(y, m, d) == MarchCount(if m <= 2 then y - 1 else y, DayOfYear(m, d))
  {
    var y1 := if m <= 2 then y - 1 else y;
    var era := y1 / 400;
    var yoe := y1 % 400;
    EraIsFloor(y1);
    Divisions(era, yoe);
    assert y1 == 400 * era + yoe;
  }

  /** One more year adds its length: a leap day falls into year `y` exactly when `y` is leap. */
  lemma YearStep(y: int)
    ensures MarchCount(y, 0) - MarchCount(y - 1, 0) == YearLength(y)
  {
    Carry(y, 4);
    Carry(y, 100);
    Carry(y, 400);
    Multiples(y);
  }

  lemma Carry(y: int, n: nat)
    requires n == 4 || n == 100 || n == 400
    ensures y / n - (y - 1) / n == if y % n == 0 then 1 else 0
  {
    if n == 4 { assert y / 4 - (y - 1) / 4 == if y % 4 == 0 then 1 else 0; }
    if n == 100 { assert y / 100 - (y - 1) / 100 == if y % 100 == 0 then 1 else 0; }
    if n == 400 { assert y / 400 - (y - 1) / 400 == if y % 400 == 0 then 1 else 0; }
  }

  lemma Multiples(y: int)
    ensures (y % 400 == 0 ==> y % 100 == 0) && (y % 100 == 0 ==> y % 4 == 0)
  {
  }

  /** First days of consecutive years are a year's length apart. */
  lemma CivilYearStep(y: int)
    ensures DaysFromCivil(y + 1, 1, 1) == DaysFromCivil(y, 1, 1) + YearLength(y)
  {
    CivilIsMarchCount(y + 1, 1, 1);
    CivilIsMarchCount(y, 1, 1);
    DayOfYearIs(1, 1);
    FromMarch(y, 306);
    YearStep(y);
  }

  lemma {:induction false} YearStartIsCivil(y: int)
    ensures YearStart(y) == DaysFromCivil(y, 1, 1)
    decreases if y >= 1970 then y - 1970 else 1970 - y
  {
    if y > 1970 {
      YearStartIsCivil(y - 1);
      CivilYearStep(y - 1);
    } else if y < 1970 {
      YearStartIsCivil(y + 1);
      CivilYearStep(y);
    } else {
      assert DaysFromCivil(1970, 1, 1) == 0;
    }
  }

  /** Month starts, written out. */
  lemma MonthStartIs(y: int, m: nat)
    requires 1 <= m <= 12
    ensures MonthStart(y, m) ==
            [0, 31, 59, 90, 120, 151, 181, 212, 243, 273, 304, 334][m - 1] + if m > 2 && IsLeap(y) then 1 else 0
  {
    if m > 1 { MonthStartIs(y, m - 1); }
  }

  /** Days from the first of March to the first of month `m`. */
  function FromMarchTo(m: nat): int
    requires 1 <= m <= 12
  {
    [306, 337, 0, 31, 61, 92, 122, 153, 184, 214, 245, 275][m - 1]
  }

  lemma DayOfYearIs(m: nat, d: nat)
    requires 1 <= m <= 12
    ensures DayOfYear(m, d) == FromMarchTo(m) + d - 1
  {
  }

  /** The month's start counted from January is its start counted from March, moved by two months or, after
      February, by the whole year before. */
  lemma MonthOffset(y: int, m: nat)
    requires 1 <= m <= 12
    ensures MonthStart(y, m) == FromMarchTo(m) - 306 + if m > 2 then YearLength(y) else 0
  {
    MonthStartIs(y, m);
  }

  /** Within a year the March-based count agrees with the month-by-month one. */
  lemma MonthIsCivil(y: int, m: nat, d: nat)
    requires IsDate(y, m, d)
    ensures DaysFromCivil(y, m, d) == DaysFromCivil(y, 1, 1) + MonthStart(y, m) + d - 1
  {
    CivilIsMarchCount(y, m, d);
    CivilIsMarchCount(y, 1, 1);
    DayOfYearIs(m, d);
    DayOfYearIs(1, 1);
    MonthOffset(y, m);
    YearStep(y);
    FromMarch(y, FromMarchTo(m) + d - 1);
    FromMarch(y, 306);
  }

  lemma FromMarch(y: int, doy: int)
    ensures MarchCount(y, doy) == MarchCount(y, 0) + doy && MarchCount(y - 1, doy) == MarchCount(y - 1, 0) + doy
  {
  }

  /** For every year, month and valid day, before and after 1970, the closed form is the day count. */
  lemma CivilIsDayCount(y: int, m: nat, d: nat)
    requires IsDate(y, m, d)
    ensures DaysFromCivil(y, m, d) == DayCount(y, m, d)
  {
    YearStartIsCivil(y);
    MonthIsCivil(y, m, d);
  }

  lemma YearEnds(y: int)
    ensures MonthStart(y, 12) + 31 == YearLength(y) && YearStart(y + 1) == YearStart(y) + YearLength(y)
  {
    MonthStartIs(y, 12);
  }

  /** The next calendar date is the next number, across month ends, leap days, centuries and eras. */
  lemma NextDayIsNext(t: Date)
    requires IsDate(t.y, t.m, t.d)
    ensures var n := NextDay(t);
            IsDate(n.y, n.m, n.d) && DaysFromCivil(n.y, n.m, n.d) == DaysFromCivil(t.y, t.m, t.d) + 1
  {
    var n := NextDay(t);
    NextDayCounted(t);
    CivilIsDayCount(t.y, t.m, t.d);
    CivilIsDayCount(n.y, n.m, n.d);
  }

  lemma NextDayCounted(t: Date)
    requires IsDate(t.y, t.m, t.d)
    ensures var n := NextDay(t); IsDate(n.y, n.m, n.d) && DayCount(n.y, n.m, n.d) == DayCount(t.y, t.m, t.d) + 1
  {
    if t.d == MonthLength(t.y, t.m) {
      if t.m < 12 {
        assert MonthStart(t.y, t.m + 1) == MonthStart(t.y, t.m) + MonthLength(t.y, t.m);
      } else {
        YearEnds(t.y);
      }
    }
  }

  /** Later dates have larger numbers, so no two dates share one. */
  lemma LaterIsLarger(a: Date, b: Date)
    requires IsDate(a.y, a.m, a.d) && IsDate(b.y, b.m, b.d)
    requires a.y < b.y || (a.y == b.y && (a.m < b.m || (a.m == b.m && a.d < b.d)))
    ensures DaysFromCivil(a.y, a.m, a.d) < DaysFromCivil(b.y, b.m, b.d)
  {
    CivilIsDayCount(a.y, a.m, a.d);
    CivilIsDayCount(b.y, b.m, b.d);
    if a.y < b.y {
      YearsGrow(a.y, b.y);
      WithinYear(a.y, a.m, a.d);
    } else if a.m < b.m {
      MonthsGrow(a.y, a.m, b.m);
    }
  }

  lemma WithinYear(y: int, m: nat, d: nat)
    requires IsDate(y, m, d)
    ensures MonthStart(y, m) + d <= YearLength(y)
  {
    YearEnds(y);
    if m < 12 { MonthsGrow(y, m, 12); }
  }

  lemma {:induction false} MonthsGrow(y: int, m: nat, n: nat)
    requires 1 <= m < n <= 12
    ensures MonthStart(y, m) + MonthLength(y, m) <= MonthStart(y, n)
    decreases n - m
  {
    if m < n - 1 { MonthsGrow(y, m, n - 1); }
  }

  lemma {:induction false} YearsGrow(x: int, y: int)
    requires x < y
    ensures YearStart(x) + YearLength(x) <= YearStart(y)
    decreases y - x
  {
    YearEnds(y - 1);
    if x < y - 1 { YearsGrow(x, y - 1); }
  }
}
