/** The proleptic Gregorian calendar that JavaScript's `Date` uses: dates as
    (year, month, day) triples, day numbers counted from 1 January 1970, and the
    roll-over that `new Date(y, m, d)` and `setDate` apply to an out-of-range day. */
module Calendar {

  /** A calendar date; `month` runs from 1 to 12. */
  datatype Date = Date(year: int, month: int, day: int)

  predicate IsLeapYear(y: int) {
    y % 4 == 0 && (y % 100 != 0 || y % 400 == 0)
  }

  function DaysInYear(y: int): int {
    if IsLeapYear(y) then 366 else 365
  }

  function DaysInMonth(y: int, m: int): (n: int)
    requires 1 <= m <= 12
    ensures 28 <= n <= 31
  {
    if m == 2 then (if IsLeapYear(y) then 29 else 28)
    else if m == 4 || m == 6 || m == 9 || m == 11 then 30
    else 31
  }

  predicate IsValid(d: Date) {
    1 <= d.month <= 12 && 1 <= d.day <= DaysInMonth(d.year, d.month)
  }

  /** Days from 1 January 1970 to 1 January of year `y` (negative before 1970). */
  function DaysBeforeYear(y: int): int
    decreases if y < 1970 then 1970 - y else y - 1970
  {
    if y == 1970 then 0
    else if y > 1970 then DaysBeforeYear(y - 1) + DaysInYear(y - 1)
    else DaysBeforeYear(y + 1) - DaysInYear(y)
  }

  /** Days from 1 January to the first day of month `m` of year `y`. */
  function DaysBeforeMonth(y: int, m: int): int
    requires 1 <= m <= 12
  {
    var common := [0, 31, 59, 90, 120, 151, 181, 212, 243, 273, 304, 334];
    common[m - 1] + if m > 2 && IsLeapYear(y) then 1 else 0
  }

  /** Days from 1 January 1970 to `d` (negative before it). */
  function DayNumber(d: Date): int
    requires 1 <= d.month <= 12
  {
    DaysBeforeYear(d.year) + DaysBeforeMonth(d.year, d.month) + d.day - 1
  }

  lemma EpochIsDayZero()
    ensures DayNumber(Date(1970, 1, 1)) == 0
  {
  }

  // ---------------------------------------------------------------- steps between months and years

  /** A year has `DaysInYear` days. */
  lemma YearStep(y: int)
    ensures DaysBeforeYear(y + 1) == DaysBeforeYear(y) + DaysInYear(y)
  {
  }

  lemma {:induction false} YearsGrow(a: int, b: int)
    requires a <= b
    ensures DaysBeforeYear(a) + 365 * (b - a) <= DaysBeforeYear(b)
    decreases b - a
  {
    if a < b {
      YearsGrow(a, b - 1);
      YearStep(b - 1);
    }
  }

  lemma MonthsGrow(y: int, m1: int, m2: int)
    requires 1 <= m1 < m2 <= 12
    ensures DaysBeforeMonth(y, m1) + DaysInMonth(y, m1) <= DaysBeforeMonth(y, m2)
  {
  }

  lemma LastMonth(y: int, m: int)
    requires 1 <= m <= 12
    ensures DaysBeforeMonth(y, m) + DaysInMonth(y, m) <= DaysInYear(y)
    ensures m == 12 ==> DaysBeforeMonth(y, m) + DaysInMonth(y, m) == DaysInYear(y)
  {
  }

  /** The month after (`y`, `m`). */
  function NextMonth(y: int, m: int): (r: (int, int))
    requires 1 <= m <= 12
    ensures 1 <= r.1 <= 12
  {
    if m == 12 then (y + 1, 1) else (y, m + 1)
  }

  /** The month before (`y`, `m`). */
  function PrevMonth(y: int, m: int): (r: (int, int))
    requires 1 <= m <= 12
    ensures 1 <= r.1 <= 12 && NextMonth(r.0, r.1) == (y, m)
  {
    if m == 1 then (y - 1, 12) else (y, m - 1)
  }

  /** The first of the next month comes `DaysInMonth` days after the first of this one. */
  lemma NextMonthStart(y: int, m: int)
    requires 1 <= m <= 12
    ensures var (ny, nm) := NextMonth(y, m);
      DayNumber(Date(ny, nm, 1)) == DayNumber(Date(y, m, 1)) + DaysInMonth(y, m)
  {
    if m == 12 {
      YearStep(y);
      LastMonth(y, m);
    }
  }

  // ---------------------------------------------------------------- roll-over

  /** Day `d` of month `m` of year `y`, for any integer `d`: a day past the end of
      the month carries into the following months (and years), a day below 1 borrows
      from the preceding ones. This is how `Date` treats an out-of-range day. */
  function Normalize(y: int, m: int, d: int): (r: Date)
    requires 1 <= m <= 12
    ensures IsValid(r)
    ensures DayNumber(r) == DayNumber(Date(y, m, 1)) + d - 1
    decreases if d < 1 then 1 else 0, if d < 1 then -d else d
  {
    if d < 1 then
      var (py, pm) := PrevMonth(y, m);
      NextMonthStart(py, pm);
      Normalize(py, pm, d + DaysInMonth(py, pm))
    else if d > DaysInMonth(y, m) then
      var (ny, nm) := NextMonth(y, m);
      NextMonthStart(y, m);
      Normalize(ny, nm, d - DaysInMonth(y, m))
    else
      Date(y, m, d)
  }

  /** A valid date lies within its year. */
  lemma WithinYear(d: Date)
    requires IsValid(d)
    ensures DaysBeforeYear(d.year) <= DayNumber(d) < DaysBeforeYear(d.year + 1)
  {
    LastMonth(d.year, d.month);
    YearStep(d.year);
  }

  /** Distinct valid dates have distinct day numbers. */
  lemma DayNumberInjective(a: Date, b: Date)
    requires IsValid(a) && IsValid(b) && DayNumber(a) == DayNumber(b)
    ensures a == b
  {
    WithinYear(a);
    WithinYear(b);
    if a.year < b.year {
      YearsGrow(a.year + 1, b.year);
      assert false;
    } else if b.year < a.year {
      YearsGrow(b.year + 1, a.year);
      assert false;
    }
    if a.month < b.month {
      MonthsGrow(a.year, a.month, b.month);
      assert false;
    } else if b.month < a.month {
      MonthsGrow(a.year, b.month, a.month);
      assert false;
    }
  }

  /** Roll-over picks the one valid date that is `d - 1` days after the first of the month. */
  lemma NormalizeUnique(y: int, m: int, d: int, r: Date)
    requires 1 <= m <= 12
    requires IsValid(r) && DayNumber(r) == DayNumber(Date(y, m, 1)) + d - 1
    ensures Normalize(y, m, d) == r
  {
    DayNumberInjective(Normalize(y, m, d), r);
  }

  /** A day that is already in range is left alone. */
  lemma NormalizeValid(d: Date)
    requires IsValid(d)
    ensures Normalize(d.year, d.month, d.day) == d
  {
  }

  /** The date with day number `n`. */
  function FromDayNumber(n: int): (r: Date)
    ensures IsValid(r) && DayNumber(r) == n
  {
    EpochIsDayZero();
    Normalize(1970, 1, n + 1)
  }

  /** `FromDayNumber` and `DayNumber` are inverse on valid dates. */
  lemma FromDayNumberOfDayNumber(d: Date)
    requires IsValid(d)
    ensures FromDayNumber(DayNumber(d)) == d
  {
    FromDayNumberOf(d, DayNumber(d));
  }

  /** The valid date with day number `n` is `FromDayNumber(n)`. */
  lemma FromDayNumberOf(d: Date, n: int)
    requires IsValid(d) && DayNumber(d) == n
    ensures FromDayNumber(n) == d
  {
    DayNumberInjective(FromDayNumber(n), d);
  }

  /** JavaScript's MakeDay: the day number of day `d` of month index `m0`
      (0 = January; any integer, carried into the year) of year `y`. */
  function MakeDay(y: int, m0: int, d: int): int {
    DayNumber(Date(y + m0 / 12, m0 % 12 + 1, 1)) + d - 1
  }

  /** For a month index from 0 to 11, `MakeDay` is the day number of the date. */
  lemma MakeDayInRange(y: int, m: int, d: int)
    requires 1 <= m <= 12
    ensures MakeDay(y, m - 1, d) == DayNumber(Date(y, m, d))
  {
    assert (m - 1) / 12 == 0 && (m - 1) % 12 == m - 1;
  }

  // ---------------------------------------------------------------- time of day

  const MsPerDay: int := 86400000

  /** The first millisecond of day `n` (dayjs `startOf("day")`). */
  function StartOfDay(n: int): int {
    n * MsPerDay
  }

  /** The last millisecond of day `n` (dayjs `endOf("day")`). */
  function EndOfDay(n: int): int {
    StartOfDay(n + 1) - 1
  }

  /** The day that contains millisecond `t`. */
  function DayOfTime(t: int): (n: int)
    ensures StartOfDay(n) <= t <= EndOfDay(n)
  {
    t / MsPerDay
  }

  /** A time lies between the start of one day and the end of another exactly
      when its day lies between them. */
  lemma DayBounds(t: int, lo: int, hi: int)
    ensures StartOfDay(lo) <= t <==> lo <= DayOfTime(t)
    ensures t <= EndOfDay(hi) <==> DayOfTime(t) <= hi
  {
    var n := DayOfTime(t);
    if lo > n {
      assert StartOfDay(lo) >= StartOfDay(n + 1);
    }
    if lo <= n {
      assert StartOfDay(lo) <= StartOfDay(n);
    }
    if hi < n {
      assert EndOfDay(hi) < StartOfDay(n);
    }
    if hi >= n {
      assert EndOfDay(hi) >= EndOfDay(n);
    }
  }
}
