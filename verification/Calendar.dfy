/** Gregorian dates and day numbers, as `date` and `relativedelta` treat them. */
module Calendar {
  /** Months are numbered on one line, 12 * year + month - 1; days count from 1. */
  datatype Date = Date(month: nat, day: nat)

  predicate IsLeap(year: nat) {
    year % 4 == 0 && (year % 100 != 0 || year % 400 == 0)
  }

  function DaysIn(month: nat): (n: nat)
    ensures 28 <= n <= 31
  {
    var number := month % 12 + 1;
    if number == 2 then (if IsLeap(month / 12) then 29 else 28)
    else if number in {4, 6, 9, 11} then 30
    else 31
  }

  predicate Valid(d: Date) {
    1 <= d.day <= DaysIn(d.month)
  }

  /** Day number of the first of a month. */
  function FirstDay(month: nat): nat {
    if month == 0 then 0 else FirstDay(month - 1) + DaysIn(month - 1)
  }

  function DayNumber(d: Date): nat
    requires Valid(d)
  {
    FirstDay(d.month) + d.day - 1
  }

  lemma {:induction false} FirstDayMonotone(m: nat, n: nat)
    requires m < n
    ensures FirstDay(m) + DaysIn(m) <= FirstDay(n)
  {
    if m < n - 1 {
      FirstDayMonotone(m, n - 1);
      hide DaysIn;
    }
  }

  /** The date of a day number at or after the first of `month`. */
  function DateFrom(dayNumber: nat, month: nat): (d: Date)
    requires FirstDay(month) <= dayNumber
    ensures Valid(d) && DayNumber(d) == dayNumber
    decreases dayNumber - FirstDay(month)
  {
    if dayNumber < FirstDay(month) + DaysIn(month)
    then Date(month, dayNumber - FirstDay(month) + 1)
    else DateFrom(dayNumber, month + 1)
  }

  function ToDate(dayNumber: nat): (d: Date)
    ensures Valid(d) && DayNumber(d) == dayNumber
  {
    DateFrom(dayNumber, 0)
  }

  /** A day number has one date. */
  lemma DayNumberInjective(a: Date, b: Date)
    requires Valid(a) && Valid(b) && DayNumber(a) == DayNumber(b)
    ensures a == b
  {
    if a.month < b.month {
      FirstDayMonotone(a.month, b.month);
    } else if b.month < a.month {
      FirstDayMonotone(b.month, a.month);
    }
  }

  /** `relativedelta(months=k, day=31)`: the last day of the month k months on. */
  function MonthEnd(d: Date, months: nat): (r: Date)
    ensures Valid(r) && r.month == d.month + months && DayNumber(r) + 1 == FirstDay(r.month + 1)
  {
    Date(d.month + months, DaysIn(d.month + months))
  }

  /** `replace(month=((month - 1) // 3) * 3 + 1, day=1)`: the month's place in its year drops to a multiple of 3. */
  function QuarterStart(d: Date): (r: Date)
    ensures Valid(r) && r.day == 1 && r.month == 3 * (d.month / 3)
  {
    QuarterMonth(d.month);
    Date(d.month - d.month % 12 + d.month % 12 / 3 * 3, 1)
  }

  lemma QuarterMonth(month: nat)
    ensures month - month % 12 + month % 12 / 3 * 3 == 3 * (month / 3)
  {
    var y, r := month / 12, month % 12;
    assert month == 12 * y + r;
    assert (12 * y + r) / 3 == 4 * y + r / 3;
  }

  /** `relativedelta(months=k, days=-1)` from a first of month: the day before the first k months on. */
  function DayBeforeMonths(first: Date, months: nat): int
    requires Valid(first) && first.day == 1
  {
    DayNumber(Date(first.month + months, 1)) - 1
  }

  // ------------------------------------------------------------ the proleptic Gregorian calendar

  /** The day `date.toordinal` gives a first of January, with 0001-01-01 as day 1. */
  function JanuaryOrdinal(year: nat): int
    requires year >= 1
  {
    var y := year - 1;
    365 * y + y / 4 - y / 100 + y / 400 + 1
  }

  /** Days from the first of a month on to the next year's first; January and February depend on the year. */
  function DaysToNewYear(number: nat): int
    requires 3 <= number <= 12
  {
    [306, 275, 245, 214, 184, 153, 122, 92, 61, 31][number - 3]
  }

  /** `date.toordinal`, counting from the last first of January or up to the next. */
  function Ordinal(d: Date): int
    requires d.month >= 12
  {
    var year, number := d.month / 12, d.month % 12 + 1;
    if number <= 2 then JanuaryOrdinal(year) + 31 * (number - 1) + d.day - 1
    else JanuaryOrdinal(year + 1) - DaysToNewYear(number) + d.day - 1
  }

  lemma {:induction false} FirstDayAfter(month: nat, k: nat)
    ensures FirstDay(month + k) == FirstDay(month) + DaysOf(month, k)
  {
    if k > 0 {
      FirstDayAfter(month, k - 1);
    }
  }

  /** Days of `k` months together. */
  function DaysOf(month: nat, k: nat): nat {
    if k == 0 then 0 else DaysOf(month, k - 1) + DaysIn(month + k - 1)
  }

  /** Days before each month, and in each, when the year has no leap day. */
  const BEFORE: seq<int> := [0, 31, 59, 90, 120, 151, 181, 212, 243, 273, 304, 334, 365]
  const LENGTHS: seq<int> := [31, 28, 31, 30, 31, 30, 31, 31, 30, 31, 30, 31]

  lemma LengthsAddUp(k: nat)
    requires k < 12
    ensures BEFORE[k + 1] == BEFORE[k] + LENGTHS[k]
  {
  }

  lemma MonthLength(year: nat, k: nat)
    requires k < 12
    ensures DaysIn(12 * year + k) == LENGTHS[k] + if k == 1 && IsLeap(year) then 1 else 0
  {
    hide IsLeap;
    var month := 12 * year + k;
    assert month / 12 == year && month % 12 == k;
  }

  lemma {:induction false} DaysOfFirst(year: nat, k: nat)
    requires k <= 12
    ensures DaysOf(12 * year, k) == BEFORE[k] + if k > 1 && IsLeap(year) then 1 else 0
  {
    hide IsLeap, DaysIn;
    if k > 0 {
      hide BEFORE, LENGTHS;
      MonthLength(year, k - 1);
      DaysOfFirst(year, k - 1);
      LengthsAddUp(k - 1);
    }
  }

  lemma NextQuotients(y: int)
    ensures (y + 1) / 4 == y / 4 + (if (y + 1) % 4 == 0 then 1 else 0)
    ensures (y + 1) / 100 == y / 100 + (if (y + 1) % 100 == 0 then 1 else 0)
  {
  }

  lemma NextQuotient400(y: int)
    ensures (y + 1) / 400 == y / 400 + (if (y + 1) % 400 == 0 then 1 else 0)
  {
  }

  lemma CenturiesDivide(z: int)
    ensures z % 400 == 0 ==> z % 100 == 0
    ensures z % 100 == 0 ==> z % 4 == 0
  {
    if z % 400 == 0 {
      Multiples(4 * (z / 400));
    }
    if z % 100 == 0 {
      Multiples(25 * (z / 100));
    }
  }

  lemma Multiples(k: int)
    ensures 100 * k % 100 == 0 && 4 * k % 4 == 0
  {
  }

  /** Days the closed form adds for leap years up to `y`. */
  function LeapDays(y: int): int {
    y / 4 - y / 100 + y / 400
  }

  lemma LeapDay(y: nat)
    ensures LeapDays(y + 1) == LeapDays(y) + if IsLeap(y + 1) then 1 else 0
  {
    NextQuotients(y);
    NextQuotient400(y);
    CenturiesDivide(y + 1);
  }

  lemma YearZero()
    ensures FirstDay(0) == 0 && IsLeap(0)
  {
  }

  /** Every year starts where the closed form puts it. */
  lemma {:induction false} YearStartsByOrdinal(year: nat)
    requires year >= 1
    ensures FirstDay(12 * year) == JanuaryOrdinal(year) + 365
  {
    hide FirstDay, IsLeap;
    FirstDayAfter(12 * (year - 1), 12);
    DaysOfFirst(year - 1, 12);
    if year > 1 {
      YearStartsByOrdinal(year - 1);
      LeapDay(year - 2);
    } else {
      YearZero();
    }
  }

  /** Day numbers are those of the proleptic Gregorian calendar. */
  lemma DayNumberIsOrdinal(d: Date)
    requires Valid(d) && d.month >= 12
    ensures DayNumber(d) == Ordinal(d) + 365
  {
    hide FirstDay, DaysOf, IsLeap, JanuaryOrdinal;
    var year, k := d.month / 12, d.month % 12;
    YearStartsByOrdinal(year);
    YearStartsByOrdinal(year + 1);
    FirstDayAfter(12 * year, 12);
    DaysOfFirst(year, 12);
    if k > 0 {
      FirstDayAfter(12 * year, k);
      DaysOfFirst(year, k);
    }
  }
}
