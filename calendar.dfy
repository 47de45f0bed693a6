/**
 * Days-since-1970 date arithmetic (hw1.cpp): the Gregorian leap rule, the
 * month table, the Date class whose daysFromEpoch counts days from 1970/1/1
 * and whose makeFromTimestamp turns such a count back into year, month and
 * day, and the operators built from the two.
 *
 * Integers are unbounded here; the 32-bit counter of the source overflows
 * only millions of years after 1970.
 */
module Calendar {

  /** The Gregorian rule; `y % k == 0` means the same for C++'s and Dafny's remainder. */
  predicate IsLeap(y: int) {
    (y % 4 == 0 && y % 100 != 0) || y % 400 == 0
  }

  function DaysInYear(y: int): (n: int)
    ensures n == 366 <==> IsLeap(y)
    ensures n == 365 <==> !IsLeap(y)
  {
    if IsLeap(y) then 366 else 365
  }

  /** NUM_DAYS: entry 0 is a dummy, entries 1..12 are the month lengths of a common year. */
  const MonthTable: seq<int> := [0, 31, 28, 31, 30, 31, 30, 31, 31, 30, 31, 30, 31]

  /** numDaysOfMonth: defined for every index of NUM_DAYS. */
  function DaysInMonth(y: int, m: int): (n: int)
    requires 0 <= m < |MonthTable|
    ensures 1 <= m <= 12 ==> 28 <= n <= 31
    ensures n == 29 <==> m == 2 && IsLeap(y)
    ensures m != 2 ==> n == MonthTable[m]
    ensures m == 2 ==> n == (if IsLeap(y) then 29 else 28)
  {
    MonthTable[m] + (if m == 2 && IsLeap(y) then 1 else 0)
  }

  /** What daysFromEpoch's first loop adds up: the days of the years 1970 .. y - 1 (none if y <= 1970). */
  function DaysBeforeYear(y: int): nat
    decreases y - 1970
  {
    if y <= 1970 then 0 else DaysBeforeYear(y - 1) + DaysInYear(y - 1)
  }

  /** What its second loop adds up: the days of the months 1 .. m - 1 of year y (none if m <= 1). */
  function DaysBeforeMonth(y: int, m: int): nat
    requires m <= 13
    decreases m
  {
    if m <= 1 then 0 else DaysBeforeMonth(y, m - 1) + DaysInMonth(y, m - 1)
  }

  /** The days of the months m .. 12 of year y. */
  function DaysFromMonth(y: int, m: int): nat
    requires 1 <= m <= 13
    decreases 13 - m
  {
    if m == 13 then 0 else DaysInMonth(y, m) + DaysFromMonth(y, m + 1)
  }

  /** The value of a Date: its three public fields. */
  datatype Ymd = Ymd(year: int, month: int, day: int)

  const Epoch: Ymd := Ymd(1970, 1, 1)

  /** A real calendar date on or after the epoch. */
  predicate Valid(d: Ymd) {
    d.year >= 1970 && 1 <= d.month <= 12 && 1 <= d.day <= DaysInMonth(d.year, d.month)
  }

  /** The count daysFromEpoch returns: it needs month <= 13 to stay inside NUM_DAYS. */
  function Days(d: Ymd): int
    requires d.month <= 13
  {
    DaysBeforeYear(d.year) + DaysBeforeMonth(d.year, d.month) + d.day - 1
  }

  /** makeFromTimestamp's first loop: strip whole years from t, starting at year y. */
  function SplitYears(y: int, t: int): (r: (int, int))
    requires y >= 1970
    ensures y <= r.0 && r.1 < DaysInYear(r.0)
    ensures DaysBeforeYear(r.0) + r.1 == DaysBeforeYear(y) + t
    ensures t >= 0 ==> r.1 >= 0
    ensures t < DaysInYear(y) ==> r == (y, t)
    decreases t
  {
    if t >= DaysInYear(y) then SplitYears(y + 1, t - DaysInYear(y)) else (y, t)
  }

  /** makeFromTimestamp's second loop: strip whole months from t, starting at month m of year y. */
  function SplitMonths(y: int, m: int, t: int): (r: (int, int))
    requires 1 <= m <= 12 && t < DaysFromMonth(y, m)
    ensures m <= r.0 <= 12 && r.1 < DaysInMonth(y, r.0)
    ensures DaysBeforeMonth(y, r.0) + r.1 == DaysBeforeMonth(y, m) + t
    ensures t >= 0 ==> r.1 >= 0
    ensures t < DaysInMonth(y, m) ==> r == (m, t)
    decreases 13 - m
  {
    if t >= DaysInMonth(y, m) then SplitMonths(y, m + 1, t - DaysInMonth(y, m)) else (m, t)
  }

  /** The months of a year add up to the year: the sum of numDaysOfMonth(y, 1..12) is numDaysOfYear(y). */
  lemma {:induction false} MonthsFillYear(y: int, m: int)
    requires 1 <= m <= 13
    ensures DaysBeforeMonth(y, m) + DaysFromMonth(y, m) == DaysInYear(y)
    decreases 13 - m
  {
    if m < 13 {
      MonthsFillYear(y, m + 1);
    } else {
      YearOfMonths(y);
    }
  }

  /** The twelve entries of the month table, leap day included, add up to the year. */
  lemma YearOfMonths(y: int)
    ensures DaysBeforeMonth(y, 13) == DaysInYear(y)
  {
    var leap := if IsLeap(y) then 1 else 0;
    assert DaysBeforeMonth(y, 2) == 31;
    assert DaysBeforeMonth(y, 3) == 59 + leap;
    assert DaysBeforeMonth(y, 4) == 90 + leap;
    assert DaysBeforeMonth(y, 5) == 120 + leap;
    assert DaysBeforeMonth(y, 6) == 151 + leap;
    assert DaysBeforeMonth(y, 7) == 181 + leap;
    assert DaysBeforeMonth(y, 8) == 212 + leap;
    assert DaysBeforeMonth(y, 9) == 243 + leap;
    assert DaysBeforeMonth(y, 10) == 273 + leap;
    assert DaysBeforeMonth(y, 11) == 304 + leap;
    assert DaysBeforeMonth(y, 12) == 334 + leap;
  }

  /** The date that makeFromTimestamp(t) writes into year, month and day. */
  function FromTimestamp(t: int): (d: Ymd)
    ensures t < 0 ==> d == Ymd(1970, 1, 1 + t)
  {
    var (y, rest) := SplitYears(1970, t);
    MonthsFillYear(y, 1);
    var (m, offset) := SplitMonths(y, 1, rest);
    Ymd(y, m, 1 + offset)
  }

  /** FromTimestamp read off the results of the two loops. */
  lemma FromSplits(t: int, y: int, rest: int, m: int, offset: int)
    requires SplitYears(1970, t) == (y, rest)
    requires 1 <= m <= 12 && rest < DaysFromMonth(y, 1) && SplitMonths(y, 1, rest) == (m, offset)
    ensures FromTimestamp(t) == Ymd(y, m, 1 + offset)
  {
  }

  /** For t >= 0, makeFromTimestamp(t) gives a valid date that lies t days after the epoch. */
  lemma FromTimestampCorrect(t: int)
    requires t >= 0
    ensures Valid(FromTimestamp(t)) && Days(FromTimestamp(t)) == t
  {
    var (y, rest) := SplitYears(1970, t);
    MonthsFillYear(y, 1);
  }

  lemma EpochIsZero()
    ensures Days(Epoch) == 0 && FromTimestamp(0) == Epoch
  {
  }

  lemma {:induction false} DaysBeforeYearMonotone(a: int, b: int)
    requires a <= b
    ensures DaysBeforeYear(a) <= DaysBeforeYear(b)
    decreases b - a
  {
    if a < b {
      DaysBeforeYearMonotone(a, b - 1);
    }
  }

  lemma {:induction false} DaysBeforeMonthMonotone(y: int, a: int, b: int)
    requires a <= b <= 13
    ensures DaysBeforeMonth(y, a) <= DaysBeforeMonth(y, b)
    decreases b - a
  {
    if a < b {
      DaysBeforeMonthMonotone(y, a, b - 1);
    }
  }

  /** A valid date lies inside its year: 0 <= day of year < days of the year. */
  lemma DayOfYearBounds(d: Ymd)
    requires Valid(d)
    ensures 0 <= DaysBeforeMonth(d.year, d.month) + d.day - 1 < DaysInYear(d.year)
  {
    DaysBeforeMonthMonotone(d.year, d.month + 1, 13);
    MonthsFillYear(d.year, 13);
  }

  /** For a valid date, daysFromEpoch is at least 0. */
  lemma DaysNonNegative(d: Ymd)
    requires Valid(d)
    ensures Days(d) >= 0
  {
    DayOfYearBounds(d);
  }

  /** Valid dates of different years are ordered by their counts. */
  lemma EarlierYearFewerDays(d: Ymd, e: Ymd)
    requires Valid(d) && Valid(e) && d.year < e.year
    ensures Days(d) < Days(e)
  {
    DayOfYearBounds(d);
    DaysBeforeYearMonotone(d.year + 1, e.year);
  }

  /** Valid dates of one year and different months are ordered by their counts. */
  lemma EarlierMonthFewerDays(d: Ymd, e: Ymd)
    requires Valid(d) && Valid(e) && d.year == e.year && d.month < e.month
    ensures Days(d) < Days(e)
  {
    DaysBeforeMonthMonotone(d.year, d.month + 1, e.month);
  }

  /** Different valid dates are different numbers of days from the epoch. */
  lemma DaysInjective(d: Ymd, e: Ymd)
    requires Valid(d) && Valid(e) && Days(d) == Days(e)
    ensures d == e
  {
    if d.year < e.year {
      EarlierYearFewerDays(d, e);
    } else if e.year < d.year {
      EarlierYearFewerDays(e, d);
    } else if d.month < e.month {
      EarlierMonthFewerDays(d, e);
    } else if e.month < d.month {
      EarlierMonthFewerDays(e, d);
    }
  }

  /** Round trip: makeFromTimestamp(daysFromEpoch(d)) == d for a valid date. */
  lemma RoundTrip(d: Ymd)
    requires Valid(d)
    ensures FromTimestamp(Days(d)) == d
  {
    DaysNonNegative(d);
    FromTimestampCorrect(Days(d));
    DaysInjective(FromTimestamp(Days(d)), d);
  }

  /** epoch + (c - epoch) == c and c - (c - epoch) == epoch. */
  lemma EpochOffsets(c: Ymd)
    requires Valid(c)
    ensures FromTimestamp(Days(Epoch) + (Days(c) - Days(Epoch))) == c
    ensures FromTimestamp(Days(c) - (Days(c) - Days(Epoch))) == Epoch
  {
    RoundTrip(c);
  }

  /** (d + n) - d == n whenever d + n does not fall before the epoch; d - d == 0. */
  lemma PlusThenDifference(d: Ymd, n: int)
    requires d.month <= 13 && Days(d) + n >= 0
    ensures Days(FromTimestamp(Days(d) + n)) - Days(d) == n
    ensures Days(d) - Days(d) == 0
  {
    FromTimestampCorrect(Days(d) + n);
  }

  /** C++'s / on a positive divisor: the quotient rounded toward zero. */
  function TruncDiv(a: int, b: int): (q: int)
    requires b > 0
    ensures a >= 0 ==> q >= 0
    ensures a < 0 ==> q <= 0
  {
    if a >= 0 then a / b else -((-a) / b)
  }

  /** C++'s % (the sign follows the dividend): what is left of a after the truncated quotient. */
  function TruncRem(a: int, b: int): (r: int)
    requires b > 0
    ensures a == TruncDiv(a, b) * b + r
    ensures a >= 0 ==> 0 <= r < b
    ensures a < 0 ==> -b < r <= 0
  {
    if a >= 0 then a % b
    else
      var q := (-a) / b;
      assert -a == q * b + (-a) % b;
      assert TruncDiv(a, b) * b == -(q * b);
      -((-a) % b)
  }

  /** weekDay of a date t days after the epoch: 1970/1/1 was a Thursday (4). */
  function WeekDayOf(t: int): int {
    TruncRem(4 + t, 7)
  }

  /** weekDay is in 0..6 from the epoch on, is 4 at the epoch and repeats every 7 days. */
  lemma WeekDayCycle(t: int)
    requires t >= 0
    ensures 0 <= WeekDayOf(t) <= 6
    ensures t == 0 ==> WeekDayOf(t) == 4
    ensures WeekDayOf(t + 7) == WeekDayOf(t)
  {
  }

  /** The Date class: three public int fields, updated in place by makeFromTimestamp and the compound assignments. */
  class Date {
    var year: int
    var month: int
    var day: int

    function Value(): Ymd
      reads this
    {
      Ymd(year, month, day)
    }

    /** Date(int year, int month = 1, int day = 1) */
    constructor (year: int, month: int := 1, day: int := 1)
      ensures Value() == Ymd(year, month, day)
    {
      this.year := year;
      this.month := month;
      this.day := day;
    }

    /** daysFromEpoch: the two counting loops. */
    method DaysFromEpoch() returns (cnt: int)
      requires month <= 13
      ensures cnt == Days(Value())
    {
      cnt := YearsFromEpoch();
      var months := MonthsFromNewYear();
      cnt := cnt + months + day - 1;
    }

    /** daysFromEpoch's first loop: the days of the years 1970 .. year - 1. */
    method YearsFromEpoch() returns (cnt: int)
      ensures cnt == DaysBeforeYear(year)
    {
      cnt := 0;
      var y := 1970;
      while y < year
        invariant 1970 <= y && (y <= year || y == 1970)
        invariant cnt == DaysBeforeYear(y)
      {
        assert DaysBeforeYear(y + 1) == DaysBeforeYear(y) + DaysInYear(y);
        cnt := cnt + DaysInYear(y);
        y := y + 1;
      }
    }

    /** daysFromEpoch's second loop: the days of the months 1 .. month - 1 of year. */
    method MonthsFromNewYear() returns (cnt: int)
      requires month <= 13
      ensures cnt == DaysBeforeMonth(year, month)
    {
      cnt := 0;
      var m := 1;
      while m < month
        invariant 1 <= m <= 13 && (m <= month || m == 1)
        invariant cnt == DaysBeforeMonth(year, m)
      {
        assert DaysBeforeMonth(year, m + 1) == DaysBeforeMonth(year, m) + DaysInMonth(year, m);
        cnt := cnt + DaysInMonth(year, m);
        m := m + 1;
      }
    }

    /** makeFromTimestamp: start at 1970/1/1, strip years, then months, and add what is left to the day. */
    method MakeFromTimestamp(timestamp: int)
      modifies this
      ensures Value() == FromTimestamp(timestamp)
    {
      year := 1970;
      month := 1;
      day := 1;
      var rest := StripYears(timestamp);
      var t := StripMonths(rest);
      FromSplits(timestamp, year, rest, month, t);
      day := day + t;
    }

    /** makeFromTimestamp's first loop: advance year past every whole year of t. */
    method StripYears(timestamp: int) returns (t: int)
      requires year == 1970 && month == 1 && day == 1
      modifies this
      ensures (year, t) == SplitYears(1970, timestamp)
      ensures month == 1 && day == 1
    {
      t := timestamp;
      while t >= DaysInYear(year)
        invariant year >= 1970 && month == 1 && day == 1
        invariant SplitYears(year, t) == SplitYears(1970, timestamp)
        decreases t
      {
        t := t - DaysInYear(year);
        year := year + 1;
      }
    }

    /** makeFromTimestamp's second loop: advance month past every whole month of what is left. */
    method StripMonths(rest: int) returns (t: int)
      requires month == 1 && rest < DaysInYear(year)
      modifies this
      ensures rest < DaysFromMonth(year, 1) && (month, t) == SplitMonths(year, 1, rest)
      ensures year == old(year) && day == old(day)
    {
      MonthsFillYear(year, 1);
      t := rest;
      while t >= DaysInMonth(year, month)
        invariant year == old(year) && day == old(day)
        invariant 1 <= month <= 12 && t < DaysFromMonth(year, month)
        invariant SplitMonths(year, month, t) == SplitMonths(year, 1, rest)
        decreases 13 - month
      {
        t := t - DaysInMonth(year, month);
        month := month + 1;
      }
    }

    method WeekDay() returns (w: int)
      requires month <= 13
      ensures w == WeekDayOf(Days(Value()))
      ensures Valid(Value()) ==> 0 <= w <= 6
    {
      var cnt := DaysFromEpoch();
      w := TruncRem(4 + cnt, 7);
      if Valid(Value()) {
        DaysNonNegative(Value());
      }
    }

    /** operator-(const Date&): the difference of the two day counts. */
    method Difference(rhs: Date) returns (diff: int)
      requires month <= 13 && rhs.month <= 13
      ensures diff == Days(Value()) - Days(rhs.Value())
    {
      var l := DaysFromEpoch();
      var r := rhs.DaysFromEpoch();
      diff := l - r;
    }

    /** operator+(int): a copy rebuilt from this date's count plus duration. */
    method Plus(duration: int) returns (r: Date)
      requires month <= 13
      ensures fresh(r) && r.Value() == FromTimestamp(Days(Value()) + duration)
    {
      r := new Date(year, month, day);
      var cnt := DaysFromEpoch();
      r.MakeFromTimestamp(cnt + duration);
    }

    /** operator-(int): *this + -duration. */
    method Minus(duration: int) returns (r: Date)
      requires month <= 13
      ensures fresh(r) && r.Value() == FromTimestamp(Days(Value()) - duration)
    {
      r := Plus(-duration);
    }

    /** operator+=: *this = *this + duration, returning *this. */
    method PlusAssign(duration: int) returns (self: Date)
      requires month <= 13
      modifies this
      ensures self == this && Value() == FromTimestamp(old(Days(Value())) + duration)
    {
      var r := Plus(duration);
      year, month, day := r.year, r.month, r.day;
      self := this;
    }

    /** operator-=: *this = *this - duration, returning *this. */
    method MinusAssign(duration: int) returns (self: Date)
      requires month <= 13
      modifies this
      ensures self == this && Value() == FromTimestamp(old(Days(Value())) - duration)
    {
      var r := Minus(duration);
      year, month, day := r.year, r.month, r.day;
      self := this;
    }
  }

  /** operator+(int, const Date&): base + duration. */
  method PlusDate(duration: int, base: Date) returns (r: Date)
    requires base.month <= 13
    ensures fresh(r) && r.Value() == FromTimestamp(Days(base.Value()) + duration)
  {
    r := base.Plus(duration);
  }

  /** `a += n` on a valid date that stays on or after the epoch: a stays valid and counts n more days. */
  method AdvanceBy(a: Date, n: int) returns (self: Date)
    requires Valid(a.Value()) && Days(a.Value()) + n >= 0
    modifies a
    ensures self == a && Valid(a.Value()) && Days(a.Value()) == old(Days(a.Value())) + n
  {
    ghost var t := Days(a.Value()) + n;
    self := a.PlusAssign(n);
    FromTimestampCorrect(t);
  }

  /** `a -= n` on a valid date that stays on or after the epoch: a stays valid and counts n fewer days. */
  method RetreatBy(a: Date, n: int) returns (self: Date)
    requires Valid(a.Value()) && Days(a.Value()) - n >= 0
    modifies a
    ensures self == a && Valid(a.Value()) && Days(a.Value()) == old(Days(a.Value())) - n
  {
    ghost var t := Days(a.Value()) - n;
    self := a.MinusAssign(n);
    FromTimestampCorrect(t);
  }

  /** The driver's `a += 100; a -= 50; (a -= 25) -= 25;`: the chained -= acts on a itself, which ends where it began. */
  method ChainedAssignments(a: Date)
    requires Valid(a.Value())
    modifies a
    ensures a.Value() == old(a.Value())
  {
    ghost var start := a.Value();
    DaysNonNegative(start);
    var r := AdvanceBy(a, 100);
    r := RetreatBy(a, 50);
    r := RetreatBy(a, 25);
    r := RetreatBy(r, 25);
    DaysInjective(a.Value(), start);
  }
}
