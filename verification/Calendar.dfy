/** Reporting dates (model_engine_v2.py): month arithmetic that keeps month ends, and the order of period keys. */
module Calendar {

  datatype Date = Date(year: int, month: int, day: int)

  predicate Leap(year: int) { year % 4 == 0 && (year % 100 != 0 || year % 400 == 0) }

  function LastDay(year: int, month: int): int
    requires 1 <= month <= 12
  {
    if month == 2 then (if Leap(year) then 29 else 28)
    else if month in {4, 6, 9, 11} then 30
    else 31
  }

  predicate Valid(d: Date) { 1 <= d.month <= 12 && 1 <= d.day <= LastDay(d.year, d.month) }

  predicate MonthEnd(d: Date)
    requires Valid(d)
  {
    d.day == LastDay(d.year, d.month)
  }

  predicate Earlier(a: Date, b: Date) {
    a.year < b.year || (a.year == b.year && (a.month < b.month || (a.month == b.month && a.day < b.day)))
  }

  /** A leap year: divisible by four, in a century year by four hundred. */
  lemma LastDays(year: int, month: int)
    requires 1 <= month <= 12
    ensures LastDay(year, month) == match month
            case 2 => (if year % 400 == 0 then 29 else if year % 100 == 0 then 28 else if year % 4 == 0 then 29 else 28)
            case 4 => 30 case 6 => 30 case 9 => 30 case 11 => 30 case _ => 31
  {
  }

  /** Days are numbered from one to the month's last, and dates are ordered as they follow each other. */
  lemma DatesAre(a: Date, b: Date)
    requires 1 <= a.month <= 12
    ensures Valid(a) <==> 0 < a.day < LastDay(a.year, a.month) + 1
    ensures Valid(a) && Valid(b) ==>
              (Earlier(a, b) <==> (a.year * 12 + a.month) * 31 + a.day < (b.year * 12 + b.month) * 31 + b.day)
  {
  }

  /** Months since year 0. */
  function MonthIndex(d: Date): int { d.year * 12 + (d.month - 1) }

  /** The last day of the month with this index. */
  function LastDayOf(index: int): int { LastDay(index / 12, index % 12 + 1) }

  /** `_shift_months`: a month end stays one, any other day is cut to the length of the month. */
  function Shift(d: Date, months: int): (r: Date)
    requires Valid(d)
    ensures Valid(r) && MonthIndex(r) == MonthIndex(d) + months
  {
    var index := MonthIndex(d) + months;
    var last := LastDayOf(index);
    Date(index / 12, index % 12 + 1, if MonthEnd(d) then last else if d.day < last then d.day else last)
  }

  /**
   Shifting by a and then by b is shifting by a+b exactly when the date is a month end, or its day exists before
   the end of the middle month, or the final month is no longer than its day.
   */
  lemma ShiftComposes(d: Date, a: int, b: int)
    requires Valid(d)
    ensures Shift(Shift(d, a), b) == Shift(d, a + b)
            <==> MonthEnd(d) || d.day < LastDayOf(MonthIndex(d) + a) || d.day >= LastDayOf(MonthIndex(d) + a + b)
  {}

  /** A month end comes back when shifted there and back. */
  lemma MonthEndReturns(d: Date, months: int)
    requires Valid(d) && MonthEnd(d)
    ensures MonthEnd(Shift(d, months)) && Shift(Shift(d, months), -months) == d
  {
    hide LastDay;
    ShiftComposes(d, months, -months);
    var r := Shift(d, months);
    assert r.day == LastDay(r.year, r.month);
    assert MonthIndex(d) / 12 == d.year && MonthIndex(d) % 12 == d.month - 1;
  }

  /** Other days need not: 30 January one month on is the end of February, and one month back from there the 31st. */
  lemma ThirtiethOfJanuary()
    ensures Shift(Shift(Date(2023, 1, 30), 1), -1) == Date(2023, 1, 31)
  {}

  /** Every supported shape of reporting key. */
  datatype PeriodKey = FiscalYear(year: int) | Quarter(q: int, year: int) | YearToDate(q: int, year: int) | LastTwelve(date: Date) | IsoDate(date: Date)

  predicate ValidKey(k: PeriodKey) {
    match k
    case FiscalYear(_) => true
    case Quarter(q, _) => 1 <= q <= 4
    case YearToDate(q, _) => 1 <= q <= 4
    case LastTwelve(d) => Valid(d)
    case IsoDate(d) => Valid(d)
  }

  function QuarterEnd(q: int, year: int): (d: Date)
    requires 1 <= q <= 4
    ensures Valid(d) && MonthEnd(d)
  {
    Date(year, 3 * q, [31, 30, 30, 31][q - 1])
  }

  /** The date half of `_period_order_key`. */
  function Effective(k: PeriodKey): (d: Date)
    requires ValidKey(k)
    ensures Valid(d)
  {
    match k
    case FiscalYear(y) => Date(y, 12, 31)
    case Quarter(q, y) => QuarterEnd(q, y)
    case YearToDate(q, y) => QuarterEnd(q, y)
    case LastTwelve(d) => d
    case IsoDate(d) => d
  }

  /** `prior` is the reporting date exactly `months` before `current`. */
  predicate Contiguous(prior: Date, current: Date, months: int)
    requires Valid(current)
  {
    Earlier(prior, current) && prior == Shift(current, -months)
  }

  /** The same day in another month, or the last one where that month is shorter; and a month end for a month end. */
  predicate SameDay(a: Date, b: Date)
    requires Valid(a) && Valid(b)
  {
    if MonthEnd(b) then MonthEnd(a) else a.day == b.day || (MonthEnd(a) && a.day < b.day)
  }

  /** Two dates are contiguous over a length exactly when so many months lie between them and the day is the same. */
  lemma ContiguousIff(a: Date, b: Date, months: int)
    requires Valid(a) && Valid(b) && months >= 1
    ensures Contiguous(a, b, months) <==> MonthIndex(b) == MonthIndex(a) + months && SameDay(a, b)
  {
    var r := Shift(b, -months);
    SameMonth(a, r);
  }

  lemma SameMonth(a: Date, b: Date)
    requires Valid(a) && Valid(b)
    ensures MonthIndex(a) == MonthIndex(b) <==> a.year == b.year && a.month == b.month
  {
    assert MonthIndex(a) / 12 == a.year && MonthIndex(b) / 12 == b.year;
  }

  /** For month ends nothing but the months counts. */
  lemma MonthEndsContiguous(a: Date, b: Date, months: int)
    requires Valid(a) && Valid(b) && MonthEnd(a) && MonthEnd(b) && months >= 1
    ensures Contiguous(a, b, months) <==> MonthIndex(b) == MonthIndex(a) + months
  {
    ContiguousIff(a, b, months);
  }

  function Sum(months: seq<int>): int { if months == [] then 0 else months[0] + Sum(months[1..]) }

  /** A chain of contiguous reporting dates that ends on a month end covers the sum of its lengths. */
  lemma {:induction false} ContiguousChain(dates: seq<Date>, months: seq<int>)
    requires |dates| == |months| + 1 && (forall i | 0 <= i < |dates| :: Valid(dates[i])) && MonthEnd(dates[|dates| - 1])
    requires forall i | 0 <= i < |months| :: Contiguous(dates[i], dates[i + 1], months[i])
    ensures MonthEnd(dates[0]) && Shift(dates[0], Sum(months)) == dates[|dates| - 1]
    ensures dates[0] == Shift(dates[|dates| - 1], -Sum(months))
  {
    hide LastDay, Shift, MonthEnd, Earlier;
    var last := dates[|dates| - 1];
    if months == [] {
      MonthEndShift(last, 0, 0);
    } else {
      var rest := dates[1..];
      assert rest[|rest| - 1] == last && rest[0] == dates[1];
      assert forall i | 0 <= i < |rest| :: rest[i] == dates[i + 1];
      assert forall i | 0 <= i < |months[1..]| :: Contiguous(rest[i], rest[i + 1], months[1..][i]) by {
        forall i | 0 <= i < |months[1..]| ensures Contiguous(rest[i], rest[i + 1], months[1..][i]) {
          assert Contiguous(dates[i + 1], dates[i + 2], months[i + 1]);
        }
      }
      ContiguousChain(rest, months[1..]);
      assert Contiguous(dates[0], dates[1], months[0]);
      MonthEndShift(last, -Sum(months[1..]), -months[0]);
      assert -Sum(months[1..]) - months[0] == -Sum(months);
      MonthEndReturns(last, -Sum(months));
    }
  }

  lemma MonthEndShift(d: Date, a: int, b: int)
    requires Valid(d) && MonthEnd(d)
    ensures Shift(Shift(d, a), b) == Shift(d, a + b) && MonthEnd(Shift(d, a + b)) && Shift(d, 0) == d
  {
    ShiftComposes(d, a, b);
    MonthEndReturns(d, a + b);
    assert MonthIndex(d) / 12 == d.year && MonthIndex(d) % 12 == d.month - 1;
  }
}
