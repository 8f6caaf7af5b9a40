/** Expiry dates six calendar months ahead, clamped to the end of the target month. */
module Calendar {
  import opened Common

  datatype Date = Date(year: int, month: int, day: int)

  const MAX_YEAR := 9999

  predicate IsLeap(year: int) {
    year % 4 == 0 && (year % 100 != 0 || year % 400 == 0)
  }

  function MonthLength(year: int, month: int): (n: int)
    requires 1 <= month <= 12
    ensures 28 <= n <= 31
  {
    if month == 2 then (if IsLeap(year) then 29 else 28)
    else if month == 4 || month == 6 || month == 9 || month == 11 then 30
    else 31
  }

  predicate Valid(d: Date) {
    1 <= d.year <= MAX_YEAR && 1 <= d.month <= 12 && 1 <= d.day <= MonthLength(d.year, d.month)
  }

  /** The month `n` months after a date's month, with the day cut to fit it. */
  function Shifted(d: Date, n: nat): Date
    requires Valid(d)
  {
    var index := d.month - 1 + n;
    var year, month := d.year + index / 12, index % 12 + 1;
    Date(year, month, Min(d.day, MonthLength(year, month)))
  }

  /** `_add_six_months`; `None` is the ValueError for a year past the calendar's end. */
  function AddSixMonths(d: Date): Option<Date>
    requires Valid(d)
  {
    var r := Shifted(d, 6);
    if r.year > MAX_YEAR then None else Some(r)
  }

  lemma AddSixMonthsIsValid(d: Date)
    requires Valid(d)
    ensures AddSixMonths(d).None? <==> d.year == MAX_YEAR && d.month >= 7
    ensures AddSixMonths(d).Some? ==> Valid(AddSixMonths(d).value)
  {
  }

  /** Half a year on is six months on in the calendar, on the same day or, where that month is too short
      for it, on its last; and nothing else is. */
  lemma SixMonthsExactly(d: Date, e: Date)
    requires Valid(d) && Valid(e)
    ensures AddSixMonths(d) == Some(e) <==>
            && 12 * e.year + e.month == 12 * d.year + d.month + 6
            && e.day <= d.day
            && (e.day < d.day ==> !Valid(Date(e.year, e.month, e.day + 1)))
  {
  }

  // ---------------------------------------------------------------- day numbers

  function DaysBeforeYear(year: int): int {
    (year - 1) * 365 + (year - 1) / 4 - (year - 1) / 100 + (year - 1) / 400
  }

  function DaysBeforeMonth(year: int, month: int): (n: int)
    requires 1 <= month <= 13
    decreases month
  {
    if month == 1 then 0 else DaysBeforeMonth(year, month - 1) + MonthLength(year, month - 1)
  }

  /** The proleptic Gregorian ordinal: 1 January of year 1 is day 1. */
  function Ordinal(d: Date): int
    requires 1 <= d.month <= 12
  {
    DaysBeforeYear(d.year) + DaysBeforeMonth(d.year, d.month) + d.day
  }

  lemma LeapDay(m: int)
    ensures (m + 1) / 4 - (m + 1) / 100 + (m + 1) / 400 ==
            m / 4 - m / 100 + m / 400 + (if IsLeap(m + 1) then 1 else 0)
  {
    NextQuotient(m, 4);
    NextQuotient(m, 100);
    NextQuotient(m, 400);
  }

  lemma NextQuotient(m: int, k: int)
    requires k == 4 || k == 100 || k == 400
    ensures (m + 1) / k == m / k + (if (m + 1) % k == 0 then 1 else 0)
  {
  }

  lemma YearLength(year: int)
    ensures DaysBeforeYear(year + 1) == DaysBeforeYear(year) + (if IsLeap(year) then 366 else 365)
  {
    LeapDay(year - 1);
  }

  /** The running totals of the twelve month lengths. */
  function MonthStart(month: int, leap: int): int
    requires 1 <= month <= 13
  {
    match month
    case 1 => 0
    case 2 => 31
    case 3 => 59 + leap
    case 4 => 90 + leap
    case 5 => 120 + leap
    case 6 => 151 + leap
    case 7 => 181 + leap
    case 8 => 212 + leap
    case 9 => 243 + leap
    case 10 => 273 + leap
    case 11 => 304 + leap
    case 12 => 334 + leap
    case _ => 365 + leap
  }

  function LeapDays(year: int): int {
    if IsLeap(year) then 1 else 0
  }

  lemma {:induction false} MonthStarts(year: int, month: int)
    requires 1 <= month <= 13
    ensures DaysBeforeMonth(year, month) == MonthStart(month, LeapDays(year))
    decreases month
  {
    if month > 1 {
      MonthStarts(year, month - 1);
    }
  }

  lemma OrdinalForm(d: Date)
    requires 1 <= d.month <= 12
    ensures Ordinal(d) == DaysBeforeYear(d.year) + MonthStart(d.month, LeapDays(d.year)) + d.day
  {
    MonthStarts(d.year, d.month);
  }

  /** A date lies within its own year, and months do not overlap. */
  lemma MonthsDoNotOverlap(leap: int, m: int, n: int)
    requires 0 <= leap <= 1 && 1 <= m <= 12 && 1 <= n <= 13
    ensures m < n ==> MonthStart(m, leap) + LengthIn(m, leap) <= MonthStart(n, leap)
    ensures 0 <= MonthStart(m, leap) && MonthStart(m, leap) + LengthIn(m, leap) <= 365 + leap
  {
  }

  function LengthIn(month: int, leap: int): int
    requires 1 <= month <= 12
  {
    MonthStart(month + 1, leap) - MonthStart(month, leap)
  }

  lemma LengthInIsMonthLength(year: int, month: int)
    requires 1 <= month <= 12
    ensures LengthIn(month, LeapDays(year)) == MonthLength(year, month)
  {
  }

  /** Year, then month, then day. */
  predicate Before(a: Date, b: Date) {
    a.year < b.year || (a.year == b.year && (a.month < b.month || (a.month == b.month && a.day < b.day)))
  }

  lemma {:induction false} YearsAdd(year: int, later: int)
    requires year < later
    ensures DaysBeforeYear(year) + (if IsLeap(year) then 366 else 365) <= DaysBeforeYear(later)
    decreases later - year
  {
    YearLength(year);
    if year + 1 < later {
      YearsAdd(year + 1, later);
    }
  }

  /** Day numbers order dates exactly as the calendar does. */
  lemma OrdinalOrder(a: Date, b: Date)
    requires Valid(a) && Valid(b)
    ensures Before(a, b) <==> Ordinal(a) < Ordinal(b)
    ensures Ordinal(Date(1, 1, 1)) == 1
  {
    if Before(a, b) {
      EarlierHasSmallerOrdinal(a, b);
    } else if a != b {
      EarlierHasSmallerOrdinal(b, a);
    }
  }

  lemma EarlierHasSmallerOrdinal(a: Date, b: Date)
    requires Valid(a) && Valid(b) && Before(a, b)
    ensures Ordinal(a) < Ordinal(b)
  {
    OrdinalForm(a);
    OrdinalForm(b);
    LengthInIsMonthLength(a.year, a.month);
    MonthsDoNotOverlap(LeapDays(a.year), a.month, b.month);
    MonthsDoNotOverlap(LeapDays(b.year), b.month, b.month);
    if a.year < b.year {
      YearsAdd(a.year, b.year);
    }
  }

  // ---------------------------------------------------------------- what the addition promises

  /** The number of days moved, without reference to the year's own day number. */
  function Moved(d: Date): int
    requires Valid(d)
  {
    var e := Shifted(d, 6);
    (if d.month <= 6 then 0 else 365 + LeapDays(d.year))
    + MonthStart(e.month, LeapDays(e.year)) - MonthStart(d.month, LeapDays(d.year)) + e.day - d.day
  }

  lemma DaysMoved(d: Date)
    requires Valid(d) && AddSixMonths(d).Some?
    ensures Ordinal(AddSixMonths(d).value) - Ordinal(d) == Moved(d)
  {
    var e := AddSixMonths(d).value;
    OrdinalForm(d);
    OrdinalForm(e);
    if d.month <= 6 {
      assert e.year == d.year;
    } else {
      assert e.year == d.year + 1;
      YearLength(d.year);
    }
  }

  lemma MovedInRange(d: Date)
    requires Valid(d)
    ensures 181 <= Moved(d) <= 184
  {
    assert IsLeap(d.year) ==> !IsLeap(d.year + 1);
    var e := Shifted(d, 6);
    LengthInIsMonthLength(e.year, e.month);
  }

  /** Between 181 and 184 days, never more and never fewer. */
  lemma SixMonthsInDays(d: Date)
    requires Valid(d) && AddSixMonths(d).Some?
    ensures 181 <= Ordinal(AddSixMonths(d).value) - Ordinal(d) <= 184
  {
    DaysMoved(d);
    MovedInRange(d);
  }

  /** Both bounds are attained. */
  lemma SixMonthsBoundsAttained()
    ensures Moved(Date(2022, 8, 31)) == 181 && Moved(Date(2023, 3, 1)) == 184
  {
    assert Shifted(Date(2022, 8, 31), 6) == Date(2023, 2, 28);
    assert Shifted(Date(2023, 3, 1), 6) == Date(2023, 9, 1);
  }

  /** Year, month and day half a year on. */
  lemma SixMonthsShape(d: Date)
    requires Valid(d)
    ensures
      var half := Shifted(d, 6);
      && half.year == (if d.month <= 6 then d.year else d.year + 1)
      && half.month == (if d.month <= 6 then d.month + 6 else d.month - 6)
      && half.day == Min(d.day, MonthLength(half.year, half.month))
  {
  }

  /** A later start never expires earlier. */
  lemma SixMonthsMonotone(a: Date, b: Date)
    requires Valid(a) && Valid(b) && Ordinal(a) <= Ordinal(b) && AddSixMonths(b).Some?
    ensures AddSixMonths(a).Some?
    ensures Ordinal(AddSixMonths(a).value) <= Ordinal(AddSixMonths(b).value)
  {
    assert !Before(b, a) by { OrdinalOrder(b, a); }
    LaterNotEarlier(a, b);
    AddSixMonthsIsValid(a);
    AddSixMonthsIsValid(b);
    OrdinalOrder(AddSixMonths(b).value, AddSixMonths(a).value);
  }

  lemma LaterNotEarlier(a: Date, b: Date)
    requires Valid(a) && Valid(b) && !Before(b, a) && AddSixMonths(b).Some?
    ensures AddSixMonths(a).Some? && !Before(AddSixMonths(b).value, AddSixMonths(a).value)
  {
    SixMonthsShape(a);
    SixMonthsShape(b);
  }

  /** Two different starts share an expiry exactly when they lie in one month and both days are cut
      to the end of the target month. */
  lemma SixMonthsCollide(a: Date, b: Date)
    requires Valid(a) && Valid(b) && Before(a, b) && AddSixMonths(b).Some?
    ensures AddSixMonths(a) == AddSixMonths(b) <==>
            a.year == b.year && a.month == b.month && a.day >= AddSixMonths(b).value.day
  {
    SixMonthsShape(a);
    SixMonthsShape(b);
    AddSixMonthsIsValid(a);
  }

  lemma SameMonthGap(a: Date, b: Date)
    requires a.year == b.year && a.month == b.month && 1 <= a.month <= 12
    ensures Ordinal(a) - Ordinal(b) == a.day - b.day
  {
  }

  lemma TwelveMonthsShape(d: Date)
    requires Valid(d)
    ensures Shifted(d, 12) == Date(d.year + 1, d.month, Min(d.day, MonthLength(d.year + 1, d.month)))
  {
  }

  lemma TwiceIsInTheSameMonth(d: Date)
    requires Valid(d) && d.year < MAX_YEAR
    ensures
      var mid := AddSixMonths(d).value;
      var end := AddSixMonths(mid).value;
      var year := Shifted(d, 12);
      && end.year == year.year == d.year + 1 && end.month == year.month == d.month
      && (end.day == year.day <==> d.day <= MonthLength(mid.year, mid.month) || year.day <= mid.day)
      && (d.day <= 28 ==> end.day == year.day)
      && 0 <= year.day - end.day <= 3
  {
    SixMonthsShape(d);
    TwelveMonthsShape(d);
    var mid := Shifted(d, 6);
    SixMonthsShape(mid);
    ClampTwice(d.day, MonthLength(mid.year, mid.month), MonthLength(d.year + 1, d.month));
  }

  lemma ClampTwice(day: int, middle: int, final: int)
    requires 28 <= middle && final <= 31
    ensures
      var end, year := Min(Min(day, middle), final), Min(day, final);
      && (end == year <==> day <= middle || year <= Min(day, middle))
      && (day <= 28 ==> end == year)
      && 0 <= year - end <= 3
  {
  }

  /** Adding six months twice is the clamped year shift exactly when the middle month did not cut
      the day below what the final month allows; always so up to day 28. */
  lemma TwiceIsAYear(d: Date)
    requires Valid(d) && d.year < MAX_YEAR
    ensures
      var mid := AddSixMonths(d).value;
      var end := AddSixMonths(mid).value;
      var year := Shifted(d, 12);
      && (end == year <==> d.day <= MonthLength(mid.year, mid.month) || year.day <= mid.day)
      && (d.day <= 28 ==> end == year)
      && 0 <= Ordinal(year) - Ordinal(end) <= 3
  {
    var mid := AddSixMonths(d).value;
    var end := AddSixMonths(mid).value;
    TwiceIsInTheSameMonth(d);
    SameMonthGap(Shifted(d, 12), end);
  }

  lemma TwiceCanFallThreeShort()
    ensures
      var d := Date(2022, 8, 31);
      Shifted(d, 12) == Date(2023, 8, 31) && AddSixMonths(AddSixMonths(d).value) == Some(Date(2023, 8, 28))
  {
    assert AddSixMonths(Date(2022, 8, 31)) == Some(Date(2023, 2, 28));
  }
}
