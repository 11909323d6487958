/**
 * Proleptic Gregorian civil dates (internal/report/period.go) and the
 * closed-form day number of the report scheduler
 * (internal/businessreports/schedule.go).
 *
 * The reference for all of it is NextDay, the calendar's successor: AddDays is
 * iterated NextDay, and DayNumber is the one function that is 0 on 0000-03-01
 * and grows by one at every NextDay.
 */
module Calendar {
  import opened Text
  import opened Wrappers

  datatype CivilDate = CivilDate(year: int, month: int, day: int)

  predicate IsLeap(year: int) {
    year % 4 == 0 && (year % 100 != 0 || year % 400 == 0)
  }

  function DaysInMonth(year: int, month: int): nat
    requires 1 <= month <= 12
  {
    if month == 2 then (if IsLeap(year) then 29 else 28)
    else if month == 4 || month == 6 || month == 9 || month == 11 then 30
    else 31
  }

  /** A date that exists in the calendar. */
  predicate Real(d: CivilDate) {
    1 <= d.month <= 12 && 1 <= d.day <= DaysInMonth(d.year, d.month)
  }

  /** The years that YYYY-MM-DD can spell. */
  predicate FourDigit(d: CivilDate) {
    0 <= d.year <= 9999
  }

  function NextDay(d: CivilDate): (n: CivilDate)
    requires Real(d)
    ensures Real(n)
  {
    if d.day < DaysInMonth(d.year, d.month) then d.(day := d.day + 1)
    else if d.month < 12 then CivilDate(d.year, d.month + 1, 1)
    else CivilDate(d.year + 1, 1, 1)
  }

  function PreviousDay(d: CivilDate): (p: CivilDate)
    requires Real(d)
    ensures Real(p) && NextDay(p) == d
  {
    if d.day > 1 then d.(day := d.day - 1)
    else if d.month > 1 then CivilDate(d.year, d.month - 1, DaysInMonth(d.year, d.month - 1))
    else CivilDate(d.year - 1, 12, 31)
  }

  /** Whole calendar days, forwards or backwards. */
  function AddDays(d: CivilDate, n: int): (r: CivilDate)
    requires Real(d)
    ensures Real(r)
    decreases if n < 0 then -n else n
  {
    if n == 0 then d
    else if n > 0 then NextDay(AddDays(d, n - 1))
    else PreviousDay(AddDays(d, n + 1))
  }

  /** The three-way comparison of the scheduler: by year, then month, then day. */
  function CompareCivilDate(a: CivilDate, b: CivilDate): int {
    if a.year != b.year then (if a.year < b.year then -1 else 1)
    else if a.month != b.month then (if a.month < b.month then -1 else 1)
    else if a.day != b.day then (if a.day < b.day then -1 else 1)
    else 0
  }

  /** Go's integer division truncates toward zero. */
  function Quo(a: int, b: int): int
    requires b > 0
  {
    if a >= 0 then a / b else -((-a) / b)
  }

  /** The scheduler's closed form, with Go's division. */
  function DaysFromCivil(year: int, month: int, day: int): int
    requires 1 <= month <= 12 && day >= 1
  {
    var y := if month <= 2 then year - 1 else year;
    var era := Quo(y, 400);
    var yoe := y - era * 400;
    var mp := (month + 9) % 12;
    var doy := (153 * mp + 2) / 5 + day - 1;
    var doe := yoe * 365 + Quo(yoe, 4) - Quo(yoe, 100) + doy;
    era * 146097 + doe
  }

  function CivilDayDifference(a: CivilDate, b: CivilDate): int
    requires Real(a) && Real(b)
  {
    DaysFromCivil(b.year, b.month, b.day) - DaysFromCivil(a.year, a.month, a.day)
  }

  // ---- The reference day number ----

  const EPOCH := CivilDate(0, 3, 1)

  /** Years counted from March, so that a leap day ends its year. */
  function MarchYear(d: CivilDate): int {
    if d.month <= 2 then d.year - 1 else d.year
  }

  /** Days from 1 March of year 0 to 1 March of year y. */
  function DaysBeforeMarchYear(y: int): int {
    365 * y + y / 4 - y / 100 + y / 400
  }

  /** Days from 1 March to the first of the month. */
  function DaysBeforeMonth(month: int): int
    requires 1 <= month <= 12
  {
    (153 * ((month + 9) % 12) + 2) / 5
  }

  function DayNumber(d: CivilDate): int
    requires Real(d)
  {
    DaysBeforeMarchYear(MarchYear(d)) + DaysBeforeMonth(d.month) + d.day - 1
  }

  lemma Quarters(y: int)
    ensures (y + 1) / 4 - y / 4 == if (y + 1) % 4 == 0 then 1 else 0
  {
  }

  lemma Centuries(y: int)
    ensures (y + 1) / 100 - y / 100 == if (y + 1) % 100 == 0 then 1 else 0
    ensures (y + 1) % 100 == 0 ==> (y + 1) % 4 == 0
  {
    if (y + 1) % 100 == 0 {
      assert y + 1 == 4 * (25 * ((y + 1) / 100));
    }
  }

  lemma Eras(y: int)
    ensures (y + 1) / 400 - y / 400 == if (y + 1) % 400 == 0 then 1 else 0
    ensures (y + 1) % 400 == 0 ==> (y + 1) % 100 == 0
  {
    if (y + 1) % 400 == 0 {
      assert y + 1 == 100 * (4 * ((y + 1) / 400));
    }
  }

  lemma MarchYearLength(y: int)
    ensures DaysBeforeMarchYear(y + 1) - DaysBeforeMarchYear(y) == (if IsLeap(y + 1) then 366 else 365)
  {
    Quarters(y);
    Centuries(y);
    Eras(y);
  }

  /** A month other than February is followed by the next one in the same March year. */
  lemma MonthLength(year: int, month: int)
    requires 1 <= month <= 12 && month != 2
    ensures DaysBeforeMonth(month) + DaysInMonth(year, month) == DaysBeforeMonth(if month == 12 then 1 else month + 1)
  {
  }

  lemma DayNumberNext(d: CivilDate)
    requires Real(d)
    ensures DayNumber(NextDay(d)) == DayNumber(d) + 1
  {
    if d.day == DaysInMonth(d.year, d.month) {
      if d.month == 2 {
        assert DaysBeforeMonth(2) == 337 && DaysBeforeMonth(3) == 0;
        MarchYearLength(d.year - 1);
      } else {
        MonthLength(d.year, d.month);
        assert MarchYear(NextDay(d)) == MarchYear(d);
      }
    }
  }

  /** The day number counts days: moving by n days moves it by n. */
  lemma {:induction false} DayNumberAddDays(d: CivilDate, n: int)
    requires Real(d)
    ensures DayNumber(AddDays(d, n)) == DayNumber(d) + n
    decreases if n < 0 then -n else n
  {
    if n > 0 {
      DayNumberAddDays(d, n - 1);
      DayNumberNext(AddDays(d, n - 1));
    } else if n < 0 {
      DayNumberAddDays(d, n + 1);
      DayNumberNext(AddDays(d, n));
    }
  }

  lemma MarchYearMonotone(y: int, z: int)
    requires y < z
    ensures DaysBeforeMarchYear(y) + (if IsLeap(y + 1) then 366 else 365) <= DaysBeforeMarchYear(z)
    decreases z - y
  {
    MarchYearLength(y);
    if y + 1 < z {
      MarchYearMonotone(y + 1, z);
    }
  }

  lemma DayOfMarchYear(d: CivilDate)
    requires Real(d)
    ensures 0 <= DaysBeforeMonth(d.month) + d.day - 1 < (if IsLeap(MarchYear(d) + 1) then 366 else 365)
  {
  }

  lemma EarlierIsSmaller(a: CivilDate, b: CivilDate)
    requires Real(a) && Real(b) && CompareCivilDate(a, b) < 0
    ensures DayNumber(a) < DayNumber(b)
  {
    if MarchYear(a) < MarchYear(b) {
      hide IsLeap, DaysBeforeMonth, DaysBeforeMarchYear, DaysInMonth;
      MarchYearMonotone(MarchYear(a), MarchYear(b));
      DayOfMarchYear(a);
      DayOfMarchYear(b);
    } else {
      hide DaysBeforeMarchYear;
      EarlierInYear(a, b);
    }
  }

  lemma EarlierInYear(a: CivilDate, b: CivilDate)
    requires Real(a) && Real(b) && CompareCivilDate(a, b) < 0 && MarchYear(a) >= MarchYear(b)
    ensures MarchYear(a) == MarchYear(b) && DaysBeforeMonth(a.month) + a.day < DaysBeforeMonth(b.month) + b.day
  {
  }

  lemma CompareIsAntisymmetric(a: CivilDate, b: CivilDate)
    ensures CompareCivilDate(a, b) == -CompareCivilDate(b, a)
    ensures CompareCivilDate(a, b) == 0 <==> a == b
  {
  }

  /** Comparing dates and comparing day numbers are the same order. */
  lemma CompareIsDayOrder(a: CivilDate, b: CivilDate)
    requires Real(a) && Real(b)
    ensures CompareCivilDate(a, b) < 0 <==> DayNumber(a) < DayNumber(b)
    ensures CompareCivilDate(a, b) == 0 <==> DayNumber(a) == DayNumber(b)
    ensures DayNumber(a) == DayNumber(b) <==> a == b
  {
    CompareIsAntisymmetric(a, b);
    if CompareCivilDate(a, b) < 0 {
      EarlierIsSmaller(a, b);
    } else if CompareCivilDate(b, a) < 0 {
      EarlierIsSmaller(b, a);
    }
  }

  lemma EpochIsZero()
    ensures Real(EPOCH) && DayNumber(EPOCH) == 0
  {
  }

  /** The date with a given day number. */
  function DateOf(n: int): (d: CivilDate)
    ensures Real(d) && DayNumber(d) == n
  {
    EpochIsZero();
    DayNumberAddDays(EPOCH, n);
    AddDays(EPOCH, n)
  }

  lemma DateOfDayNumber(d: CivilDate)
    requires Real(d)
    ensures DateOf(DayNumber(d)) == d
  {
    hide DayNumber, Real, DateOf, CompareCivilDate;
    CompareIsDayOrder(DateOf(DayNumber(d)), d);
  }

  lemma AddDaysIsDateOf(d: CivilDate, n: int)
    requires Real(d)
    ensures AddDays(d, n) == DateOf(DayNumber(d) + n)
  {
    hide DayNumber, Real, AddDays, DateOf;
    DayNumberAddDays(d, n);
    DateOfDayNumber(AddDays(d, n));
  }

  // ---- The closed form against the reference ----

  /** What year 0 loses: before March its shifted year is -1 and -1 / 400 is 0, not -1. */
  predicate BeforeEpoch(d: CivilDate) {
    d.year == 0 && d.month <= 2
  }

  lemma YearOfEra(y: int)
    requires y >= 0
    ensures var era := y / 400; var yoe := y - era * 400;
            era * 146097 + yoe * 365 + yoe / 4 - yoe / 100 == DaysBeforeMarchYear(y)
  {
    var era := y / 400;
    var yoe := y % 400;
    assert y == 400 * era + yoe;
    assert y / 4 == 100 * era + yoe / 4;
    assert y / 100 == 4 * era + yoe / 100;
  }

  /**
   * For every date of a non-negative year the closed form is the day number,
   * except in January and February of year 0, where it is one too large.
   */
  lemma ClosedFormIsDayNumber(d: CivilDate)
    requires Real(d) && d.year >= 0
    ensures DaysFromCivil(d.year, d.month, d.day) == DayNumber(d) + (if BeforeEpoch(d) then 1 else 0)
  {
    if !BeforeEpoch(d) {
      YearOfEra(MarchYear(d));
    }
  }

  /** The difference of two dates is their distance in days exactly when both lie on the same side of 0000-03-01. */
  lemma DifferenceIsExactIff(a: CivilDate, b: CivilDate)
    requires Real(a) && Real(b) && a.year >= 0 && b.year >= 0
    ensures AddDays(a, CivilDayDifference(a, b)) == b <==> BeforeEpoch(a) == BeforeEpoch(b)
  {
    var n := CivilDayDifference(a, b);
    ClosedFormIsDayNumber(a);
    ClosedFormIsDayNumber(b);
    DayNumberAddDays(a, n);
    CompareIsDayOrder(AddDays(a, n), b);
  }

  /** The leap day of year 0 and the day after it have the same closed-form number. */
  lemma LeapDayOfYearZeroIsLost()
    ensures Real(CivilDate(0, 2, 29)) && NextDay(CivilDate(0, 2, 29)) == EPOCH
    ensures CivilDayDifference(CivilDate(0, 2, 29), EPOCH) == 0
  {
  }

  // ---- YYYY-MM-DD ----

  /** Go's "2006": at least four digits, a leading minus sign for negative years. */
  function YearText(year: int): string {
    if 0 <= year <= 9999 then Pad4(year)
    else if year > 9999 then Decimal(year)
    else if year >= -9999 then "-" + Pad4(-year)
    else "-" + Decimal(-year)
  }

  function Format(d: CivilDate): string
    requires Real(d)
  {
    YearText(d.year) + "-" + Pad2(d.month) + "-" + Pad2(d.day)
  }

  /** The pattern ^\d{4}-\d{2}-\d{2}$. */
  predicate DateShape(s: string) {
    && |s| == 10 && s[4] == '-' && s[7] == '-'
    && forall i | 0 <= i < 10 && i != 4 && i != 7 :: IsDigit(s[i])
  }

  function FieldsOf(s: string): CivilDate
    requires DateShape(s)
  {
    CivilDate(1000 * DigitValue(s[0]) + 100 * DigitValue(s[1]) + 10 * DigitValue(s[2]) + DigitValue(s[3]),
              10 * DigitValue(s[5]) + DigitValue(s[6]),
              10 * DigitValue(s[8]) + DigitValue(s[9]))
  }

  /** Both parsers of the repository: the pattern, then a date that exists. */
  function ParseCivilDate(s: string): (r: Option<CivilDate>)
    ensures r.Some? ==> Real(r.value) && FourDigit(r.value)
  {
    if DateShape(s) && Real(FieldsOf(s)) then Some(FieldsOf(s)) else None
  }

  lemma DecimalIsLong(n: nat)
    requires n > 9999
    ensures |Decimal(n)| >= 5
  {
    assert |Decimal(n)| == 1 + |Decimal(n / 10)|;
    assert |Decimal(n / 10)| == 1 + |Decimal(n / 100)|;
    assert |Decimal(n / 100)| == 1 + |Decimal(n / 1000)|;
    assert |Decimal(n / 1000)| >= 2;
  }

  /** A date survives being written and read back exactly when its year has four digits. */
  lemma FormatParses(d: CivilDate)
    requires Real(d)
    ensures ParseCivilDate(Format(d)) == (if FourDigit(d) then Some(d) else None)
  {
    var s := Format(d);
    if FourDigit(d) {
      var y := d.year;
      assert s[0] == Digit(y / 100 / 10) && s[1] == Digit(y / 100 % 10);
      assert s[2] == Digit(y % 100 / 10) && s[3] == Digit(y % 100 % 10);
      assert s[5] == Digit(d.month / 10) && s[6] == Digit(d.month % 10);
      assert s[8] == Digit(d.day / 10) && s[9] == Digit(d.day % 10);
      assert FieldsOf(s) == d;
    } else if d.year > 9999 {
      DecimalIsLong(d.year);
      assert |s| > 10;
    } else if d.year < -9999 {
      DecimalIsLong(-d.year);
      assert |s| > 10;
    } else {
      assert |s| == 11;
    }
  }

  /** What parses is the text of the date it parses to. */
  lemma ParseFormats(s: string)
    requires ParseCivilDate(s).Some?
    ensures Format(ParseCivilDate(s).value) == s
  {
    var d := FieldsOf(s);
    var t := Format(d);
    assert d.year / 100 == 10 * DigitValue(s[0]) + DigitValue(s[1]);
    assert d.year % 100 == 10 * DigitValue(s[2]) + DigitValue(s[3]);
    assert forall c: char {:trigger DigitValue(c)} | IsDigit(c) :: Digit(DigitValue(c)) == c;
    assert t[0] == s[0] && t[1] == s[1] && t[2] == s[2] && t[3] == s[3];
    assert t[5] == s[5] && t[6] == s[6] && t[8] == s[8] && t[9] == s[9];
  }

  lemma EarlierTextIsEarlierDate(s: string, t: string, k: nat)
    requires DateShape(s) && DateShape(t)
    requires k < 10 && s[..k] == t[..k] && s[k] < t[k]
    ensures CompareCivilDate(FieldsOf(s), FieldsOf(t)) < 0
  {
    assert forall i | 0 <= i < k :: s[i] == s[..k][i] == t[..k][i] == t[i];
  }

  /** On four-digit dates the order of the texts is the order of the dates. */
  lemma TextOrderIsDateOrder(s: string, t: string)
    requires ParseCivilDate(s).Some? && ParseCivilDate(t).Some?
    ensures TextLess(s, t) <==> CompareCivilDate(ParseCivilDate(s).value, ParseCivilDate(t).value) < 0
  {
    if s == t {
      TextLessIrreflexive(s);
    } else {
      var k := FirstDifference(s, t);
      TextLessAt(s, t, k);
      CompareIsAntisymmetric(FieldsOf(s), FieldsOf(t));
      if s[k] < t[k] {
        EarlierTextIsEarlierDate(s, t, k);
      } else {
        EarlierTextIsEarlierDate(t, s, k);
      }
    }
  }
}
