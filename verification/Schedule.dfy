/**
 * Time zones, report slots and report periods
 * (internal/businessreports/schedule.go, internal/report/period.go and
 * periodCivilDates of internal/businessreports/runner.go).
 *
 * A slot or a date is handled by its day number (module Calendar); texts appear
 * where the code formats or parses them.
 */
module Schedule {
  import opened Wrappers
  import opened Calendar
  import opened Text

  const MINUTE := 60_000_000_000
  const HOUR := 60 * MINUTE
  const DAY := 24 * HOUR
  const MINUTES_PER_DAY := 1440
  const MAX_CUSTOM_RANGE_DAYS := 366

  /**
   * wall(t) is the day number on the local calendar at instant t; at(day, minute)
   * is the instant that time.Date gives for a local date and minute of the day.
   */
  datatype Zone = Zone(wall: int -> int, at: (int, int) -> int)

  predicate MidnightLands(z: Zone, day: int) {
    z.wall(z.at(day, 0)) == day
  }

  /**
   * What is assumed of a zone: its calendar never runs backwards; a wall time
   * resolves on its own date or, when it falls into a gap, possibly on the date
   * before; a midnight that resolves on its own date is the first instant of that
   * date; and gaps at midnight do not fall on consecutive dates.
   */
  ghost predicate ValidZone(z: Zone) {
    && (forall t, u {:trigger z.wall(t), z.wall(u)} | t <= u :: z.wall(t) <= z.wall(u))
    && (forall day, minute {:trigger z.at(day, minute)} | 0 <= minute < MINUTES_PER_DAY ::
          day - 1 <= z.wall(z.at(day, minute)) <= day)
    && (forall day, t {:trigger MidnightLands(z, day), z.wall(t)} | MidnightLands(z, day) && t < z.at(day, 0) ::
          z.wall(t) < day)
    && (forall day, next {:trigger MidnightLands(z, day), MidnightLands(z, next)} | next == day + 1 ::
          MidnightLands(z, day) || MidnightLands(z, next))
  }

  datatype ScheduleError =
    | InvalidDate | InvalidLocalTime | InvalidKind | NoFutureSlot
    | MissingDates | InvalidFromDate | InvalidToDate | ReversedDates | RangeTooLong

  // ---- The start of a local day ----

  /** The forward walk, minute by minute, up to an instant one day on. */
  function FirstMinuteOn(z: Zone, guess: int, day: int, limit: int): int
    decreases limit - guess
  {
    if guess >= limit then guess
    else if z.wall(guess + MINUTE) == day then guess + MINUTE
    else FirstMinuteOn(z, guess + MINUTE, day, limit)
  }

  function StartOfDay(z: Zone, day: int): int {
    var guess := z.at(day, 0);
    if z.wall(guess) == day then guess else FirstMinuteOn(z, guess, day, guess + DAY)
  }

  /** k minutes after the instant that midnight resolves to. */
  function AfterMidnight(z: Zone, day: int, k: int): int {
    z.at(day, 0) + k * MINUTE
  }

  ghost predicate IsFirstOf(z: Zone, t: int, day: int) {
    z.wall(t) == day && forall u | u < t :: z.wall(u) < day
  }

  /** Where the walk stops: at the first whole minute of the day, or a day after its start. */
  lemma {:induction false} WalkStops(z: Zone, day: int, i: nat) returns (k: nat)
    requires i < MINUTES_PER_DAY
    ensures i < k <= MINUTES_PER_DAY
    ensures FirstMinuteOn(z, AfterMidnight(z, day, i), day, z.at(day, 0) + DAY) == AfterMidnight(z, day, k)
    ensures forall j | i < j < k :: z.wall(AfterMidnight(z, day, j)) != day
    ensures k < MINUTES_PER_DAY ==> z.wall(AfterMidnight(z, day, k)) == day
    decreases MINUTES_PER_DAY - i
  {
    k := i + 1;
    if z.wall(AfterMidnight(z, day, k)) != day && k < MINUTES_PER_DAY {
      k := WalkStops(z, day, i + 1);
    }
  }

  /**
   * The start of a day is its first instant exactly when that instant lies a whole
   * number of minutes, at most a day, after the instant that midnight resolves to.
   * It lies on the day exactly when some such minute does, and then less than a
   * minute after the first instant.
   */
  lemma StartOfDayIsFirstIff(z: Zone, day: int)
    requires ValidZone(z)
    ensures IsFirstOf(z, StartOfDay(z, day), day) <==> exists k | 0 <= k <= MINUTES_PER_DAY ::
      IsFirstOf(z, AfterMidnight(z, day, k), day)
    ensures z.wall(StartOfDay(z, day)) == day <==> exists k | 0 <= k <= MINUTES_PER_DAY ::
      z.wall(AfterMidnight(z, day, k)) == day
    ensures z.wall(StartOfDay(z, day)) == day ==> forall u | u <= StartOfDay(z, day) - MINUTE :: z.wall(u) < day
  {
    var r := StartOfDay(z, day);
    if MidnightLands(z, day) {
      assert r == AfterMidnight(z, day, 0);
    } else {
      var k := WalkStops(z, day, 0);
      assert r == AfterMidnight(z, day, k) && AfterMidnight(z, day, 0) == z.at(day, 0);
      if z.wall(r) == day {
        assert z.wall(AfterMidnight(z, day, k - 1)) < day;
      }
    }
  }

  method StartOfLocalDay(t: int, z: Zone) returns (r: int)
    ensures r == StartOfDay(z, z.wall(t))
    ensures ValidZone(z) ==>
      (IsFirstOf(z, r, z.wall(t)) <==> exists k | 0 <= k <= MINUTES_PER_DAY ::
        IsFirstOf(z, AfterMidnight(z, z.wall(t), k), z.wall(t)))
  {
    var want := z.wall(t);
    if ValidZone(z) {
      StartOfDayIsFirstIff(z, want);
    }
    var guess := z.at(want, 0);
    if z.wall(guess) == want {
      return guess;
    }
    for i := 0 to MINUTES_PER_DAY
      invariant guess == z.at(want, 0) + i * MINUTE
      invariant FirstMinuteOn(z, guess, want, z.at(want, 0) + DAY) == StartOfDay(z, want)
    {
      guess := guess + MINUTE;
      if z.wall(guess) == want {
        return guess;
      }
    }
    return guess;
  }

  /** StartInstant of the date with day number n: the start of the day that its midnight resolved to. */
  function StartInstant(z: Zone, n: int): int {
    StartOfDay(z, z.wall(z.at(n, 0)))
  }

  /**
   * A date's start instant lies on that date exactly when its midnight resolves on
   * it, and then it is the date's first instant. A midnight resolved backwards
   * yields the start of the date before: the forward walk is never reached.
   */
  lemma StartInstantOnDateIff(z: Zone, n: int)
    requires ValidZone(z)
    ensures z.wall(StartInstant(z, n)) == n <==> MidnightLands(z, n)
    ensures MidnightLands(z, n) ==> forall t | t < StartInstant(z, n) :: z.wall(t) < n
    ensures !MidnightLands(z, n) ==> StartInstant(z, n) == StartInstant(z, n - 1) && z.wall(StartInstant(z, n)) == n - 1
  {
    assert n - 1 <= z.wall(z.at(n, 0)) <= n;
    if MidnightLands(z, n) {
      assert StartInstant(z, n) == z.at(n, 0);
    } else {
      assert MidnightLands(z, n - 1);
      assert StartInstant(z, n) == z.at(n - 1, 0) == StartInstant(z, n - 1);
    }
  }

  lemma StartInstantMonotone(z: Zone, n: int, m: int)
    requires ValidZone(z) && n <= m
    ensures StartInstant(z, n) <= StartInstant(z, m)
  {
    StartInstantOnDateIff(z, n);
    StartInstantOnDateIff(z, m);
    if n < m && z.wall(StartInstant(z, n)) < z.wall(StartInstant(z, m)) {
      assert StartInstant(z, n) < StartInstant(z, m);
    }
  }

  /**
   * Shortly after midnight of day 99 clocks go forward by an hour, into day 100,
   * and the missing hour resolves to the hour before it.
   */
  function WesternZone(late: int): Zone
    requires 0 <= late < HOUR
  {
    Zone(t => if t < 100 * DAY then t / DAY else if t < 100 * DAY + late then 99 else (t + HOUR) / DAY,
         (day, minute) => var local := day * DAY + minute * MINUTE;
                          if local < 100 * DAY then local else local - HOUR)
  }

  lemma WesternWall(late: int, day: int, minute: int)
    requires 0 <= late < HOUR && 0 <= minute < MINUTES_PER_DAY
    ensures var t := WesternZone(late).at(day, minute);
      WesternZone(late).wall(t) == if day == 100 && minute * MINUTE < HOUR + late then 99 else day
  {
    var local := day * DAY + minute * MINUTE;
    assert local / DAY == day;
    assert day < 100 ==> local < 100 * DAY;
    assert day > 100 ==> local >= 101 * DAY;
    assert day == 100 && minute < 60 ==> 99 * DAY <= local - HOUR < 100 * DAY;
  }

  lemma WesternWallMonotone(late: int, t: int, u: int)
    requires 0 <= late < HOUR && t <= u
    ensures WesternZone(late).wall(t) <= WesternZone(late).wall(u)
  {
    assert t / DAY <= u / DAY <= (u + HOUR) / DAY;
    assert t < 100 * DAY ==> t / DAY <= 99;
    assert u >= 100 * DAY ==> (u + HOUR) / DAY >= 100;
  }

  lemma WesternMidnightIsFirst(late: int, day: int, t: int)
    requires 0 <= late < HOUR && day != 100 && t < WesternZone(late).at(day, 0)
    ensures WesternZone(late).wall(t) < day
  {
    assert day < 100 ==> day * DAY <= 99 * DAY;
    assert day > 100 ==> day * DAY >= 101 * DAY;
    if t < 100 * DAY {
      assert t / DAY < 100;
      assert day < 100 ==> t < day * DAY;
    } else {
      assert t + HOUR < day * DAY;
    }
  }

  lemma WesternZoneIsValid(late: int)
    requires 0 <= late < HOUR
    ensures ValidZone(WesternZone(late))
  {
    hide WesternZone;
    var z := WesternZone(late);
    forall day, minute | 0 <= minute < MINUTES_PER_DAY
      ensures z.wall(z.at(day, minute)) == if day == 100 && minute * MINUTE < HOUR + late then 99 else day
    {
      WesternWall(late, day, minute);
    }
    forall t, u | t <= u ensures z.wall(t) <= z.wall(u) {
      WesternWallMonotone(late, t, u);
    }
    forall day, t | MidnightLands(z, day) && t < z.at(day, 0) ensures z.wall(t) < day {
      WesternMidnightIsFirst(late, day, t);
    }
  }

  /** In such a zone the period that should start on day 100 starts a day early. */
  lemma StartInstantCanBeADayEarly()
    ensures ValidZone(WesternZone(0))
    ensures StartInstant(WesternZone(0), 100) == 99 * DAY
    ensures WesternZone(0).wall(StartInstant(WesternZone(0), 100)) == 99
  {
    WesternZoneIsValid(0);
    WesternWall(0, 100, 0);
    WesternWall(0, 99, 0);
    StartInstantOnDateIff(WesternZone(0), 100);
  }

  const HALF_MINUTE := MINUTE / 2

  lemma HalfMinuteWall(k: nat)
    requires k < MINUTES_PER_DAY
    ensures var z := WesternZone(HALF_MINUTE); z.wall(AfterMidnight(z, 100, k)) == if k <= 60 then 99 else 100
    ensures AfterMidnight(WesternZone(HALF_MINUTE), 100, k) == 100 * DAY - HOUR + k * MINUTE
  {
    var t := 100 * DAY - HOUR + k * MINUTE;
    assert t < 100 * DAY ==> t / DAY == 99;
    assert t >= 100 * DAY ==> (t + HOUR) / DAY == 100;
  }

  lemma HalfMinuteIsFirst()
    ensures IsFirstOf(WesternZone(HALF_MINUTE), 100 * DAY + HALF_MINUTE, 100)
  {
    forall u | u < 100 * DAY + HALF_MINUTE ensures WesternZone(HALF_MINUTE).wall(u) < 100 {
      assert u < 100 * DAY ==> u / DAY < 100;
    }
  }

  /** Clocks that change half a minute past a whole minute make the walk miss the first half minute of day 100. */
  lemma WalkCanOvershoot()
    ensures ValidZone(WesternZone(HALF_MINUTE))
    ensures StartOfDay(WesternZone(HALF_MINUTE), 100) == 100 * DAY + MINUTE
    ensures IsFirstOf(WesternZone(HALF_MINUTE), 100 * DAY + HALF_MINUTE, 100)
  {
    WesternZoneIsValid(HALF_MINUTE);
    HalfMinuteIsFirst();
    hide WesternZone, ValidZone, AfterMidnight, FirstMinuteOn;
    var z := WesternZone(HALF_MINUTE);
    HalfMinuteWall(0);
    HalfMinuteWall(61);
    assert AfterMidnight(z, 100, 0) == z.at(100, 0);
    var k := WalkStops(z, 100, 0);
    if k < MINUTES_PER_DAY {
      HalfMinuteWall(k);
    }
    assert k == 61;
  }

  // ---- Slots ----

  /** The pattern ^([01][0-9]|2[0-3]):[0-5][0-9]$, as a minute of the day. */
  function ParseLocalTime(s: string): (r: Option<nat>)
    ensures r.Some? ==> r.value < MINUTES_PER_DAY
  {
    if |s| == 5 && s[2] == ':' && IsDigit(s[0]) && IsDigit(s[1]) && IsDigit(s[3]) && IsDigit(s[4]) then
      var hour := 10 * DigitValue(s[0]) + DigitValue(s[1]);
      var minute := 10 * DigitValue(s[3]) + DigitValue(s[4]);
      if hour < 24 && minute < 60 then Some(60 * hour + minute) else None
    else
      None
  }

  /** A local time is two digits, a colon and two digits, and says which minute of the day it is. */
  lemma LocalTimeIs(s: string, minute: nat)
    ensures ParseLocalTime(s) == Some(minute) <==>
      minute < 24 * 60 && s == Pad2(minute / 60) + ":" + Pad2(minute % 60)
  {
    hide Pad2;
    if ParseLocalTime(s) == Some(minute) {
      var hour, rest := 10 * DigitValue(s[0]) + DigitValue(s[1]), 10 * DigitValue(s[3]) + DigitValue(s[4]);
      assert minute / 60 == hour && minute % 60 == rest;
      hide ParseLocalTime;
      Pad2OfDigits(s[0], s[1]);
      Pad2OfDigits(s[3], s[4]);
      assert s == [s[0], s[1]] + ":" + [s[3], s[4]];
    } else if minute < 24 * 60 {
      var hour, rest := Pad2(minute / 60), Pad2(minute % 60);
      DigitsOfPad2(minute / 60);
      DigitsOfPad2(minute % 60);
      var t := hour + ":" + rest;
      assert t[0] == hour[0] && t[1] == hour[1] && t[2] == ':' && t[3] == rest[0] && t[4] == rest[1];
    }
  }

  lemma Pad2OfDigits(c: char, d: char)
    requires IsDigit(c) && IsDigit(d)
    ensures Pad2(10 * DigitValue(c) + DigitValue(d)) == [c, d]
  {
  }

  lemma DigitsOfPad2(n: nat)
    requires n < 100
    ensures IsDigit(Pad2(n)[0]) && IsDigit(Pad2(n)[1])
    ensures 10 * DigitValue(Pad2(n)[0]) + DigitValue(Pad2(n)[1]) == n
  {
  }

  datatype Slot = Slot(date: string, instant: int)

  function SlotInstant(slotDate: string, localTime: string, z: Zone): Result<int, ScheduleError> {
    match ParseCivilDate(slotDate)
    case None => Failure(InvalidDate)
    case Some(date) =>
      match ParseLocalTime(localTime)
      case None => Failure(InvalidLocalTime)
      case Some(minute) => Success(z.at(DayNumber(date), minute))
  }

  /** The k-th date of a chain that moves by step days. */
  function Aligned(day: int, step: nat, k: nat): int {
    if k == 0 then day else Aligned(day, step, k - 1) + step
  }

  lemma {:induction false} AlignedFromNext(day: int, step: nat, k: nat)
    requires k > 0
    ensures Aligned(day, step, k) == Aligned(day + step, step, k - 1)
  {
    if k > 1 {
      AlignedFromNext(day, step, k - 1);
    }
  }

  lemma AlignedAtZero(day: int, step: nat)
    ensures Aligned(day, step, 0) == day
  {
  }

  lemma AlignedStep(day: int, step: nat, k: nat)
    requires k > 0
    ensures Aligned(day, step, k) == Aligned(day, step, k - 1) + step
  {
  }

  lemma {:induction false} AlignedMonotone(day: int, step: nat, j: nat, k: nat)
    requires j <= k
    ensures Aligned(day, step, j) <= Aligned(day, step, k)
  {
    if j < k {
      AlignedMonotone(day, step, j, k - 1);
    }
  }

  /** The reference: try day, day + step, day + 2 * step, ... until an instant lies after the given one. */
  ghost function LinearSlot(z: Zone, day: int, step: nat, minute: nat, after: int): (n: int)
    requires ValidZone(z) && step > 0 && minute < MINUTES_PER_DAY
    ensures n >= day && z.at(n, minute) > after
    decreases z.wall(after) + 2 - day
  {
    if z.at(day, minute) > after then day
    else
      assert day - 1 <= z.wall(z.at(day, minute)) <= z.wall(after);
      LinearSlot(z, day + step, step, minute, after)
  }

  /** One step of the search; a date whose instant is not after the reference is at most one day past its date. */
  lemma LinearSlotStep(z: Zone, day: int, step: nat, minute: nat, after: int)
    requires ValidZone(z) && step > 0 && minute < MINUTES_PER_DAY
    ensures z.at(day, minute) > after ==> LinearSlot(z, day, step, minute, after) == day
    ensures z.at(day, minute) <= after ==>
      && LinearSlot(z, day, step, minute, after) == LinearSlot(z, day + step, step, minute, after)
      && day <= z.wall(after) + 1
    ensures LinearSlot(z, day, step, minute, after) >= day
  {
    assert day - 1 <= z.wall(z.at(day, minute));
  }

  /** The search returns a date of the chain, and no earlier date of the chain has an instant after the given one. */
  lemma {:induction false} LinearSlotIsFirst(z: Zone, day: int, step: nat, minute: nat, after: int) returns (k: nat)
    requires ValidZone(z) && step > 0 && minute < MINUTES_PER_DAY
    ensures LinearSlot(z, day, step, minute, after) == Aligned(day, step, k)
    ensures forall j: nat | j < k :: z.at(Aligned(day, step, j), minute) <= after
    decreases z.wall(after) + 2 - day
  {
    if z.at(day, minute) > after {
      k := 0;
    } else {
      assert day - 1 <= z.wall(z.at(day, minute)) <= z.wall(after);
      var l := LinearSlotIsFirst(z, day + step, step, minute, after);
      k := l + 1;
      hide ValidZone;
      AlignedFromNext(day, step, k);
      AlignedAtZero(day, step);
      hide Aligned;
      forall j: nat | j < k ensures z.at(Aligned(day, step, j), minute) <= after {
        if j > 0 {
          AlignedFromNext(day, step, j);
        }
      }
    }
  }

  /** Dates before the reference date cannot be after it: the search may start beyond them. */
  lemma {:induction false} LinearSlotSkips(z: Zone, day: int, step: nat, minute: nat, after: int, k: nat)
    requires ValidZone(z) && step > 0 && minute < MINUTES_PER_DAY
    requires k > 0 ==> Aligned(day, step, k - 1) < z.wall(after)
    ensures LinearSlot(z, day, step, minute, after) == LinearSlot(z, Aligned(day, step, k), step, minute, after)
    decreases k
  {
    if k > 0 {
      AlignedMonotone(day, step, k - 1, k);
      if k > 1 {
        AlignedMonotone(day, step, k - 2, k - 1);
      }
      LinearSlotSkips(z, day, step, minute, after, k - 1);
      var last := Aligned(day, step, k - 1);
      assert z.wall(z.at(last, minute)) <= last;
    }
  }

  lemma {:induction false} AlignedByTen(day: int, k: nat)
    ensures Aligned(day, 10, k) == day + 10 * k
  {
    if k > 0 {
      AlignedByTen(day, k - 1);
    }
  }

  /** Where the scheduler's whole-cycle jump lands. */
  function TenDayStart(anchor: CivilDate, reference: CivilDate): CivilDate
    requires Real(anchor) && Real(reference)
  {
    if CompareCivilDate(reference, anchor) >= 0
    then AddDays(anchor, Quo(CivilDayDifference(anchor, reference), 10) * 10)
    else anchor
  }

  /**
   * The jump lands on an aligned date, at most two cycles before the reference
   * date and never before the anchor. (Two, not one: an anchor before 0000-03-01
   * makes the difference one day short.)
   */
  lemma TenDayJump(anchor: CivilDate, reference: CivilDate) returns (k: nat)
    requires Real(anchor) && FourDigit(anchor) && Real(reference)
    ensures TenDayStart(anchor, reference) == DateOf(Aligned(DayNumber(anchor), 10, k))
    ensures k > 0 ==> Aligned(DayNumber(anchor), 10, k - 1) < DayNumber(reference)
    ensures DayNumber(reference) <= Aligned(DayNumber(anchor), 10, k) + 10
  {
    hide Real, DayNumber, DateOf, AddDays, DaysFromCivil;
    var a, r := DayNumber(anchor), DayNumber(reference);
    CompareIsDayOrder(reference, anchor);
    if CompareCivilDate(reference, anchor) < 0 {
      k := 0;
      DateOfDayNumber(anchor);
    } else {
      ClosedFormIsDayNumber(anchor);
      ClosedFormIsDayNumber(reference);
      var elapsed := CivilDayDifference(anchor, reference);
      assert r - a - 1 <= elapsed <= r - a;
      k := elapsed / 10;
      AlignedByTen(a, k);
      AddDaysIsDateOf(anchor, 10 * k);
    }
  }

  method NextTenDaySlot(anchor: string, localTime: string, after: int, z: Zone)
    returns (r: Result<Slot, ScheduleError>)
    requires ValidZone(z)
    ensures ParseCivilDate(anchor).None? ==> r == Failure(InvalidDate)
    ensures ParseCivilDate(anchor).Some? && ParseLocalTime(localTime).None? ==> r == Failure(InvalidLocalTime)
    ensures ParseCivilDate(anchor).Some? && ParseLocalTime(localTime).Some? ==>
      var minute := ParseLocalTime(localTime).value;
      var n := LinearSlot(z, DayNumber(ParseCivilDate(anchor).value), 10, minute, after);
      r == if FourDigit(DateOf(n)) then Success(Slot(Format(DateOf(n)), z.at(n, minute))) else Failure(InvalidDate)
  {
    hide Real, DayNumber, DateOf, AddDays, Format, ParseCivilDate, DaysFromCivil, TextLess, ValidZone, LinearSlot;
    var parsedAnchor := ParseCivilDate(anchor);
    if parsedAnchor.None? {
      return Failure(InvalidDate);
    }
    var anchorDate := parsedAnchor.value;
    var time := ParseLocalTime(localTime);
    if time.None? {
      return Failure(InvalidLocalTime);
    }
    var reference := DateOf(z.wall(after));
    var candidate := anchorDate;
    if CompareCivilDate(reference, anchorDate) >= 0 {
      var elapsed := CivilDayDifference(anchorDate, reference);
      candidate := AddDays(anchorDate, Quo(elapsed, 10) * 10);
    }
    ghost var first := LinearSlot(z, DayNumber(anchorDate), 10, time.value, after);
    ghost var k := TenDayJump(anchorDate, reference);
    LinearSlotSkips(z, DayNumber(anchorDate), 10, time.value, after, k);
    ghost var start := Aligned(DayNumber(anchorDate), 10, k);
    AlignedMonotone(DayNumber(anchorDate), 10, 0, k);
    for i := 0 to 3
      invariant Real(candidate) && candidate == DateOf(start + 10 * i)
      invariant start + 10 * i >= DayNumber(anchorDate)
      invariant first == LinearSlot(z, start + 10 * i, 10, time.value, after)
      invariant i > 0 ==> start + 10 * (i - 1) <= z.wall(after) + 1
    {
      FormatParses(candidate);
      NotBeforeAnchor(anchorDate, start + 10 * i);
      LaterYears(start + 10 * i, first);
      LinearSlotStep(z, start + 10 * i, 10, time.value, after);
      var at := SlotInstant(Format(candidate), localTime, z);
      if at.Failure? {
        return Failure(at.error);
      }
      if at.value > after {
        return Success(Slot(Format(candidate), at.value));
      }
      AddDaysIsDateOf(candidate, 10);
      candidate := AddDays(candidate, 10);
    }
    return Failure(NoFutureSlot);
  }

  lemma NotBeforeAnchor(anchor: CivilDate, n: int)
    requires Real(anchor) && FourDigit(anchor) && n >= DayNumber(anchor)
    ensures DateOf(n).year >= 0
  {
    CompareIsDayOrder(DateOf(n), anchor);
  }

  lemma LaterYears(n: int, m: int)
    requires n <= m
    ensures DateOf(n).year <= DateOf(m).year
  {
    CompareIsDayOrder(DateOf(n), DateOf(m));
    CompareIsDayOrder(DateOf(m), DateOf(n));
  }

  method NextDailySlot(localTime: string, after: int, z: Zone) returns (r: Result<Slot, ScheduleError>)
    requires ValidZone(z)
    ensures ParseLocalTime(localTime).None? ==> r == Failure(InvalidLocalTime)
    ensures ParseLocalTime(localTime).Some? ==>
      var minute := ParseLocalTime(localTime).value;
      var n := LinearSlot(z, z.wall(after), 1, minute, after);
      r == if FourDigit(DateOf(z.wall(after))) && FourDigit(DateOf(n))
           then Success(Slot(Format(DateOf(n)), z.at(n, minute))) else Failure(InvalidDate)
  {
    hide Real, DayNumber, DateOf, AddDays, Format, ParseCivilDate, DaysFromCivil, TextLess, ValidZone, LinearSlot;
    var time := ParseLocalTime(localTime);
    if time.None? {
      return Failure(InvalidLocalTime);
    }
    var candidate := DateOf(z.wall(after));
    ghost var first := LinearSlot(z, z.wall(after), 1, time.value, after);
    LaterYears(z.wall(after), first);
    for i := 0 to 3
      invariant Real(candidate) && candidate == DateOf(z.wall(after) + i)
      invariant i > 0 ==> FourDigit(DateOf(z.wall(after)))
      invariant first == LinearSlot(z, z.wall(after) + i, 1, time.value, after)
      invariant i > 0 ==> z.wall(after) + i - 1 <= z.wall(after) + 1
    {
      FormatParses(candidate);
      LaterYears(z.wall(after), z.wall(after) + i);
      LaterYears(z.wall(after) + i, first);
      LinearSlotStep(z, z.wall(after) + i, 1, time.value, after);
      var at := SlotInstant(Format(candidate), localTime, z);
      if at.Failure? {
        return Failure(at.error);
      }
      if at.value > after {
        return Success(Slot(Format(candidate), at.value));
      }
      AddDaysIsDateOf(candidate, 1);
      candidate := AddDays(candidate, 1);
    }
    return Failure(NoFutureSlot);
  }

  lemma {:induction false} AlignedByOne(day: int, k: nat)
    ensures Aligned(day, 1, k) == day + k
  {
    if k > 0 {
      AlignedByOne(day, k - 1);
    }
  }

  /** The daily slot is the earliest of all dates, not only of those from the reference date on. */
  lemma DailySlotIsEarliest(z: Zone, minute: nat, after: int, day: int)
    requires ValidZone(z) && minute < MINUTES_PER_DAY
    requires day < LinearSlot(z, z.wall(after), 1, minute, after)
    ensures z.at(day, minute) <= after
  {
    if day >= z.wall(after) {
      var k := LinearSlotIsFirst(z, z.wall(after), 1, minute, after);
      AlignedByOne(z.wall(after), k);
      AlignedByOne(z.wall(after), day - z.wall(after));
    } else {
      assert z.wall(z.at(day, minute)) <= day;
    }
  }

  // ---- Periods ----

  datatype ReportKind = Daily | TenDay | OtherKind

  datatype SlotPlan = SlotPlan(slotDate: string, periodFrom: string, periodTo: string, periodStart: int, periodEnd: int)

  function DailyPeriod(slotDate: string): Result<(string, string), ScheduleError> {
    match ParseCivilDate(slotDate)
    case None => Failure(InvalidDate)
    case Some(date) => var previous := Format(AddDays(date, -1)); Success((previous, previous))
  }

  function TenDayPeriod(slotDate: string): Result<(string, string), ScheduleError> {
    match ParseCivilDate(slotDate)
    case None => Failure(InvalidDate)
    case Some(date) => Success((Format(AddDays(date, -10)), Format(AddDays(date, -1))))
  }

  function PeriodBounds(from: string, to: string, z: Zone): Result<(int, int), ScheduleError> {
    match (ParseCivilDate(from), ParseCivilDate(to))
    case (Some(start), Some(end)) =>
      Success((StartInstant(z, DayNumber(start)), StartInstant(z, DayNumber(AddDays(end, 1)))))
    case _ => Failure(InvalidDate)
  }

  function AdvanceSlotDate(kind: ReportKind, anchor: string, slotDate: string): Result<string, ScheduleError> {
    match ParseCivilDate(slotDate)
    case None => Failure(InvalidDate)
    case Some(date) =>
      match kind
      case Daily => Success(Format(AddDays(date, 1)))
      case TenDay => if ParseCivilDate(anchor).None? then Failure(InvalidDate) else Success(Format(AddDays(date, 10)))
      case OtherKind => Failure(InvalidKind)
  }

  function PlanSlot(kind: ReportKind, anchor: string, nextRunLocalDate: string, z: Zone): Result<SlotPlan,
      ScheduleError> {
    if kind == OtherKind then Failure(InvalidKind) else
    match (if kind == Daily then DailyPeriod(nextRunLocalDate) else TenDayPeriod(nextRunLocalDate))
    case Failure(e) => Failure(e)
    case Success(period) =>
      match PeriodBounds(period.0, period.1, z)
      case Failure(e) => Failure(e)
      case Success(bounds) => Success(SlotPlan(nextRunLocalDate, period.0, period.1, bounds.0, bounds.1))
  }

  /** Days between two slots, which is also the length of a slot's period. */
  function Cadence(kind: ReportKind): nat {
    if kind == Daily then 1 else 10
  }

  /**
   * A slot is planned exactly when its text is a date and its period starts in a
   * year that can be spelled; the period is the Cadence(kind) days before the slot.
   */
  lemma PlanSlotMeaning(kind: ReportKind, anchor: string, slotDate: string, z: Zone)
    requires kind != OtherKind
    ensures PlanSlot(kind, anchor, slotDate, z).Success? <==>
      ParseCivilDate(slotDate).Some? && DateOf(DayNumber(ParseCivilDate(slotDate).value) - Cadence(kind)).year >= 0
    ensures Cadence(Daily) == 1 && Cadence(TenDay) == 10
    ensures PlanSlot(kind, anchor, slotDate, z).Success? ==>
      var n := DayNumber(ParseCivilDate(slotDate).value);
      PlanSlot(kind, anchor, slotDate, z).value ==
        SlotPlan(slotDate, Format(DateOf(n - Cadence(kind))), Format(DateOf(n - 1)),
                 StartInstant(z, n - Cadence(kind)), StartInstant(z, n))
  {
    hide Real, DayNumber, DateOf, AddDays, Format, ParseCivilDate;
    if ParseCivilDate(slotDate).Some? {
      var date := ParseCivilDate(slotDate).value;
      var n := DayNumber(date);
      var from, to := AddDays(date, -(Cadence(kind) as int)), AddDays(date, -1);
      AddDaysIsDateOf(date, -(Cadence(kind) as int));
      AddDaysIsDateOf(date, -1);
      DateOfDayNumber(date);
      LaterYears(n - Cadence(kind), n - 1);
      LaterYears(n - 1, n);
      FormatParses(from);
      FormatParses(to);
      DayNumberAddDays(date, -(Cadence(kind) as int));
      DayNumberAddDays(date, -1);
      DayNumberAddDays(to, 1);
    }
  }

  /** A schedule advances from every date, a ten-day one only with an anchor, to the date one or ten days on. */
  lemma AdvancesIff(kind: ReportKind, anchor: string, slotDate: string)
    ensures AdvanceSlotDate(kind, anchor, slotDate).Success? <==>
      && ParseCivilDate(slotDate).Some?
      && (kind == Daily || (kind == TenDay && ParseCivilDate(anchor).Some?))
    ensures AdvanceSlotDate(kind, anchor, slotDate).Success? ==>
      AdvanceSlotDate(kind, anchor, slotDate).value ==
        Format(DateOf(DayNumber(ParseCivilDate(slotDate).value) + if kind == Daily then 1 else 10))
    ensures ParseCivilDate(slotDate).Some? && kind == OtherKind ==>
      AdvanceSlotDate(kind, anchor, slotDate) == Failure(InvalidKind)
  {
    hide Real, DayNumber, DateOf, AddDays, Format, ParseCivilDate;
    if ParseCivilDate(slotDate).Some? {
      AddDaysIsDateOf(ParseCivilDate(slotDate).value, 1);
      AddDaysIsDateOf(ParseCivilDate(slotDate).value, 10);
    }
  }

  /** The slot reached from the first one by advancing the schedule i times. */
  ghost function SlotAfter(kind: ReportKind, anchor: string, first: string, i: nat): Result<string, ScheduleError> {
    if i == 0 then Success(first)
    else
      match SlotAfter(kind, anchor, first, i - 1)
      case Failure(e) => Failure(e)
      case Success(slot) => AdvanceSlotDate(kind, anchor, slot)
  }

  /** Every slot of a schedule is Cadence(kind) days after the one before. */
  lemma {:induction false} SlotAfterIsAligned(kind: ReportKind, anchor: string, first: string, i: nat)
    requires kind != OtherKind && ParseCivilDate(first).Some?
    requires SlotAfter(kind, anchor, first, i).Success?
    ensures var n := Aligned(DayNumber(ParseCivilDate(first).value), Cadence(kind), i);
            SlotAfter(kind, anchor, first, i).value == Format(DateOf(n))
  {
    hide Real, DayNumber, DateOf, AddDays, Format, ParseCivilDate;
    if i == 0 {
      ParseFormats(first);
      DateOfDayNumber(ParseCivilDate(first).value);
    } else {
      var n := Aligned(DayNumber(ParseCivilDate(first).value), Cadence(kind), i - 1);
      SlotAfterIsAligned(kind, anchor, first, i - 1);
      FormatParses(DateOf(n));
      AddDaysIsDateOf(DateOf(n), Cadence(kind));
    }
  }

  /** The window persisted for the i-th slot of a schedule. */
  ghost function Window(kind: ReportKind, anchor: string, first: string, i: nat, z: Zone): Result<SlotPlan,
      ScheduleError> {
    match SlotAfter(kind, anchor, first, i)
    case Failure(e) => Failure(e)
    case Success(slot) => PlanSlot(kind, anchor, slot, z)
  }

  lemma WindowMeaning(kind: ReportKind, anchor: string, first: string, i: nat, z: Zone)
    requires kind != OtherKind && ParseCivilDate(first).Some?
    requires Window(kind, anchor, first, i, z).Success?
    ensures var n := Aligned(DayNumber(ParseCivilDate(first).value), Cadence(kind), i);
      && Window(kind, anchor, first, i, z).value.periodStart == StartInstant(z, n - Cadence(kind))
      && Window(kind, anchor, first, i, z).value.periodEnd == StartInstant(z, n)
  {
    hide Real, DayNumber, DateOf, AddDays, Format, ParseCivilDate;
    var n := Aligned(DayNumber(ParseCivilDate(first).value), Cadence(kind), i);
    SlotAfterIsAligned(kind, anchor, first, i);
    FormatParses(DateOf(n));
    PlanSlotMeaning(kind, anchor, Format(DateOf(n)), z);
  }

  ghost predicate InWindow(kind: ReportKind, anchor: string, first: string, i: nat, z: Zone, t: int)
    requires Window(kind, anchor, first, i, z).Success?
  {
    var plan := Window(kind, anchor, first, i, z).value;
    plan.periodStart <= t < plan.periodEnd
  }

  /** Consecutive windows abut, in every zone. */
  lemma WindowsAbut(kind: ReportKind, anchor: string, first: string, i: nat, z: Zone)
    requires kind != OtherKind && ParseCivilDate(first).Some?
    requires Window(kind, anchor, first, i, z).Success? && Window(kind, anchor, first, i + 1, z).Success?
    ensures Window(kind, anchor, first, i, z).value.periodEnd == Window(kind, anchor, first, i + 1, z).value.periodStart
  {
    hide Real, DayNumber, DateOf, AddDays, Format, ParseCivilDate;
    WindowMeaning(kind, anchor, first, i, z);
    WindowMeaning(kind, anchor, first, i + 1, z);
  }

  /** An instant between the start of window 0 and the end of window n - 1 lies in some window before n. */
  lemma {:induction false} WindowsCover(kind: ReportKind, anchor: string, first: string, n: nat, z: Zone,
      t: int) returns (i: nat)
    requires ValidZone(z) && kind != OtherKind && ParseCivilDate(first).Some? && n > 0
    requires forall j: nat | j < n :: Window(kind, anchor, first, j, z).Success?
    requires Window(kind, anchor, first, 0, z).value.periodStart <= t < Window(kind, anchor, first, n - 1,
      z).value.periodEnd
    ensures i < n && InWindow(kind, anchor, first, i, z, t)
    decreases n
  {
    hide Real, DayNumber, DateOf, AddDays, Format, ParseCivilDate, Window, ValidZone;
    if Window(kind, anchor, first, n - 1, z).value.periodStart <= t {
      i := n - 1;
    } else {
      WindowsAbut(kind, anchor, first, n - 2, z);
      i := WindowsCover(kind, anchor, first, n - 1, z, t);
    }
  }

  /** No instant lies in two windows. */
  lemma WindowsDisjoint(kind: ReportKind, anchor: string, first: string, i: nat, j: nat, z: Zone, t: int)
    requires ValidZone(z) && kind != OtherKind && ParseCivilDate(first).Some?
    requires Window(kind, anchor, first, i, z).Success? && Window(kind, anchor, first, j, z).Success?
    requires InWindow(kind, anchor, first, i, z, t) && InWindow(kind, anchor, first, j, z, t)
    ensures i == j
  {
    hide Window, ValidZone, ParseCivilDate;
    if i < j {
      EarlierWindowEnds(kind, anchor, first, i, j, z);
    } else if j < i {
      EarlierWindowEnds(kind, anchor, first, j, i, z);
    }
  }

  lemma EarlierWindowEnds(kind: ReportKind, anchor: string, first: string, i: nat, j: nat, z: Zone)
    requires ValidZone(z) && kind != OtherKind && ParseCivilDate(first).Some? && i < j
    requires Window(kind, anchor, first, i, z).Success? && Window(kind, anchor, first, j, z).Success?
    ensures Window(kind, anchor, first, i, z).value.periodEnd <= Window(kind, anchor, first, j, z).value.periodStart
  {
    hide Real, DayNumber, DateOf, AddDays, Format, ParseCivilDate, Window, ValidZone, StartInstant, SlotAfter,
      PlanSlot, Aligned;
    var base := DayNumber(ParseCivilDate(first).value);
    WindowMeaning(kind, anchor, first, i, z);
    WindowMeaning(kind, anchor, first, j, z);
    AlignedStep(base, Cadence(kind), j);
    AlignedMonotone(base, Cadence(kind), i, j - 1);
    StartInstantMonotone(z, Aligned(base, Cadence(kind), i), Aligned(base, Cadence(kind), j - 1));
  }

  /** The runner's way back from a persisted window to civil bounds. */
  function PeriodCivilDates(periodStart: int, periodEnd: int, z: Zone): Result<(string, string), ScheduleError> {
    var from := Format(DateOf(z.wall(periodStart)));
    var to := Format(AddDays(DateOf(z.wall(periodEnd)), -1));
    if ParseCivilDate(from).None? || ParseCivilDate(to).None? then Failure(InvalidDate) else Success((from, to))
  }

  /** The civil bounds are recovered exactly when both boundary midnights resolve on their own dates. */
  lemma PeriodRoundTripIff(from: string, to: string, z: Zone)
    requires ValidZone(z) && PeriodBounds(from, to, z).Success?
    ensures var bounds := PeriodBounds(from, to, z).value;
      PeriodCivilDates(bounds.0, bounds.1, z) == Success((from, to)) <==>
        MidnightLands(z, DayNumber(ParseCivilDate(from).value))
          && MidnightLands(z, DayNumber(ParseCivilDate(to).value) + 1)
  {
    hide Real, DayNumber, DateOf, AddDays, Format, ParseCivilDate;
    var start, end := ParseCivilDate(from).value, ParseCivilDate(to).value;
    var bounds := PeriodBounds(from, to, z).value;
    DayNumberAddDays(end, 1);
    StartInstantOnDateIff(z, DayNumber(start));
    StartInstantOnDateIff(z, DayNumber(end) + 1);
    ParseFormats(from);
    ParseFormats(to);
    var from', to' := DateOf(z.wall(bounds.0)), AddDays(DateOf(z.wall(bounds.1)), -1);
    DayNumberAddDays(DateOf(z.wall(bounds.1)), -1);
    FormatParses(from');
    FormatParses(to');
    FormatParses(start);
    FormatParses(end);
    CompareIsDayOrder(from', start);
    CompareIsDayOrder(to', end);
  }

  // ---- Custom periods ----

  datatype Period = Period(startUtc: int, endUtc: int)

  /** A custom range is accepted exactly when it spans 1 to 366 days. */
  method ResolveCustom(fromDate: string, toDate: string, z: Zone) returns (r: Result<Period, ScheduleError>)
    ensures fromDate == "" || toDate == "" ==> r == Failure(MissingDates)
    ensures fromDate != "" && toDate != "" ==>
      match (ParseCivilDate(fromDate), ParseCivilDate(toDate))
      case (None, _) => r == Failure(InvalidFromDate)
      case (_, None) => r == Failure(InvalidToDate)
      case (Some(from), Some(to)) =>
        var days := DayNumber(to) - DayNumber(from) + 1;
        r == if days < 1 then Failure(ReversedDates)
             else if days > 366 then Failure(RangeTooLong)
             else Success(Period(StartInstant(z, DayNumber(from)), StartInstant(z, DayNumber(to) + 1)))
  {
    hide Real, DayNumber, DateOf, AddDays, Format, ParseCivilDate, DaysFromCivil, TextLess, ValidZone, LinearSlot;
    if fromDate == "" || toDate == "" {
      return Failure(MissingDates);
    }
    var parsedFrom := ParseCivilDate(fromDate);
    if parsedFrom.None? {
      return Failure(InvalidFromDate);
    }
    var parsedTo := ParseCivilDate(toDate);
    if parsedTo.None? {
      return Failure(InvalidToDate);
    }
    var from, to := parsedFrom.value, parsedTo.value;
    TextOrderIsDateOrder(toDate, fromDate);
    CompareIsDayOrder(to, from);
    if TextLess(toDate, fromDate) {
      return Failure(ReversedDates);
    }
    var days := 0;
    var d := from;
    while true
      invariant Real(d) && 0 <= days <= MAX_CUSTOM_RANGE_DAYS
      invariant DayNumber(d) == DayNumber(from) + days <= DayNumber(to)
      decreases MAX_CUSTOM_RANGE_DAYS - days
    {
      days := days + 1;
      if days > MAX_CUSTOM_RANGE_DAYS {
        return Failure(RangeTooLong);
      }
      CompareIsDayOrder(d, to);
      if d == to {
        break;
      }
      DayNumberNext(d);
      DayNumberAddDays(d, 1);
      d := AddDays(d, 1);
    }
    DayNumberAddDays(to, 1);
    var start := StartInstant(z, DayNumber(from));
    var end := StartInstant(z, DayNumber(AddDays(to, 1)));
    return Success(Period(start, end));
  }
}
