/** Billing periods (billing.rules.ts). */
module Periods {
  import opened Prelude
  import opened Decimal

  // Period keys, their calendar bounds in a time zone, and the iterative search for the UTC instant of a
  // local midnight.
  //
  // Instants are whole seconds since 1970. A time zone is its reading: `zone(t)` is the wall clock
  // at instant t, read back as if it were UTC; `zone(t) - t` is the offset in force at t.

  const DAY := 86400

  type Zone = int -> int

  datatype PeriodError = NotYearMonth | MonthOutOfRange

  // ----- period keys -----

  predicate MatchesPeriodPattern(key: string) {
    && |key| == 7
    && key[4] == '-'
    && AllDigits(key[..4])
    && AllDigits(key[5..])
  }

  function AssertPeriodKey(key: string): Result<(nat, nat), PeriodError> {
    if !MatchesPeriodPattern(key) then Err(NotYearMonth)
    else
      var year, month := Value(key[..4]), Value(key[5..]);
      if month < 1 || month > 12 then Err(MonthOutOfRange) else Ok((year, month))
  }

  function Signed(n: int): string {
    if n < 0 then "-" + Digits(-n) else Digits(n)
  }

  function PriorPeriodKey(key: string): Result<string, PeriodError> {
    match AssertPeriodKey(key)
    case Err(e) => Err(e)
    case Ok((year, month)) =>
      if month == 1 then Ok(Signed(year - 1) + "-12")
      else Ok(Signed(year) + "-" + PadStart(Digits(month - 1), 2))
  }

  /** The key of a month, as the rest of the system writes it. */
  function PeriodKey(year: nat, month: nat): string {
    PadStart(Digits(year), 4) + "-" + PadStart(Digits(month), 2)
  }

  lemma DigitsLength(n: nat)
    ensures |Digits(n)| == 1 <==> n < 10
    ensures |Digits(n)| == 2 <==> 10 <= n < 100
    ensures |Digits(n)| == 3 <==> 100 <= n < 1000
    ensures |Digits(n)| == 4 <==> 1000 <= n < 10000
  {
    if n >= 10 {
      assert |Digits(n)| == 1 + |Digits(n / 10)|;
      if n >= 100 {
        assert |Digits(n / 10)| == 1 + |Digits(n / 100)|;
        if n >= 1000 {
          assert |Digits(n / 100)| == 1 + |Digits(n / 1000)|;
          if n >= 10000 {
            assert |Digits(n / 1000)| == 1 + |Digits(n / 10000)|;
          }
        }
      }
    }
  }

  lemma KeyRoundTrip(year: nat, month: nat)
    requires year <= 9999 && 1 <= month <= 12
    ensures AssertPeriodKey(PeriodKey(year, month)) == Ok((year, month))
  {
    DigitsLength(year);
    DigitsLength(month);
    ValueOfPadded(year, 4);
    ValueOfPadded(month, 2);
    var y, m := PadStart(Digits(year), 4), PadStart(Digits(month), 2);
    assert PeriodKey(year, month)[..4] == y && PeriodKey(year, month)[5..] == m;
  }

  /** The keys accepted are exactly those of the months of the years 0 to 9999, each read as its month. */
  lemma KeyAcceptedIff(key: string)
    ensures AssertPeriodKey(key).Ok? <==> exists year: nat, month: nat :: year <= 9999 && 1 <= month <= 12 && key == PeriodKey(year, month)
    ensures AssertPeriodKey(key).Ok? ==>
              var (year, month) := AssertPeriodKey(key).value;
              year <= 9999 && 1 <= month <= 12 && key == PeriodKey(year, month)
    ensures AssertPeriodKey(key) == Err(MonthOutOfRange) ==> MatchesPeriodPattern(key) && Value(key[5..]) !in {1, 2, 3, 4, 5, 6, 7, 8, 9, 10, 11, 12}
  {
    if AssertPeriodKey(key).Ok? {
      var y, m := key[..4], key[5..];
      DigitsOfValue(y);
      DigitsOfValue(m);
      ValueBelow(y);
      assert key == y + "-" + m;
      assert key == PeriodKey(Value(y), Value(m));
    }
    forall year: nat, month: nat | year <= 9999 && 1 <= month <= 12 && key == PeriodKey(year, month)
      ensures AssertPeriodKey(key).Ok?
    {
      KeyRoundTrip(year, month);
    }
  }

  lemma ValueBelow(s: string)
    requires |s| == 4 && AllDigits(s)
    ensures Value(s) <= 9999
  {
    DigitsOfValue(s);
    DigitsLength(Value(s));
  }

  function PriorMonth(year: nat, month: nat): (int, nat)
    requires 1 <= month
  {
    if month == 1 then (year - 1, 12) else (year, month - 1)
  }

  lemma PriorText(year: nat, month: nat)
    requires year <= 9999 && 1 <= month <= 12
    ensures var (py, pm) := PriorMonth(year, month);
            PriorPeriodKey(PeriodKey(year, month)) == Ok(Signed(py) + "-" + PadStart(Digits(pm), 2))
  {
    KeyRoundTrip(year, month);
    assert Digits(12) == Digits(1) + [DigitChar(2)] == "12";
    assert Signed(year - 1) + "-" + "12" == Signed(year - 1) + "-12";
  }

  lemma ShortYearIsNoKey(py: int, pm: nat)
    requires -1 <= py < 1000 && 1 <= pm <= 12
    ensures !MatchesPeriodPattern(Signed(py) + "-" + PadStart(Digits(pm), 2))
  {
    DigitsLength(pm);
    if py >= 0 {
      DigitsLength(py);
    } else {
      DigitsLength(1);
    }
    assert |Signed(py)| <= 3;
  }

  /** The prior key is again a period key exactly when its year needs no padding. */
  lemma PriorKeyIsAKeyIff(year: nat, month: nat)
    requires year <= 9999 && 1 <= month <= 12
    ensures var prior := PriorPeriodKey(PeriodKey(year, month));
            var (py, pm) := PriorMonth(year, month);
            && prior.Ok?
            && (AssertPeriodKey(prior.value).Ok? <==> py >= 1000)
            && (py >= 1000 ==> prior.value == PeriodKey(py, pm) && AssertPeriodKey(prior.value) == Ok((py, pm)))
  {
    var (py, pm) := PriorMonth(year, month);
    PriorText(year, month);
    if py >= 1000 {
      DigitsLength(py);
      KeyRoundTrip(py, pm);
    } else {
      ShortYearIsNoKey(py, pm);
    }
  }

  // ----- the calendar -----

  predicate IsLeap(y: nat) {
    y % 4 == 0 && (y % 100 != 0 || y % 400 == 0)
  }

  function DaysBeforeYear(y: nat): int {
    365 * y + (y + 3) / 4 - (y + 99) / 100 + (y + 399) / 400
  }

  function DaysBeforeMonth(y: nat, m: nat): int
    requires 1 <= m <= 12
  {
    [0, 31, 59, 90, 120, 151, 181, 212, 243, 273, 304, 334][m - 1] + if m > 2 && IsLeap(y) then 1 else 0
  }

  /** `Date.UTC` at midnight, in seconds: a year from 0 to 99 means 1900 to 1999. */
  function DateUtc(year: nat, month: nat, day: nat): int
    requires 1 <= month <= 12 && day >= 1
  {
    var y := if year <= 99 then 1900 + year else year;
    (DaysBeforeYear(y) + DaysBeforeMonth(y, month) + day - 1 - DaysBeforeYear(1970)) * DAY
  }

  lemma YearLength(y: nat)
    ensures DaysBeforeYear(y + 1) == DaysBeforeYear(y) + 365 + if IsLeap(y) then 1 else 0
  {
    assert (y + 4) / 4 == (y + 3) / 4 + if y % 4 == 0 then 1 else 0;
    assert (y + 100) / 100 == (y + 99) / 100 + if y % 100 == 0 then 1 else 0;
    assert (y + 400) / 400 == (y + 399) / 400 + if y % 400 == 0 then 1 else 0;
  }

  function NextMonth(year: nat, month: nat): (nat, nat) {
    if month == 12 then (year + 1, 1) else (year, month + 1)
  }

  /** Instants count from the first of January 1970, and days have 24 hours. */
  lemma DayLength(year: nat, month: nat, day: nat)
    requires 1 <= month <= 12 && day >= 1
    ensures DateUtc(1970, 1, 1) == 0
    ensures DateUtc(year, month, day) == DateUtc(year, month, 1) + (day - 1) * (24 * 60 * 60)
  {
  }

  function MonthDays(y: nat, month: nat): nat {
    var leap := y % 400 == 0 || (y % 4 == 0 && y % 100 != 0);
    if month in {4, 6, 9, 11} then 30 else if month != 2 then 31 else if leap then 29 else 28
  }

  lemma NextMonthBegins(y: nat, month: nat)
    requires 1 <= month < 12
    ensures DaysBeforeMonth(y, month + 1) == DaysBeforeMonth(y, month) + MonthDays(y, month)
  {
  }

  /** Consecutive months are as many days apart as the Gregorian calendar says, except where the
      two-digit years end. */
  lemma MonthLength(year: nat, month: nat)
    requires 1 <= month <= 12
    ensures var (ny, nm) := NextMonth(year, month);
            var gap := DateUtc(ny, nm, 1) - DateUtc(year, month, 1);
            if year == 99 && month == 12 then gap < -1000 * 365 * DAY
            else gap == MonthDays(if year < 100 then 1900 + year else year, month) * DAY
  {
    var y := if year < 100 then 1900 + year else year;
    if month < 12 {
      NextMonthBegins(y, month);
    } else {
      YearLength(y);
      if year == 99 {
        assert DaysBeforeYear(100) == 36525 && DaysBeforeYear(1999) == 730120;
      }
    }
  }

  // ----- local midnight -----

  function Refine(zone: Zone, desired: int, instant: int, rounds: nat): int
    decreases rounds
  {
    if rounds == 0 then instant
    else
      var delta := desired - zone(instant);
      if delta == 0 then instant else Refine(zone, desired, instant + delta, rounds - 1)
  }

  method ZonedLocalMidnightToUtc(year: nat, month: nat, day: nat, zone: Zone) returns (instant: int)
    requires 1 <= month <= 12 && day >= 1
    ensures instant == Refine(zone, DateUtc(year, month, day), DateUtc(year, month, day), 3)
  {
    instant := DateUtc(year, month, day);
    for i := 0 to 3
      invariant Refine(zone, DateUtc(year, month, day), instant, 3 - i)
             == Refine(zone, DateUtc(year, month, day), DateUtc(year, month, day), 3)
    {
      var asUtc := zone(instant);
      var desired := DateUtc(year, month, day);
      var delta := desired - asUtc;
      if delta == 0 {
        break;
      }
      instant := instant + delta;
    }
  }

  function LocalMidnight(year: nat, month: nat, zone: Zone): int
    requires 1 <= month <= 12
  {
    Refine(zone, DateUtc(year, month, 1), DateUtc(year, month, 1), 3)
  }

  /** Every offset of the zone lies within `w` seconds. */
  ghost predicate OffsetsWithin(zone: Zone, w: int) {
    forall t :: -w <= zone(t) - t <= w
  }

  /** Around `d` the offset changes at most once: `before` until `at`, `after` from then on. */
  ghost predicate OneTransition(zone: Zone, w: int, d: int, at: int, before: int, after: int) {
    forall t :: d - w <= t <= d + w ==> zone(t) - t == if t < at then before else after
  }

  /** The wall clock of the zone shows `d` at some instant. */
  ghost predicate Shown(zone: Zone, d: int) {
    exists t :: zone(t) == d
  }

  lemma {:induction false} RefineStaysNear(zone: Zone, w: int, d: int, instant: int, rounds: nat)
    requires w >= 0 && OffsetsWithin(zone, w) && d - w <= instant <= d + w
    ensures d - w <= Refine(zone, d, instant, rounds) <= d + w
    decreases rounds
  {
    if rounds > 0 {
      assert -w <= zone(instant) - instant <= w;
      RefineStaysNear(zone, w, d, instant + (d - zone(instant)), rounds - 1);
    }
  }

  /** With at most one change of offset nearby, the three rounds find an instant whose wall clock
      reads exactly `d`, unless the change skips `d`: then there is no such instant at all. */
  lemma RefineFindsMidnightIff(zone: Zone, w: int, d: int, at: int, before: int, after: int)
    requires OffsetsWithin(zone, w) && OneTransition(zone, w, d, at, before, after)
    ensures zone(Refine(zone, d, d, 3)) == d <==> Shown(zone, d)
  {
    if Shown(zone, d) {
      var s :| zone(s) == d;
      assert -w <= zone(s) - s <= w;
      var x1 := d + (d - zone(d));
      assert -w <= zone(d) - d <= w;
      assert d - w <= x1 <= d + w;
      var x2 := x1 + (d - zone(x1));
      assert -w <= zone(x1) - x1 <= w;
      assert zone(d) == d || zone(x1) == d || zone(x2) == d;
      assert Refine(zone, d, d, 3) == if zone(d) == d then d else Refine(zone, d, x1, 2);
      assert Refine(zone, d, x1, 2) == if zone(x1) == d then x1 else Refine(zone, d, x2, 1);
    }
  }

  /** Two changes of offset close together can defeat the search although midnight exists. */
  lemma TwoTransitionsCanFail(zone: Zone)
    requires forall t :: zone(t) == if t < -5400 then t + 7200 else if t < 0 then t else t + 3600
    ensures OffsetsWithin(zone, 7200)
    ensures zone(-7200) == 0 && zone(Refine(zone, 0, 0, 3)) != 0
  {
    assert zone(0) == 3600 && zone(-3600) == -3600;
    assert Refine(zone, 0, 0, 3) == Refine(zone, 0, -3600, 2) == Refine(zone, 0, 0, 1) == Refine(zone, 0, -3600, 0);
  }

  // ----- period windows -----

  function PeriodBounds(year: nat, month: nat, zone: Zone): (int, int)
    requires 1 <= month <= 12
  {
    var (ny, nm) := NextMonth(year, month);
    (LocalMidnight(year, month, zone), LocalMidnight(ny, nm, zone))
  }

  /** For offsets below two weeks a period's window [start, end) is non-empty, with the single
      exception of December of the year 99, and the next period starts where it ends. */
  lemma WindowNonEmptyIff(year: nat, month: nat, zone: Zone, w: int)
    requires 1 <= month <= 12
    requires 0 <= w < 14 * DAY && OffsetsWithin(zone, w)
    ensures var (start, end) := PeriodBounds(year, month, zone);
            var (ny, nm) := NextMonth(year, month);
            && (start < end <==> !(year == 99 && month == 12))
            && end == PeriodBounds(ny, nm, zone).0
  {
    var (ny, nm) := NextMonth(year, month);
    MonthLength(year, month);
    RefineStaysNear(zone, w, DateUtc(year, month, 1), DateUtc(year, month, 1), 3);
    RefineStaysNear(zone, w, DateUtc(ny, nm, 1), DateUtc(ny, nm, 1), 3);
  }

  lemma {:induction false} MonthsIncrease(f: (nat, nat) -> int, y1: nat, m1: nat, y2: nat, m2: nat)
    requires forall y: nat, m: nat :: y >= 100 && 1 <= m <= 12 ==> f(y, m) < f(NextMonth(y, m).0, NextMonth(y, m).1)
    requires 1 <= m1 <= 12 && 1 <= m2 <= 12
    requires 100 <= y1 && (y1 < y2 || (y1 == y2 && m1 <= m2))
    ensures f(y1, m1) <= f(y2, m2)
    decreases y2, m2
  {
    if y1 != y2 || m1 != m2 {
      var py, pm := if m2 == 1 then y2 - 1 else y2, if m2 == 1 then 12 else m2 - 1;
      MonthsIncrease(f, y1, m1, py, pm);
      assert f(py, pm) < f(NextMonth(py, pm).0, NextMonth(py, pm).1);
    }
  }

  /** Windows of different periods never overlap: the earlier period ends first. */
  lemma WindowsAreDisjoint(y1: nat, m1: nat, y2: nat, m2: nat, zone: Zone, w: int)
    requires 1 <= m1 <= 12 && 1 <= m2 <= 12
    requires 100 <= y1 && (y1 < y2 || (y1 == y2 && m1 < m2))
    requires 0 <= w < 14 * DAY && OffsetsWithin(zone, w)
    ensures PeriodBounds(y1, m1, zone).1 <= PeriodBounds(y2, m2, zone).0
  {
    var f := (y: nat, m: nat) => if 1 <= m <= 12 then LocalMidnight(y, m, zone) else 0;
    forall y: nat, m: nat | y >= 100 && 1 <= m <= 12 ensures f(y, m) < f(NextMonth(y, m).0, NextMonth(y, m).1) {
      WindowNonEmptyIff(y, m, zone, w);
    }
    var (ny, nm) := NextMonth(y1, m1);
    MonthsIncrease(f, ny, nm, y2, m2);
    assert f(ny, nm) == LocalMidnight(ny, nm, zone) && f(y2, m2) == LocalMidnight(y2, m2, zone);
  }

  /** Years below 100 share their windows with the twentieth century. */
  lemma TwoDigitYearsCollide(year: nat, month: nat, zone: Zone)
    requires 1 <= month <= 12 && (year < 99 || (year == 99 && month < 12))
    ensures PeriodBounds(year, month, zone) == PeriodBounds(1900 + year, month, zone)
  {
    var (ny, nm) := NextMonth(year, month);
    assert NextMonth(1900 + year, month) == (1900 + ny, nm);
    SameDate(year, month);
    SameDate(ny, nm);
  }

  lemma SameDate(year: nat, month: nat)
    requires year <= 99 && 1 <= month <= 12
    ensures DateUtc(year, month, 1) == DateUtc(1900 + year, month, 1)
  {
  }
}
