/** The synthetic monthly series served when the satellite API is unavailable. */
module Series {
  import opened Borsh

  // -------------------------------------------------------------- calendar

  predicate IsLeap(year: int) {
    year % 4 == 0 && (year % 100 != 0 || year % 400 == 0)
  }

  function DaysIn(year: int, month: int): (n: nat)
    requires 1 <= month <= 12
    ensures 28 <= n <= 31
  {
    if month == 2 then (if IsLeap(year) then 29 else 28)
    else if month == 4 || month == 6 || month == 9 || month == 11 then 30
    else 31
  }

  datatype YearMonthDay = YearMonthDay(year: int, month: int, day: int)

  predicate IsDate(d: YearMonthDay) {
    1 <= d.month <= 12 && 1 <= d.day <= DaysIn(d.year, d.month)
  }

  type Date = d: YearMonthDay | IsDate(d) witness YearMonthDay(1, 1, 1)

  function DaysBeforeYear(year: int): int {
    365 * (year - 1) + (year - 1) / 4 - (year - 1) / 100 + (year - 1) / 400
  }

  function DaysBeforeMonth(year: int, month: int): nat
    requires 1 <= month <= 12
  {
    if month == 1 then 0 else DaysBeforeMonth(year, month - 1) + DaysIn(year, month - 1)
  }

  /** Days since 1 January of year 1, in the proleptic Gregorian calendar. */
  function DayNumber(d: Date): int {
    DaysBeforeYear(d.year) + DaysBeforeMonth(d.year, d.month) + d.day - 1
  }

  predicate Before(a: Date, b: Date) {
    DayNumber(a) < DayNumber(b)
  }

  function NextMonth(year: int, month: int): (int, int)
    requires 1 <= month <= 12
    ensures 1 <= NextMonth(year, month).1 <= 12
  {
    if month == 12 then (year + 1, 1) else (year, month + 1)
  }

  /** `t.AddDate(0, 1, 0)`: the same day next month, any overflow rolling into the
      month after. */
  function AddMonth(d: Date): Date {
    var (y, m) := NextMonth(d.year, d.month);
    if d.day <= DaysIn(y, m) then YearMonthDay(y, m, d.day)
    else var (y', m') := NextMonth(y, m); YearMonthDay(y', m', d.day - DaysIn(y, m))
  }

  lemma Quarters(year: int)
    ensures year / 4 - (year - 1) / 4 == if year % 4 == 0 then 1 else 0
  {
  }

  lemma Centuries(year: int)
    ensures year / 100 - (year - 1) / 100 == if year % 100 == 0 then 1 else 0
    ensures year % 100 == 0 ==> year % 4 == 0
  {
    assert year % 100 == 0 ==> year == 4 * (25 * (year / 100));
  }

  lemma Cycles(year: int)
    ensures year / 400 - (year - 1) / 400 == if year % 400 == 0 then 1 else 0
    ensures year % 400 == 0 ==> year % 100 == 0
  {
    assert year % 400 == 0 ==> year == 100 * (4 * (year / 400));
  }

  lemma NextYear(year: int)
    ensures DaysBeforeYear(year + 1) == DaysBeforeYear(year) + 337 + DaysIn(year, 2)
  {
    Quarters(year);
    Centuries(year);
    Cycles(year);
  }

  lemma December(year: int)
    ensures DaysBeforeMonth(year, 12) + 31 == 337 + DaysIn(year, 2)
  {
    assert DaysBeforeMonth(year, 2) == 31;
    assert DaysBeforeMonth(year, 3) == 31 + DaysIn(year, 2);
    assert DaysBeforeMonth(year, 5) == 92 + DaysIn(year, 2);
    assert DaysBeforeMonth(year, 7) == 153 + DaysIn(year, 2);
    assert DaysBeforeMonth(year, 9) == 215 + DaysIn(year, 2);
    assert DaysBeforeMonth(year, 11) == 276 + DaysIn(year, 2);
  }

  /** On which day of the year, counted from 0, each month starts. */
  lemma MonthStarts(year: int)
    ensures var leap := if IsLeap(year) then 1 else 0;
            && DaysBeforeMonth(year, 1) == 0 && DaysBeforeMonth(year, 2) == 31
            && DaysBeforeMonth(year, 3) == 59 + leap && DaysBeforeMonth(year, 4) == 90 + leap
            && DaysBeforeMonth(year, 5) == 120 + leap && DaysBeforeMonth(year, 6) == 151 + leap
            && DaysBeforeMonth(year, 7) == 181 + leap && DaysBeforeMonth(year, 8) == 212 + leap
            && DaysBeforeMonth(year, 9) == 243 + leap && DaysBeforeMonth(year, 10) == 273 + leap
            && DaysBeforeMonth(year, 11) == 304 + leap && DaysBeforeMonth(year, 12) == 334 + leap
  {
    assert DaysBeforeMonth(year, 3) == DaysBeforeMonth(year, 2) + DaysIn(year, 2);
    assert DaysBeforeMonth(year, 4) == DaysBeforeMonth(year, 3) + DaysIn(year, 3);
    assert DaysBeforeMonth(year, 5) == DaysBeforeMonth(year, 4) + DaysIn(year, 4);
    assert DaysBeforeMonth(year, 6) == DaysBeforeMonth(year, 5) + DaysIn(year, 5);
    assert DaysBeforeMonth(year, 7) == DaysBeforeMonth(year, 6) + DaysIn(year, 6);
    assert DaysBeforeMonth(year, 8) == DaysBeforeMonth(year, 7) + DaysIn(year, 7);
    assert DaysBeforeMonth(year, 9) == DaysBeforeMonth(year, 8) + DaysIn(year, 8);
    assert DaysBeforeMonth(year, 10) == DaysBeforeMonth(year, 9) + DaysIn(year, 9);
    assert DaysBeforeMonth(year, 11) == DaysBeforeMonth(year, 10) + DaysIn(year, 10);
    assert DaysBeforeMonth(year, 12) == DaysBeforeMonth(year, 11) + DaysIn(year, 11);
  }

  /** A cycle of four hundred years has 146097 days, so the calendar repeats. */
  lemma CycleDays(year: int)
    ensures DaysBeforeYear(year + 400) == DaysBeforeYear(year) + 146097
    ensures IsLeap(year + 400) <==> IsLeap(year)
  {
    var y := year - 1;
    assert (y + 400) / 4 == y / 4 + 100;
    assert (y + 400) / 100 == y / 100 + 4;
    assert (y + 400) / 400 == y / 400 + 1;
    assert (year + 400) % 4 == year % 4;
    assert (year + 400) % 100 == year % 100;
    assert (year + 400) % 400 == year % 400;
  }

  function FirstOf(year: int, month: int): int
    requires 1 <= month <= 12
  {
    DaysBeforeYear(year) + DaysBeforeMonth(year, month)
  }

  lemma NextMonthFollows(year: int, month: int)
    requires 1 <= month <= 12
    ensures var (y, m) := NextMonth(year, month);
            FirstOf(y, m) == FirstOf(year, month) + DaysIn(year, month)
  {
    if month == 12 {
      December(year);
      NextYear(year);
    }
  }

  /** A month later is always as many days later as the starting month has. */
  lemma AddMonthLasts(d: Date)
    ensures DayNumber(AddMonth(d)) == DayNumber(d) + DaysIn(d.year, d.month)
  {
    var (y, m) := NextMonth(d.year, d.month);
    NextMonthFollows(d.year, d.month);
    NextMonthFollows(y, m);
  }

  predicate Earlier(a: Date, b: Date) {
    a.year < b.year
    || (a.year == b.year && (a.month < b.month || (a.month == b.month && a.day < b.day)))
  }

  lemma {:induction false} LaterMonth(year: int, m: int, n: int)
    requires 1 <= m < n <= 12
    ensures DaysBeforeMonth(year, m) + DaysIn(year, m) <= DaysBeforeMonth(year, n)
    decreases n
  {
    if m < n - 1 {
      LaterMonth(year, m, n - 1);
    }
  }

  lemma {:induction false} LaterYear(y: int, z: int)
    requires y < z
    ensures DaysBeforeYear(y) + 337 + DaysIn(y, 2) <= DaysBeforeYear(z)
    decreases z - y
  {
    NextYear(z - 1);
    if y < z - 1 {
      LaterYear(y, z - 1);
    }
  }

  lemma EarlierImpliesBefore(a: Date, b: Date)
    requires Earlier(a, b)
    ensures Before(a, b)
  {
    if a.year < b.year {
      LaterYear(a.year, b.year);
      December(a.year);
      if a.month < 12 {
        LaterMonth(a.year, a.month, 12);
      }
    } else if a.month < b.month {
      LaterMonth(a.year, a.month, b.month);
    }
  }

  /** Day numbers order dates as the calendar does, and tell them apart. */
  lemma BeforeIsEarlier(a: Date, b: Date)
    ensures Before(a, b) <==> Earlier(a, b)
    ensures DayNumber(a) == DayNumber(b) <==> a == b
  {
    if Earlier(a, b) {
      EarlierImpliesBefore(a, b);
    } else if Earlier(b, a) {
      EarlierImpliesBefore(b, a);
    }
  }

  // ---------------------------------------------------------------- series

  datatype Interval = Interval(ndvi: real, ndwi: real, evi: real, lai: real, cloudFreePct: real, sampleCount: int,
                               periodStart: Date, periodEnd: Date)

  type SeasonalNdvi = map<Bytes, (real, real, real, real)>

  function MonthToSeason(month: int): int {
    if 3 <= month <= 5 then 0
    else if 6 <= month <= 8 then 1
    else if 9 <= month <= 11 then 2
    else 3
  }

  function SeasonalOffset(season: int): real
    requires 0 <= season < 4
  {
    [0.02, 0.08, 0.0, -0.10][season]
  }

  function EstimateLai(ndvi: real, exp: real -> real): real {
    if ndvi <= 0.0 then 0.0
    else
      var lai := 0.57 * exp(2.33 * ndvi);
      if lai > 8.0 then 8.0 else lai
  }

  /** Whatever non-negative function stands for `exp`, the estimate is in [0, 8],
      and it grows with the index when `exp` does. */
  lemma LaiClamped(x: real, y: real, exp: real -> real)
    requires x <= y && forall a: real :: exp(a) >= 0.0
    requires forall a: real, b: real :: a <= b ==> exp(a) <= exp(b)
    ensures 0.0 <= EstimateLai(x, exp) <= EstimateLai(y, exp) <= 8.0
  {
    assert exp(2.33 * x) <= exp(2.33 * y);
  }

  function BaseNdvi(cadastral: Bytes, known: SeasonalNdvi): real {
    if cadastral in known then
      var v := known[cadastral]; (v.0 + v.1 + v.2 + v.3) / 4.0
    else 0.65
  }

  /** The readings served for a period starting in a given month. */
  ghost predicate SeasonalReadings(iv: Interval, base: real, exp: real -> real) {
    var season := MonthToSeason(iv.periodStart.month);
    && iv.ndvi == base + SeasonalOffset(season)
    && iv.ndwi == -0.15 + SeasonalOffset(season) * 0.5
    && iv.evi == iv.ndvi * 0.85
    && iv.lai == EstimateLai(iv.ndvi, exp)
    && iv.cloudFreePct == 70.0 + season as real * 5.0
    && iv.sampleCount == 150 + season * 20
  }

  ghost predicate LastsItsMonth(iv: Interval) {
    DayNumber(iv.periodEnd) == DayNumber(iv.periodStart) + DaysIn(iv.periodStart.year, iv.periodStart.month)
  }

  /** The periods follow one another from `start`, each lasting as many days as
      its starting month. */
  ghost predicate Consecutive(ivs: seq<Interval>, start: Date) {
    Joined(ivs, start) && forall i :: 0 <= i < |ivs| ==> LastsItsMonth(ivs[i])
  }

  ghost predicate Joined(ivs: seq<Interval>, start: Date) {
    && (ivs != [] ==> ivs[0].periodStart == start)
    && forall i :: 0 < i < |ivs| ==> ivs[i].periodStart == ivs[i - 1].periodEnd
  }

  /** Every period starts before `end` and carries its month's readings. */
  ghost predicate Filled(ivs: seq<Interval>, end: Date, base: real, exp: real -> real) {
    forall i :: 0 <= i < |ivs| ==> Before(ivs[i].periodStart, end) && SeasonalReadings(ivs[i], base, exp)
  }

  lemma Appended(ivs: seq<Interval>, iv: Interval, start: Date)
    requires Consecutive(ivs, start) && LastsItsMonth(iv)
    requires iv.periodStart == if ivs == [] then start else ivs[|ivs| - 1].periodEnd
    ensures Consecutive(ivs + [iv], start)
  {
    JoinedOne(ivs, iv, start);
    forall i | 0 <= i < |ivs + [iv]|
      ensures LastsItsMonth((ivs + [iv])[i])
    {
    }
  }

  lemma JoinedOne(ivs: seq<Interval>, iv: Interval, start: Date)
    requires Joined(ivs, start) && iv.periodStart == if ivs == [] then start else ivs[|ivs| - 1].periodEnd
    ensures Joined(ivs + [iv], start)
  {
  }

  lemma FilledOne(ivs: seq<Interval>, iv: Interval, end: Date, base: real, exp: real -> real)
    requires Filled(ivs, end, base, exp) && Before(iv.periodStart, end) && SeasonalReadings(iv, base, exp)
    ensures Filled(ivs + [iv], end, base, exp)
  {
  }

  method FallbackTimeSeries(cadastral: Bytes, start: Date, end: Date, known: SeasonalNdvi, exp: real -> real)
      returns (ivs: seq<Interval>)
    ensures ivs == [] <==> !Before(start, end)
    ensures Consecutive(ivs, start) && Filled(ivs, end, BaseNdvi(cadastral, known), exp)
    ensures ivs != [] ==> !Before(ivs[|ivs| - 1].periodEnd, end)
    ensures Chained(Spans(ivs)) && (ivs != [] ==> Spans(ivs)[0].0 == DayNumber(start))
  {
    ivs := [];
    var baseNdvi := 0.65;
    if cadastral in known {
      var vals := known[cadastral];
      baseNdvi := (vals.0 + vals.1 + vals.2 + vals.3) / 4.0;
    }
    var t := start;
    while Before(t, end)
      invariant t == if ivs == [] then start else ivs[|ivs| - 1].periodEnd
      invariant ivs != [] ==> Before(start, end)
      invariant Consecutive(ivs, start) && Filled(ivs, end, baseNdvi, exp)
      decreases DayNumber(end) - DayNumber(t)
    {
      AddMonthLasts(t);
      var iv := Readings(t, AddMonth(t), baseNdvi, exp);
      Appended(ivs, iv, start);
      FilledOne(ivs, iv, end, baseNdvi, exp);
      ivs := ivs + [iv];
      t := AddMonth(t);
    }
    ConsecutiveChained(ivs, start);
  }

  /** The loop body's readings for the period from t to next. */
  method Readings(t: Date, next: Date, baseNdvi: real, exp: real -> real) returns (iv: Interval)
    ensures iv.periodStart == t && iv.periodEnd == next && SeasonalReadings(iv, baseNdvi, exp)
  {
    var season := MonthToSeason(t.month);
    var ndvi := baseNdvi + SeasonalOffset(season);
    var ndwi := -0.15 + SeasonalOffset(season) * 0.5;
    var evi := ndvi * 0.85;
    iv := Interval(ndvi, ndwi, evi, EstimateLai(ndvi, exp), 70.0 + season as real * 5.0, 150 + season * 20, t, next);
  }

  /** A period as the days it covers: from the first number up to the second. */
  type Span = (int, int)

  function Spans(ivs: seq<Interval>): seq<Span> {
    seq(|ivs|, i requires 0 <= i < |ivs| => (DayNumber(ivs[i].periodStart), DayNumber(ivs[i].periodEnd)))
  }

  predicate Covers(p: Span, day: int) {
    p.0 <= day < p.1
  }

  ghost predicate Chained(ps: seq<Span>) {
    (forall i :: 0 <= i < |ps| ==> ps[i].0 < ps[i].1) && forall i :: 0 < i < |ps| ==> ps[i].0 == ps[i - 1].1
  }

  lemma ConsecutiveChained(ivs: seq<Interval>, start: Date)
    requires Consecutive(ivs, start)
    ensures Chained(Spans(ivs))
  {
    forall i | 0 <= i < |ivs|
      ensures Spans(ivs)[i].0 < Spans(ivs)[i].1
    {
      assert LastsItsMonth(ivs[i]);
    }
  }

  lemma {:induction false} LaterSpan(ps: seq<Span>, i: nat, j: nat)
    requires Chained(ps) && i < j < |ps|
    ensures ps[i].1 <= ps[j].0
    decreases j
  {
    if i < j - 1 {
      LaterSpan(ps, i, j - 1);
    }
  }

  /** Chained periods tile time: every day from the start of the first to the end
      of the last lies in exactly one of them. */
  lemma {:induction false} EveryDayOnce(ps: seq<Span>, day: int) returns (k: nat)
    requires Chained(ps) && ps != [] && ps[0].0 <= day < ps[|ps| - 1].1
    ensures k < |ps| && Covers(ps[k], day)
    ensures forall i :: 0 <= i < |ps| && Covers(ps[i], day) ==> i == k
  {
    k := |ps| - 1;
    while day < ps[k].0
      invariant k < |ps| && day < ps[k].1
    {
      assert k > 0;
      k := k - 1;
    }
    forall i | 0 <= i < |ps| && Covers(ps[i], day)
      ensures i == k
    {
      if i < k {
        LaterSpan(ps, i, k);
      } else if k < i {
        LaterSpan(ps, k, i);
      }
    }
  }

  // ------------------------------------------------------- what the periods show

  /** The readings of a period by the month it starts in: spring, summer, autumn
      and winter. */
  lemma SeasonTable(iv: Interval, base: real, exp: real -> real)
    requires SeasonalReadings(iv, base, exp)
    ensures var m := iv.periodStart.month;
            && (m in {3, 4, 5} ==> iv.ndvi == base + 0.02 && iv.ndwi == -0.14 && iv.cloudFreePct == 70.0 && iv.sampleCount == 150)
            && (m in {6, 7, 8} ==> iv.ndvi == base + 0.08 && iv.ndwi == -0.11 && iv.cloudFreePct == 75.0 && iv.sampleCount == 170)
            && (m in {9, 10, 11} ==> iv.ndvi == base && iv.ndwi == -0.15 && iv.cloudFreePct == 80.0 && iv.sampleCount == 190)
            && (m in {12, 1, 2} ==> iv.ndvi == base - 0.10 && iv.ndwi == -0.20 && iv.cloudFreePct == 85.0 && iv.sampleCount == 210)
    ensures 100.0 * iv.evi == 85.0 * iv.ndvi
    ensures iv.ndvi <= 0.0 ==> iv.lai == 0.0
    ensures iv.ndvi > 0.0 && 57.0 * exp(2.33 * iv.ndvi) <= 800.0 ==> 100.0 * iv.lai == 57.0 * exp(2.33 * iv.ndvi)
    ensures iv.ndvi > 0.0 && 57.0 * exp(2.33 * iv.ndvi) > 800.0 ==> iv.lai == 8.0
  {
  }

  /** An unknown parcel has the base 0.65, a known one the mean of its four values. */
  lemma BaseOf(cadastral: Bytes, known: SeasonalNdvi)
    ensures cadastral !in known ==> BaseNdvi(cadastral, known) == 0.65
    ensures cadastral in known ==>
              var v := known[cadastral]; 4.0 * BaseNdvi(cadastral, known) == v.0 + v.1 + v.2 + v.3
  {
  }

  /** The month i months on, within a year. */
  function MonthAfter(month: int, i: nat): (m: int)
    requires 1 <= month <= 12 && i < 12
    ensures 1 <= m <= 12
  {
    if month + i > 12 then month + i - 12 else month + i
  }

  /** From a day that every month has, the i-th period starts i months on, on the
      same day. */
  lemma {:induction false} MonthsAdvance(ivs: seq<Interval>, start: Date, i: nat)
    requires Consecutive(ivs, start) && i < |ivs| && i < 12 && start.day <= 28
    ensures ivs[i].periodStart.month == MonthAfter(start.month, i) && ivs[i].periodStart.day == start.day
  {
    if i > 0 {
      MonthsAdvance(ivs, start, i - 1);
      EndsAMonthOn(ivs[i - 1]);
    }
  }

  lemma EndsAMonthOn(iv: Interval)
    requires LastsItsMonth(iv) && iv.periodStart.day <= 28
    ensures iv.periodEnd.month == NextMonth(iv.periodStart.year, iv.periodStart.month).1
    ensures iv.periodEnd.day == iv.periodStart.day
  {
    AddMonthLasts(iv.periodStart);
    BeforeIsEarlier(iv.periodEnd, AddMonth(iv.periodStart));
  }

  /** A month's seasonal offset in hundredths. */
  function Hundredths(month: int): int {
    if 3 <= month <= 5 then 2 else if 6 <= month <= 8 then 8 else if 9 <= month <= 11 then 0 else -10
  }

  lemma HundredthsCancel(m: int)
    requires 1 <= m <= 12
    ensures Hundredths(MonthAfter(m, 0)) + Hundredths(MonthAfter(m, 1)) + Hundredths(MonthAfter(m, 2))
            + Hundredths(MonthAfter(m, 3)) + Hundredths(MonthAfter(m, 4)) + Hundredths(MonthAfter(m, 5))
            + Hundredths(MonthAfter(m, 6)) + Hundredths(MonthAfter(m, 7)) + Hundredths(MonthAfter(m, 8))
            + Hundredths(MonthAfter(m, 9)) + Hundredths(MonthAfter(m, 10)) + Hundredths(MonthAfter(m, 11)) == 0
  {
  }

  lemma MonthShows(ivs: seq<Interval>, start: Date, end: Date, base: real, exp: real -> real, i: nat)
    requires Consecutive(ivs, start) && Filled(ivs, end, base, exp) && i < |ivs| && i < 12 && start.day <= 28
    ensures 100.0 * ivs[i].ndvi == 100.0 * base + Hundredths(MonthAfter(start.month, i)) as real
  {
    MonthsAdvance(ivs, start, i);
    SeasonTable(ivs[i], base, exp);
  }

  /** The seasons cancel over a year: whatever month it starts in, the mean of the
      vegetation index over twelve consecutive periods is the base. */
  lemma YearAveragesBase(ivs: seq<Interval>, start: Date, end: Date, base: real, exp: real -> real)
    requires |ivs| == 12 && start.day <= 28 && Consecutive(ivs, start) && Filled(ivs, end, base, exp)
    ensures ivs[0].ndvi + ivs[1].ndvi + ivs[2].ndvi + ivs[3].ndvi + ivs[4].ndvi + ivs[5].ndvi + ivs[6].ndvi
            + ivs[7].ndvi + ivs[8].ndvi + ivs[9].ndvi + ivs[10].ndvi + ivs[11].ndvi == 12.0 * base
  {
    forall i | 0 <= i < 12
      ensures 100.0 * ivs[i].ndvi == 100.0 * base + Hundredths(MonthAfter(start.month, i)) as real
    {
      MonthShows(ivs, start, end, base, exp, i);
    }
    HundredthsCancel(start.month);
  }
}
