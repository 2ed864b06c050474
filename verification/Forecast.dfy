/** The cash-flow projection: recurring bills spread over a window, then one pass of running balances. */
module Forecast {
  import opened Outcomes
  import opened Decimals
  import opened Texts
  import opened Store
  import opened MoneyText
  import opened PeriodReviews

  const MAX_EVENTS_PER_BILL := 400

  /** One day of the window, in minor units. */
  datatype Point = Point(
    day: int,
    billExpense: int,
    oneOffIncome: int,
    oneOffExpense: int,
    income: int,
    expense: int,
    closing: int)

  // ---- recurring bills ----

  /** `billRecurrenceStep` in days, of a normalized frequency; an unrecognized schedule has no step. */
  function StepDays(frequency: string): (step: Option<nat>)
    ensures step.Some? ==> step.value > 0
  {
    if frequency in ["", "monthly", "month", "monthly_once"] then Some(30)
    else if frequency in ["weekly", "week"] then Some(7)
    else if frequency in ["fortnightly", "biweekly", "bi_weekly"] then Some(14)
    else if frequency in ["daily", "day"] then Some(1)
    else if frequency in ["quarterly", "quarter"] then Some(91)
    else if frequency in ["yearly", "annual", "annually", "year"] then Some(365)
    else None
  }

  /** The names of the schedules, in days. */
  const FREQUENCIES: map<string, nat> :=
    map["" := 30, "monthly" := 30, "month" := 30, "monthly_once" := 30, "weekly" := 7, "week" := 7,
        "fortnightly" := 14, "biweekly" := 14, "bi_weekly" := 14, "daily" := 1, "day" := 1,
        "quarterly" := 91, "quarter" := 91, "yearly" := 365, "annual" := 365, "annually" := 365, "year" := 365]

  datatype Bill = Bill(amount: int, due: int, frequency: string)

  function Step(b: Bill): (step: Option<nat>)
    ensures step.Some? ==> step.value > 0
  {
    StepDays(Lower(Trim(b.frequency)))
  }

  /** The instant of the `k`-th occurrence: `k` steps after the due instant. */
  function Occurrence(b: Bill, k: nat): int {
    if k == 0 || Step(b).None? then b.due else Occurrence(b, k - 1) + Step(b).value * SECONDS_PER_DAY
  }

  /** Whatever its letter case and the blanks around it, a named schedule recurs every so many days; no other does. */
  lemma FrequencyMeans(b: Bill, name: string)
    requires name in FREQUENCIES
    ensures SameText(Trim(b.frequency), name) ==> Step(b) == Some(FREQUENCIES[name])
    ensures Step(b).Some? ==> exists other | other in FREQUENCIES :: SameText(Trim(b.frequency), other)
  {
    var found := Lower(Trim(b.frequency));
    StepFromTable(found);
    NamesAreLower(name);
    LowerMeans(Trim(b.frequency), name);
    hide Trim, StepDays;
    if Step(b).Some? {
      NamesAreLower(found);
      LowerMeans(Trim(b.frequency), found);
    }
  }

  lemma NamesAreLower(name: string)
    requires name in FREQUENCIES
    ensures Lower(name) == name
  {
  }

  lemma StepFromTable(name: string)
    ensures StepDays(name) == if name in FREQUENCIES then Some(FREQUENCIES[name]) else None
  {
  }

  /** The occurrences of a scheduled bill are equally far apart. */
  lemma {:induction false} OccurrenceIs(b: Bill, k: nat)
    ensures Occurrence(b, k) == b.due + if Step(b).Some? then k * Step(b).value * 86_400 else 0
  {
    hide StepDays;
    if k > 0 && Step(b).Some? {
      OccurrenceIs(b, k - 1);
      assert k * Step(b).value == (k - 1) * Step(b).value + Step(b).value;
    }
  }

  predicate Projected(b: Bill) {
    0 < b.amount <= MAX_MONEY_MINOR
  }

  /** A bill falls on a day exactly when one of its first four hundred occurrences does. */
  ghost predicate FallsOn(b: Bill, day: int, within: nat) {
    exists k | 0 <= k < within :: (Step(b).Some? || k == 0) && CivilDay(Occurrence(b, k)) == day
  }

  lemma {:induction false} OccurrenceDays(b: Bill, k: nat)
    requires Step(b).Some?
    ensures CivilDay(Occurrence(b, k + 1)) == CivilDay(Occurrence(b, k)) + Step(b).value
  {
  }

  lemma {:induction false} LaterOccurrence(b: Bill, j: nat, k: nat)
    requires Step(b).Some? && j < k
    ensures CivilDay(Occurrence(b, j)) < CivilDay(Occurrence(b, k))
    decreases k
  {
    hide CivilDay, Occurrence, StepDays;
    OccurrenceDays(b, k - 1);
    if j < k - 1 {
      LaterOccurrence(b, j, k - 1);
    }
  }

  lemma Unseen(b: Bill, k: nat)
    ensures Step(b).Some? || k == 0 ==> !FallsOn(b, CivilDay(Occurrence(b, k)), k)
  {
    hide CivilDay, Occurrence, StepDays;
    if Step(b).Some? {
      forall j | 0 <= j < k ensures CivilDay(Occurrence(b, j)) != CivilDay(Occurrence(b, k)) {
        LaterOccurrence(b, j, k);
      }
    }
  }

  lemma OneMoreOccurrence(b: Bill, day: int, k: nat)
    ensures FallsOn(b, day, k + 1)
        <==> FallsOn(b, day, k) || ((Step(b).Some? || k == 0) && CivilDay(Occurrence(b, k)) == day)
  {
    hide CivilDay, Occurrence, StepDays;
  }

  /** A bill without a schedule has only its due date. */
  lemma DueDateOnly(b: Bill, day: int, k: nat)
    requires Step(b).None? && k > 0
    ensures FallsOn(b, day, k) <==> FallsOn(b, day, 1)
  {
    hide CivilDay, Occurrence, StepDays;
  }

  /** Once an occurrence has left the window, no later one returns to it. */
  lemma BeyondHorizon(b: Bill, day: int, end: int, k: nat)
    requires k <= MAX_EVENTS_PER_BILL && (Step(b).None? ==> k == 0)
    requires k == MAX_EVENTS_PER_BILL || CivilDay(Occurrence(b, k)) >= end
    requires day < end
    ensures FallsOn(b, day, k) <==> FallsOn(b, day, MAX_EVENTS_PER_BILL)
  {
    hide CivilDay, Occurrence, StepDays;
    forall j | k <= j < MAX_EVENTS_PER_BILL && (Step(b).Some? || j == 0) ensures CivilDay(Occurrence(b, j)) != day {
      if j > k { LaterOccurrence(b, k, j); }
    }
  }

  lemma DayBefore(instant: int, end: int)
    ensures instant < end * SECONDS_PER_DAY <==> CivilDay(instant) < end
  {
  }

  /** What some bills add to a day. */
  ghost function BilledOn(bills: seq<Bill>, day: int): int {
    if bills == [] then 0
    else
      var last := bills[|bills| - 1];
      BilledOn(bills[..|bills| - 1], day)
      + if 0 < last.amount <= 9_000_000_000_000_000 && FallsOn(last, day, 400) then last.amount else 0
  }

  predicate Window(points: seq<Point>, startDay: int) {
    forall i | 0 <= i < |points| :: points[i].day == startDay + i
  }

  /** A day with one bill's first occurrences written on it. */
  ghost function Billed(p: Point, b: Bill, day: int, within: nat): Point {
    p.(billExpense := p.billExpense + if FallsOn(b, day, within) then b.amount else 0)
  }

  /** The inner loop of `addForecastBills`: one bill's occurrences, written onto the days they fall on. */
  method AddBill(points: array<Point>, startDay: int, b: Bill) returns (r: Result<()>)
    requires Window(points[..], startDay) && Projected(b)
    modifies points
    ensures r.Ok? ==> forall i | 0 <= i < points.Length ::
              points[i] == Billed(old(points[i]), b, startDay + i, MAX_EVENTS_PER_BILL)
    ensures r.Err? ==> r.error == Overflow && exists i | 0 <= i < points.Length ::
              FallsOn(b, startDay + i, MAX_EVENTS_PER_BILL) && !FitsInt64(old(points[i]).billExpense + b.amount)
  {
    var occurrence, count := b.due, 0;
    var horizonEnd := (startDay + points.Length) * SECONDS_PER_DAY;
    ghost var first := points[..];
    hide CivilDay, StepDays;
    while occurrence < horizonEnd && count < MAX_EVENTS_PER_BILL
      invariant 0 <= count <= MAX_EVENTS_PER_BILL
      invariant Step(b).None? ==> count == 0
      invariant occurrence == Occurrence(b, count)
      invariant forall i | 0 <= i < points.Length ::
                  points[i] == Billed(first[i], b, startDay + i, count)
    {
      ghost var before := points[..];
      var day := CivilDay(occurrence);
      Unseen(b, count);
      DayBefore(occurrence, startDay + points.Length);
      hide FallsOn;
      if startDay <= day {
        var i := day - startDay;
        var sum := CheckedAdd(points[i].billExpense, b.amount);
        if sum.Err? {
          assert FallsOn(b, startDay + i, MAX_EVENTS_PER_BILL);
          assert !FitsInt64(first[i].billExpense + b.amount);
          return Err(Overflow);
        }
        points[i] := points[i].(billExpense := sum.value);
      }
      forall i | 0 <= i < points.Length
        ensures points[i] == Billed(first[i], b, startDay + i, count + 1)
      {
        OneMoreOccurrence(b, startDay + i, count);
        assert before[i] == Billed(first[i], b, startDay + i, count);
      }
      if Step(b).None? {
        forall i | 0 <= i < points.Length ensures points[i] == Billed(first[i], b, startDay + i, MAX_EVENTS_PER_BILL) {
          DueDateOnly(b, startDay + i, MAX_EVENTS_PER_BILL);
        }
        return Ok(());
      }
      occurrence := occurrence + Step(b).value * SECONDS_PER_DAY;
      count := count + 1;
    }
    forall i | 0 <= i < points.Length ensures points[i] == Billed(first[i], b, startDay + i, MAX_EVENTS_PER_BILL) {
      DayBefore(occurrence, startDay + points.Length);
      BeyondHorizon(b, startDay + i, startDay + points.Length, count);
    }
    return Ok(());
  }

  ghost function AllBilled(p: Point, bills: seq<Bill>, day: int): Point {
    p.(billExpense := p.billExpense + BilledOn(bills, day))
  }

  /** `addForecastBills`: every projectable bill; the others are skipped. */
  method AddBills(points: array<Point>, startDay: int, bills: seq<Bill>) returns (r: Result<()>)
    requires Window(points[..], startDay)
    modifies points
    ensures r.Ok? ==> forall i | 0 <= i < points.Length :: points[i] == AllBilled(old(points[i]), bills, startDay + i)
    ensures r.Err? ==> r.error == Overflow && exists n, i | 0 <= n <= |bills| && 0 <= i < points.Length ::
              !FitsInt64(AllBilled(old(points[i]), bills[..n], startDay + i).billExpense)
  {
    hide FallsOn, StepDays;
    ghost var first := points[..];
    for n := 0 to |bills|
      invariant forall i | 0 <= i < points.Length :: points[i] == AllBilled(first[i], bills[..n], startDay + i)
    {
      assert bills[..n + 1][..n] == bills[..n];
      if Projected(bills[n]) {
        ghost var before := points[..];
        var added := AddBill(points, startDay, bills[n]);
        if added.Err? {
          ghost var i :| 0 <= i < points.Length && FallsOn(bills[n], startDay + i, MAX_EVENTS_PER_BILL)
                         && !FitsInt64(before[i].billExpense + bills[n].amount);
          assert before[i] == AllBilled(first[i], bills[..n], startDay + i);
          assert !FitsInt64(AllBilled(first[i], bills[..n + 1], startDay + i).billExpense);
          return Err(Overflow);
        }
        assert forall i | 0 <= i < points.Length ::
          points[i] == Billed(before[i], bills[n], startDay + i, MAX_EVENTS_PER_BILL);
      }
    }
    assert bills[..|bills|] == bills;
    return Ok(());
  }

  // ---- the projection ----

  /** The daily averages, already switched off where the scenario says so. */
  datatype Baseline = Baseline(expense: int, income: int)

  function DayIncome(p: Point, b: Baseline): int {
    b.income + p.oneOffIncome
  }

  function DayExpense(p: Point, b: Baseline): int {
    p.billExpense + b.expense + p.oneOffExpense
  }

  function TotalIncome(points: seq<Point>, b: Baseline): int {
    if points == [] then 0 else TotalIncome(points[..|points| - 1], b) + DayIncome(points[|points| - 1], b)
  }

  function TotalExpense(points: seq<Point>, b: Baseline): int {
    if points == [] then 0 else TotalExpense(points[..|points| - 1], b) + DayExpense(points[|points| - 1], b)
  }

  /** The closing balance after some days: the start plus everything in, minus everything out. */
  function Closing(start: int, points: seq<Point>, b: Baseline): int {
    start + TotalIncome(points, b) - TotalExpense(points, b)
  }

  function NegativeDays(start: int, points: seq<Point>, b: Baseline): nat {
    if points == [] then 0
    else NegativeDays(start, points[..|points| - 1], b) + if Closing(start, points, b) < 0 then 1 else 0
  }

  datatype Projection = Projection(
    income: int, expense: int, net: int,
    lowest: int, lowestDay: Option<int>, firstNegative: Option<int>, negativeDays: int)

  /** Sums that are checked one by one: a day's, the running balance and the running totals. */
  predicate DayFits(start: int, points: seq<Point>, b: Baseline)
    requires points != []
  {
    var p := points[|points| - 1];
    && FitsInt64(p.billExpense + b.expense) && FitsInt64(DayExpense(p, b)) && FitsInt64(DayIncome(p, b))
    && FitsInt64(Closing(start, points, b)) && FitsInt64(TotalIncome(points, b)) && FitsInt64(TotalExpense(points, b))
  }

  /** 64-bit subtraction without a check. */
  function Minus64(x: int, y: int): int
    requires FitsInt64(x - y)
  {
    x - y
  }

  /**
   * `lowest` is the least of the start and all closings; its day is the first with that
   * closing, if below the start.
   */
  predicate LowestIs(start: int, points: seq<Point>, lowest: int, lowestDay: Option<int>) {
    && lowest <= start && (forall k | 0 <= k < |points| :: lowest <= points[k].closing)
    && (lowestDay.None? ==> lowest == start)
    && (lowestDay.Some? ==> lowest < start && exists k | 0 <= k < |points| ::
          && lowestDay.value == points[k].day && lowest == points[k].closing
          && forall j | 0 <= j < k :: lowest < points[j].closing)
  }

  predicate FirstNegativeIs(points: seq<Point>, day: Option<int>) {
    && (day.None? ==> forall k | 0 <= k < |points| :: 0 <= points[k].closing)
    && (day.Some? ==> exists k | 0 <= k < |points| ::
          day.value == points[k].day && points[k].closing < 0 && forall j | 0 <= j < k :: 0 <= points[j].closing)
  }

  /** Stored day sums are 64-bit and never negative: bills, planned items and averages are positive amounts added up. */
  predicate Payable(p: Point) {
    0 <= p.billExpense <= MAX_INT64 && 0 <= p.oneOffIncome <= MAX_INT64 && 0 <= p.oneOffExpense <= MAX_INT64
  }

  lemma AddChecks(x: int, y: int)
    requires FitsInt64(x) && FitsInt64(y)
    ensures CheckedAdd(x, y) == if FitsInt64(x + y) then Ok(x + y) else Err(Overflow)
  {
  }

  lemma NextDay(start: int, days: seq<Point>, b: Baseline, i: nat)
    requires i < |days|
    ensures TotalIncome(days[..i + 1], b) == TotalIncome(days[..i], b) + DayIncome(days[i], b)
    ensures TotalExpense(days[..i + 1], b) == TotalExpense(days[..i], b) + DayExpense(days[i], b)
    ensures NegativeDays(start, days[..i + 1], b)
            == NegativeDays(start, days[..i], b) + if Closing(start, days[..i + 1], b) < 0 then 1 else 0
  {
    assert days[..i + 1][..i] == days[..i];
  }

  /** The lowest balance so far and its first strictly lower day, one day further. */
  lemma NextLowest(start: int, points: seq<Point>, p: Point, lowest: int, lowestDay: Option<int>)
    requires LowestIs(start, points, lowest, lowestDay)
    ensures LowestIs(start, points + [p], if p.closing < lowest then p.closing else lowest,
                     if p.closing < lowest then Some(p.day) else lowestDay)
  {
    var next := points + [p];
    if p.closing >= lowest && lowestDay.Some? {
      var k :| 0 <= k < |points| && lowestDay.value == points[k].day && lowest == points[k].closing
               && forall j | 0 <= j < k :: lowest < points[j].closing;
      assert next[k] == points[k];
    } else if p.closing < lowest {
      assert next[|points|] == p;
    }
  }

  lemma NextNegative(points: seq<Point>, p: Point, day: Option<int>)
    requires FirstNegativeIs(points, day)
    ensures FirstNegativeIs(points + [p], if day.None? && p.closing < 0 then Some(p.day) else day)
  {
    var next := points + [p];
    if day.Some? {
      var k :| 0 <= k < |points| && day.value == points[k].day && points[k].closing < 0
               && forall j | 0 <= j < k :: 0 <= points[j].closing;
      assert next[k] == points[k];
    } else if p.closing < 0 {
      assert next[|points|] == p;
    }
  }

  /** One day of the pass: its sums, its closing balance and the new running totals, all checked. */
  method ProjectDay(p: Point, b: Baseline, running: int, totalIncome: int, totalExpense: int)
    returns (r: Result<(Point, int, int)>)
    requires Payable(p) && 0 <= b.income <= MAX_INT64 && 0 <= b.expense <= MAX_INT64
    requires FitsInt64(running) && FitsInt64(totalIncome) && FitsInt64(totalExpense)
    ensures r.Ok? <==>
            && FitsInt64(p.billExpense + b.expense) && FitsInt64(DayExpense(p, b)) && FitsInt64(DayIncome(p, b))
            && FitsInt64(running + DayIncome(p, b) - DayExpense(p, b))
            && FitsInt64(totalIncome + DayIncome(p, b)) && FitsInt64(totalExpense + DayExpense(p, b))
    ensures r.Ok? ==> r.value == (p.(income := DayIncome(p, b), expense := DayExpense(p, b),
                                     closing := running + DayIncome(p, b) - DayExpense(p, b)),
                                  totalIncome + DayIncome(p, b), totalExpense + DayExpense(p, b))
    ensures r.Err? ==> r.error == Overflow
  {
    hide CheckedAdd;
    AddChecks(p.billExpense, b.expense);
    var expense :- CheckedAdd(p.billExpense, b.expense);
    AddChecks(b.income, p.oneOffIncome);
    var income :- CheckedAdd(b.income, p.oneOffIncome);
    AddChecks(expense, p.oneOffExpense);
    expense :- CheckedAdd(expense, p.oneOffExpense);
    AddChecks(running, Minus64(income, expense));
    var closing :- CheckedAdd(running, Minus64(income, expense));
    AddChecks(totalIncome, income);
    var nextIncome :- CheckedAdd(totalIncome, income);
    AddChecks(totalExpense, expense);
    var nextExpense :- CheckedAdd(totalExpense, expense);
    return Ok((p.(income := income, expense := expense, closing := closing), nextIncome, nextExpense));
  }

  /**
   * The projection loop of `Forecast`. Every closing balance is the start plus
   * the prefix sum of what comes in minus what goes out; the lowest balance is
   * the least of the start and all closings, dated by its first strictly lower
   * day; the first negative day and the number of negative days are those of
   * the closings. It reports overflow exactly when a checked sum leaves the
   * 64-bit range; the two subtractions without a check never do.
   */
  method Project(points: array<Point>, start: int, b: Baseline) returns (r: Result<Projection>)
    requires FitsInt64(start) && 0 <= b.income <= MAX_INT64 && 0 <= b.expense <= MAX_INT64
    requires forall i | 0 <= i < points.Length :: Payable(points[i])
    modifies points
    ensures r.Ok? <==> forall n | 0 < n <= points.Length :: DayFits(start, old(points[..])[..n], b)
    ensures r.Err? ==> r.error == Overflow
    ensures r.Ok? ==> forall i | 0 <= i < points.Length ::
              points[i] == old(points[i]).(income := DayIncome(old(points[i]), b),
                expense := DayExpense(old(points[i]), b),
                                           closing := Closing(start, old(points[..])[..i + 1], b))
    ensures r.Ok? ==> var days := old(points[..]);
              && r.value.income == TotalIncome(days, b) && r.value.expense == TotalExpense(days, b)
              && r.value.net == r.value.income - r.value.expense
              && LowestIs(start, points[..], r.value.lowest, r.value.lowestDay)
              && FirstNegativeIs(points[..], r.value.firstNegative)
              && r.value.negativeDays == NegativeDays(start, days, b)
  {
    hide TotalIncome, TotalExpense, NegativeDays, LowestIs, FirstNegativeIs, DayIncome, DayExpense, FitsInt64;
    ghost var days := points[..];
    var running, totalIncome, totalExpense := start, 0, 0;
    var lowest, lowestDay, firstNegative, negativeDays := start, None, None, 0;
    NothingProjected(start, days[..0], b);
    assert points[..0] == days[..0];
    for i := 0 to points.Length
      invariant forall k | i <= k < points.Length :: points[k] == days[k]
      invariant forall k | 0 <= k < i :: points[k] == Done(days, k, start, b)
      invariant forall n | 0 < n <= i :: DayFits(start, days[..n], b)
      invariant running == Closing(start, days[..i], b) && FitsInt64(running)
      invariant totalIncome == TotalIncome(days[..i], b) && FitsInt64(totalIncome)
      invariant totalExpense == TotalExpense(days[..i], b) && FitsInt64(totalExpense)
      invariant LowestIs(start, points[..i], lowest, lowestDay)
      invariant FirstNegativeIs(points[..i], firstNegative)
      invariant negativeDays == NegativeDays(start, days[..i], b)
    {
      NextDay(start, days, b, i);
      assert days[..i + 1][|days[..i + 1]| - 1] == days[i];
      var day := ProjectDay(points[i], b, running, totalIncome, totalExpense);
      if day.Err? {
        assert !DayFits(start, days[..i + 1], b);
        return Err(Overflow);
      }
      NextLowest(start, points[..i], day.value.0, lowest, lowestDay);
      NextNegative(points[..i], day.value.0, firstNegative);
      points[i] := day.value.0;
      assert points[..i + 1] == points[..i] + [day.value.0];
      running, totalIncome, totalExpense := day.value.0.closing, day.value.1, day.value.2;
      if running < lowest {
        lowest, lowestDay := running, Some(points[i].day);
      }
      if running < 0 {
        negativeDays := negativeDays + 1;
        if firstNegative.None? {
          firstNegative := Some(points[i].day);
        }
      }
    }
    assert days[..points.Length] == days && points[..points.Length] == points[..];
    NetFits(days, b, totalIncome, totalExpense);
    return Ok(Projection(totalIncome, totalExpense, Minus64(totalIncome, totalExpense), lowest, lowestDay,
      firstNegative, negativeDays));
  }

  ghost function Done(days: seq<Point>, i: nat, start: int, b: Baseline): Point
    requires i < |days|
  {
    days[i].(income := DayIncome(days[i], b), expense := DayExpense(days[i], b),
      closing := Closing(start, days[..i + 1], b))
  }

  lemma NothingProjected(start: int, none: seq<Point>, b: Baseline)
    requires none == []
    ensures TotalIncome(none, b) == 0 && TotalExpense(none, b) == 0 && NegativeDays(start, none, b) == 0 && FitsInt64(0)
    ensures LowestIs(start, none, start, None) && FirstNegativeIs(none, None)
  {
  }

  lemma {:induction false} TotalsPayable(days: seq<Point>, b: Baseline)
    requires b.income >= 0 && b.expense >= 0 && forall i | 0 <= i < |days| :: Payable(days[i])
    ensures TotalIncome(days, b) >= 0 && TotalExpense(days, b) >= 0
  {
    if days != [] {
      TotalsPayable(days[..|days| - 1], b);
    }
  }

  /** The final net needs no check: both totals are 64-bit and not negative. */
  lemma NetFits(days: seq<Point>, b: Baseline, income: int, expense: int)
    requires b.income >= 0 && b.expense >= 0 && forall i | 0 <= i < |days| :: Payable(days[i])
    requires income == TotalIncome(days, b) && expense == TotalExpense(days, b) && FitsInt64(income)
        && FitsInt64(expense)
    ensures FitsInt64(income - expense)
  {
    TotalsPayable(days, b);
  }
}
