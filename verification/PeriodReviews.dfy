/**
 * Period reviews: captured totals with a ledger-version cutoff, the summary of
 * later revisions, and the chain of checkpoints of one period.
 */
module PeriodReviews {
  import opened Outcomes
  import opened MoneyText
  import opened Store
  import opened Sums
  import opened Revisions

  // ---- 64-bit arithmetic on totals ----

  const MAX_INT64: int := 0x7fff_ffff_ffff_ffff
  const MIN_INT64: int := -0x8000_0000_0000_0000

  predicate FitsInt64(x: int) {
    MIN_INT64 <= x <= MAX_INT64
  }

  predicate Fits(t: Totals) {
    FitsInt64(t.income) && FitsInt64(t.spending) && FitsInt64(t.net) && FitsInt64(t.count)
  }

  /** `checkedPeriodAdd`: the guards themselves stay inside the 64-bit range. */
  function CheckedAdd(left: int, right: int): Result<int> {
    if (right > 0 && left > MAX_INT64 - right) || (right < 0 && left < MIN_INT64 - right) then Err(Overflow)
    else Ok(left + right)
  }

  /** `addPeriodTotals` */
  function AddTotals(total: Totals, delta: Totals): Result<Totals> {
    var income :- CheckedAdd(total.income, delta.income);
    var spending :- CheckedAdd(total.spending, delta.spending);
    var net :- CheckedAdd(total.net, delta.net);
    var count :- CheckedAdd(total.count, delta.count);
    Ok(Totals(income, spending, net, count))
  }

  /** `subtractPeriodTotals`: refuses what it cannot negate. */
  function SubtractTotals(after: Totals, before: Totals): Result<Totals> {
    if before.income == MIN_INT64 || before.spending == MIN_INT64 || before.net == MIN_INT64
      || before.count == MIN_INT64
    then Err(Overflow)
    else AddTotals(after, Totals(-before.income, -before.spending, -before.net, -before.count))
  }

  /** Checked addition fails exactly when the true sum leaves the 64-bit range. */
  lemma AddTotalsChecks(total: Totals, delta: Totals)
    requires Fits(total) && Fits(delta)
    ensures AddTotals(total, delta) == if Fits(Plus(total, delta)) then Ok(Plus(total, delta)) else Err(Overflow)
  {
  }

  // ---- the revision summary ----

  /** The number of relevant events after the cutoff. */
  function ChangeCount(lens: Lens, events: seq<Event>, cutoff: int): nat {
    if events == [] then 0
    else
      var last := events[|events| - 1];
      ChangeCount(lens, events[..|events| - 1], cutoff)
      + if last.version > cutoff && RelevantEvent(lens, last) then 1 else 0
  }

  /**
   * The aggregation pipeline: unbounded decimal sums of the relevant events,
   * the net as their difference, and one range check when the result is read.
   */
  function Summary(lens: Lens, events: seq<Event>, cutoff: int): Result<(Totals, int)> {
    if lens.vaultIds == {} || lens.accountIds == {} then Ok((NO_TOTALS, 0))
    else
      var sums := DeltaSum(lens, events, cutoff);
      var totals := Totals(sums.income, sums.spending, sums.income - sums.spending, sums.count);
      var changes := ChangeCount(lens, events, cutoff);
      if Fits(totals) && FitsInt64(changes) then Ok((totals, changes)) else Err(Overflow)
  }

  predicate StorableSide(side: Option<Revision>) {
    side.Some? ==> 0 <= side.value.amount <= MAX_MONEY_MINOR
  }

  predicate Storable(e: Event) {
    StorableSide(e.before) && StorableSide(e.after)
  }

  lemma {:induction false} NetIsDifference(lens: Lens, events: seq<Event>, cutoff: int)
    ensures var sums := DeltaSum(lens, events, cutoff); sums.net == sums.income - sums.spending
  {
    if events != [] {
      NetIsDifference(lens, events[..|events| - 1], cutoff);
    }
  }

  lemma EventDeltaChecks(lens: Lens, e: Event)
    requires Storable(e)
    ensures Fits(EventDelta(lens, e))
    ensures SubtractTotals(SideTotals(Relevant(lens), e.after), SideTotals(Relevant(lens), e.before))
        == Ok(EventDelta(lens, e))
    ensures !RelevantEvent(lens, e) ==> EventDelta(lens, e) == NO_TOTALS
  {
  }

  /**
   * The event loop of the non-aggregating store. Whenever it reports no
   * overflow, neither does the pipeline, and both report the same totals.
   */
  method SummarizeEvents(lens: Lens, events: seq<Event>, cutoff: int) returns (r: Result<(Totals, int)>)
    requires forall e | e in events :: Storable(e)
    requires FitsInt64(|events|)
    ensures r.Ok? ==> r == Summary(lens, events, cutoff)
    ensures r.Err? ==> r.error == Overflow && exists k | 0 <= k <= |events| ::
        !Fits(DeltaSum(lens, events[..k], cutoff))
  {
    hide AddTotals, SubtractTotals, SideTotals, EventDelta, RelevantEvent, DeltaSum, ChangeCount;
    assert events[..|events|] == events;
    if lens.vaultIds == {} || lens.accountIds == {} {
      return Ok((NO_TOTALS, 0));
    }
    var totals, changes := NO_TOTALS, 0;
    NothingSummed(lens, events, cutoff);
    for i := 0 to |events|
      invariant totals == DeltaSum(lens, events[..i], cutoff) && Fits(totals)
      invariant changes == ChangeCount(lens, events[..i], cutoff) && changes <= i
    {
      var e := events[i];
      EventDeltaChecks(lens, e);
      OneMoreEvent(lens, events, i, cutoff);
      if e.version > cutoff && RelevantEvent(lens, e) {
        var delta := SubtractTotals(SideTotals(Relevant(lens), e.after), SideTotals(Relevant(lens), e.before));
        AddTotalsChecks(totals, delta.value);
        var sum := AddTotals(totals, delta.value);
        if sum.Err? {
          return Err(Overflow);
        }
        totals, changes := sum.value, changes + 1;
      }
    }
    NetIsDifference(lens, events, cutoff);
    return Ok((totals, changes));
  }

  lemma NothingSummed(lens: Lens, events: seq<Event>, cutoff: int)
    ensures DeltaSum(lens, events[..0], cutoff) == NO_TOTALS && ChangeCount(lens, events[..0], cutoff) == 0
  {
  }

  lemma OneMoreEvent(lens: Lens, events: seq<Event>, i: nat, cutoff: int)
    requires i < |events|
    ensures DeltaSum(lens, events[..i + 1], cutoff)
            == var sum := DeltaSum(lens, events[..i], cutoff);
               if events[i].version > cutoff then Plus(sum, EventDelta(lens, events[i])) else sum
    ensures ChangeCount(lens, events[..i + 1], cutoff)
            == ChangeCount(lens, events[..i], cutoff)
               + if events[i].version > cutoff && RelevantEvent(lens, events[i]) then 1 else 0
  {
    assert events[..i + 1][..i] == events[..i];
  }

  lemma {:induction false} ChangesAreWitnessed(lens: Lens, events: seq<Event>, cutoff: int)
    ensures ChangeCount(lens, events, cutoff) > 0 <==> exists e | e in events ::
        e.version > cutoff && RelevantEvent(lens, e)
  {
    if events != [] {
      var rest, last := events[..|events| - 1], events[|events| - 1];
      ChangesAreWitnessed(lens, rest, cutoff);
      assert forall e :: e in events <==> e in rest || e == last;
    }
  }

  // ---- snapshot plus deltas ----

  /** `periodSnapshotTotals`: nothing in scope, nothing counted; otherwise summed and range-checked. */
  ghost function SnapshotTotals(images: map<Id, Revision>, lens: Lens): Result<Totals> {
    if lens.vaultIds == {} || lens.accountIds == {} then Ok(NO_TOTALS)
    else
      var totals := Tally(images, Queried(lens));
      if Fits(totals) then Ok(totals) else Err(Overflow)
  }

  lemma SnapshotIsTally(images: map<Id, Revision>, lens: Lens)
    requires SnapshotTotals(images, lens).Ok?
    ensures SnapshotTotals(images, lens).value == Tally(images, Queried(lens))
  {
    if lens.vaultIds == {} || lens.accountIds == {} {
      forall m: Metric ensures Sum(images, Measure(Queried(lens), m)) == 0 {
        SumZero(images, Measure(Queried(lens), m));
      }
    }
  }

  lemma {:induction false} SumZero<K(!new), V(!new)>(state: map<K, V>, f: V -> int)
    requires forall k | k in state :: f(state[k]) == 0
    ensures Sum(state, f) == 0
    decreases |state|
  {
    if state != map[] {
      var k :| k in state;
      SumRemove(state, k, f);
      SumZero(state - {k}, f);
    }
  }

  /**
   * Snapshot plus deltas, exactly: the captured totals plus the deltas of later
   * revisions miss the live totals by what became hidden since the cutoff, that
   * is, by the totals of queried transactions whose destination is out of scope.
   */
  lemma SnapshotPlusDeltas(base: map<Id, Revision>, events: seq<Event>, lens: Lens, cutoff: int)
    requires Increasing(events) && Chained(base, events)
    ensures var now, then_ := Replay(base, events), Replay(base, UpTo(events, cutoff));
            Plus(Plus(Tally(then_, Queried(lens)), DeltaSum(lens, events, cutoff)), Tally(now, Hidden(lens)))
            == Plus(Tally(now, Queried(lens)), Tally(then_, Hidden(lens)))
  {
    hide Tally, DeltaSum;
    DeltasTelescope(base, events, lens, cutoff);
    QueriedSplits(Replay(base, events), lens);
    QueriedSplits(Replay(base, UpTo(events, cutoff)), lens);
  }

  /** So the deltas bring the snapshot to the live totals if and only if the hidden totals did not move. */
  lemma SnapshotPlusDeltasIsLive(base: map<Id, Revision>, events: seq<Event>, lens: Lens, cutoff: int)
    requires Increasing(events) && Chained(base, events)
    ensures var now, then_ := Replay(base, events), Replay(base, UpTo(events, cutoff));
            Plus(Tally(then_, Queried(lens)), DeltaSum(lens, events, cutoff)) == Tally(now, Queried(lens))
            <==> Tally(now, Hidden(lens)) == Tally(then_, Hidden(lens))
  {
    hide Tally, DeltaSum, Replay, UpTo;
    SnapshotPlusDeltas(base, events, lens, cutoff);
  }

  predicate DestinationsInScope(images: map<Id, Revision>, lens: Lens) {
    forall id | id in images :: images[id].destinationId == NO_ID || images[id].destinationId in lens.accountIds
  }

  /** Nothing is hidden while every stored destination is empty or in scope. */
  lemma NothingHidden(images: map<Id, Revision>, lens: Lens)
    requires DestinationsInScope(images, lens)
    ensures Tally(images, Hidden(lens)) == NO_TOTALS
  {
    assert forall id | id in images :: !Selects(Hidden(lens), images[id]);
    forall m: Metric ensures Sum(images, Measure(Hidden(lens), m)) == 0 {
      SumZero(images, Measure(Hidden(lens), m));
    }
  }

  /**
   * The failing family: recording a queried transaction whose destination lies
   * outside the review's accounts moves the live totals by all it counts for,
   * and no delta, whatever the cutoff.
   */
  lemma StrayDestinationIsMissed(state: map<Id, Revision>, events: seq<Event>, lens: Lens, r: Revision, e: Event)
    requires r.id !in state && InQuery(lens, r) && r.destinationId != NO_ID && r.destinationId !in lens.accountIds
    requires e.before == None && e.after == Some(r)
    ensures Tally(state[r.id := r], Queried(lens)) == Plus(Tally(state, Queried(lens)), RevisionTotals(r))
    ensures forall cutoff :: DeltaSum(lens, events + [e], cutoff) == DeltaSum(lens, events, cutoff)
  {
    StrayMovesTally(state, lens, r);
    forall cutoff ensures DeltaSum(lens, events + [e], cutoff) == DeltaSum(lens, events, cutoff) {
      assert (events + [e])[..|events|] == events;
      StrayHasNoDelta(lens, r, e);
      hide EventDelta;
    }
  }

  lemma StrayMovesTally(state: map<Id, Revision>, lens: Lens, r: Revision)
    requires r.id !in state && InQuery(lens, r)
    ensures Tally(state[r.id := r], Queried(lens)) == Plus(Tally(state, Queried(lens)), RevisionTotals(r))
  {
    hide InQuery, RevisionTotals, Sum;
    forall m: Metric
      ensures Sum(state[r.id := r], Measure(Queried(lens), m)) == Sum(state, Measure(Queried(lens), m))
          + Part(RevisionTotals(r), m)
    {
      SumPut(state, r.id, r, Measure(Queried(lens), m));
    }
  }

  lemma StrayHasNoDelta(lens: Lens, r: Revision, e: Event)
    requires r.destinationId != NO_ID && r.destinationId !in lens.accountIds
    requires e.before == None && e.after == Some(r)
    ensures EventDelta(lens, e) == NO_TOTALS && !RelevantEvent(lens, e)
  {
    hide InReview;
  }
}
