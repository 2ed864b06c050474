/**
 * Revision snapshots, their contribution to a period's totals, and the replay
 * of the revision history.
 */
module Revisions {
  import opened Outcomes
  import opened Store
  import opened Sums

  // ---- snapshots and their totals ----

  /** The reporting instant: occurred-at, or created-at for legacy rows without one. */
  function EffectiveInstant(occurredAt: int, createdAt: int): int {
    if occurredAt == 0 then createdAt else occurredAt
  }

  function NewRevision(tx: Transaction): Revision {
    Revision(
      tx.id, tx.workspaceId, tx.publicId, tx.vaultId, tx.accountId, tx.destinationId, tx.createdBy,
      tx.kind, tx.amount, tx.currency, tx.category, tx.merchant, tx.notes, tx.description, tx.contactId,
      tx.privacy, CivilDay(EffectiveInstant(tx.occurredAt, tx.createdAt)), tx.occurredAt, tx.createdAt, tx.splits != [])
  }

  const NO_TOTALS := Totals(0, 0, 0, 0)

  /** `totalsForRevision` of an existing snapshot. */
  function RevisionTotals(r: Revision): Totals {
    var income := if r.kind.Income? || r.kind.Refund? || r.kind.Reimbursement? then r.amount else 0;
    var spending := if r.kind.Expense? then r.amount else 0;
    Totals(income, spending, income - spending, 1)
  }

  function Plus(a: Totals, b: Totals): Totals {
    Totals(a.income + b.income, a.spending + b.spending, a.net + b.net, a.count + b.count)
  }

  function Minus(a: Totals, b: Totals): Totals {
    Totals(a.income - b.income, a.spending - b.spending, a.net - b.net, a.count - b.count)
  }

  // ---- relevance ----

  predicate VisibleTo(lens: Lens, r: Revision) {
    match lens.view
    case MemberView => r.privacy == Workspace || r.createdBy == lens.actor
    case WorkspaceView => r.privacy == Workspace
  }

  /** `revisionInReview` */
  predicate InReview(lens: Lens, r: Revision) {
    && r.workspaceId == lens.workspaceId
    && r.currency == lens.currency
    && VisibleTo(lens, r)
    && lens.fromDay <= r.reportingDay <= lens.toDay
  }

  /** `revisionInReviewScope`: the revision test, which also looks at the destination account. */
  predicate InScope(lens: Lens, r: Revision) {
    && InReview(lens, r)
    && r.vaultId in lens.vaultIds
    && r.accountId in lens.accountIds
    && (r.destinationId == NO_ID || r.destinationId in lens.accountIds)
  }

  /** What the snapshot query selects (see `PeriodFilters.PeriodQueryMeans`): it never looks at the destination. */
  predicate InQuery(lens: Lens, r: Revision) {
    && InReview(lens, r)
    && r.vaultId in lens.vaultIds
    && r.accountId in lens.accountIds
  }

  datatype Selection = Queried(lens: Lens) | Relevant(lens: Lens) | Hidden(lens: Lens)

  /** `Hidden` revisions are queried but fail the revision test. */
  predicate Selects(s: Selection, r: Revision) {
    match s
    case Queried(lens) => InQuery(lens, r)
    case Relevant(lens) => InScope(lens, r)
    case Hidden(lens) => InQuery(lens, r) && !InScope(lens, r)
  }

  function Contribution(s: Selection, r: Revision): Totals {
    if Selects(s, r) then RevisionTotals(r) else NO_TOTALS
  }

  function SideTotals(s: Selection, side: Option<Revision>): Totals {
    if side.Some? then Contribution(s, side.value) else NO_TOTALS
  }

  datatype Metric = IncomeMetric | SpendingMetric | NetMetric | CountMetric

  function Part(t: Totals, m: Metric): int {
    match m
    case IncomeMetric => t.income
    case SpendingMetric => t.spending
    case NetMetric => t.net
    case CountMetric => t.count
  }

  ghost function Measure(s: Selection, m: Metric): Revision -> int {
    (r: Revision) => Part(Contribution(s, r), m)
  }

  /** The totals of the selected revisions of a ledger state, computed from scratch. */
  ghost function Tally(state: map<Id, Revision>, s: Selection): Totals {
    Totals(
      Sum(state, Measure(s, IncomeMetric)), Sum(state, Measure(s, SpendingMetric)),
      Sum(state, Measure(s, NetMetric)), Sum(state, Measure(s, CountMetric)))
  }

  // ---- replay ----

  /** The revision images of the stored transactions. */
  function Images(txs: map<Id, Transaction>): map<Id, Revision> {
    map id | id in txs :: NewRevision(txs[id])
  }

  function ApplyEvent(state: map<Id, Revision>, e: Event): map<Id, Revision> {
    if e.after.Some? then state[e.transactionId := e.after.value] else state - {e.transactionId}
  }

  function Replay(base: map<Id, Revision>, events: seq<Event>): map<Id, Revision> {
    if events == [] then base
    else ApplyEvent(Replay(base, events[..|events| - 1]), events[|events| - 1])
  }

  /** The events with a version up to `version`; versions increase, so they are a prefix. */
  function UpTo(events: seq<Event>, version: int): (prefix: seq<Event>)
    ensures |prefix| <= |events| && prefix == events[..|prefix|]
  {
    if events == [] || events[|events| - 1].version <= version then events
    else UpTo(events[..|events| - 1], version)
  }

  /** Event versions strictly increase. */
  predicate Increasing(events: seq<Event>) {
    forall i, j | 0 <= i < j < |events| :: events[i].version < events[j].version
  }

  /** Each event's before image is what the replay holds at that point. */
  predicate Chained(base: map<Id, Revision>, events: seq<Event>) {
    forall i | 0 <= i < |events| :: events[i].before == Get(Replay(base, events[..i]), events[i].transactionId)
  }

  lemma {:induction false} UpToSplits(events: seq<Event>, version: int)
    requires Increasing(events)
    ensures forall e | e in UpTo(events, version) :: e.version <= version
    ensures forall i | |UpTo(events, version)| <= i < |events| :: events[i].version > version
  {
    if events != [] && events[|events| - 1].version > version {
      UpToSplits(events[..|events| - 1], version);
    }
  }

  // ---- deltas ----

  /** `periodEventDelta`: the after side's totals minus the before side's, each only when relevant. */
  function EventDelta(lens: Lens, e: Event): Totals {
    Minus(SideTotals(Relevant(lens), e.after), SideTotals(Relevant(lens), e.before))
  }

  predicate RelevantEvent(lens: Lens, e: Event) {
    || (e.before.Some? && InScope(lens, e.before.value))
    || (e.after.Some? && InScope(lens, e.after.value))
  }

  /** The deltas of the events after a cutoff, added up. */
  function DeltaSum(lens: Lens, events: seq<Event>, cutoff: int): Totals {
    if events == [] then NO_TOTALS
    else
      var last := events[|events| - 1];
      var rest := DeltaSum(lens, events[..|events| - 1], cutoff);
      if last.version > cutoff then Plus(rest, EventDelta(lens, last)) else rest
  }

  lemma TallyAfterEvent(state: map<Id, Revision>, e: Event, s: Selection)
    requires e.before == Get(state, e.transactionId)
    ensures Tally(ApplyEvent(state, e), s)
        == Plus(Tally(state, s), Minus(SideTotals(s, e.after), SideTotals(s, e.before)))
  {
    hide ApplyEvent, SideTotals, Sum, Measure;
    MeasureAfterEvent(state, e, s, IncomeMetric);
    MeasureAfterEvent(state, e, s, SpendingMetric);
    MeasureAfterEvent(state, e, s, NetMetric);
    MeasureAfterEvent(state, e, s, CountMetric);
  }

  lemma MeasureAfterEvent(state: map<Id, Revision>, e: Event, s: Selection, m: Metric)
    requires e.before == Get(state, e.transactionId)
    ensures Sum(ApplyEvent(state, e), Measure(s, m))
            == Sum(state, Measure(s, m)) + Part(SideTotals(s, e.after), m) - Part(SideTotals(s, e.before), m)
  {
    hide Contribution, Sum;
    if e.after.Some? {
      SumPut(state, e.transactionId, e.after.value, Measure(s, m));
    } else if e.transactionId in state {
      SumRemove(state, e.transactionId, Measure(s, m));
    } else {
      assert state - {e.transactionId} == state;
    }
  }

  /** Incremental maintenance: totals at a version plus the deltas after it are the totals now. */
  lemma {:induction false} DeltasTelescope(base: map<Id, Revision>, events: seq<Event>, lens: Lens, cutoff: int)
    requires Increasing(events) && Chained(base, events)
    ensures Tally(Replay(base, events), Relevant(lens))
            == Plus(Tally(Replay(base, UpTo(events, cutoff)), Relevant(lens)), DeltaSum(lens, events, cutoff))
    decreases |events|
  {
    hide Tally, SideTotals, Replay;
    if events == [] || events[|events| - 1].version <= cutoff {
      NoDeltas(lens, events, cutoff);
    } else {
      var rest, last := events[..|events| - 1], events[|events| - 1];
      assert forall i | 0 <= i < |rest| :: rest[..i] == events[..i];
      DeltasTelescope(base, rest, lens, cutoff);
      TallyStep(base, events, lens);
    }
  }

  lemma TallyStep(base: map<Id, Revision>, events: seq<Event>, lens: Lens)
    requires events != [] && Chained(base, events)
    ensures var rest, last := events[..|events| - 1], events[|events| - 1];
            Tally(Replay(base, events), Relevant(lens))
              == Plus(Tally(Replay(base, rest), Relevant(lens)), EventDelta(lens, last))
  {
    hide Tally, SideTotals;
    var rest, last := events[..|events| - 1], events[|events| - 1];
    TallyAfterEvent(Replay(base, rest), last, Relevant(lens));
  }

  lemma {:induction false} NoDeltas(lens: Lens, events: seq<Event>, cutoff: int)
    requires forall e | e in events :: e.version <= cutoff
    ensures DeltaSum(lens, events, cutoff) == NO_TOTALS
  {
    if events != [] {
      NoDeltas(lens, events[..|events| - 1], cutoff);
    }
  }

  /** Queried totals are the relevant ones plus the hidden ones. */
  lemma QueriedSplits(state: map<Id, Revision>, lens: Lens)
    ensures Tally(state, Queried(lens)) == Plus(Tally(state, Relevant(lens)), Tally(state, Hidden(lens)))
  {
    forall m: Metric
      ensures Sum(state, Measure(Hidden(lens), m))
          == Sum(state, Measure(Queried(lens), m)) - Sum(state, Measure(Relevant(lens), m))
    {
      SumMinus(state, Measure(Queried(lens), m), Measure(Relevant(lens), m), Measure(Hidden(lens), m));
    }
  }
}
