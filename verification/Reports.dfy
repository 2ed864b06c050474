/**
 * What the numbers of a period review are: sums over the stored transactions
 * themselves, by their kinds, without going through revisions.
 */
module Reports {
  import opened Outcomes
  import opened Store
  import opened Sums
  import opened Picks
  import opened Balances
  import opened Revisions
  import opened PeriodReviews

  /** A stored transaction the review's query counts. */
  predicate Counts(lens: Lens, tx: Transaction) {
    var instant := if tx.occurredAt != 0 then tx.occurredAt else tx.createdAt;
    && tx.workspaceId == lens.workspaceId && tx.currency == lens.currency
    && tx.vaultId in lens.vaultIds && tx.accountId in lens.accountIds
    && lens.fromDay <= instant / 86_400 <= lens.toDay
    && (tx.privacy == Workspace || (lens.view == MemberView && tx.createdBy == lens.actor))
  }

  predicate IsEarning(k: Kind) {
    k in {Income, Refund, Reimbursement}
  }

  ghost function Earned(lens: Lens): Transaction -> int {
    (tx: Transaction) => if Counts(lens, tx) && IsEarning(tx.kind) then tx.amount else 0
  }

  ghost function Spent(lens: Lens): Transaction -> int {
    (tx: Transaction) => if Counts(lens, tx) && tx.kind == Expense then tx.amount else 0
  }

  ghost function One(lens: Lens): Transaction -> int {
    (tx: Transaction) => if Counts(lens, tx) then 1 else 0
  }

  /**
   * Income is the sum of the counted incomes, refunds and reimbursements,
   * spending that of the counted expenses; transfers and adjustments are neither.
   */
  ghost predicate Reported(t: Totals, txs: map<Id, Transaction>, lens: Lens) {
    && t.income == Sum(txs, Earned(lens))
    && t.spending == Sum(txs, Spent(lens))
    && t.net == t.income - t.spending
    && t.count == |Counted(txs, lens)|
  }

  /** The query test of a stored image is the test of the transaction it shows. */
  lemma QueriedMeansCounts(lens: Lens, tx: Transaction)
    ensures InQuery(lens, NewRevision(tx)) <==> Counts(lens, tx)
  {
  }

  lemma ContributionMeans(lens: Lens, tx: Transaction)
    ensures var t := Contribution(Queried(lens), NewRevision(tx));
            && t.income == Earned(lens)(tx) && t.spending == Spent(lens)(tx)
            && t.net == t.income - t.spending && t.count == One(lens)(tx)
  {
    QueriedMeansCounts(lens, tx);
    hide InQuery, Counts;
  }

  lemma {:induction false} SumImages(txs: map<Id, Transaction>, f: Revision -> int, g: Transaction -> int)
    requires forall id | id in txs :: f(NewRevision(txs[id])) == g(txs[id])
    ensures Sum(Images(txs), f) == Sum(txs, g)
    decreases |txs|
  {
    hide NewRevision;
    if txs == map[] {
      assert Images(txs) == map[];
    } else {
      var id := PickOne(txs.Keys);
      SumRemove(txs, id, g);
      SumRemove(Images(txs), id, f);
      assert Images(txs) - {id} == Images(txs - {id});
      SumImages(txs - {id}, f, g);
    }
  }

  function Counted(txs: map<Id, Transaction>, lens: Lens): set<Id> {
    set id | id in txs && Counts(lens, txs[id])
  }

  lemma CountedWithout(txs: map<Id, Transaction>, lens: Lens, id: Id)
    requires id in txs
    ensures id !in Counted(txs - {id}, lens)
    ensures Counted(txs, lens) == Counted(txs - {id}, lens) + if Counts(lens, txs[id]) then {id} else {}
  {
    hide Counts;
  }

  lemma {:induction false} SumCounts(txs: map<Id, Transaction>, lens: Lens)
    ensures Sum(txs, One(lens)) == |Counted(txs, lens)|
    decreases |txs|
  {
    hide Counts;
    if txs == map[] {
      assert Counted(txs, lens) == {};
    } else {
      var id := PickOne(txs.Keys);
      SumRemove(txs, id, One(lens));
      SumCounts(txs - {id}, lens);
      CountedWithout(txs, lens, id);
      hide Counted, Sum;
    }
  }

  /** The totals a review captures or is compared with report the stored transactions. */
  lemma TallyReports(txs: map<Id, Transaction>, lens: Lens)
    ensures Reported(Tally(Images(txs), Queried(lens)), txs, lens)
  {
    hide Contribution, NewRevision, Counts;
    forall id | id in txs { ContributionMeans(lens, txs[id]); }
    SumImages(txs, Measure(Queried(lens), IncomeMetric), Earned(lens));
    SumImages(txs, Measure(Queried(lens), SpendingMetric), Spent(lens));
    SumImages(txs, Measure(Queried(lens), CountMetric), One(lens));
    SumCounts(txs, lens);
    SumMinus(Images(txs), Measure(Queried(lens), IncomeMetric), Measure(Queried(lens), SpendingMetric),
             Measure(Queried(lens), NetMetric));
  }

  /**
   * The net of a review is what its rows moved on their own accounts: every
   * counted row adds what its create books on the source account, a transfer,
   * which only changes places, adds nothing.
   */
  lemma NetIsBooked(lens: Lens, tx: Transaction)
    requires RepositorySourceDelta(tx).Ok?
    ensures Contribution(Queried(lens), NewRevision(tx)).net
            == if Counts(lens, tx) && tx.kind != Transfer then RepositorySourceDelta(tx).value else 0
  {
    QueriedMeansCounts(lens, tx);
    hide InQuery, Counts;
  }

  // ---- what a summary reports ----

  /** A revision of a transaction the review is about, with its destination, if any, in view too. */
  predicate IsAbout(lens: Lens, r: Revision) {
    && r.workspaceId == lens.workspaceId && r.currency == lens.currency
    && r.vaultId in lens.vaultIds && r.accountId in lens.accountIds
    && (r.destinationId == NO_ID || r.destinationId in lens.accountIds)
    && lens.fromDay <= r.reportingDay <= lens.toDay
    && (r.privacy == Workspace || (lens.view == MemberView && r.createdBy == lens.actor))
  }

  function Incoming(lens: Lens, side: Option<Revision>): int {
    if side.Some? && IsAbout(lens, side.value) && IsEarning(side.value.kind) then side.value.amount else 0
  }

  function Outgoing(lens: Lens, side: Option<Revision>): int {
    if side.Some? && IsAbout(lens, side.value) && side.value.kind == Expense then side.value.amount else 0
  }

  function InView(lens: Lens, side: Option<Revision>): int {
    if side.Some? && IsAbout(lens, side.value) then 1 else 0
  }

  /** The events after the cutoff that changed something in view. */
  function Changes(lens: Lens, events: seq<Event>, cutoff: int): set<int> {
    set i | 0 <= i < |events| && events[i].version > cutoff
            && InView(lens, events[i].before) + InView(lens, events[i].after) > 0
  }

  /** One event reports what came into view less what went out of it. */
  lemma EventMeans(lens: Lens, e: Event)
    ensures EventDelta(lens, e)
            == Totals(Incoming(lens, e.after) - Incoming(lens, e.before),
                      Outgoing(lens, e.after) - Outgoing(lens, e.before),
                      (Incoming(lens, e.after) - Outgoing(lens, e.after))
                        - (Incoming(lens, e.before) - Outgoing(lens, e.before)),
                      InView(lens, e.after) - InView(lens, e.before))
    ensures RelevantEvent(lens, e) <==> InView(lens, e.before) + InView(lens, e.after) > 0
  {
    SideMeans(lens, e.before);
    SideMeans(lens, e.after);
    hide IsAbout, InScope, SideTotals, Incoming, Outgoing, InView;
  }

  lemma SideMeans(lens: Lens, side: Option<Revision>)
    ensures SideTotals(Relevant(lens), side)
            == Totals(Incoming(lens, side), Outgoing(lens, side), Incoming(lens, side) - Outgoing(lens, side),
                      InView(lens, side))
    ensures InView(lens, side) in {0, 1} && (InView(lens, side) == 1 <==> side.Some? && InScope(lens, side.value))
  {
    if side.Some? {
      AboutMeans(lens, side.value);
    }
    hide IsAbout, InScope;
  }

  lemma AboutMeans(lens: Lens, r: Revision)
    ensures InScope(lens, r) <==> IsAbout(lens, r)
  {
  }

  /** The number of changes a summary reports is the number of such events. */
  lemma {:induction false} ChangesMean(lens: Lens, events: seq<Event>, cutoff: int)
    ensures ChangeCount(lens, events, cutoff) == |Changes(lens, events, cutoff)|
  {
    hide RelevantEvent, InView;
    if events == [] {
      assert Changes(lens, events, cutoff) == {};
    } else {
      var n := |events| - 1;
      ChangesMean(lens, events[..n], cutoff);
      EventMeans(lens, events[n]);
      var counts := events[n].version > cutoff && RelevantEvent(lens, events[n]);
      assert Changes(lens, events, cutoff) == Changes(lens, events[..n], cutoff) + if counts then {n} else {};
    }
  }
}
