/**
 * Serial runs, and what every reachable state of the concurrent system keeps:
 * by serializability a claim about all serial runs is one about all
 * interleavings.
 */
module Runs {
  import opened Outcomes
  import opened Store
  import opened Revisions
  import opened PeriodReviews
  import opened Checkpoints
  import opened Operations
  import opened Locality
  import opened Repeatability
  import opened Isolation
  import opened History

  /** The operations of consecutive commits, in order. */
  function OpsOf(log: seq<Entry>): seq<Op> {
    if log == [] then [] else log[0].ops + OpsOf(log[1..])
  }

  lemma {:induction false} ExecJoin(db: Db, xs: seq<Op>, ys: seq<Op>)
    requires ExecAll(db, xs).Ok?
    ensures ExecAll(db, xs + ys) == ExecAll(ExecAll(db, xs).value, ys)
    decreases |xs|
  {
    hide Exec;
    if xs == [] {
      assert xs + ys == ys;
    } else {
      assert (xs + ys)[0] == xs[0] && (xs + ys)[1..] == xs[1..] + ys;
      ExecJoin(Exec(db, xs[0]).value, xs[1..], ys);
    }
  }

  lemma NothingExecuted(db: Db)
    ensures ExecAll(db, []) == Ok(db)
  {
  }

  lemma ExecOne(db: Db, op: Op)
    ensures ExecAll(db, [op]) == Exec(db, op)
  {
    hide Exec;
    assert [op][1..] == [];
    if Exec(db, op).Ok? {
      NothingExecuted(Exec(db, op).value);
    }
  }

  lemma {:induction false} ExecPrefixOk(db: Db, ops: seq<Op>, m: nat)
    requires ExecAll(db, ops).Ok? && m <= |ops|
    ensures ExecAll(db, ops[..m]).Ok?
    decreases m
  {
    hide Exec;
    if m > 0 {
      ExecPrefixOk(Exec(db, ops[0]).value, ops[1..], m - 1);
      assert ops[..m][0] == ops[0] && ops[..m][1..] == ops[1..][..m - 1];
    }
  }

  /** Between any two committed states lies the serial run of the operations committed in between. */
  lemma {:induction false} CommittedRun(s: System, i: nat, j: nat)
    requires Wellformed(s) && i <= j < |s.history|
    ensures ExecAll(s.history[i], OpsOf(s.log[i..j])) == Ok(s.history[j])
    decreases j - i
  {
    hide WellKeyed, Exec, WritesOfAll;
    if i < j {
      assert ExecAll(s.history[i], s.log[i].ops) == Ok(s.history[i + 1]) by { hide ExecAll; }
      hide ExecAll;
      CommittedRun(s, i + 1, j);
      assert s.log[i..j][0] == s.log[i] && s.log[i..j][1..] == s.log[i + 1..j];
      ExecJoin(s.history[i], s.log[i].ops, OpsOf(s.log[i + 1..j]));
    } else {
      assert s.log[i..j] == [];
    }
  }

  // ---- points inside commits ----

  /** The state between the operations of the `k`-th commit: after the first `m` of them. */
  ghost function StateAt(s: System, k: nat, m: nat): Result<Db>
    requires k < |s.log| && k < |s.history| && m <= |s.log[k].ops|
  {
    ExecAll(s.history[k], s.log[k].ops[..m])
  }

  lemma {:induction false} ExecPrefix(db: Db, ops: seq<Op>, m: nat)
    requires ExecAll(db, ops).Ok? && m < |ops|
    ensures ExecAll(db, ops[..m]).Ok? && Exec(ExecAll(db, ops[..m]).value, ops[m]).Ok?
    decreases m
  {
    hide Exec;
    if m > 0 {
      ExecPrefix(Exec(db, ops[0]).value, ops[1..], m - 1);
      assert ops[..m][0] == ops[0] && ops[..m][1..] == ops[1..][..m - 1];
    }
  }

  lemma OneMoreOperation(db: Db, ops: seq<Op>, m: nat)
    requires m < |ops| && ExecAll(db, ops[..m]).Ok?
    ensures ExecAll(db, ops[..m + 1]) == Exec(ExecAll(db, ops[..m]).value, ops[m])
  {
    hide Exec, ExecAll;
    assert ops[..m + 1] == ops[..m] + [ops[m]];
    ExecJoin(db, ops[..m], [ops[m]]);
    ExecOne(ExecAll(db, ops[..m]).value, ops[m]);
  }

  /** A point of the history: `p` operations into the `i`-th commit, no later than `m` operations into the `k`-th. */
  predicate Earlier(s: System, i: nat, p: nat, k: nat, m: nat) {
    && i <= k < |s.log| && k < |s.history| && p <= |s.log[i].ops| && m <= |s.log[k].ops|
    && (i == k ==> p <= m)
  }

  // ---- no gap at the cutoff ----

  lemma {:induction false} RunKeepsLedger(base: map<Id, Revision>, db: Db, ops: seq<Op>)
    requires WellKeyed(db) && LedgerInv(base, db.ledger) && ExecAll(db, ops).Ok?
    ensures LedgerInv(base, ExecAll(db, ops).value.ledger)
    decreases |ops|
  {
    hide LedgerInv, Exec, WellKeyed;
    if ops != [] {
      ExecKeepsLedger(base, db, ops[0]);
      ExecContinues(db, ops[0]);
      RunKeepsLedger(base, Exec(db, ops[0]).value, ops[1..]);
    }
  }

  /**
   * No gap at the cutoff. In every interleaving of transactions under snapshot
   * isolation with write conflicts, in every committed state: the revision
   * events replay to exactly the stored transactions, no two share a version,
   * and every committed review's snapshot equals the totals of the ledger after
   * exactly the revisions up to its cutoff.
   */
  lemma NoGapAtTheCutoff(trace: seq<System>, n: nat, k: nat)
    requires Behaviour(trace) && WellKeyed(trace[0].history[0]) && n < |trace| && k < |trace[n].history|
    requires trace[0].history[0].ledger.events == [] && trace[0].history[0].ledger.reviews == []
    ensures var base, ledger := Images(trace[0].history[0].ledger.txs), trace[n].history[k].ledger;
            && Images(ledger.txs) == Replay(base, ledger.events)
            && Increasing(ledger.events) && CutoffsIncrease(ledger.reviews)
            && forall r | r in ledger.reviews ::
                && r.cutoff <= ledger.version
                && r.snapshot == Tally(Replay(base, UpTo(ledger.events, r.cutoff)), Queried(r.lens))
                && (forall e | e in ledger.events :: e.version != r.cutoff)
                && (forall e | e in ledger.events :: e in UpTo(ledger.events, r.cutoff) <==> e.version <= r.cutoff)
  {
    var base := Images(trace[0].history[0].ledger.txs);
    LedgerAlways(trace, n, k);
    var ledger := trace[n].history[k].ledger;
    hide Behaviour, WellKeyed, Replay, Tally, UpTo, Succession, Images, Chained;
    assert forall r | r in ledger.reviews :: Faithful(base, ledger, r);
    forall r | r in ledger.reviews
      ensures forall e | e in ledger.events :: e in UpTo(ledger.events, r.cutoff) <==> e.version <= r.cutoff
    {
      PrefixIsUpTo(ledger.events, r.cutoff);
    }
  }

  lemma LedgerAlways(trace: seq<System>, n: nat, k: nat)
    requires Behaviour(trace) && WellKeyed(trace[0].history[0]) && n < |trace| && k < |trace[n].history|
    requires trace[0].history[0].ledger.events == [] && trace[0].history[0].ledger.reviews == []
    ensures LedgerInv(Images(trace[0].history[0].ledger.txs), trace[n].history[k].ledger)
  {
    hide LedgerInv, WellKeyed, ExecAll, WritesOfAll, Images;
    InterleavingsAreSerial(trace, n);
    InvStarts(trace[0].history[0].ledger);
    CommittedRun(trace[n], 0, k);
    RunKeepsLedger(Images(trace[0].history[0].ledger.txs), trace[n].history[0], OpsOf(trace[n].log[0..k]));
  }

  lemma PrefixIsUpTo(events: seq<Event>, version: int)
    requires Increasing(events)
    ensures forall e | e in events :: e in UpTo(events, version) <==> e.version <= version
  {
    UpToSplits(events, version);
    var prefix := UpTo(events, version);
    forall e | e in events && e.version <= version ensures e in prefix {
      var i :| 0 <= i < |events| && events[i] == e;
      assert i < |prefix| && prefix[i] == e;
    }
  }

  /**
   * No revision is lost: whatever commits later, the events and the reviews of a
   * committed state stay a prefix of those of every later one.
   */
  lemma NothingIsLost(trace: seq<System>, n: nat, i: nat, j: nat)
    requires Behaviour(trace) && WellKeyed(trace[0].history[0]) && n < |trace| && i <= j < |trace[n].history|
    ensures trace[n].history[i].ledger.events <= trace[n].history[j].ledger.events
    ensures trace[n].history[i].ledger.reviews <= trace[n].history[j].ledger.reviews
  {
    hide WellKeyed, ExecAll, WritesOfAll, Quiet, SameBut;
    InterleavingsAreSerial(trace, n);
    CommittedRun(trace[n], i, j);
    AllFrames(trace[n].history[i], OpsOf(trace[n].log[i..j]));
  }

  /** Captured totals plus the reported summary are the totals now, if and only if the hidden totals did not move. */
  ghost predicate ReachesLive(base: map<Id, Revision>, ledger: Ledger, r: Review)
    requires Summary(r.lens, ledger.events, r.cutoff).Ok?
  {
    var then_, now := Replay(base, UpTo(ledger.events, r.cutoff)), Images(ledger.txs);
    Plus(r.snapshot, Summary(r.lens, ledger.events, r.cutoff).value.0) == Tally(now, Queried(r.lens))
    <==> Tally(now, Hidden(r.lens)) == Tally(then_, Hidden(r.lens))
  }

  lemma SummaryReachesLive(base: map<Id, Revision>, ledger: Ledger, r: Review)
    requires LedgerInv(base, ledger) && r in ledger.reviews && r.lens.vaultIds != {} && r.lens.accountIds != {}
    requires Summary(r.lens, ledger.events, r.cutoff).Ok?
    ensures ReachesLive(base, ledger, r)
  {
    assert Faithful(base, ledger, r);
    hide Replay, Tally, UpTo, Images, DeltaSum, Increasing, Chained, Faithful;
    NetIsDifference(r.lens, ledger.events, r.cutoff);
    SnapshotPlusDeltasIsLive(base, ledger.events, r.lens, r.cutoff);
    assert r.snapshot == Tally(Replay(base, UpTo(ledger.events, r.cutoff)), Queried(r.lens)) by {
      SnapshotOf(base, ledger, r);
    }
  }

  lemma SnapshotOf(base: map<Id, Revision>, ledger: Ledger, r: Review)
    requires Faithful(base, ledger, r)
    ensures r.snapshot == Tally(Replay(base, UpTo(ledger.events, r.cutoff)), Queried(r.lens))
  {
    hide Replay, Tally, UpTo;
  }

  /**
   * Snapshot plus deltas is live, exactly when the hidden totals stand: in every
   * committed state of every interleaving, and for every review in it. Snapshot
   * and live totals both select by `InQuery`, on effective dates; the stored
   * query departs from it on the zero-dated rows `PeriodQueryMeans` singles out.
   */
  lemma SnapshotPlusSummaryIsLive(trace: seq<System>, n: nat, k: nat, r: Review)
    requires Behaviour(trace) && WellKeyed(trace[0].history[0]) && n < |trace| && k < |trace[n].history|
    requires trace[0].history[0].ledger.events == [] && trace[0].history[0].ledger.reviews == []
    requires r in trace[n].history[k].ledger.reviews && r.lens.vaultIds != {} && r.lens.accountIds != {}
    requires Summary(r.lens, trace[n].history[k].ledger.events, r.cutoff).Ok?
    ensures ReachesLive(Images(trace[0].history[0].ledger.txs), trace[n].history[k].ledger, r)
  {
    hide ReachesLive, LedgerInv, WellKeyed, Images, Summary;
    LedgerAlways(trace, n, k);
    SummaryReachesLive(Images(trace[0].history[0].ledger.txs), trace[n].history[k].ledger, r);
  }

  /**
   * In particular while no stored destination, now or at the cutoff, lies
   * outside the review's accounts.
   */
  lemma DestinationsInScopeMeansLive(trace: seq<System>, n: nat, k: nat, r: Review)
    requires Behaviour(trace) && WellKeyed(trace[0].history[0]) && n < |trace| && k < |trace[n].history|
    requires trace[0].history[0].ledger.events == [] && trace[0].history[0].ledger.reviews == []
    requires r in trace[n].history[k].ledger.reviews && r.lens.vaultIds != {} && r.lens.accountIds != {}
    requires Summary(r.lens, trace[n].history[k].ledger.events, r.cutoff).Ok?
    requires DestinationsInScope(Images(trace[n].history[k].ledger.txs), r.lens)
    requires DestinationsInScope(
               Replay(Images(trace[0].history[0].ledger.txs), UpTo(trace[n].history[k].ledger.events, r.cutoff)),
                 r.lens)
    ensures var ledger := trace[n].history[k].ledger;
            Plus(r.snapshot, Summary(r.lens, ledger.events, r.cutoff).value.0)
              == Tally(Images(ledger.txs), Queried(r.lens))
  {
    hide WellKeyed, LedgerInv, Images, Summary, DestinationsInScope, Tally, Replay, UpTo;
    var base, ledger := Images(trace[0].history[0].ledger.txs), trace[n].history[k].ledger;
    LedgerAlways(trace, n, k);
    hide Behaviour;
    SummaryReachesLive(base, ledger, r);
    NothingHidden(Images(ledger.txs), r.lens);
    NothingHidden(Replay(base, UpTo(ledger.events, r.cutoff)), r.lens);
  }

  /**
   * The checkpoint chain in every interleaving: within one series cutoffs
   * strictly increase, a closed checkpoint is never followed by a reviewed one,
   * and a checkpoint repeating the status of its predecessor has a relevant
   * revision in between.
   */
  lemma CheckpointsChain(trace: seq<System>, n: nat, k: nat, i: nat, j: nat)
    requires Behaviour(trace) && WellKeyed(trace[0].history[0]) && n < |trace| && k < |trace[n].history|
    requires trace[0].history[0].ledger.events == [] && trace[0].history[0].ledger.reviews == []
    requires i < j < |trace[n].history[k].ledger.reviews|
    requires SameSeries(trace[n].history[k].ledger.reviews[i].lens, trace[n].history[k].ledger.reviews[j].lens)
    ensures var ledger := trace[n].history[k].ledger;
            var a, b := ledger.reviews[i], ledger.reviews[j];
            && a.cutoff < b.cutoff && (a.status == Closed ==> b.status == Closed)
            && (Latest(ledger.reviews[..j], b.lens) == Some(a) && a.status == b.status ==>
                  exists e | e in ledger.events ::
                    a.cutoff < e.version < b.cutoff && RelevantEvent(AsSeen(a.lens, b.lens), e))
  {
    LedgerAlways(trace, n, k);
    var ledger := trace[n].history[k].ledger;
    hide Behaviour, WellKeyed, Replay, Tally, Latest, RelevantEvent, Chained, Increasing, Faithful;
    ClosedStaysClosed(ledger.events, ledger.reviews, i, j);
  }

  /**
   * Consecutive snapshots of one scope, in every interleaving: the later one is
   * the earlier one plus the deltas between their cutoffs, exactly when the
   * hidden totals stand.
   */
  lemma CheckpointsDifferByDeltas(trace: seq<System>, n: nat, k: nat, i: nat, j: nat)
    requires Behaviour(trace) && WellKeyed(trace[0].history[0]) && n < |trace| && k < |trace[n].history|
    requires trace[0].history[0].ledger.events == [] && trace[0].history[0].ledger.reviews == []
    requires i < j < |trace[n].history[k].ledger.reviews|
    requires trace[n].history[k].ledger.reviews[i].lens == trace[n].history[k].ledger.reviews[j].lens
    ensures var base, ledger := Images(trace[0].history[0].ledger.txs), trace[n].history[k].ledger;
            var a, b := ledger.reviews[i], ledger.reviews[j];
            var until := UpTo(ledger.events, b.cutoff);
            b.snapshot == Plus(a.snapshot, DeltaSum(a.lens, until, a.cutoff))
            <==>
            Tally(Replay(base, until), Hidden(a.lens))
            == Tally(Replay(base, UpTo(ledger.events, a.cutoff)), Hidden(a.lens))
  {
    var base, ledger := Images(trace[0].history[0].ledger.txs), trace[n].history[k].ledger;
    LedgerAlways(trace, n, k);
    hide Behaviour, WellKeyed, LedgerInv, Replay, Tally, UpTo, DeltaSum;
    SnapshotsDifferByDeltas(base, ledger, i, j);
  }
}
