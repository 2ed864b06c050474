/**
 * What every interleaving leaves stored: each committed operation what it
 * should, reviews that were captured, identifiers that are unique, and balances
 * that are the sums of the stored transactions.
 */
module StoredRuns {
  import opened Outcomes
  import opened Texts
  import opened Store
  import opened Sums
  import opened Balances
  import opened Operations
  import opened Repeatability
  import opened Isolation
  import opened Runs
  import opened Reports
  import opened BalanceRuns
  import opened Stored

  // ---- every operation, wherever it was committed ----

  lemma {:induction false} RunWellKeyed(db: Db, ops: seq<Op>)
    requires WellKeyed(db) && ExecAll(db, ops).Ok?
    ensures WellKeyed(ExecAll(db, ops).value)
    decreases |ops|
  {
    hide WellKeyed, Exec;
    if ops != [] {
      ExecContinues(db, ops[0]);
      RunWellKeyed(Exec(db, ops[0]).value, ops[1..]);
    }
  }

  /** Any point inside a committed run is a proper state, and the operation there leaves what it should. */
  lemma PointLeaves(db: Db, ops: seq<Op>, m: nat)
    requires WellKeyed(db) && ExecAll(db, ops).Ok? && m < |ops|
    ensures ExecAll(db, ops[..m]).Ok? && ExecAll(db, ops[..m + 1]).Ok?
    ensures WellKeyed(ExecAll(db, ops[..m]).value)
    ensures Leaves(ops[m], ExecAll(db, ops[..m]).value, ExecAll(db, ops[..m + 1]).value)
  {
    hide WellKeyed, Exec, ExecAll, Leaves;
    ExecPrefix(db, ops, m);
    OneMoreOperation(db, ops, m);
    RunWellKeyed(db, ops[..m]);
    ExecLeaves(ExecAll(db, ops[..m]).value, ops[m]);
  }

  /**
   * In every interleaving every operation of every committed transaction leaves
   * exactly what it should: on the state it was committed on, not only on the
   * snapshot it read.
   */
  lemma EveryOperationLeaves(trace: seq<System>, n: nat, k: nat, m: nat)
    requires Behaviour(trace) && WellKeyed(trace[0].history[0]) && n < |trace|
    requires k < |trace[n].log| && m < |trace[n].log[k].ops|
    ensures k < |trace[n].history| && StateAt(trace[n], k, m).Ok? && StateAt(trace[n], k, m + 1).Ok?
    ensures Leaves(trace[n].log[k].ops[m], StateAt(trace[n], k, m).value, StateAt(trace[n], k, m + 1).value)
  {
    hide Behaviour, WellKeyed, ExecAll, Leaves, WritesOfAll;
    InterleavingsAreSerial(trace, n);
    assert ExecAll(trace[n].history[k], trace[n].log[k].ops) == Ok(trace[n].history[k + 1]);
    PointLeaves(trace[n].history[k], trace[n].log[k].ops, m);
  }

  // ---- every review was captured ----

  /** Reviews appear by captures only, one at a time, and never change. */
  lemma ReviewsGrow(op: Op, before: Db, after: Db)
    requires Leaves(op, before, after)
    ensures before.ledger.reviews <= after.ledger.reviews
    ensures |after.ledger.reviews| > |before.ledger.reviews| ==>
              op.Capture? && |after.ledger.reviews| == |before.ledger.reviews| + 1
  {
    hide MoneyMoves, EditStores, HandedOut, Reserved, Unused, ShowsSide, Reported, LooksAt, Renames;
  }

  /** The review is of the rows stored at a point, of what the operation there asked for, and took its version. */
  ghost predicate CapturedFrom(r: Review, op: Op, db: Db) {
    && op.Capture? && LooksAt(r.lens, db, op.request) && r.status == op.request.status
    && r.cutoff == db.ledger.version + 1 && Reported(r.snapshot, db.ledger.txs, r.lens)
  }

  ghost predicate CapturedWithin(r: Review, db: Db, ops: seq<Op>) {
    exists p | 0 <= p < |ops| && ExecAll(db, ops[..p]).Ok? :: CapturedFrom(r, ops[p], ExecAll(db, ops[..p]).value)
  }

  lemma {:induction false} NewReviewsWereCaptured(db: Db, ops: seq<Op>, m: nat, j: nat)
    requires WellKeyed(db) && ExecAll(db, ops).Ok? && m <= |ops|
    ensures ExecAll(db, ops[..m]).Ok? && db.ledger.reviews <= ExecAll(db, ops[..m]).value.ledger.reviews
    ensures |db.ledger.reviews| <= j < |ExecAll(db, ops[..m]).value.ledger.reviews| ==>
              CapturedWithin(ExecAll(db, ops[..m]).value.ledger.reviews[j], db, ops)
  {
    hide WellKeyed, Exec, ExecAll, Leaves, LooksAt, Reported;
    if m == 0 {
      NothingExecuted(db);
      assert ops[..0] == [];
    } else {
      NewReviewsWereCaptured(db, ops, m - 1, j);
      PointLeaves(db, ops, m - 1);
      var a, b := ExecAll(db, ops[..m - 1]).value, ExecAll(db, ops[..m]).value;
      ReviewsGrow(ops[m - 1], a, b);
      if j == |a.ledger.reviews| < |b.ledger.reviews| {
        CaptureCaptures(ops[m - 1], a, b);
      }
    }
  }

  lemma CaptureCaptures(op: Op, before: Db, after: Db)
    requires op.Capture? && Leaves(op, before, after)
    ensures |after.ledger.reviews| > |before.ledger.reviews|
    ensures CapturedFrom(after.ledger.reviews[|before.ledger.reviews|], op, before)
  {
    hide Reported, LooksAt;
  }

  /**
   * In every interleaving, every committed review was captured by some committed
   * operation, and its snapshot is the sums, by kind, of the transactions stored
   * at that point; its lens, status and cutoff are what was asked for there.
   */
  lemma {:induction false} ReviewsWereCaptured(trace: seq<System>, n: nat, k: nat, j: nat)
    requires Behaviour(trace) && WellKeyed(trace[0].history[0]) && n < |trace| && k < |trace[n].history|
    requires trace[0].history[0].ledger.reviews == [] && j < |trace[n].history[k].ledger.reviews|
    ensures |trace[n].log| + 1 == |trace[n].history|
    ensures exists i | 0 <= i < k ::
              CapturedWithin(trace[n].history[k].ledger.reviews[j], trace[n].history[i], trace[n].log[i].ops)
    decreases k
  {
    hide Behaviour, WellKeyed, ExecAll, WritesOfAll, CapturedWithin;
    var s := trace[n];
    InterleavingsAreSerial(trace, n);
    if k > 0 {
      var ops := s.log[k - 1].ops;
      assert ExecAll(s.history[k - 1], ops) == Ok(s.history[k]) && ops[..|ops|] == ops;
      NewReviewsWereCaptured(s.history[k - 1], ops, |ops|, j);
      if j < |s.history[k - 1].ledger.reviews| {
        ReviewsWereCaptured(trace, n, k - 1, j);
        var i :| 0 <= i < k - 1 && CapturedWithin(s.history[k].ledger.reviews[j], s.history[i], s.log[i].ops);
      }
    }
  }

  // ---- identifiers are unique ----

  /** No two stored transactions of one scope carry one identifier. */
  predicate DistinctNumbers(txs: map<Id, Transaction>) {
    forall x, y | x in txs && y in txs && x != y && txs[x].scope == txs[y].scope && txs[x].publicId != "" ::
      txs[x].publicId != txs[y].publicId
  }

  lemma StaysDistinct(op: Op, before: Db, after: Db)
    requires Leaves(op, before, after) && DistinctNumbers(before.ledger.txs)
    ensures DistinctNumbers(after.ledger.txs)
  {
    hide MoneyMoves, HandedOut, Reserved, Revised, RevisedAll, Reported, LooksAt, Renames, IsCore;
  }

  lemma {:induction false} RunStaysDistinct(db: Db, ops: seq<Op>)
    requires WellKeyed(db) && ExecAll(db, ops).Ok? && DistinctNumbers(db.ledger.txs)
    ensures DistinctNumbers(ExecAll(db, ops).value.ledger.txs)
    decreases |ops|
  {
    hide WellKeyed, Exec, Leaves, DistinctNumbers;
    if ops != [] {
      var next := Exec(db, ops[0]).value;
      ExecLeaves(db, ops[0]);
      StaysDistinct(ops[0], db, next);
      ExecContinues(db, ops[0]);
      RunStaysDistinct(next, ops[1..]);
    }
  }

  /** In every interleaving, whatever is created, edited or reconfigured concurrently, identifiers stay unique. */
  lemma IdentifiersAreUnique(trace: seq<System>, n: nat, k: nat)
    requires Behaviour(trace) && WellKeyed(trace[0].history[0]) && n < |trace| && k < |trace[n].history|
    requires DistinctNumbers(trace[0].history[0].ledger.txs)
    ensures DistinctNumbers(trace[n].history[k].ledger.txs)
  {
    hide Behaviour, WellKeyed, ExecAll, WritesOfAll, DistinctNumbers;
    InterleavingsAreSerial(trace, n);
    CommittedRun(trace[n], 0, k);
    RunStaysDistinct(trace[n].history[0], OpsOf(trace[n].log[0..k]));
  }

  // ---- balances are sums of the stored transactions ----

  ghost function OnAccount(id: Id): Transaction -> int {
    (tx: Transaction) => AccountShare(tx, id)
  }

  ghost function OnVault(accounts: map<Id, Account>, vault: Id): Transaction -> int {
    (tx: Transaction) => VaultShare(accounts, tx, vault)
  }

  lemma LinkedShares(books: Books, txs: map<Id, Transaction>, x: Id)
    requires Referenced(books, txs)
    ensures Booked(books, txs, AccountTarget(x)) == Sum(txs, OnAccount(x))
    ensures Booked(books, txs, VaultTarget(x)) == Sum(txs, OnVault(books.accounts, x))
  {
    forall id | id in txs
      ensures Effect(VaultMap(books), txs[id], AccountTarget(x)) == AccountShare(txs[id], x)
      ensures Effect(VaultMap(books), txs[id], VaultTarget(x)) == VaultShare(books.accounts, txs[id], x)
    {
      assert Linked(books, txs[id]);
      EffectIsShare(books, txs[id], x);
    }
    hide Effect, VaultMap, Linked, AccountShare, VaultShare;
    SumAgree(txs, EffectOn(VaultMap(books), AccountTarget(x)), OnAccount(x));
    SumAgree(txs, EffectOn(VaultMap(books), VaultTarget(x)), OnVault(books.accounts, x));
  }

  /**
   * In every committed state of every interleaving: an account's balance is its
   * opening plus what the stored transactions put on it, by kind; a vault's is
   * its opening plus the opening edits of its accounts plus what the stored
   * transactions put on its accounts; and all are in range.
   */
  lemma BooksAlways(trace: seq<System>, n: nat, k: nat)
    requires Behaviour(trace) && WellKeyed(trace[0].history[0]) && n < |trace| && k < |trace[n].history|
    requires Balanced(trace[0].history[0].books, trace[0].history[0].ledger.txs, map[])
    ensures k <= |trace[n].log|
    ensures var books, txs := trace[n].history[k].books, trace[n].history[k].ledger.txs;
            var edits := CreditedByAll(trace[n].history[0], OpsOf(trace[n].log[..k]), map[]);
            && (forall id | id in books.accounts ::
                  && books.accounts[id].balance == books.accounts[id].opening + Sum(txs, OnAccount(id))
                  && -9_000_000_000_000_000 <= books.accounts[id].balance <= 9_000_000_000_000_000)
            && (forall v | v in books.vaults ::
                  && books.vaults[v].balance == books.vaults[v].opening + (if v in edits then edits[v] else 0)
                                                + Sum(txs, OnVault(books.accounts, v))
                  && -9_000_000_000_000_000 <= books.vaults[v].balance <= 9_000_000_000_000_000)
  {
    hide Behaviour, WellKeyed, CreditedByAll, Sum, Linked, Booked;
    BalancedAlways(trace, n, k);
    var books, txs := trace[n].history[k].books, trace[n].history[k].ledger.txs;
    var edits := CreditedByAll(trace[n].history[0], OpsOf(trace[n].log[..k]), map[]);
    forall id | id in books.accounts
      ensures BalancedAt(books, txs, edits, AccountTarget(id))
      ensures Booked(books, txs, AccountTarget(id)) == Sum(txs, OnAccount(id))
    {
      assert Touches(books, AccountTarget(id));
      LinkedShares(books, txs, id);
    }
    forall v | v in books.vaults
      ensures BalancedAt(books, txs, edits, VaultTarget(v))
      ensures Booked(books, txs, VaultTarget(v)) == Sum(txs, OnVault(books.accounts, v))
    {
      assert Touches(books, VaultTarget(v));
      LinkedShares(books, txs, v);
    }
  }
}
