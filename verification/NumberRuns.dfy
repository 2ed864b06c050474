/** Numbers are never reused: what the counters keep over all runs and interleavings. */
module NumberRuns {
  import opened Outcomes
  import opened Store
  import opened Balances
  import opened BalanceLaws
  import opened Revisions
  import opened Checkpoints
  import opened Numbering
  import opened Categories
  import opened Operations
  import opened Repeatability
  import opened Isolation
  import opened Runs

  /** Every stored identifier that is a number lies below its scope's counter. */
  predicate AllClaimed(counters: Counters, txs: map<Id, Transaction>) {
    forall id | id in txs :: Claimed(counters, txs[id].scope, txs[id].publicId)
  }

  predicate Tracked(counters: Counters, txs: map<Id, Transaction>) {
    AllSound(counters) && AllClaimed(counters, txs)
  }

  /** Settings changes come from the service, which accepts only sound values (see `Numbering.PatchAdvances`). */
  predicate Admissible(op: Op) {
    op.PatchCounter? ==> Sound(op.requested)
  }

  predicate AllAdmissible(ops: seq<Op>) {
    forall op | op in ops :: Admissible(op)
  }

  // ---- counters only advance ----

  lemma AdvancesJoin(a: Counters, b: Counters, c: Counters)
    requires Advances(a, b) && Advances(b, c)
    ensures Advances(a, c)
  {
    forall scope: Scope ensures Counter(a, scope).next <= Counter(c, scope).next {
      assert Counter(a, scope).next <= Counter(b, scope).next <= Counter(c, scope).next;
    }
  }

  lemma AllClaimsSurvive(before: Counters, after: Counters, txs: map<Id, Transaction>)
    requires AllClaimed(before, txs) && Advances(before, after)
    ensures AllClaimed(after, txs)
  {
    hide Claimed, Advances;
    forall id | id in txs ensures Claimed(after, txs[id].scope, txs[id].publicId) {
      ClaimsSurvive(before, after, txs[id].scope, txs[id].publicId);
    }
  }

  lemma PrepareClaims(counters: Counters, txs: map<Id, Transaction>, c: CreateCommand)
    requires AllSound(counters) && PrepareNumber(counters, txs, c).Ok?
    ensures var (after, text) := PrepareNumber(counters, txs, c).value;
            AllSound(after) && Advances(counters, after) && Claimed(after, c.tx.scope, text)
  {
    hide Claimed, Advances, AllSound, Allocate, Reserve, NumberTaken;
    if c.autoNumber {
      AllocateIsFresh(counters, c.tx.scope);
    } else {
      ReserveClaims(counters, c.tx.scope, c.tx.publicId);
    }
  }

  lemma RenumberClaims(counters: Counters, txs: map<Id, Transaction>, current: Transaction, next: Transaction)
    requires AllSound(counters) && RenumberCounters(counters, txs, current, next).Ok?
    requires next.scope == current.scope && Claimed(counters, current.scope, current.publicId)
    ensures var after := RenumberCounters(counters, txs, current, next).value;
            AllSound(after) && Advances(counters, after) && Claimed(after, next.scope, next.publicId)
  {
    if next.publicId != current.publicId {
      hide Claimed, Advances, AllSound, Reserve, NumberTaken;
      ReserveClaims(counters, next.scope, next.publicId);
    }
  }

  // ---- every operation ----

  lemma CreateTracks(db: Db, c: CreateCommand)
    requires Tracked(db.sequences, db.ledger.txs) && CreateBody(db, c).Ok?
    ensures var after := CreateBody(db, c).value;
            Tracked(after.sequences, after.ledger.txs) && Advances(db.sequences, after.sequences)
  {
    hide Claimed, Advances, AllSound, PrepareNumber, CreateBooks, NumberTaken, Checkpoints.Numbered;
    PrepareClaims(db.sequences, db.ledger.txs, c);
    AllClaimsSurvive(db.sequences, PrepareNumber(db.sequences, db.ledger.txs, c).value.0, db.ledger.txs);
  }

  lemma EditTracks(db: Db, id: Id, input: Transaction)
    requires WellKeyed(db) && Tracked(db.sequences, db.ledger.txs) && EditBody(db, id, input).Ok?
    ensures var after := EditBody(db, id, input).value;
            Tracked(after.sequences, after.ledger.txs) && Advances(db.sequences, after.sequences)
  {
    hide Claimed, Advances, AllSound, RenumberCounters, EditBooks, EditedVersion, Checkpoints.Numbered, VaultsNamed;
    var current := db.ledger.txs[id];
    EditedKeepsIdentity(db.books.accounts, current, input);
    EditedKeepsScope(db.books.accounts, current, input);
    var next := EditedVersion(db.books.accounts, current, input).value;
    assert Claimed(db.sequences, current.scope, current.publicId);
    RenumberClaims(db.sequences, db.ledger.txs, current, next);
    AllClaimsSurvive(db.sequences, RenumberCounters(db.sequences, db.ledger.txs, current, next).value, db.ledger.txs);
  }

  lemma EditedKeepsScope(accounts: map<Id, Account>, current: Transaction, input: Transaction)
    requires EditedVersion(accounts, current, input).Ok?
    ensures EditedVersion(accounts, current, input).value.scope == current.scope
  {
    hide ParseNumber;
  }

  lemma AdvancesSelf(counters: Counters)
    ensures Advances(counters, counters)
  {
  }

  lemma ExecTracks(db: Db, op: Op)
    requires WellKeyed(db) && Tracked(db.sequences, db.ledger.txs) && Admissible(op) && Exec(db, op).Ok?
    ensures var after := Exec(db, op).value;
            Tracked(after.sequences, after.ledger.txs) && Advances(db.sequences, after.sequences)
  {
    hide CreateBody, EditBody, WellKeyed, ChangeBooks, MigrationChanges, Checkpoints.Numbered, Affected, CaptureReview,
      OpeningBody, Claimed, Advances;
    AdvancesSelf(db.sequences);
    match op {
      case Create(c) => CreateTracks(db, c);
      case Edit(id, input) => EditTracks(db, id, input);
      case Capture(_, _) => CaptureKeepsTxs(db, op);
      case PatchCounter(scope, requested) =>
        PatchTracks(db.sequences, scope, requested);
        AllClaimsSurvive(db.sequences, Patch(db.sequences, scope, requested).value, db.ledger.txs);
      case _ =>
    }
  }

  lemma CaptureKeepsTxs(db: Db, op: Op)
    requires op.Capture? && Exec(db, op).Ok?
    ensures Exec(db, op).value.ledger.txs == db.ledger.txs && Exec(db, op).value.sequences == db.sequences
  {
    hide Tally, ReviewAllowed;
  }

  lemma PatchTracks(counters: Counters, scope: Scope, requested: Sequence)
    requires AllSound(counters) && Sound(requested) && Patch(counters, scope, requested).Ok?
    ensures AllSound(Patch(counters, scope, requested).value)
        && Advances(counters, Patch(counters, scope, requested).value)
  {
  }

  // ---- every run and every interleaving ----

  lemma {:induction false} RunTracks(db: Db, ops: seq<Op>)
    requires WellKeyed(db) && Tracked(db.sequences, db.ledger.txs) && AllAdmissible(ops) && ExecAll(db, ops).Ok?
    ensures var after := ExecAll(db, ops).value;
            WellKeyed(after) && Tracked(after.sequences, after.ledger.txs) && Advances(db.sequences, after.sequences)
    decreases |ops|
  {
    hide WellKeyed, Tracked, Exec, Advances, Admissible;
    if ops == [] {
      AdvancesSelf(db.sequences);
    } else {
      var next := Exec(db, ops[0]).value;
      ExecTracks(db, ops[0]);
      ExecContinues(db, ops[0]);
      RunTracks(next, ops[1..]);
      AdvancesJoin(db.sequences, next.sequences, ExecAll(next, ops[1..]).value.sequences);
    }
  }

  predicate LogAdmissible(log: seq<Entry>) {
    forall e | e in log :: AllAdmissible(e.ops)
  }

  lemma {:induction false} OpsAdmissible(log: seq<Entry>)
    requires LogAdmissible(log)
    ensures AllAdmissible(OpsOf(log))
  {
    if log != [] {
      OpsAdmissible(log[1..]);
      hide Admissible;
      assert log[0] in log;
    }
  }

  /** Counters never move back between committed states, and every stored number stays below them. */
  lemma CommittedTracks(s: System, i: nat, j: nat)
    requires Wellformed(s) && LogAdmissible(s.log) && i <= j < |s.history|
    requires Tracked(s.history[0].sequences, s.history[0].ledger.txs)
    ensures Tracked(s.history[i].sequences, s.history[i].ledger.txs)
        && Tracked(s.history[j].sequences, s.history[j].ledger.txs)
    ensures Advances(s.history[i].sequences, s.history[j].sequences)
  {
    hide WellKeyed, Tracked, ExecAll, Advances, WritesOfAll, AllAdmissible;
    CommittedRun(s, 0, i);
    CommittedRun(s, i, j);
    OpsAdmissible(s.log[0..i]);
    OpsAdmissible(s.log[i..j]);
    RunTracks(s.history[0], OpsOf(s.log[0..i]));
    RunTracks(s.history[i], OpsOf(s.log[i..j]));
  }

  /** Between two points of one committed transaction counters only advance, and both points are tracked. */
  lemma WithinCommit(db: Db, ops: seq<Op>, p: nat, q: nat)
    requires WellKeyed(db) && Tracked(db.sequences, db.ledger.txs) && AllAdmissible(ops)
    requires ExecAll(db, ops).Ok? && p <= q <= |ops|
    ensures ExecAll(db, ops[..p]).Ok? && ExecAll(db, ops[..q]).Ok?
    ensures var a, b := ExecAll(db, ops[..p]).value, ExecAll(db, ops[..q]).value;
            && Tracked(a.sequences, a.ledger.txs) && Tracked(b.sequences, b.ledger.txs)
            && Advances(a.sequences, b.sequences)
  {
    hide WellKeyed, Tracked, Advances, ExecAll, Admissible;
    ExecPrefixOk(db, ops, p);
    ExecPrefixOk(db, ops, q);
    AdmissibleSlice(ops, 0, p);
    AdmissibleSlice(ops, p, q);
    assert ops[0..p] == ops[..p] && ops[..q] == ops[..p] + ops[p..q];
    ExecJoin(db, ops[..p], ops[p..q]);
    RunTracks(db, ops[..p]);
    RunTracks(ExecAll(db, ops[..p]).value, ops[p..q]);
  }

  /** Every number stored at an earlier point lies below the counters of a later one. */
  lemma EarlierTracks(s: System, i: nat, p: nat, k: nat, m: nat)
    requires Wellformed(s) && LogAdmissible(s.log) && Earlier(s, i, p, k, m)
    requires Tracked(s.history[0].sequences, s.history[0].ledger.txs)
    ensures StateAt(s, i, p).Ok? && StateAt(s, k, m).Ok?
    ensures var a, b := StateAt(s, i, p).value, StateAt(s, k, m).value;
            && Tracked(a.sequences, a.ledger.txs) && Tracked(b.sequences, b.ledger.txs)
            && Advances(a.sequences, b.sequences)
  {
    hide WellKeyed, Tracked, Advances, WritesOfAll, ExecAll, AllAdmissible;
    assert s.log[i] in s.log && s.log[k] in s.log;
    CommittedTracks(s, 0, i);
    CommittedTracks(s, 0, k);
    assert ExecAll(s.history[i], s.log[i].ops) == Ok(s.history[i + 1]);
    assert ExecAll(s.history[k], s.log[k].ops) == Ok(s.history[k + 1]);
    if i == k {
      WithinCommit(s.history[i], s.log[i].ops, p, m);
    } else {
      var all, none := s.log[i].ops, s.log[k].ops[..0];
      WithinCommit(s.history[i], all, p, |all|);
      WithinCommit(s.history[k], s.log[k].ops, 0, m);
      assert all[..|all|] == all && none == [];
      NothingExecuted(s.history[k]);
      CommittedTracks(s, i + 1, k);
      var a, b := StateAt(s, i, p).value, StateAt(s, k, m).value;
      AdvancesJoin(a.sequences, s.history[i + 1].sequences, s.history[k].sequences);
      AdvancesJoin(a.sequences, s.history[k].sequences, b.sequences);
    }
  }

  /**
   * Numbers are never reused. In every interleaving, the identifier an
   * automatic create stores is the counter's number in the counter's width, and differs from every
   * identifier of its scope ever stored before: in any committed state, and at
   * any point inside any committed transaction, its own included, whatever was
   * deleted, edited or reconfigured since.
   */
  lemma NumbersAreNeverReused(trace: seq<System>, n: nat, i: nat, p: nat, k: nat, m: nat)
    requires Behaviour(trace) && n < |trace| && WellKeyed(trace[0].history[0])
    requires Tracked(trace[0].history[0].sequences, trace[0].history[0].ledger.txs)
    requires LogAdmissible(trace[n].log) && Earlier(trace[n], i, p, k, m) && m < |trace[n].log[k].ops|
    requires trace[n].log[k].ops[m].Create? && trace[n].log[k].ops[m].command.autoNumber
    ensures StateAt(trace[n], i, p).Ok? && StateAt(trace[n], k, m).Ok? && StateAt(trace[n], k, m + 1).Ok?
    ensures var s, tx := trace[n], trace[n].log[k].ops[m].command.tx;
            var old_, counters := StateAt(s, i, p).value.ledger.txs, StateAt(s, k, m).value.sequences;
            var after := StateAt(s, k, m + 1).value.ledger.txs;
            && tx.id in after && after[tx.id].scope == tx.scope
            && ParseNumber(after[tx.id].publicId) == Ok(Counter(counters, tx.scope).next)
            && IsNumberText(after[tx.id].publicId, Counter(counters, tx.scope).next, Counter(counters, tx.scope).digits)
            && forall id | id in old_ && old_[id].scope == tx.scope :: old_[id].publicId != after[tx.id].publicId
  {
    hide Behaviour, WellKeyed, Tracked, Advances, Exec, WritesOfAll, AllAdmissible, Allocate, Claimed, ParseNumber,
      ExecAll;
    var s, ops := trace[n], trace[n].log[k].ops;
    InterleavingsAreSerial(trace, n);
    assert ExecAll(s.history[k], ops) == Ok(s.history[k + 1]);
    ExecPrefix(s.history[k], ops, m);
    OneMoreOperation(s.history[k], ops, m);
    EarlierTracks(s, i, p, k, m);
    var old_, db := StateAt(s, i, p).value, StateAt(s, k, m).value;
    AutoCreateStores(db, ops[m].command);
    NewNumber(old_.sequences, old_.ledger.txs, db.sequences, db.ledger.txs, ops[m].command.tx.scope);
  }

  lemma AdmissibleSlice(ops: seq<Op>, p: nat, q: nat)
    requires AllAdmissible(ops) && p <= q <= |ops|
    ensures AllAdmissible(ops[p..q])
  {
    hide Admissible;
    assert forall op | op in ops[p..q] :: op in ops;
  }

  lemma AutoCreateStores(db: Db, c: CreateCommand)
    requires c.autoNumber && Exec(db, Op.Create(c)).Ok?
    ensures Allocate(db.sequences, c.tx.scope).Ok?
    ensures var after := Exec(db, Op.Create(c)).value.ledger.txs;
            && c.tx.id in after && after[c.tx.id].scope == c.tx.scope
            && after[c.tx.id].publicId == Allocate(db.sequences, c.tx.scope).value.1
  {
    hide Allocate, CreateBooks, NumberTaken, Numbered;
  }

  lemma NewNumber(then_: Counters, old_: map<Id, Transaction>, counters: Counters, txs: map<Id, Transaction>,
    scope: Scope)
    requires Tracked(then_, old_) && Advances(then_, counters) && Tracked(counters, txs)
        && Allocate(counters, scope).Ok?
    ensures ParseNumber(Allocate(counters, scope).value.1) == Ok(Counter(counters, scope).next)
    ensures IsNumberText(Allocate(counters, scope).value.1, Counter(counters, scope).next,
                         Counter(counters, scope).digits)
    ensures forall id | id in old_ && old_[id].scope == scope :: old_[id].publicId != Allocate(counters, scope).value.1
  {
    AllocateMeans(counters, scope);
    hide Advances, Allocate, Claimed, AllSound, IsNumberText;
    AllClaimsSurvive(then_, counters, old_);
    AllocateIsFresh(counters, scope);
    forall id | id in old_ && old_[id].scope == scope ensures old_[id].publicId != Allocate(counters, scope).value.1 {
      assert Claimed(counters, old_[id].scope, old_[id].publicId);
    }
  }
}
