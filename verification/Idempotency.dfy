/**
 * Exactly-once creates: the idempotency record claims a (user, key) until it
 * expires or its transaction is deleted, under any number of concurrent callers.
 */
module Idempotency {
  import opened Outcomes
  import opened Store
  import opened Balances
  import opened Checkpoints
  import opened Categories
  import opened Operations
  import opened Repeatability
  import opened Isolation
  import opened Runs

  // ---- what frees a key ----

  /** The only two ways a record goes: it has expired, or its transaction is deleted. */
  predicate Removes(op: Op, k: RecordKey, r: Record) {
    || (op.Release? && op.record == k && r.expiresAt <= op.now)
    || (op.Delete? && op.id == r.transactionId)
  }

  predicate Claims(op: Op, k: RecordKey) {
    op.Create? && op.command.key != NO_ID && RecordKeyOf(op.command) == k
  }

  /** A held key stays held by the same record, and no create with it succeeds. */
  lemma ExecHolds(db: Db, op: Op, k: RecordKey)
    requires Exec(db, op).Ok? && k in db.records && !Removes(op, k, db.records[k])
    ensures !Claims(op, k)
    ensures k in Exec(db, op).value.records && Exec(db, op).value.records[k] == db.records[k]
  {
    hide CreateBooks, EditBooks, ChangeBooks, PrepareNumber, NumberTaken, EditedVersion, RenumberCounters, Affected,
      MigrationChanges,
      CaptureReview, OpeningBody, ArchiveBody;
    match op {
      case Delete(id) => assert k !in OwnedRecords(db.records, id);
      case _ =>
    }
  }

  ghost predicate Undisturbed(ops: seq<Op>, k: RecordKey, r: Record) {
    forall op | op in ops :: !Removes(op, k, r)
  }

  lemma {:induction false} RunHolds(db: Db, ops: seq<Op>, k: RecordKey)
    requires ExecAll(db, ops).Ok? && k in db.records && Undisturbed(ops, k, db.records[k])
    ensures forall op | op in ops :: !Claims(op, k)
    ensures k in ExecAll(db, ops).value.records && ExecAll(db, ops).value.records[k] == db.records[k]
    decreases |ops|
  {
    hide Exec, Claims, Removes;
    if ops != [] {
      assert ops[0] in ops;
      ExecHolds(db, ops[0], k);
      RunHolds(Exec(db, ops[0]).value, ops[1..], k);
      assert forall op | op in ops :: op == ops[0] || op in ops[1..];
    }
  }

  /** A committed create leaves exactly its own record under its key, holding the transaction it stored. */
  lemma CreateRecords(db: Db, c: CreateCommand)
    requires CreateBody(db, c).Ok? && c.key != NO_ID
    ensures var after, k := CreateBody(db, c).value, RecordKeyOf(c);
            && k !in db.records && k in after.records && c.tx.id in after.ledger.txs && c.tx.id !in db.ledger.txs
            && after.records[k] == RecordOf(c, after.ledger.txs[c.tx.id])
  {
    hide CreateBooks, PrepareNumber, NumberTaken;
  }

  /**
   * At most once: between two creates of one run that both succeed with the
   * same key, the first one's record expired and was released, or its
   * transaction was deleted.
   */
  lemma {:induction false} SecondCreateNeedsRelease(db: Db, ops: seq<Op>, a: nat, b: nat, k: RecordKey)
    requires ExecAll(db, ops).Ok? && a < b < |ops| && Claims(ops[a], k) && Claims(ops[b], k)
    ensures exists i :: a < i < b && (ops[i] == Op.Delete(ops[a].command.tx.id)
                                     || (ops[i].Release? && ops[i].record == k
                                       && ops[a].command.expiresAt <= ops[i].now))
    decreases a
  {
    hide Exec;
    var next, rest := Exec(db, ops[0]).value, ops[1..];
    if a > 0 {
      SecondCreateNeedsRelease(next, rest, a - 1, b - 1, k);
      var i :| a - 1 < i < b - 1 && (rest[i] == Op.Delete(rest[a - 1].command.tx.id)
                                    || (rest[i].Release? && rest[i].record == k
                                      && rest[a - 1].command.expiresAt <= rest[i].now));
      assert ops[i + 1] == rest[i];
    } else {
      var c := ops[0].command;
      assert k in next.records && next.records[k] == RecordOf(c, next.ledger.txs[c.tx.id]) by {
        FirstLeaves(db, ops[0]);
      }
      ExecPrefixOk(next, rest, b);
      assert rest[..b][b - 1] == ops[b];
      if Undisturbed(rest[..b], k, next.records[k]) {
        RunHolds(next, rest[..b], k);
        assert false;
      } else {
        var op :| op in rest[..b] && Removes(op, k, next.records[k]);
        var i :| 0 <= i < b && rest[i] == op;
        FirstKeepsId(db, c);
        assert ops[i + 1] == op;
      }
    }
  }

  lemma FirstLeaves(db: Db, op: Op)
    requires op.Create? && op.command.key != NO_ID && Exec(db, op).Ok?
    ensures var after, c := Exec(db, op).value, op.command;
            && RecordKeyOf(c) in after.records && c.tx.id in after.ledger.txs
            && after.records[RecordKeyOf(c)] == RecordOf(c, after.ledger.txs[c.tx.id])
  {
    CreateRecords(db, op.command);
    hide CreateBody;
  }

  lemma FirstKeepsId(db: Db, c: CreateCommand)
    requires Exec(db, Op.Create(c)).Ok? && c.key != NO_ID
    ensures var after := Exec(db, Op.Create(c)).value;
            c.tx.id in after.ledger.txs && after.ledger.txs[c.tx.id].id == c.tx.id
  {
    hide CreateBooks, PrepareNumber, NumberTaken;
  }

  /**
   * Every record belongs to a stored transaction, so the record's own document
   * identifier (the transaction's) is as unique as the transaction's.
   */
  predicate RecordsOwned(db: Db) {
    forall k | k in db.records :: db.records[k].transactionId in db.ledger.txs
  }

  lemma ExecKeepsOwned(db: Db, op: Op)
    requires WellKeyed(db) && RecordsOwned(db) && Exec(db, op).Ok?
    ensures RecordsOwned(Exec(db, op).value)
  {
    hide CreateBody, EditBody, DeleteBody, MigrateBody, CaptureReview, OpeningBody, ArchiveBody, WellKeyed;
    match op {
      case Create(c) => CreateKeepsOwned(db, c);
      case Edit(id, input) => EditKeepsOwned(db, id, input);
      case Delete(id) => DeleteKeepsOwned(db, id);
      case Migrate(mode, oldName, newName) => MigrateKeepsOwned(db, mode, oldName, newName);
      case Capture(_, _) => CaptureKeepsTransactions(db, op);
      case _ =>
    }
  }

  lemma CreateKeepsOwned(db: Db, c: CreateCommand)
    requires RecordsOwned(db) && CreateBody(db, c).Ok?
    ensures RecordsOwned(CreateBody(db, c).value)
  {
    hide CreateBooks, PrepareNumber, NumberTaken, Numbered;
  }

  lemma EditKeepsOwned(db: Db, id: Id, input: Transaction)
    requires RecordsOwned(db) && EditBody(db, id, input).Ok?
    ensures RecordsOwned(EditBody(db, id, input).value)
  {
    hide EditBooks, EditedVersion, RenumberCounters, Numbered;
  }

  lemma DeleteKeepsOwned(db: Db, id: Id)
    requires WellKeyed(db) && RecordsOwned(db) && DeleteBody(db, id).Ok?
    ensures RecordsOwned(DeleteBody(db, id).value)
  {
    hide ChangeBooks, Numbered;
    var after := DeleteBody(db, id).value;
    forall k | k in after.records ensures after.records[k].transactionId in after.ledger.txs {
      assert k in db.records && k !in OwnedRecords(db.records, id);
    }
  }

  lemma MigrateKeepsOwned(db: Db, mode: Scope, oldName: string, newName: string)
    requires RecordsOwned(db) && MigrateBody(db, mode, oldName, newName).Ok?
    ensures RecordsOwned(MigrateBody(db, mode, oldName, newName).value)
  {
    hide Affected, MigrationChanges, Numbered;
  }

  lemma CaptureKeepsTransactions(db: Db, op: Op)
    requires op.Capture? && Exec(db, op).Ok?
    ensures Exec(db, op).value.ledger.txs == db.ledger.txs
  {
    hide Revisions.Tally, ReviewAllowed;
  }

  // ---- concurrent calls ----

  /** `idempotentResult`: the stored response of an active record with the same payload hash. */
  function StoredAnswer(db: Db, k: RecordKey, payloadHash: Id, now: int): Result<Option<Transaction>> {
    if k.key == NO_ID || k !in db.records || db.records[k].expiresAt <= now then Ok(None)
    else if db.records[k].payloadHash != payloadHash then Err(Conflict)
    else Ok(Some(db.records[k].response))
  }

  /** A lookup finds the recorded answer while the record is active, and refuses it to another payload. */
  lemma LookupMeans(db: Db, k: RecordKey, payloadHash: Id, now: int)
    ensures var found := StoredAnswer(db, k, payloadHash, now);
            var active := k.key != NO_ID && k in db.records && now < db.records[k].expiresAt;
            && (found == Ok(None) <==> !active)
            && (found == Err(Conflict) <==> active && db.records[k].payloadHash != payloadHash)
            && (forall tx :: found == Ok(Some(tx)) <==>
                  active && db.records[k].payloadHash == payloadHash && db.records[k].response == tx)
  {
  }

  function Released(db: Db, k: RecordKey, now: int): Db {
    if k.key == NO_ID then db else ReleaseBody(db, k, now)
  }

  /** `CreateFinancialTransaction` with nobody else around: release, look up, create. */
  function CreateCall(db: Db, c: CreateCommand, now: int): (Db, Result<Transaction>) {
    var k := RecordKeyOf(c);
    if RepositorySourceDelta(c.tx).Err? then (db, Err(RepositorySourceDelta(c.tx).error))
    else
      var released := Released(db, k, now);
      match StoredAnswer(released, k, c.payloadHash, now)
      case Err(e) => (released, Err(e))
      case Ok(Some(response)) => (released, Ok(response))
      case Ok(None) =>
        match CreateBody(released, c)
        case Err(e) => (released, Err(e))
        case Ok(after) => (after, if c.tx.id in after.ledger.txs then Ok(after.ledger.txs[c.tx.id]) else Err(NotFound))
  }

  /** How a call of `CreateFinancialTransaction` was answered. */
  datatype Answer =
    | FirstLook(at: nat)
    | Created(at: nat)
    | SecondLook(at: nat)

  datatype Call = Call(command: CreateCommand, now: int, answer: Answer, result: Result<Transaction>)

  /**
   * A call's answer in a concurrent history: a lookup reads some committed
   * state; a commit made of this create alone stores and returns its own
   * transaction; after a conflicting transaction a second lookup answers, and
   * what neither finds is an error.
   */
  ghost predicate Answered(s: System, call: Call) {
    var c := call.command;
    match call.answer
    case FirstLook(at) => at < |s.history| && ByLookup(s.history[at], call)
    case Created(at) =>
      && at < |s.log| && at + 1 < |s.history| && s.log[at].ops == [Op.Create(c)]
      && c.tx.id in s.history[at + 1].ledger.txs
      && call.result == Ok(s.history[at + 1].ledger.txs[c.tx.id])
    case SecondLook(at) => at < |s.history| && (ByLookup(s.history[at], call) || call.result == Err(Conflict))
  }

  predicate ByLookup(db: Db, call: Call) {
    var found := StoredAnswer(db, RecordKeyOf(call.command), call.command.payloadHash, call.now);
    if found.Err? then call.result == Err(found.error)
    else found.value.Some? && call.result == Ok(found.value.value)
  }

  /** Whatever record holds the key in the window, nothing in the window removes it. */
  ghost predicate Held(s: System, from: nat, to: nat, k: RecordKey)
    requires from <= to <= |s.log| && |s.history| == |s.log| + 1
  {
    forall i, p | from <= i <= p < to && k in s.history[i].records ::
      Undisturbed(s.log[p].ops, k, s.history[i].records[k])
  }

  /** The committed state in which the record that answered the call can be found. */
  function Seen(answer: Answer): nat {
    match answer
    case FirstLook(at) => at
    case Created(at) => at + 1
    case SecondLook(at) => at
  }

  lemma HeldPersists(s: System, from: nat, to: nat, i: nat, j: nat, k: RecordKey)
    requires Wellformed(s) && from <= i <= j <= to <= |s.log| && |s.history| == |s.log| + 1
    requires Held(s, from, to, k) && k in s.history[i].records
    ensures k in s.history[j].records && s.history[j].records[k] == s.history[i].records[k]
    ensures forall op | op in OpsOf(s.log[i..j]) :: !Claims(op, k)
  {
    hide Wellformed, Claims, ExecAll, Undisturbed;
    CommittedRun(s, i, j);
    AllUndisturbed(s.log[i..j], k, s.history[i].records[k]);
    RunHolds(s.history[i], OpsOf(s.log[i..j]), k);
  }

  lemma {:induction false} AllUndisturbed(log: seq<Entry>, k: RecordKey, r: Record)
    requires forall e | e in log :: Undisturbed(e.ops, k, r)
    ensures Undisturbed(OpsOf(log), k, r)
  {
    hide Removes;
    if log != [] {
      assert log[0] in log;
      assert forall e | e in log[1..] :: e in log;
      AllUndisturbed(log[1..], k, r);
    }
  }

  /** A call that succeeded points at a committed record with its hash and its answer. */
  lemma AnswerIsRecorded(s: System, call: Call)
    requires Wellformed(s) && Answered(s, call) && call.result.Ok? && call.command.key != NO_ID
    ensures var k, at := RecordKeyOf(call.command), Seen(call.answer);
            && at < |s.history| && k in s.history[at].records
            && s.history[at].records[k].response == call.result.value
            && s.history[at].records[k].payloadHash == call.command.payloadHash
  {
    hide WellKeyed, WritesOfAll, CreateBody;
    if call.answer.Created? {
      var at := call.answer.at;
      assert ExecAll(s.history[at], s.log[at].ops) == Ok(s.history[at + 1]);
      ExecOne(s.history[at], Op.Create(call.command));
      CreateRecords(s.history[at], call.command);
    }
  }

  /**
   * Exactly once, for any interleaving of concurrent calls and retries: as long
   * as no record of the key expires or loses its transaction, any two calls
   * with one (user, key) that succeed return the same transaction and carried
   * the same payload, and at most one of them created anything.
   */
  lemma ExactlyOnce(s: System, from: nat, to: nat, a: Call, b: Call)
    requires Wellformed(s) && Answered(s, a) && Answered(s, b) && a.result.Ok? && b.result.Ok?
    requires RecordKeyOf(a.command) == RecordKeyOf(b.command) && a.command.key != NO_ID
    requires from <= Seen(a.answer) <= Seen(b.answer) <= to <= |s.log| && |s.history| == |s.log| + 1
    requires Held(s, from, to, RecordKeyOf(a.command))
    ensures a.result == b.result && a.command.payloadHash == b.command.payloadHash
    ensures a.answer.Created? && b.answer.Created? ==> a.answer == b.answer
    ensures b.answer.Created? ==> Seen(a.answer) == Seen(b.answer)
  {
    hide Wellformed, Undisturbed, Answered;
    var k := RecordKeyOf(a.command);
    AnswerIsRecorded(s, a);
    AnswerIsRecorded(s, b);
    HeldPersists(s, from, to, Seen(a.answer), Seen(b.answer), k);
    if b.answer.Created? && Seen(a.answer) < Seen(b.answer) {
      var at := b.answer.at;
      HeldPersists(s, from, to, Seen(a.answer), at, k);
      NotHeldBefore(s, b);
    }
  }

  /** A create commits only on a state in which its key is free. */
  lemma NotHeldBefore(s: System, call: Call)
    requires Wellformed(s) && Answered(s, call) && call.answer.Created? && call.command.key != NO_ID
    ensures RecordKeyOf(call.command) !in s.history[call.answer.at].records
  {
    hide WellKeyed, WritesOfAll, CreateBody, ExecAll;
    var at := call.answer.at;
    assert ExecAll(s.history[at], s.log[at].ops) == Ok(s.history[at + 1]);
    ExecOne(s.history[at], Op.Create(call.command));
    CreateRecords(s.history[at], call.command);
  }

  // ---- retries ----

  /**
   * The record of a committed create answers every later retry: same payload, same response;
   * another payload, a conflict.
   */
  lemma RetryIsAnswered(db: Db, c: CreateCommand, later: seq<Op>, retry: CreateCommand, now: int)
    requires CreateBody(db, c).Ok? && c.key != NO_ID && RecordKeyOf(retry) == RecordKeyOf(c)
    requires var made := CreateBody(db, c).value;
             ExecAll(made, later).Ok? && RecordKeyOf(c) in made.records
               && Undisturbed(later, RecordKeyOf(c), made.records[RecordKeyOf(c)])
    requires now < c.expiresAt
    ensures c.tx.id in CreateBody(db, c).value.ledger.txs
    ensures StoredAnswer(ExecAll(CreateBody(db, c).value, later).value, RecordKeyOf(retry), retry.payloadHash, now)
            == if retry.payloadHash == c.payloadHash then Ok(Some(CreateBody(db, c).value.ledger.txs[c.tx.id]))
              else Err(Conflict)
  {
    hide CreateBody, Undisturbed;
    CreateRecords(db, c);
    RunHolds(CreateBody(db, c).value, later, RecordKeyOf(c));
  }

  /**
   * A retried call changes nothing: not a balance, not a counter, not the ledger version; and
   * it repeats the answer.
   */
  lemma RetryChangesNothing(db: Db, c: CreateCommand, now: int, later: seq<Op>, retry: CreateCommand, again: int)
    requires c.key != NO_ID && RecordKeyOf(retry) == RecordKeyOf(c) && RepositorySourceDelta(retry.tx).Ok?
    requires CreateBody(Released(db, RecordKeyOf(c), now), c).Ok? && CreateCall(db, c, now).1.Ok?
    requires StoredAnswer(Released(db, RecordKeyOf(c), now), RecordKeyOf(c), c.payloadHash, now) == Ok(None)
    requires var made := CreateCall(db, c, now).0;
             && ExecAll(made, later).Ok? && RecordKeyOf(c) in made.records
             && Undisturbed(later, RecordKeyOf(c), made.records[RecordKeyOf(c)])
    requires again < c.expiresAt
    ensures var reached := ExecAll(CreateCall(db, c, now).0, later).value;
            CreateCall(reached, retry, again)
            == (reached, if retry.payloadHash == c.payloadHash then CreateCall(db, c, now).1 else Err(Conflict))
  {
    hide CreateBody, Undisturbed, ExecAll;
    var released := Released(db, RecordKeyOf(c), now);
    CreateRecords(released, c);
    RetryIsAnswered(released, c, later, retry, again);
    RunHolds(CreateBody(released, c).value, later, RecordKeyOf(c));
  }
}
