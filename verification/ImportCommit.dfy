/**
 * Committing an import: one database transaction that creates, links and
 * ignores the reviewed rows and then takes the session out of draft.
 */
module ImportCommit {
  import opened Outcomes
  import opened Decimals
  import opened Texts
  import opened MoneyText
  import opened Store
  import opened Balances
  import opened BalanceLaws
  import opened Numbering
  import opened Categories
  import opened Checkpoints
  import opened Operations
  import opened Repeatability
  import opened Isolation
  import opened Runs
  import opened ImportDetection
  import AutomationRules

  /** The session's account and vault, who commits, and the rules in force. */
  datatype Context = Context(
    sessionId: Id, workspaceId: Id, vaultId: Id, accountId: Id, actorId: Id, currency: Id, shared: bool,
    directory: AutomationRules.Directory, rules: seq<AutomationRules.Rule>)

  /** What the commit generates for a row: an identifier, its idempotency key and hash, and the time. */
  datatype Generated = Generated(id: Id, key: Id, payloadHash: Id, now: int, expiresAt: int)

  /** The transaction of a statement row before rules: cleared by the statement it came from. */
  function StatementTransaction(x: Context, r: Row, g: Generated): Transaction {
    var kind := if r.credit then Income else Expense;
    Transaction(
      g.id, x.workspaceId, "", ScopeOf(kind, false), x.vaultId, x.accountId, NO_ID, x.actorId, kind, r.amount,
      x.currency, "", Trim(r.description), Trim(r.notes), Trim(r.reference), NO_ID, [], [],
      if x.shared then Workspace else Private,
      r.occurredAt, g.now, Some(r.occurredAt), true)
  }

  function ImportedTransaction(x: Context, r: Row, g: Generated): Transaction {
    AutomationRules.ApplyRules(x.directory, x.rules, StatementTransaction(x, r, g), false).0
  }

  /** What one reviewed row asks the database to do. */
  function RowOp(x: Context, r: Row, g: Generated): Result<Option<Op>> {
    match r.action
    case IgnoreRow => Ok(None)
    case LinkRow => if r.target == NO_ID then Err(InvalidField("rows")) else Ok(Some(Op.Link(r.target, g.now)))
    case CreateRow =>
      if r.state == Invalid || !(0 < r.amount <= MAX_MONEY_MINOR) then Err(InvalidField("rows"))
      else if |Trim(r.description)| > 200 then Err(InvalidField("merchant"))
      else if |Trim(r.notes)| > 2_000 then Err(InvalidField("notes"))
      else if |Trim(r.reference)| > 2_000 then Err(InvalidField("description"))
      else Ok(Some(Op.Create(CreateCommand(ImportedTransaction(x, r, g), true, g.key, g.payloadHash, g.expiresAt))))
    case Undecided => Err(InvalidField("rows"))
  }

  predicate Decided(x: Context, rows: seq<Row>, gs: seq<Generated>)
    requires |rows| == |gs|
  {
    forall i | 0 <= i < |rows| :: RowOp(x, rows[i], gs[i]).Ok?
  }

  /** The operations of the rows so far, in row order. */
  function RowOps(x: Context, rows: seq<Row>, gs: seq<Generated>): seq<Op>
    requires |rows| == |gs| && Decided(x, rows, gs)
  {
    if rows == [] then []
    else
      var last := RowOp(x, rows[|rows| - 1], gs[|rows| - 1]).value;
      RowOps(x, rows[..|rows| - 1], gs[..|rows| - 1]) + if last.Some? then [last.value] else []
  }

  /** `commitImportInContext`: the rows, then the guard that ends the draft. */
  function CommitOps(x: Context, rows: seq<Row>, gs: seq<Generated>): seq<Op>
    requires |rows| == |gs| && Decided(x, rows, gs)
  {
    RowOps(x, rows, gs) + [Op.Finish(x.sessionId, Completed)]
  }

  /** How many rows are to be treated in one way. */
  function Having(rows: seq<Row>, action: RowAction): nat {
    if rows == [] then 0
    else Having(rows[..|rows| - 1], action) + if rows[|rows| - 1].action == action then 1 else 0
  }

  /** When a row is refused, and what an accepted one asks for. */
  lemma RowOpMeans(x: Context, r: Row, g: Generated)
    ensures var op := RowOp(x, r, g);
            && (op.Err? <==> || r.action == Undecided
                             || (r.action == LinkRow && r.target == NO_ID)
                             || (r.action == CreateRow
                                 && (r.state == Invalid || r.amount <= 0 || r.amount > 9_000_000_000_000_000
                                     || |Trim(r.description)| > 200 || |Trim(r.notes)| > 2_000
                                     || |Trim(r.reference)| > 2_000)))
            && (op.Ok? ==> (op.value.None? <==> r.action == IgnoreRow))
            && (op.Ok? && r.action == LinkRow ==> op.value == Some(Op.Link(r.target, g.now)))
            && (op.Ok? && r.action == CreateRow ==>
                  && op.value.value.Create?
                  && var c := op.value.value.command;
                     && c.autoNumber && c.key == g.key && c.payloadHash == g.payloadHash && c.expiresAt == g.expiresAt
                     && var tx := StatementTransaction(x, r, g);
                        c.tx == AutomationRules.ApplyRules(x.directory, x.rules, tx, false).0)
  {
    hide AutomationRules.ApplyRules, StatementTransaction;
  }

  /**
   * The transaction of a statement row: the row's date, amount, direction and
   * texts, in the session's account, reconciled by the statement it came from.
   */
  lemma StatementMeans(x: Context, r: Row, g: Generated)
    ensures var tx := StatementTransaction(x, r, g);
            && tx.kind == (if r.credit then Income else Expense) && tx.amount == r.amount
            && tx.occurredAt == r.occurredAt && tx.clearedAt == Some(r.occurredAt) && tx.createdAt == g.now
            && IsCore(IsSpace, tx.merchant, r.description) && IsCore(IsSpace, tx.notes, r.notes)
            && IsCore(IsSpace, tx.description, r.reference) && tx.category == ""
            && tx.id == g.id && tx.workspaceId == x.workspaceId && tx.createdBy == x.actorId
            && tx.vaultId == x.vaultId && tx.accountId == x.accountId && tx.destinationId == NO_ID
            && tx.currency == x.currency && tx.contactId == NO_ID && tx.tags == [] && tx.splits == []
            && tx.scope == (if r.credit then IncomeScope else ExpenseScope) && tx.imported
            && (tx.privacy == Workspace <==> x.shared) && (tx.privacy == Private <==> !x.shared)
  {
    TrimMeans(r.description, Trim(r.description));
    TrimMeans(r.notes, Trim(r.notes));
    TrimMeans(r.reference, Trim(r.reference));
    hide Trim, IsCore;
  }

  datatype Counts = Counts(created: nat, linked: nat, ignored: nat)

  /**
   * The row loop. It refuses a statement with an undecided row, an invalid row
   * to create or a link without target; otherwise it counts every row once.
   */
  method PlanRows(x: Context, rows: seq<Row>, gs: seq<Generated>) returns (r: Result<(seq<Op>, Counts)>)
    requires |rows| == |gs|
    ensures r.Ok? <==> Decided(x, rows, gs)
    ensures r.Ok? ==> r.value.0 == RowOps(x, rows, gs)
    ensures r.Ok? ==>
              var c := r.value.1;
              && c.created == Having(rows, CreateRow) && c.linked == Having(rows, LinkRow)
              && c.ignored == Having(rows, IgnoreRow)
              && c.created + c.linked + c.ignored == |rows| && c.created + c.linked == |r.value.0|
  {
    hide ImportedTransaction;
    var ops, counts := [], Counts(0, 0, 0);
    for i := 0 to |rows|
      invariant Decided(x, rows[..i], gs[..i])
      invariant ops == RowOps(x, rows[..i], gs[..i])
      invariant counts.created == Having(rows[..i], CreateRow) && counts.linked == Having(rows[..i], LinkRow)
      invariant counts.ignored == Having(rows[..i], IgnoreRow)
      invariant counts.created + counts.linked + counts.ignored == i && counts.created + counts.linked == |ops|
    {
      var op := RowOp(x, rows[i], gs[i]);
      if op.Err? {
        return Err(op.error);
      }
      DecidedMore(x, rows, gs, i);
      assert rows[..i + 1][..i] == rows[..i];
      if rows[i].action == IgnoreRow {
        counts := counts.(ignored := counts.ignored + 1);
      } else if rows[i].action == LinkRow {
        counts := counts.(linked := counts.linked + 1);
      } else {
        counts := counts.(created := counts.created + 1);
      }
      ops := ops + if op.value.Some? then [op.value.value] else [];
    }
    assert rows[..|rows|] == rows && gs[..|gs|] == gs;
    return Ok((ops, counts));
  }

  lemma DecidedMore(x: Context, rows: seq<Row>, gs: seq<Generated>, i: nat)
    requires |rows| == |gs| && i < |rows| && Decided(x, rows[..i], gs[..i]) && RowOp(x, rows[i], gs[i]).Ok?
    ensures Decided(x, rows[..i + 1], gs[..i + 1])
    ensures RowOps(x, rows[..i + 1], gs[..i + 1])
            == RowOps(x, rows[..i], gs[..i])
               + if RowOp(x, rows[i], gs[i]).value.Some? then [RowOp(x, rows[i], gs[i]).value.value] else []
  {
    hide RowOp;
    assert rows[..i + 1][..i] == rows[..i] && gs[..i + 1][..i] == gs[..i];
    assert forall k | 0 <= k < i + 1 :: rows[..i + 1][k] == rows[k] && gs[..i + 1][k] == gs[k];
    assert forall k | 0 <= k < i :: rows[..i][k] == rows[k] && gs[..i][k] == gs[k];
  }

  // ---- links ----

  predicate Cleared(txs: map<Id, Transaction>, id: Id) {
    id in txs && txs[id].clearedAt.Some?
  }

  /** The rows' operations: creates of cleared transactions, and links. */
  predicate ImportOp(op: Op) {
    op.Link? || op.Finish? || (op.Create? && op.command.tx.clearedAt.Some?)
  }

  lemma ImportStepKeepsCleared(db: Db, op: Op)
    requires ImportOp(op) && Exec(db, op).Ok?
    ensures var after := Exec(db, op).value.ledger.txs;
            && (forall id | Cleared(db.ledger.txs, id) :: Cleared(after, id))
            && (forall id | id in after && id !in db.ledger.txs :: Cleared(after, id))
            && (forall id | id in db.ledger.txs :: id in after)
            && (op.Link? ==> op.id in db.ledger.txs && !Cleared(db.ledger.txs, op.id) && Cleared(after, op.id))
  {
    hide PrepareNumber, CreateBooks, NumberTaken, Numbered;
  }

  /** Committed links point at stored, unreconciled transactions, each linked once. */
  lemma {:induction false} LinksAreDistinct(db: Db, ops: seq<Op>, i: nat, j: nat)
    requires ExecAll(db, ops).Ok? && (forall op | op in ops :: ImportOp(op)) && i <= j < |ops|
    requires ops[i].Link? && ops[j].Link?
    ensures ops[i].id in db.ledger.txs && !Cleared(db.ledger.txs, ops[i].id)
    ensures i != j ==> ops[i].id != ops[j].id
    decreases |ops|
  {
    hide Exec;
    assert ops[0] in ops;
    var next, rest := Exec(db, ops[0]).value, ops[1..];
    ImportStepKeepsCleared(db, ops[0]);
    assert forall op | op in rest :: op in ops;
    if i > 0 {
      LinksAreDistinct(next, rest, i - 1, j - 1);
    } else if j > 0 {
      LinksAreDistinct(next, rest, j - 1, j - 1);
      assert rest[j - 1] == ops[j];
    }
  }

  lemma ImportedIsCleared(x: Context, r: Row, g: Generated)
    ensures var tx := ImportedTransaction(x, r, g);
            && tx.clearedAt.Some? && tx.id == g.id && tx.vaultId == x.vaultId && tx.amount == r.amount
            && tx.kind == (if r.credit then Income else Expense)
  {
    hide AutomationRules.ApplyRules;
    AutomationRules.RulesKeepSubstance(x.directory, x.rules, StatementTransaction(x, r, g), false);
  }

  lemma {:induction false} RowOpsAreImportOps(x: Context, rows: seq<Row>, gs: seq<Generated>)
    requires |rows| == |gs| && Decided(x, rows, gs)
    ensures forall op | op in RowOps(x, rows, gs) :: ImportOp(op)
  {
    hide ImportedTransaction;
    if rows != [] {
      var n := |rows| - 1;
      RowOpsAreImportOps(x, rows[..n], gs[..n]);
      assert RowOp(x, rows[n], gs[n]).Ok?;
      ImportedIsCleared(x, rows[n], gs[n]);
    }
  }

  /** In a committed import the linked targets are pairwise distinct and were unreconciled. */
  lemma LinkedTargetsAreDistinct(db: Db, x: Context, rows: seq<Row>, gs: seq<Generated>, i: nat, j: nat)
    requires |rows| == |gs| && Decided(x, rows, gs) && ExecAll(db, CommitOps(x, rows, gs)).Ok?
    requires i <= j < |RowOps(x, rows, gs)| && RowOps(x, rows, gs)[i].Link? && RowOps(x, rows, gs)[j].Link?
    ensures var ops := RowOps(x, rows, gs);
            && ops[i].id in db.ledger.txs && db.ledger.txs[ops[i].id].clearedAt.None?
            && (i != j ==> ops[i].id != ops[j].id)
  {
    hide ExecAll, RowOps;
    RowOpsAreImportOps(x, rows, gs);
    LinksAreDistinct(db, CommitOps(x, rows, gs), i, j);
  }

  // ---- money ----

  function Signed(r: Row): int {
    if r.action != CreateRow then 0 else if r.credit then r.amount else -r.amount
  }

  /** Created credits minus created debits. */
  function NetCreated(rows: seq<Row>): int {
    if rows == [] then 0 else NetCreated(rows[..|rows| - 1]) + Signed(rows[|rows| - 1])
  }

  /** A created income or expense moves exactly its own vault, whichever account of it the rules chose. */
  lemma CreateMovesItsVault(books: Books, tx: Transaction, v: Id)
    requires CreateBooks(books, tx).Ok? && (tx.kind.Income? || tx.kind.Expense?) && v in books.vaults
    ensures var after := CreateBooks(books, tx).value;
            && v in after.vaults
            && after.vaults[v].balance == books.vaults[v].balance
               + if v == tx.vaultId then (if tx.kind.Income? then tx.amount else -tx.amount) else 0
  {
    CreateBooksMeans(books, tx);
    var creates := CreateAdjusts(tx, books.accounts, RepositorySourceDelta(tx).value);
    assert Apply(books, creates[0]).Ok?;
    assert books.accounts[tx.accountId].vaultId == tx.vaultId;
    SourceDeltasAgree(tx);
    hide ApplyAll, Admits;
  }

  lemma RowMovesVault(db: Db, x: Context, r: Row, g: Generated, v: Id)
    requires RowOp(x, r, g).Ok? && v in db.books.vaults
    requires RowOp(x, r, g).value.Some? ==> Exec(db, RowOp(x, r, g).value.value).Ok?
    ensures var op := RowOp(x, r, g).value;
            var after := if op.Some? then Exec(db, op.value).value else db;
            && v in after.books.vaults
            && after.books.vaults[v].balance == db.books.vaults[v].balance + if v == x.vaultId then Signed(r) else 0
  {
    hide ImportedTransaction, CreateBooks, PrepareNumber, NumberTaken, Numbered;
    if r.action == CreateRow {
      var c := RowOp(x, r, g).value.value.command;
      ImportedIsCleared(x, r, g);
      var tx := c.tx.(publicId := PrepareNumber(db.sequences, db.ledger.txs, c).value.1);
      CreateMovesItsVault(db.books, tx, v);
    }
  }

  /** A committed import moves the session's vault by created credits minus created debits, and no other vault. */
  lemma {:induction false} ImportMovesVault(db: Db, x: Context, rows: seq<Row>, gs: seq<Generated>, v: Id)
    requires |rows| == |gs| && Decided(x, rows, gs) && v in db.books.vaults
    requires ExecAll(db, RowOps(x, rows, gs)).Ok?
    ensures var after := ExecAll(db, RowOps(x, rows, gs)).value;
            && v in after.books.vaults
            && after.books.vaults[v].balance
               == db.books.vaults[v].balance + if v == x.vaultId then NetCreated(rows) else 0
    decreases |rows|
  {
    hide Exec, RowOp, Signed;
    if rows != [] {
      var n := |rows| - 1;
      var earlier, op := RowOps(x, rows[..n], gs[..n]), RowOp(x, rows[n], gs[n]).value;
      if op.Some? {
        ExecSnoc(db, earlier, op.value);
      } else {
        assert RowOps(x, rows, gs) == earlier;
      }
      ImportMovesVault(db, x, rows[..n], gs[..n], v);
      RowMovesVault(ExecAll(db, earlier).value, x, rows[n], gs[n], v);
    }
  }

  lemma ExecSnoc(db: Db, ops: seq<Op>, op: Op)
    requires ExecAll(db, ops + [op]).Ok?
    ensures ExecAll(db, ops).Ok? && Exec(ExecAll(db, ops).value, op) == ExecAll(db, ops + [op])
  {
    hide Exec;
    ExecPrefixOk(db, ops + [op], |ops|);
    assert (ops + [op])[..|ops|] == ops;
    ExecJoin(db, ops, [op]);
    ExecOne(ExecAll(db, ops).value, op);
  }

  /** The whole commit: money as above, every other balance dimension through the same creates, and the draft ends. */
  lemma CommitConserves(db: Db, x: Context, rows: seq<Row>, gs: seq<Generated>, v: Id)
    requires |rows| == |gs| && Decided(x, rows, gs) && v in db.books.vaults
    requires ExecAll(db, CommitOps(x, rows, gs)).Ok?
    ensures var after := ExecAll(db, CommitOps(x, rows, gs)).value;
            && v in after.books.vaults
            && after.books.vaults[v].balance == db.books.vaults[v].balance
              + (if v == x.vaultId then NetCreated(rows) else 0)
            && x.sessionId in after.sessions && after.sessions[x.sessionId] == Completed
  {
    hide ExecAll, RowOps, NetCreated;
    ExecSnoc(db, RowOps(x, rows, gs), Op.Finish(x.sessionId, Completed));
    ImportMovesVault(db, x, rows, gs, v);
  }

  // ---- the session leaves draft once ----

  lemma ExecKeepsFinished(db: Db, op: Op, id: Id)
    requires Exec(db, op).Ok? && id in db.sessions && db.sessions[id] != Draft
    ensures id in Exec(db, op).value.sessions && Exec(db, op).value.sessions[id] == db.sessions[id]
    ensures !(op.Finish? && op.sessionId == id)
  {
    hide CreateBooks, EditBooks, ChangeBooks, PrepareNumber, NumberTaken, EditedVersion, RenumberCounters, Affected,
      MigrationChanges,
      ReviewAllowed, OpeningBody, ArchiveBody, Numbered, Revisions.Tally;
  }

  lemma {:induction false} FinishedStays(db: Db, ops: seq<Op>, id: Id)
    requires ExecAll(db, ops).Ok? && id in db.sessions && db.sessions[id] != Draft
    ensures forall op | op in ops :: !(op.Finish? && op.sessionId == id)
    ensures id in ExecAll(db, ops).value.sessions && ExecAll(db, ops).value.sessions[id] == db.sessions[id]
    decreases |ops|
  {
    hide Exec;
    if ops != [] {
      ExecKeepsFinished(db, ops[0], id);
      FinishedStays(Exec(db, ops[0]).value, ops[1..], id);
      assert forall op | op in ops :: op == ops[0] || op in ops[1..];
    }
  }

  /**
   * In every interleaving a session ends at most once: after a commit that
   * completed or cancelled it, no later committed transaction contains another
   * end of it, whether a commit or a cancellation.
   */
  lemma SessionEndsOnce(trace: seq<System>, n: nat, i: nat, j: nat, id: Id)
    requires Behaviour(trace) && WellKeyed(trace[0].history[0]) && n < |trace| && i <= j < |trace[n].log|
    requires i < |trace[n].history| && id in trace[n].history[i].sessions && trace[n].history[i].sessions[id] != Draft
    ensures forall op | op in trace[n].log[j].ops :: !(op.Finish? && op.sessionId == id)
  {
    hide Behaviour, WellKeyed, ExecAll, WritesOfAll;
    var s := trace[n];
    InterleavingsAreSerial(trace, n);
    CommittedRun(s, i, j);
    CommittedRun(s, j, j + 1);
    FinishedStays(s.history[i], OpsOf(s.log[i..j]), id);
    FinishedStays(s.history[j], OpsOf(s.log[j..j + 1]), id);
    assert s.log[j..j + 1] == [s.log[j]] && OpsOf([s.log[j]]) == s.log[j].ops;
  }
}
