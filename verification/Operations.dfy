/**
 * The bodies of the workspace's MongoDB transactions, as functions of the
 * documents they read, together with the documents each one writes.
 */
module Operations {
  import opened Outcomes
  import opened Decimals
  import opened MoneyText
  import opened Store
  import opened Balances
  import opened Revisions
  import opened Checkpoints
  import opened Numbering
  import opened Categories

  // ---- operations ----

  /** A create request: `key` is the idempotency key, absent when it is the empty identifier. */
  datatype CreateCommand = CreateCommand(
    tx: Transaction,
    autoNumber: bool,
    key: Id,
    payloadHash: Id,
    expiresAt: int)

  datatype Op =
    | Create(command: CreateCommand)
    | Edit(id: Id, input: Transaction)
    | Delete(id: Id)
    | Migrate(mode: Scope, oldName: string, newName: string)
    | Capture(personal: bool, request: ReviewRequest)
    | SetOpening(accountId: Id, opening: int)
    | Archive(accountId: Id)
    | AddAccount(accountId: Id, vaultId: Id, currency: Id, opening: int, privacy: Privacy)
    | AddVault(vaultId: Id, currency: Id, opening: int)
    | Link(id: Id, now: int)
    | Finish(sessionId: Id, status: SessionStatus)
    | Release(record: RecordKey, now: int)
    | PatchCounter(scope: Scope, requested: Sequence)

  // ---- create ----

  predicate NumberTaken(txs: map<Id, Transaction>, scope: Scope, text: string, except: Id) {
    exists id | id in txs :: id != except && txs[id].scope == scope && txs[id].publicId == text
  }

  /** `prepareTransactionIdentifier`: the counters afterwards and the identifier to store. */
  function PrepareNumber(counters: Counters, txs: map<Id, Transaction>, c: CreateCommand): Result<(Counters, string)> {
    if c.autoNumber then Allocate(counters, c.tx.scope)
    else
      var after :- Reserve(counters, c.tx.scope, c.tx.publicId);
      if NumberTaken(txs, c.tx.scope, c.tx.publicId, c.tx.id) then Err(DuplicateId) else Ok((after, c.tx.publicId))
  }

  function RecordKeyOf(c: CreateCommand): RecordKey {
    RecordKey(c.tx.createdBy, c.key)
  }

  function RecordOf(c: CreateCommand, tx: Transaction): Record {
    Record(tx.id, c.payloadHash, tx, c.expiresAt)
  }

  function RecordCreate(ledger: Ledger, tx: Transaction): Ledger {
    Advance(ledger, ledger.txs[tx.id := tx], [Change(tx.id, None, Some(NewRevision(tx)))])
  }

  /** The transaction body of `CreateFinancialTransaction`. */
  function CreateBody(db: Db, c: CreateCommand): Result<Db> {
    var (counters, text) :- PrepareNumber(db.sequences, db.ledger.txs, c);
    var tx := c.tx.(publicId := text);
    var _ :- Need(tx.workspaceId == db.workspaceId, Conflict);
    var _ :- Need(c.key != NO_ID ==> RecordKeyOf(c) !in db.records, Conflict);
    var _ :- Need(tx.id !in db.ledger.txs && !NumberTaken(db.ledger.txs, tx.scope, text, tx.id), DuplicateId);
    var books :- CreateBooks(db.books, tx);
    Ok(db.(
      books := books,
      ledger := RecordCreate(db.ledger, tx),
      sequences := counters,
      records := if c.key != NO_ID then db.records[RecordKeyOf(c) := RecordOf(c, tx)] else db.records))
  }

  // ---- edit and delete ----

  /** `validatedText` without a minimum length. */
  function ValidText(field: string, raw: string, limit: nat): Result<string> {
    if |Trim(raw)| > limit then Err(InvalidField(field)) else Ok(Trim(raw))
  }

  /**
   * `transactionFromInput` for an existing transaction: the stored version the
   * edit will write. Identity, creator, creation time, numbering scope and the
   * reconciliation mark are the stored ones.
   */
  function EditedVersion(accounts: map<Id, Account>, current: Transaction, input: Transaction): Result<Transaction> {
    var publicId := Trim(if Trim(input.publicId) == "" then current.publicId else input.publicId);
    var _ :- Need(!input.kind.Unsupported?, InvalidField("type"));
    var _ :- Need(publicId != "" ==> ParseNumber(publicId).Ok?, InvalidField("transactionId"));
    var _ :- Need(0 < input.amount <= MAX_MONEY_MINOR, InvalidField("amountMinor"));
    var _ :- Need(input.accountId in accounts && !accounts[input.accountId].archived, NotFound);
    var account := accounts[input.accountId];
    var vaultId := if input.vaultId == NO_ID then account.vaultId else input.vaultId;
    var _ :- Need(input.currency != NO_ID, InvalidField("currency"));
    var _ :- Need(account.currency == input.currency && account.vaultId == vaultId, InvalidField("accountId"));
    var destinationId := if input.kind.Transfer? then input.destinationId else NO_ID;
    var _ :- Need(input.kind.Transfer? ==> destinationId != NO_ID && destinationId != input.accountId,
                  InvalidField("destinationAccountId"));
    var _ :- Need(input.kind.Transfer? ==> destinationId in accounts && !accounts[destinationId].archived, NotFound);
    var _ :- Need(input.kind.Transfer? ==> accounts[destinationId].currency == input.currency,
                  InvalidField("destinationAccountId"));
    var private_ := account.privacy != Workspace
      || (input.kind.Transfer? && accounts[destinationId].privacy != Workspace);
    var category :- ValidText("category", input.category, 100);
    var merchant :- ValidText("merchant", input.merchant, 200);
    var notes :- ValidText("notes", input.notes, 2_000);
    var description :- ValidText("description", input.description, 2_000);
    Ok(input.(
      id := current.id, workspaceId := current.workspaceId, publicId := publicId, scope := current.scope,
      category := category, merchant := merchant, notes := notes, description := description,
      vaultId := vaultId, destinationId := destinationId, createdBy := current.createdBy,
      privacy := if private_ then Private else input.privacy,
      occurredAt := if input.occurredAt == 0 then current.occurredAt else input.occurredAt,
      createdAt := current.createdAt, clearedAt := current.clearedAt, imported := current.imported))
  }

  /** A changed identifier is reserved first; an unchanged one touches no counter. */
  function RenumberCounters(counters: Counters, txs: map<Id, Transaction>, current: Transaction, next: Transaction)
    : Result<Counters>
  {
    if next.publicId == current.publicId then Ok(counters)
    else
      var after :- Reserve(counters, next.scope, next.publicId);
      if NumberTaken(txs, next.scope, next.publicId, current.id) then Err(DuplicateId) else Ok(after)
  }

  function RecordEdit(ledger: Ledger, current: Transaction, next: Transaction): Ledger {
    Advance(ledger, ledger.txs[next.id := next], [Change(next.id, Some(NewRevision(current)), Some(NewRevision(next)))])
  }

  /** The transaction body of `UpdateTransaction`. */
  function EditBody(db: Db, id: Id, input: Transaction): Result<Db> {
    var _ :- Need(id in db.ledger.txs, NotFound);
    var current := db.ledger.txs[id];
    var next :- EditedVersion(db.books.accounts, current, input);
    var counters :- RenumberCounters(db.sequences, db.ledger.txs, current, next);
    var books :- EditBooks(db.books, current, next);
    Ok(db.(books := books, ledger := RecordEdit(db.ledger, current, next), sequences := counters))
  }

  function RecordDelete(ledger: Ledger, current: Transaction): Ledger {
    Advance(ledger, ledger.txs - {current.id}, [Change(current.id, Some(NewRevision(current)), None)])
  }

  function OwnedRecords(records: map<RecordKey, Record>, id: Id): set<RecordKey> {
    set k | k in records && records[k].transactionId == id
  }

  /** The transaction body of `DeleteTransaction`: it also frees the idempotency key. */
  function DeleteBody(db: Db, id: Id): Result<Db> {
    var _ :- Need(id in db.ledger.txs, NotFound);
    var current := db.ledger.txs[id];
    var books :- ChangeBooks(db.books, current, true);
    Ok(db.(books := books, ledger := RecordDelete(db.ledger, current),
      records := db.records - OwnedRecords(db.records, id)))
  }

  // ---- category migration ----

  ghost function MigrationChanges(txs: map<Id, Transaction>, ids: set<Id>, newName: string): seq<Change>
    requires ids <= txs.Keys
  {
    AscendingLists(ids);
    var list := Ascending(ids);
    seq(|list|, i requires 0 <= i < |list| =>
      assert list[i] in ids;
      Change(list[i], Some(NewRevision(txs[list[i]])), Some(NewRevision(txs[list[i]].(category := newName)))))
  }

  /** `migrateTransactionCategorySnapshots`; when no row matches nothing is written. */
  ghost function MigrateBody(db: Db, mode: Scope, oldName: string, newName: string): Result<Db> {
    var ids := Affected(db.ledger.txs, mode, oldName, newName);
    var _ :- Need(ids != {}, NotFound);
    var _ :- Need(|ids| <= MIGRATION_MAX, InvalidField("category"));
    Ok(db.(ledger := Advance(db.ledger, Renamed(db.ledger.txs, ids, newName),
      MigrationChanges(db.ledger.txs, ids, newName))))
  }

  // ---- the other operations ----

  function OpeningAdjusts(account: Account, vault: Vault, accountId: Id, delta: int): seq<Adjust> {
    if delta == 0 then []
    else
      [Adjust(AccountTarget(accountId), account.currency, delta, Service),
       Adjust(VaultTarget(account.vaultId), vault.currency, delta, Service)]
  }

  /** `UpdateAccount` as one step: the opening it edits is the stored one. */
  function OpeningBody(books: Books, accountId: Id, opening: int): Result<Books> {
    OpeningFrom(books, accountId, if accountId in books.accounts then books.accounts[accountId].opening else 0, opening)
  }

  /** `UpdateAccount` with the opening balance it read before its transaction began. */
  function OpeningFrom(books: Books, accountId: Id, seen: int, opening: int): Result<Books> {
    var _ :- Need(accountId in books.accounts && !books.accounts[accountId].archived, NotFound);
    var account := books.accounts[accountId];
    var _ :- Need(account.vaultId in books.vaults, NotFound);
    var _ :- Need(InRange(opening), InvalidField("openingMinor"));
    var moved :- ApplyAll(books, OpeningAdjusts(account, books.vaults[account.vaultId], accountId, opening - seen));
    var _ :- Need(accountId in moved.accounts, NotFound);
    Ok(moved.(accounts := moved.accounts[accountId := moved.accounts[accountId].(opening := opening)]))
  }

  function SetBooks(db: Db, books: Result<Books>): Result<Db> {
    var books :- books;
    Ok(db.(books := books))
  }

  function ArchiveBody(books: Books, accountId: Id): Result<Books> {
    var _ :- Need(accountId in books.accounts && !books.accounts[accountId].archived, NotFound);
    Ok(books.(accounts := books.accounts[accountId := books.accounts[accountId].(archived := true)]))
  }

  /** The insert of a new account; that its vault is active and visible is checked before the transaction. */
  function AddAccountBody(db: Db, id: Id, vaultId: Id, currency: Id, opening: int, privacy: Privacy): Result<Db> {
    var _ :- Need(vaultId != NO_ID && vaultId in db.books.vaults, NotFound);
    var _ :- Need(db.books.vaults[vaultId].currency == currency, InvalidField("currency"));
    var _ :- Need(InRange(opening), InvalidField("openingMinor"));
    var _ :- Need(id != NO_ID && id !in db.books.accounts, Conflict);
    var account := Account(vaultId, currency, opening, opening, privacy, false, false);
    Ok(db.(books := db.books.(accounts := db.books.accounts[id := account])))
  }

  function AddVaultBody(db: Db, id: Id, currency: Id, opening: int): Result<Db> {
    var _ :- Need(currency != NO_ID, InvalidField("currency"));
    var _ :- Need(InRange(opening), InvalidField("openingMinor"));
    var _ :- Need(id != NO_ID && id !in db.books.vaults, Conflict);
    Ok(db.(books := db.books.(vaults := db.books.vaults[id := Vault(currency, opening, opening, false)])))
  }

  /** `clearLinkedTransaction`: marks one uncleared transaction; no money, no ledger version. */
  function LinkBody(db: Db, id: Id, now: int): Result<Db> {
    var _ :- Need(id in db.ledger.txs && db.ledger.txs[id].clearedAt.None?, InvalidField("rows"));
    Ok(db.(ledger := db.ledger.(txs := db.ledger.txs[id := db.ledger.txs[id].(clearedAt := Some(now))])))
  }

  /** The draft guard that ends an import session. */
  function FinishBody(db: Db, id: Id, status: SessionStatus): Result<Db> {
    var _ :- Need(id in db.sessions && db.sessions[id] == Draft && status != Draft, Conflict);
    Ok(db.(sessions := db.sessions[id := status]))
  }

  /** `releaseExpiredIdempotencyKey`, and what the TTL index does on its own. */
  function ReleaseBody(db: Db, record: RecordKey, now: int): Db {
    if record in db.records && db.records[record].expiresAt <= now then db.(records := db.records - {record}) else db
  }

  function PatchBody(db: Db, scope: Scope, requested: Sequence): Result<Db> {
    var counters :- Patch(db.sequences, scope, requested);
    Ok(db.(sequences := counters))
  }

  function SetLedger(db: Db, ledger: Result<Ledger>): Result<Db> {
    var ledger :- ledger;
    Ok(db.(ledger := ledger))
  }

  ghost function Exec(db: Db, op: Op): Result<Db> {
    match op
    case Create(c) => CreateBody(db, c)
    case Edit(id, input) => EditBody(db, id, input)
    case Delete(id) => DeleteBody(db, id)
    case Migrate(mode, oldName, newName) => MigrateBody(db, mode, oldName, newName)
    case Capture(personal, q) =>
      SetLedger(db, CaptureReview(db.ledger, personal, LensOf(db.workspaceId, db.currency, q), q.status))
    case SetOpening(id, opening) => SetBooks(db, OpeningBody(db.books, id, opening))
    case Archive(id) => SetBooks(db, ArchiveBody(db.books, id))
    case AddAccount(id, vaultId, currency, opening, privacy) =>
      AddAccountBody(db, id, vaultId, currency, opening, privacy)
    case AddVault(id, currency, opening) => AddVaultBody(db, id, currency, opening)
    case Link(id, now) => LinkBody(db, id, now)
    case Finish(id, status) => FinishBody(db, id, status)
    case Release(record, now) => Ok(ReleaseBody(db, record, now))
    case PatchCounter(scope, requested) => PatchBody(db, scope, requested)
  }

  /** One database transaction may run several operations in order, as an import commit does. */
  ghost function ExecAll(db: Db, ops: seq<Op>): Result<Db>
    decreases |ops|
  {
    if ops == [] then Ok(db)
    else
      var next :- Exec(db, ops[0]);
      ExecAll(next, ops[1..])
  }

  // ---- write sets ----

  /** The documents a transaction writes; `ledger` stands for the workspace document. */
  datatype Writes = Writes(
    ledger: bool,
    accounts: set<Id>,
    vaults: set<Id>,
    txs: set<Id>,
    sequences: set<Scope>,
    records: set<RecordKey>,
    sessions: set<Id>)

  const NO_WRITES := Writes(false, {}, {}, {}, {}, {}, {})

  function Union(a: Writes, b: Writes): Writes {
    Writes(a.ledger || b.ledger, a.accounts + b.accounts, a.vaults + b.vaults, a.txs + b.txs,
           a.sequences + b.sequences, a.records + b.records, a.sessions + b.sessions)
  }

  predicate Disjoint(a: Writes, b: Writes) {
    && !(a.ledger && b.ledger)
    && a.accounts !! b.accounts && a.vaults !! b.vaults && a.txs !! b.txs
    && a.sequences !! b.sequences && a.records !! b.records && a.sessions !! b.sessions
  }

  function AccountsOf(tx: Transaction): set<Id> {
    {tx.accountId} + if tx.kind.Transfer? then {tx.destinationId} else {}
  }

  /** Same-vault transfers leave the vault document alone. */
  function VaultsOf(accounts: map<Id, Account>, tx: Transaction): set<Id> {
    var source := VaultOf(accounts, tx.accountId);
    if !tx.kind.Transfer? then {source}
    else
      var destination := VaultOf(accounts, tx.destinationId);
      if source == destination then {} else {source, destination}
  }

  /** The counters that actually change: a `$max` that does not raise the number writes nothing. */
  function ChangedCounters(before: Counters, after: Counters): set<Scope> {
    set scope | scope in after && !(scope in before && before[scope] == after[scope])
  }

  function WritesOf(db: Db, op: Op): Writes {
    match op
    case Create(c) =>
      var prepared := PrepareNumber(db.sequences, db.ledger.txs, c);
      NO_WRITES.(ledger := true, accounts := AccountsOf(c.tx), vaults := VaultsOf(db.books.accounts, c.tx),
                 txs := {c.tx.id},
                 sequences := if prepared.Ok? then ChangedCounters(db.sequences, prepared.value.0) else {},
                 records := if c.key != NO_ID then {RecordKeyOf(c)} else {})
    case Edit(id, input) =>
      if id !in db.ledger.txs then NO_WRITES
      else
        var current := db.ledger.txs[id];
        var next := EditedVersion(db.books.accounts, current, input);
        if next.Err? then NO_WRITES
        else
          var counters := RenumberCounters(db.sequences, db.ledger.txs, current, next.value);
          NO_WRITES.(ledger := true, accounts := AccountsOf(current) + AccountsOf(next.value),
                     vaults := VaultsOf(db.books.accounts, current) + VaultsOf(db.books.accounts, next.value),
                     txs := {id},
                     sequences := if counters.Ok? then ChangedCounters(db.sequences, counters.value) else {})
    case Delete(id) =>
      if id !in db.ledger.txs then NO_WRITES
      else
        var current := db.ledger.txs[id];
        NO_WRITES.(ledger := true, accounts := AccountsOf(current), vaults := VaultsOf(db.books.accounts, current),
          txs := {id},
                   records := OwnedRecords(db.records, id))
    case Migrate(mode, oldName, newName) =>
      NO_WRITES.(ledger := true, txs := Affected(db.ledger.txs, mode, oldName, newName))
    case Capture(_, _) => NO_WRITES.(ledger := true)
    case SetOpening(id, opening) =>
      if id in db.books.accounts && db.books.accounts[id].opening != opening then
        NO_WRITES.(accounts := {id}, vaults := {db.books.accounts[id].vaultId})
      else NO_WRITES.(accounts := {id})
    case Archive(id) => NO_WRITES.(accounts := {id})
    case AddAccount(id, _, _, _, _) => NO_WRITES.(accounts := {id})
    case AddVault(id, _, _) => NO_WRITES.(vaults := {id})
    case Link(id, _) => NO_WRITES.(txs := {id})
    case Finish(id, _) => NO_WRITES.(sessions := {id})
    case Release(record, now) =>
      if record in db.records && db.records[record].expiresAt <= now then NO_WRITES.(records := {record}) else NO_WRITES
    case PatchCounter(scope, requested) =>
      var counters := Patch(db.sequences, scope, requested);
      NO_WRITES.(sequences := if counters.Ok? then ChangedCounters(db.sequences, counters.value) else {})
  }

  ghost function WritesOfAll(db: Db, ops: seq<Op>): Writes
    decreases |ops|
  {
    if ops == [] then NO_WRITES
    else
      var next := Exec(db, ops[0]);
      if next.Err? then WritesOf(db, ops[0]) else Union(WritesOf(db, ops[0]), WritesOfAll(next.value, ops[1..]))
  }
}
