/**
 * What every operation leaves stored, said document by document and field by
 * field, and how much of the database it leaves alone. None of it mentions the
 * functions that compute it.
 */
module Stored {
  import opened Outcomes
  import opened Decimals
  import opened Texts
  import opened Store
  import opened Balances
  import opened BalanceLaws
  import opened Revisions
  import opened PeriodReviews
  import opened Checkpoints
  import opened Numbering
  import opened Categories
  import opened Operations
  import opened Repeatability
  import opened Reports
  import opened BalanceRuns

  // ---- money ----

  /** What a transaction puts on its own account. */
  function Booking(tx: Transaction): int {
    if IsEarning(tx.kind) then tx.amount else if tx.kind in {Expense, Transfer} then -tx.amount else 0
  }

  function AccountShare(tx: Transaction, id: Id): int {
    (if tx.accountId == id then Booking(tx) else 0)
    + if tx.kind == Transfer && tx.destinationId == id then tx.amount else 0
  }

  predicate LiesIn(accounts: map<Id, Account>, id: Id, vault: Id) {
    id in accounts && accounts[id].vaultId == vault
  }

  /** What a transaction puts on a vault: what it puts on the vault's accounts. */
  function VaultShare(accounts: map<Id, Account>, tx: Transaction, vault: Id): int {
    (if LiesIn(accounts, tx.accountId, vault) then Booking(tx) else 0)
    + if tx.kind == Transfer && LiesIn(accounts, tx.destinationId, vault) then tx.amount else 0
  }

  function AccountPart(tx: Option<Transaction>, id: Id): int {
    if tx.Some? then AccountShare(tx.value, id) else 0
  }

  function VaultPart(accounts: map<Id, Account>, tx: Option<Transaction>, vault: Id): int {
    if tx.Some? then VaultShare(accounts, tx.value, vault) else 0
  }

  /** Every balance lost what one version of a transaction had put there and got what another puts there. */
  predicate MoneyMoves(before: Books, after: Books, undone: Option<Transaction>, done: Option<Transaction>) {
    && after.accounts.Keys == before.accounts.Keys && after.vaults.Keys == before.vaults.Keys
    && (forall id | id in before.accounts :: after.accounts[id] == before.accounts[id].(
          balance := before.accounts[id].balance - AccountPart(undone, id) + AccountPart(done, id)))
    && (forall id | id in before.vaults :: after.vaults[id] == before.vaults[id].(
          balance := before.vaults[id].balance - VaultPart(before.accounts, undone, id)
                     + VaultPart(before.accounts, done, id)))
  }

  // ---- revisions ----

  /** The image of a transaction that a revision keeps. */
  predicate Shows(r: Revision, tx: Transaction) {
    && r.id == tx.id && r.workspaceId == tx.workspaceId && r.publicId == tx.publicId
    && r.vaultId == tx.vaultId && r.accountId == tx.accountId && r.destinationId == tx.destinationId
    && r.createdBy == tx.createdBy && r.privacy == tx.privacy
    && r.kind == tx.kind && r.amount == tx.amount && r.currency == tx.currency && r.category == tx.category
    && r.merchant == tx.merchant && r.notes == tx.notes && r.description == tx.description
    && r.contactId == tx.contactId && r.occurredAt == tx.occurredAt && r.createdAt == tx.createdAt
    && r.reportingDay == (if tx.occurredAt != 0 then tx.occurredAt else tx.createdAt) / 86_400
    && (r.hasSplits <==> |tx.splits| > 0)
  }

  predicate ShowsSide(side: Option<Revision>, txs: map<Id, Transaction>, id: Id) {
    if id in txs then side.Some? && Shows(side.value, txs[id]) else side.None?
  }

  /** One more revision, with the next version, of one transaction, from what was stored to what is. */
  predicate Revised(before: Ledger, after: Ledger, id: Id) {
    && after.version == before.version + 1 && after.reviews == before.reviews
    && |after.events| == |before.events| + 1 && after.events[..|before.events|] == before.events
    && var e := after.events[|before.events|];
       && e.transactionId == id && e.version == after.version
       && ShowsSide(e.before, before.txs, id) && ShowsSide(e.after, after.txs, id)
  }

  // ---- numbers ----

  /** Only one counter may have moved, past the number a text stands for. */
  ghost predicate Reserved(before: Counters, after: Counters, scope: Scope, text: string) {
    exists number | Denotes(text, number) ::
      var counter := Counter(before, scope);
      after == before[scope := counter.(next := if counter.next > number then counter.next else number + 1)]
  }

  predicate HandedOut(before: Counters, after: Counters, scope: Scope, text: string) {
    var counter := Counter(before, scope);
    && counter.autoGenerate && 1 <= counter.next <= 999_999_999_999_999
    && IsNumberText(text, counter.next, counter.digits)
    && after == before[scope := counter.(next := counter.next + 1)]
  }

  predicate Unused(txs: map<Id, Transaction>, scope: Scope, text: string, except: Id) {
    forall id | id in txs && id != except && txs[id].scope == scope :: txs[id].publicId != text
  }

  // ---- creates ----

  /** The stored row is the requested one, under a fresh identifier, and it is the only one that changed. */
  ghost predicate CreateLeaves(c: CreateCommand, before: Db, after: Db) {
    var id, scope := c.tx.id, c.tx.scope;
    && id !in before.ledger.txs && id in after.ledger.txs && c.tx.workspaceId == before.workspaceId
    && var tx := after.ledger.txs[id];
       && tx == c.tx.(publicId := tx.publicId) && after.ledger.txs == before.ledger.txs[id := tx]
       && (if c.autoNumber then HandedOut(before.sequences, after.sequences, scope, tx.publicId)
           else tx.publicId == c.tx.publicId && Reserved(before.sequences, after.sequences, scope, tx.publicId))
       && Unused(before.ledger.txs, scope, tx.publicId, id)
       && MoneyMoves(before.books, after.books, None, Some(tx))
       && Revised(before.ledger, after.ledger, id)
       && (if c.key == NO_ID then after.records == before.records
           else var k := RecordKey(c.tx.createdBy, c.key);
                && k !in before.records
                && after.records == before.records[k := Record(id, c.payloadHash, tx, c.expiresAt)])
       && after == before.(books := after.books, ledger := after.ledger, sequences := after.sequences,
                           records := after.records)
  }

  // ---- edits and deletes ----

  /** An account not everybody may see. */
  predicate Hides(accounts: map<Id, Account>, id: Id) {
    id in accounts && accounts[id].privacy != Workspace
  }

  /**
   * The version an edit stores: what was asked for in its own fields, in texts
   * without the blanks around them, and the old version in all the others.
   */
  predicate EditStores(accounts: map<Id, Account>, old_: Transaction, input: Transaction, new_: Transaction) {
    && new_.kind == input.kind && new_.amount == input.amount && new_.currency == input.currency
    && new_.accountId == input.accountId && LiesIn(accounts, input.accountId, new_.vaultId)
    && (input.vaultId != NO_ID ==> new_.vaultId == input.vaultId)
    && new_.destinationId == (if input.kind == Transfer then input.destinationId else NO_ID)
    && IsCore(IsSpace, new_.category, input.category) && IsCore(IsSpace, new_.merchant, input.merchant)
    && IsCore(IsSpace, new_.notes, input.notes) && IsCore(IsSpace, new_.description, input.description)
    && new_.contactId == input.contactId && new_.tags == input.tags && new_.splits == input.splits
    && (if Hides(accounts, input.accountId) || (input.kind == Transfer && Hides(accounts, input.destinationId))
        then new_.privacy == Private else new_.privacy == input.privacy)
    && new_.occurredAt == (if input.occurredAt != 0 then input.occurredAt else old_.occurredAt)
    && IsCore(IsSpace, new_.publicId, if All(IsSpace, input.publicId) then old_.publicId else input.publicId)
    && new_.id == old_.id && new_.workspaceId == old_.workspaceId && new_.scope == old_.scope
    && new_.createdBy == old_.createdBy && new_.createdAt == old_.createdAt
    && new_.clearedAt == old_.clearedAt && new_.imported == old_.imported
  }

  predicate OpenAccount(accounts: map<Id, Account>, id: Id, currency: Id) {
    id in accounts && !accounts[id].archived && accounts[id].currency == currency
  }

  ghost predicate Numerical(text: string) {
    All(IsSpace, text) || exists number :: Denotes(text, number)
  }

  /** What an edit must ask for to be accepted as a transaction, before money and numbers are looked at. */
  ghost predicate Editable(accounts: map<Id, Account>, old_: Transaction, input: Transaction) {
    && !input.kind.Unsupported? && 0 < input.amount <= 9_000_000_000_000_000
    && input.currency != NO_ID && OpenAccount(accounts, input.accountId, input.currency)
    && (input.vaultId != NO_ID ==> accounts[input.accountId].vaultId == input.vaultId)
    && (input.kind == Transfer ==>
          && input.destinationId != NO_ID && input.destinationId != input.accountId
          && OpenAccount(accounts, input.destinationId, input.currency))
    && Numerical(if All(IsSpace, input.publicId) then old_.publicId else input.publicId)
    && |Trim(input.category)| <= 100 && |Trim(input.merchant)| <= 200
    && |Trim(input.notes)| <= 2_000 && |Trim(input.description)| <= 2_000
  }

  ghost predicate EditLeaves(id: Id, input: Transaction, before: Db, after: Db) {
    && id in before.ledger.txs && id in after.ledger.txs
    && var old_, new_ := before.ledger.txs[id], after.ledger.txs[id];
       && EditStores(before.books.accounts, old_, input, new_)
       && after.ledger.txs == before.ledger.txs[id := new_]
       && MoneyMoves(before.books, after.books, Some(old_), Some(new_))
       && Revised(before.ledger, after.ledger, id)
       && (if new_.publicId == old_.publicId then after.sequences == before.sequences
           else && Reserved(before.sequences, after.sequences, new_.scope, new_.publicId)
                && Unused(before.ledger.txs, new_.scope, new_.publicId, id))
       && after == before.(books := after.books, ledger := after.ledger, sequences := after.sequences)
  }

  /** The row is gone, with its money and its idempotency records, and nothing else is. */
  ghost predicate DeleteLeaves(id: Id, before: Db, after: Db) {
    && id in before.ledger.txs
    && after.ledger.txs == (map x | x in before.ledger.txs && x != id :: before.ledger.txs[x])
    && MoneyMoves(before.books, after.books, Some(before.ledger.txs[id]), None)
    && Revised(before.ledger, after.ledger, id)
    && after.records == (map k | k in before.records && before.records[k].transactionId != id :: before.records[k])
    && after == before.(books := after.books, ledger := after.ledger, records := after.records)
  }

  // ---- category migrations ----

  /** The rows a rename changes: those carrying the old name, but not already the new one letter by letter. */
  function Renames(txs: map<Id, Transaction>, mode: Scope, oldName: string, newName: string): set<Id> {
    set id | id in txs && CarriesName(txs[id], mode, oldName) && txs[id].category != newName
  }

  /** One revision for each of some transactions, in identifier order, with consecutive versions. */
  predicate RevisedAll(before: Ledger, after: Ledger, ids: set<Id>) {
    var n := |before.events|;
    && after.version == before.version + |ids| && after.reviews == before.reviews
    && |after.events| == n + |ids| && after.events[..n] == before.events
    && (forall i | n <= i < |after.events| ::
          && after.events[i].version == before.version + 1 + i - n && after.events[i].transactionId in ids
          && ShowsSide(after.events[i].before, before.txs, after.events[i].transactionId)
          && ShowsSide(after.events[i].after, after.txs, after.events[i].transactionId))
    && (forall i, j | n <= i < j < |after.events| ::
          after.events[i].transactionId < after.events[j].transactionId)
  }

  predicate MigrateLeaves(mode: Scope, oldName: string, newName: string, before: Db, after: Db) {
    var ids := Renames(before.ledger.txs, mode, oldName, newName);
    && 0 < |ids| <= 5_000
    && after.ledger.txs == (map id | id in before.ledger.txs ::
        if id in ids then before.ledger.txs[id].(category := newName) else before.ledger.txs[id])
    && RevisedAll(before.ledger, after.ledger, ids)
    && after == before.(ledger := after.ledger)
  }

  // ---- period reviews ----

  /** The review looks at what was asked for; a review of the workspace is nobody's own. */
  predicate LooksAt(lens: Lens, db: Db, q: ReviewRequest) {
    && lens.workspaceId == db.workspaceId && lens.currency == db.currency
    && lens.view == q.view && lens.fromDay == q.fromDay && lens.toDay == q.toDay
    && lens.vaultIds == q.vaultIds && lens.accountIds == q.accountIds
    && (if q.view == MemberView then lens.actor == q.actor else lens.actor == NO_ID)
  }

  /** One more review, of the rows stored now, with the version it takes as its cutoff. */
  ghost predicate CaptureLeaves(q: ReviewRequest, before: Db, after: Db) {
    && |after.ledger.reviews| == |before.ledger.reviews| + 1
    && var r := after.ledger.reviews[|before.ledger.reviews|];
       && LooksAt(r.lens, before, q) && r.status == q.status && r.cutoff == before.ledger.version + 1
       && Reported(r.snapshot, before.ledger.txs, r.lens)
       && after == before.(ledger := before.ledger.(version := r.cutoff, reviews := before.ledger.reviews + [r]))
  }

  // ---- the other operations ----

  /** The new opening, with its difference from the one seen on the account's balance and on its vault's. */
  predicate OpeningLeaves(id: Id, seen: int, opening: int, before: Db, after: Db) {
    && id in before.books.accounts && before.books.accounts[id].vaultId in before.books.vaults
    && var a, v := before.books.accounts[id], before.books.vaults[before.books.accounts[id].vaultId];
       && !a.archived
       && var delta := opening - seen;
          after == before.(books := Books(
            before.books.accounts[id := a.(opening := opening, balance := a.balance + delta)],
            before.books.vaults[a.vaultId := v.(balance := v.balance + delta)]))
  }

  predicate ArchiveLeaves(id: Id, before: Db, after: Db) {
    && id in before.books.accounts && !before.books.accounts[id].archived
    && after == before.(books := before.books.(
        accounts := before.books.accounts[id := before.books.accounts[id].(archived := true)]))
  }

  predicate AddAccountLeaves(id: Id, vaultId: Id, currency: Id, opening: int, privacy: Privacy, before: Db, after: Db) {
    && id != NO_ID && id !in before.books.accounts
    && vaultId in before.books.vaults && before.books.vaults[vaultId].currency == currency
    && id in after.books.accounts
    && after == before.(books := before.books.(accounts := before.books.accounts[id := after.books.accounts[id]]))
    && var a := after.books.accounts[id];
       && a.vaultId == vaultId && a.currency == currency && a.opening == a.balance == opening
       && a.privacy == privacy && !a.archived && !a.inactive
  }

  predicate AddVaultLeaves(id: Id, currency: Id, opening: int, before: Db, after: Db) {
    && id != NO_ID && id !in before.books.vaults && id in after.books.vaults
    && after == before.(books := before.books.(vaults := before.books.vaults[id := after.books.vaults[id]]))
    && var v := after.books.vaults[id]; v.currency == currency && v.opening == v.balance == opening && !v.archived
  }

  /** Only the reconciliation mark of an unreconciled transaction. */
  predicate LinkLeaves(id: Id, now: int, before: Db, after: Db) {
    && id in before.ledger.txs && before.ledger.txs[id].clearedAt == None && id in after.ledger.txs
    && after.ledger.txs[id].clearedAt == Some(now)
    && after.ledger.txs[id] == before.ledger.txs[id].(clearedAt := after.ledger.txs[id].clearedAt)
    && after == before.(ledger := before.ledger.(txs := before.ledger.txs[id := after.ledger.txs[id]]))
  }

  predicate FinishLeaves(id: Id, status: SessionStatus, before: Db, after: Db) {
    && Get(before.sessions, id) == Some(Draft) && status in {Completed, Cancelled}
    && after == before.(sessions := before.sessions[id := status])
  }

  /** The record goes exactly when its time has come. */
  predicate ReleaseLeaves(k: RecordKey, now: int, before: Db, after: Db) {
    var gone := k in before.records && !(now < before.records[k].expiresAt);
    && after.records == (map x | x in before.records && !(x == k && gone) :: before.records[x])
    && after == before.(records := after.records)
  }

  predicate PatchLeaves(scope: Scope, requested: Sequence, before: Db, after: Db) {
    && Counter(before.sequences, scope).next <= requested.next && 1 <= requested.next
    && after == before.(sequences := before.sequences[scope := requested])
  }

  /** What a successful operation leaves of the database it ran on. */
  ghost predicate Leaves(op: Op, before: Db, after: Db) {
    match op
    case Create(c) => CreateLeaves(c, before, after)
    case Edit(id, input) => EditLeaves(id, input, before, after)
    case Delete(id) => DeleteLeaves(id, before, after)
    case Migrate(mode, oldName, newName) => MigrateLeaves(mode, oldName, newName, before, after)
    case Capture(_, q) => CaptureLeaves(q, before, after)
    case SetOpening(id, opening) =>
      id in before.books.accounts && OpeningLeaves(id, before.books.accounts[id].opening, opening, before, after)
    case Archive(id) => ArchiveLeaves(id, before, after)
    case AddAccount(id, vaultId, currency, opening, privacy) =>
      AddAccountLeaves(id, vaultId, currency, opening, privacy, before, after)
    case AddVault(id, currency, opening) => AddVaultLeaves(id, currency, opening, before, after)
    case Link(id, now) => LinkLeaves(id, now, before, after)
    case Finish(id, status) => FinishLeaves(id, status, before, after)
    case Release(k, now) => ReleaseLeaves(k, now, before, after)
    case PatchCounter(scope, requested) => PatchLeaves(scope, requested, before, after)
  }

  // ---- proofs: money ----

  lemma EffectIsShare(books: Books, tx: Transaction, id: Id)
    requires ServiceSourceDelta(tx).Ok? && AccountsForBalance(books, tx).Ok?
    ensures Effect(VaultMap(books), tx, AccountTarget(id)) == AccountShare(tx, id)
    ensures Effect(VaultMap(books), tx, VaultTarget(id)) == VaultShare(books.accounts, tx, id)
  {
  }

  lemma MovedMoves(books: Books, tx: Transaction)
    requires ServiceSourceDelta(tx).Ok? && AccountsForBalance(books, tx).Ok?
    ensures MoneyMoves(books, Moved(books, tx, 1), None, Some(tx))
    ensures MoneyMoves(books, Moved(books, tx, -1), Some(tx), None)
  {
    forall id { EffectIsShare(books, tx, id); }
    hide Effect, AccountShare, VaultShare, AccountsForBalance, ServiceSourceDelta;
  }

  lemma MovesJoin(a: Books, b: Books, c: Books, undone: Transaction, done: Transaction)
    requires MoneyMoves(a, b, Some(undone), None) && MoneyMoves(b, c, None, Some(done))
    ensures MoneyMoves(a, c, Some(undone), Some(done))
  {
    hide Booking;
  }

  lemma NewRevisionShows(tx: Transaction)
    ensures Shows(NewRevision(tx), tx)
  {
  }

  lemma AdvanceRevises(ledger: Ledger, txs: map<Id, Transaction>, change: Change)
    requires change.before == (if change.id in ledger.txs then Some(NewRevision(ledger.txs[change.id])) else None)
    requires change.after == (if change.id in txs then Some(NewRevision(txs[change.id])) else None)
    ensures Revised(ledger, Advance(ledger, txs, [change]), change.id)
  {
    if change.id in ledger.txs { NewRevisionShows(ledger.txs[change.id]); }
    if change.id in txs { NewRevisionShows(txs[change.id]); }
    hide Shows, NewRevision;
  }

  lemma ReserveReserves(counters: Counters, scope: Scope, text: string)
    requires Reserve(counters, scope, text).Ok?
    ensures Reserved(counters, Reserve(counters, scope, text).value, scope, text)
  {
    ReserveRefuses(counters, scope, text);
    var number :| Denotes(text, number);
    ReserveMeans(counters, scope, text, number);
    hide Denotes, Reserve;
  }

  lemma AllocateHandsOut(counters: Counters, scope: Scope)
    requires Allocate(counters, scope).Ok?
    ensures var (after, text) := Allocate(counters, scope).value; HandedOut(counters, after, scope, text)
  {
    FormatIsNumberText(Counter(counters, scope).next, Counter(counters, scope).digits);
    hide FormatNumber, IsNumberText;
  }

  // ---- proofs: creates, edits, deletes ----

  lemma CreateParts(db: Db, c: CreateCommand)
    requires CreateBody(db, c).Ok?
    ensures PrepareNumber(db.sequences, db.ledger.txs, c).Ok?
    ensures var (counters, text) := PrepareNumber(db.sequences, db.ledger.txs, c).value;
            var tx, after := c.tx.(publicId := text), CreateBody(db, c).value;
            && tx.id !in db.ledger.txs && tx.workspaceId == db.workspaceId
            && Unused(db.ledger.txs, tx.scope, text, tx.id)
            && CreateBooks(db.books, tx) == Ok(after.books)
            && after.ledger.txs == db.ledger.txs[tx.id := tx]
            && after.ledger == Advance(db.ledger, after.ledger.txs, [Change(tx.id, None, Some(NewRevision(tx)))])
            && after.sequences == counters
            && (if c.key == NO_ID then after.records == db.records
                else var k := RecordKey(c.tx.createdBy, c.key);
                     && k !in db.records
                     && after.records == db.records[k := Record(tx.id, c.payloadHash, tx, c.expiresAt)])
            && after == db.(books := after.books, ledger := after.ledger, sequences := after.sequences,
                            records := after.records)
  {
    hide CreateBooks, PrepareNumber, NewRevision, Numbered;
  }

  lemma PreparedNumber(counters: Counters, txs: map<Id, Transaction>, c: CreateCommand)
    requires PrepareNumber(counters, txs, c).Ok?
    ensures var (after, text) := PrepareNumber(counters, txs, c).value;
            if c.autoNumber then HandedOut(counters, after, c.tx.scope, text)
            else text == c.tx.publicId && Reserved(counters, after, c.tx.scope, text)
  {
    hide Allocate, Reserve, HandedOut, Reserved;
    if c.autoNumber {
      AllocateHandsOut(counters, c.tx.scope);
    } else {
      ReserveReserves(counters, c.tx.scope, c.tx.publicId);
    }
  }

  /** A create stores what was asked for. */
  lemma CreateStores(db: Db, c: CreateCommand)
    requires CreateBody(db, c).Ok?
    ensures CreateLeaves(c, db, CreateBody(db, c).value)
  {
    hide CreateBody, CreateBooks, Moved, MoneyMoves, AccountsForBalance, ServiceSourceDelta, HandedOut, Reserved,
      PrepareNumber, Revised, Advance, NewRevision, Unused, Numbered;
    CreateParts(db, c);
    PreparedNumber(db.sequences, db.ledger.txs, c);
    var tx, after := c.tx.(publicId := PrepareNumber(db.sequences, db.ledger.txs, c).value.1), CreateBody(db, c).value;
    CreateBooksMeans(db.books, tx);
    CreateFindsAccounts(db.books, tx);
    MovedMoves(db.books, tx);
    AdvanceRevises(db.ledger, after.ledger.txs, Change(tx.id, None, Some(NewRevision(tx))));
  }

  /** The identifier an edit works with, and when it is refused. */
  lemma EditedNumber(old_: string, input: string)
    ensures var text := if All(IsSpace, input) then old_ else input;
            var publicId := Trim(if Trim(input) == "" then old_ else input);
            && IsCore(IsSpace, publicId, text)
            && ((publicId != "" ==> ParseNumber(publicId).Ok?) <==> Numerical(text))
  {
    var text := if All(IsSpace, input) then old_ else input;
    TrimEmpty(input);
    TrimEmpty(text);
    TrimTwice(text);
    TrimMeans(text, Trim(text));
    ParseFinds(text);
    hide IsSpace, Trim, Denotes, All, IsCore;
  }

  lemma EditedStores(accounts: map<Id, Account>, current: Transaction, input: Transaction)
    ensures EditedVersion(accounts, current, input).Ok? <==> Editable(accounts, current, input)
    ensures EditedVersion(accounts, current, input).Ok? ==>
              EditStores(accounts, current, input, EditedVersion(accounts, current, input).value)
  {
    EditedNumber(current.publicId, input.publicId);
    TrimMeans(input.category, Trim(input.category));
    TrimMeans(input.merchant, Trim(input.merchant));
    TrimMeans(input.notes, Trim(input.notes));
    TrimMeans(input.description, Trim(input.description));
    hide IsSpace, Trim, Numerical, IsCore, All, ParseNumber;
  }

  lemma EditIsStored(db: Db, id: Id, input: Transaction)
    requires WellKeyed(db) && EditBody(db, id, input).Ok?
    ensures EditLeaves(id, input, db, EditBody(db, id, input).value)
  {
    hide EditedVersion, RenumberCounters, Moved, MoneyMoves, EditStores, Editable, Reserved, Revised, NewRevision,
      EditBooks, VaultsNamed, Numbered;
    var current, after := db.ledger.txs[id], EditBody(db, id, input).value;
    EditedStores(db.books.accounts, current, input);
    EditedKeepsIdentity(db.books.accounts, current, input);
    var next := EditedVersion(db.books.accounts, current, input).value;
    EditMovesMoney(db.books, current, next);
    Renumbered(db.sequences, db.ledger.txs, current, next);
    assert after.ledger.txs == db.ledger.txs[id := next];
    AdvanceRevises(db.ledger, after.ledger.txs, Change(id, Some(NewRevision(current)), Some(NewRevision(next))));
    hide EditBody, Unused, Advance;
  }

  lemma Renumbered(counters: Counters, txs: map<Id, Transaction>, current: Transaction, next: Transaction)
    requires RenumberCounters(counters, txs, current, next).Ok?
    ensures var after := RenumberCounters(counters, txs, current, next).value;
            if next.publicId == current.publicId then after == counters
            else
              && Reserved(counters, after, next.scope, next.publicId)
              && Unused(txs, next.scope, next.publicId, current.id)
  {
    hide Reserve, Reserved;
    if next.publicId != current.publicId {
      ReserveReserves(counters, next.scope, next.publicId);
    }
  }

  lemma EditMovesMoney(books: Books, current: Transaction, next: Transaction)
    requires VaultsNamed(books) && EditBooks(books, current, next).Ok?
    ensures MoneyMoves(books, EditBooks(books, current, next).value, Some(current), Some(next))
  {
    hide MoneyMoves, Moved, ServiceSourceDelta, ApplyAll;
    EditBooksMeans(books, current, next);
    var reversed := Moved(books, current, -1);
    MovedMoves(books, current);
    ReversedAccounts(books, current, next);
    MovedMoves(reversed, next);
    MovesJoin(books, reversed, Moved(reversed, next, 1), current, next);
  }

  lemma ReversedAccounts(books: Books, current: Transaction, next: Transaction)
    requires AccountsForBalance(books, next).Ok?
    ensures AccountsForBalance(Moved(books, current, -1), next).Ok?
  {
    hide Effect;
  }

  lemma DeleteStores(db: Db, id: Id)
    requires WellKeyed(db) && DeleteBody(db, id).Ok?
    ensures DeleteLeaves(id, db, DeleteBody(db, id).value)
  {
    hide Moved, MoneyMoves, ServiceSourceDelta, ApplyAll, Revised, NewRevision, AccountsForBalance, Numbered;
    var current, after := db.ledger.txs[id], DeleteBody(db, id).value;
    ChangeBooksMeans(db.books, current, true);
    assert AccountsForBalance(db.books, current).Ok? && ServiceSourceDelta(current).Ok?;
    MovedMoves(db.books, current);
    hide ChangeBooks;
    assert after.ledger.txs == (map x | x in db.ledger.txs && x != id :: db.ledger.txs[x]);
    assert after.records == (map k | k in db.records && db.records[k].transactionId != id :: db.records[k]);
    AdvanceRevises(db.ledger, after.ledger.txs, Change(id, Some(NewRevision(current)), None));
  }

  // ---- proofs: the other operations ----

  lemma MigrateStores(db: Db, mode: Scope, oldName: string, newName: string)
    requires MigrateBody(db, mode, oldName, newName).Ok?
    ensures MigrateLeaves(mode, oldName, newName, db, MigrateBody(db, mode, oldName, newName).value)
  {
    hide CarriesName, Uses, Ascending, NewRevision, Shows;
    var txs, after := db.ledger.txs, MigrateBody(db, mode, oldName, newName).value;
    var ids := Affected(txs, mode, oldName, newName);
    AffectedAreRenames(txs, mode, oldName, newName);
    hide Affected, Renames;
    MigrationRevises(db.ledger, ids, newName);
    hide RevisedAll, MigrationChanges, Advance;
  }

  lemma AffectedAreRenames(txs: map<Id, Transaction>, mode: Scope, oldName: string, newName: string)
    ensures Affected(txs, mode, oldName, newName) == Renames(txs, mode, oldName, newName)
  {
    forall id | id in txs
      ensures Migrates(txs[id], mode, oldName, newName)
              <==> CarriesName(txs[id], mode, oldName) && txs[id].category != newName
    {
      UsesMeans(txs[id], mode, oldName);
    }
    hide Migrates, CarriesName;
  }

  lemma MigrationRevises(ledger: Ledger, ids: set<Id>, newName: string)
    requires ids <= ledger.txs.Keys
    ensures RevisedAll(ledger,
              Advance(ledger, Renamed(ledger.txs, ids, newName), MigrationChanges(ledger.txs, ids, newName)), ids)
  {
    hide NewRevision, Shows, Ascending;
    var list, changes := Ascending(ids), MigrationChanges(ledger.txs, ids, newName);
    AscendingLists(ids);
    forall i | 0 <= i < |list|
      ensures ShowsSide(changes[i].before, ledger.txs, list[i])
      ensures ShowsSide(changes[i].after, Renamed(ledger.txs, ids, newName), list[i])
    {
      assert list[i] in ids;
      NewRevisionShows(ledger.txs[list[i]]);
      NewRevisionShows(ledger.txs[list[i]].(category := newName));
    }
    hide ShowsSide, MigrationChanges;
  }

  lemma CaptureStores(db: Db, personal: bool, q: ReviewRequest)
    requires Exec(db, Op.Capture(personal, q)).Ok?
    ensures CaptureLeaves(q, db, Exec(db, Op.Capture(personal, q)).value)
  {
    hide ReviewAllowed, SnapshotTotals, Reported;
    var lens := LensOf(db.workspaceId, db.currency, q);
    SnapshotIsTally(Images(db.ledger.txs), lens);
    TallyReports(db.ledger.txs, lens);
  }

  lemma OpeningStores(db: Db, id: Id, seen: int, opening: int)
    requires OpeningFrom(db.books, id, seen, opening).Ok?
    ensures OpeningLeaves(id, seen, opening, db, db.(books := OpeningFrom(db.books, id, seen, opening).value))
  {
    hide ApplyAll, Net;
    var a, v := db.books.accounts[id], db.books.vaults[db.books.accounts[id].vaultId];
    var list := OpeningAdjusts(a, v, id, opening - seen);
    ApplyAllShifts(db.books, list);
    forall t { OpeningNet(a, v, id, opening - seen, t); }
    hide OpeningAdjusts;
    var after := OpeningFrom(db.books, id, seen, opening).value;
    assert after.accounts == db.books.accounts[id := a.(opening := opening, balance := a.balance + opening - seen)];
    assert after.vaults == db.books.vaults[a.vaultId := v.(balance := v.balance + opening - seen)];
  }

  lemma OpeningOnce(db: Db, id: Id, opening: int)
    requires Exec(db, Op.SetOpening(id, opening)).Ok?
    ensures Leaves(Op.SetOpening(id, opening), db, Exec(db, Op.SetOpening(id, opening)).value)
  {
    assert id in db.books.accounts by { hide ApplyAll; }
    hide OpeningFrom;
    OpeningStores(db, id, db.books.accounts[id].opening, opening);
  }

  /** Every successful operation leaves exactly what it should. */
  lemma ExecLeaves(db: Db, op: Op)
    requires WellKeyed(db) && Exec(db, op).Ok?
    ensures Leaves(op, db, Exec(db, op).value)
  {
    hide CreateBody, EditBody, DeleteBody, MigrateBody, CaptureReview, OpeningBody, CreateLeaves, EditLeaves,
      DeleteLeaves, MigrateLeaves, CaptureLeaves, OpeningLeaves, WellKeyed;
    match op {
      case Create(c) => CreateStores(db, c);
      case Edit(id, input) => EditIsStored(db, id, input);
      case Delete(id) => DeleteStores(db, id);
      case Migrate(mode, oldName, newName) => MigrateStores(db, mode, oldName, newName);
      case Capture(personal, q) => CaptureStores(db, personal, q);
      case SetOpening(id, opening) => OpeningOnce(db, id, opening);
      case Release(k, now) =>
        assert ReleaseLeaves(k, now, db, Exec(db, op).value);
      case _ =>
    }
  }
}
