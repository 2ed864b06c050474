/**
 * The documents of one workspace, as the collections hold them, and the write
 * sets of the MongoDB transactions that change them.
 *
 * Instants count from the zero instant of the implementation language, so 0 is
 * the "unset" time, and a civil UTC day is a whole number of days since then.
 */
module Store {
  import opened Outcomes

  /**
   * Identifiers (of users, accounts, vaults, transactions, contacts), currency
   * codes and hashes are only ever compared for equality and with the empty
   * string, so they are numbers here and 0 is the empty string.
   */
  type Id = int

  const NO_ID: Id := 0

  const SECONDS_PER_DAY: int := 86_400

  function CivilDay(instant: int): int {
    instant / SECONDS_PER_DAY
  }

  datatype Kind =
    | Expense | Income | Transfer | Refund | Reimbursement | Adjustment
    | Unsupported(name: string)

  datatype Scope = ExpenseScope | IncomeScope | TransferScope | SplitScope

  datatype Privacy = Workspace | Private | Selected

  datatype Split = Split(userId: Id, amount: int)

  datatype Transaction = Transaction(
    id: Id,
    workspaceId: Id,
    publicId: string,
    scope: Scope,
    vaultId: Id,
    accountId: Id,
    destinationId: Id,
    createdBy: Id,
    kind: Kind,
    amount: int,
    currency: Id,
    category: string,
    merchant: string,
    notes: string,
    description: string,
    contactId: Id,
    tags: seq<string>,
    splits: seq<Split>,
    privacy: Privacy,
    occurredAt: int,
    createdAt: int,
    clearedAt: Option<int>,
    imported: bool)

  datatype Account = Account(
    vaultId: Id,
    currency: Id,
    opening: int,
    balance: int,
    privacy: Privacy,
    inactive: bool,
    archived: bool)

  datatype Vault = Vault(currency: Id, opening: int, balance: int, archived: bool)

  /** One numbering counter. */
  datatype Sequence = Sequence(autoGenerate: bool, next: int, digits: int)

  datatype RecordKey = RecordKey(userId: Id, key: Id)

  /** One idempotency record: the stored response of the create that claimed the key. */
  datatype Record = Record(transactionId: Id, payloadHash: Id, response: Transaction, expiresAt: int)

  datatype SessionStatus = Draft | Completed | Cancelled

  /** The stored before or after image of a transaction in a revision event. */
  datatype Revision = Revision(
    id: Id,
    workspaceId: Id,
    publicId: string,
    vaultId: Id,
    accountId: Id,
    destinationId: Id,
    createdBy: Id,
    kind: Kind,
    amount: int,
    currency: Id,
    category: string,
    merchant: string,
    notes: string,
    description: string,
    contactId: Id,
    privacy: Privacy,
    reportingDay: int,
    occurredAt: int,
    createdAt: int,
    hasSplits: bool)

  /** A transaction revision event. */
  datatype Event = Event(transactionId: Id, version: int, before: Option<Revision>, after: Option<Revision>)

  datatype Totals = Totals(income: int, spending: int, net: int, count: int)

  datatype View = MemberView | WorkspaceView

  datatype ReviewStatus = Reviewed | Closed

  /** What a period review looks at: whose view, which days, currency, vaults and accounts. */
  datatype Lens = Lens(
    workspaceId: Id,
    currency: Id,
    view: View,
    actor: Id,
    fromDay: int,
    toDay: int,
    vaultIds: set<Id>,
    accountIds: set<Id>)

  datatype Review = Review(lens: Lens, status: ReviewStatus, snapshot: Totals, cutoff: int)

  /** The two balance dimensions. */
  datatype Books = Books(accounts: map<Id, Account>, vaults: map<Id, Vault>)

  /**
   * What the workspace's ledger version guards: the stored transactions, their
   * revision events and the period reviews. Events and reviews are insert-only.
   */
  datatype Ledger = Ledger(version: int, txs: map<Id, Transaction>, events: seq<Event>, reviews: seq<Review>)

  /** Everything stored for one workspace. */
  datatype Db = Db(
    workspaceId: Id,
    currency: Id,
    books: Books,
    ledger: Ledger,
    sequences: map<Scope, Sequence>,
    records: map<RecordKey, Record>,
    sessions: map<Id, SessionStatus>)

  function Get<K, V>(m: map<K, V>, k: K): Option<V> {
    if k in m then Some(m[k]) else None
  }
}
