/**
 * The two balance dimensions. Creates go through the repository's guarded
 * increment, edits and deletes through the service's; both are lists of
 * adjustments applied one document at a time.
 */
module Balances {
  import opened Outcomes
  import opened MoneyText
  import opened Store

  datatype Target = AccountTarget(id: Id) | VaultTarget(id: Id)

  /** Who issues the guarded increment; the two filters differ. */
  datatype Writer = Repository(vaultId: Option<Id>) | Service

  datatype Adjust = Adjust(target: Target, currency: Id, delta: int, writer: Writer)

  // ---- the two range guards ----

  /** `balanceRangeForDelta` */
  function RepositoryRange(delta: int): Result<(int, int)> {
    if !InRange(delta) then Err(InvalidField("delta"))
    else
      Ok((if delta < 0 then -MAX_MONEY_MINOR - delta else -MAX_MONEY_MINOR,
          if delta > 0 then MAX_MONEY_MINOR - delta else MAX_MONEY_MINOR))
  }

  /** The range of `reverseBalance` */
  function ServiceRange(delta: int): (int, int) {
    if delta < 0 then (-MAX_MONEY_MINOR - delta, MAX_MONEY_MINOR)
    else if delta > 0 then (-MAX_MONEY_MINOR, MAX_MONEY_MINOR - delta)
    else (-MAX_MONEY_MINOR, MAX_MONEY_MINOR)
  }

  /** Both guards admit exactly the balances that are in range before and after the increment. */
  lemma GuardsMeanInRange(balance: int, delta: int)
    ensures var (lo, hi) := ServiceRange(delta);
            lo <= balance <= hi <==> InRange(balance) && InRange(balance + delta)
    ensures var r := RepositoryRange(delta);
            r.Ok? && r.value.0 <= balance <= r.value.1 <==>
            InRange(delta) && InRange(balance) && InRange(balance + delta)
  {
  }

  // ---- one guarded increment ----

  predicate Admits(a: Adjust, currency: Id, vaultId: Id, balance: int, archived: bool) {
    match a.writer
    case Repository(expected) =>
      var range := RepositoryRange(a.delta);
      && range.Ok?
      && currency == a.currency
      && !archived
      && (expected.Some? ==> expected.value == vaultId)
      && range.value.0 <= balance <= range.value.1
    case Service =>
      var (lo, hi) := ServiceRange(a.delta);
      && a.target.id != NO_ID && a.currency != NO_ID
      && currency == a.currency
      && lo <= balance <= hi
  }

  function Apply(books: Books, a: Adjust): Result<Books> {
    match a.target
    case AccountTarget(id) =>
      if id !in books.accounts then Err(Conflict)
      else
        var x := books.accounts[id];
        if !Admits(a, x.currency, x.vaultId, x.balance, x.archived) then Err(Conflict)
        else Ok(books.(accounts := books.accounts[id := x.(balance := x.balance + a.delta)]))
    case VaultTarget(id) =>
      if id !in books.vaults then Err(Conflict)
      else
        var x := books.vaults[id];
        if !Admits(a, x.currency, NO_ID, x.balance, x.archived) then Err(Conflict)
        else Ok(books.(vaults := books.vaults[id := x.(balance := x.balance + a.delta)]))
  }

  function ApplyAll(books: Books, list: seq<Adjust>): Result<Books>
    decreases |list|
  {
    if list == [] then Ok(books)
    else
      var next :- Apply(books, list[0]);
      ApplyAll(next, list[1..])
  }

  // ---- what a transaction does to balances ----

  /** `transactionSourceDelta` of the repository; the service's two copies agree (see `SourceDeltasAgree`). */
  function RepositorySourceDelta(tx: Transaction): Result<int> {
    if tx.amount <= 0 || tx.amount > MAX_MONEY_MINOR then Err(InvalidField("amountMinor"))
    else
      match tx.kind
      case Transfer =>
        if tx.destinationId == NO_ID || tx.destinationId == tx.accountId
        then Err(InvalidField("destinationAccountId")) else Ok(-tx.amount)
      case Expense => Ok(-tx.amount)
      case Income => Ok(tx.amount)
      case Refund => Ok(tx.amount)
      case Reimbursement => Ok(tx.amount)
      case Adjustment => Ok(0)
      case Unsupported(_) => Err(InvalidField("type"))
  }

  /** `transactionSourceBalanceDelta` of the service. */
  function ServiceSourceDelta(tx: Transaction): Result<int> {
    if tx.amount <= 0 || tx.amount > MAX_MONEY_MINOR then Err(Conflict)
    else
      match tx.kind
      case Expense => Ok(-tx.amount)
      case Transfer => Ok(-tx.amount)
      case Income => Ok(tx.amount)
      case Refund => Ok(tx.amount)
      case Reimbursement => Ok(tx.amount)
      case Adjustment => Ok(0)
      case Unsupported(_) => Err(Conflict)
  }

  /** `deletionSourceDelta`, the service's sign-flipped copy. */
  function DeletionSourceDelta(tx: Transaction): Result<int> {
    if tx.amount <= 0 || tx.amount > MAX_MONEY_MINOR then Err(Conflict)
    else
      match tx.kind
      case Expense => Ok(tx.amount)
      case Transfer => Ok(tx.amount)
      case Income => Ok(-tx.amount)
      case Refund => Ok(-tx.amount)
      case Reimbursement => Ok(-tx.amount)
      case Adjustment => Ok(0)
      case Unsupported(_) => Err(Conflict)
  }

  function VaultOf(accounts: map<Id, Account>, id: Id): Id {
    if id in accounts then accounts[id].vaultId else NO_ID
  }

  /** The guarded increments of `CreateFinancialTransaction`, in order. */
  function CreateAdjusts(tx: Transaction, accounts: map<Id, Account>, sourceDelta: int): seq<Adjust> {
    var source, destination := VaultOf(accounts, tx.accountId), VaultOf(accounts, tx.destinationId);
    [Adjust(AccountTarget(tx.accountId), tx.currency, sourceDelta, Repository(Some(tx.vaultId)))]
    + (if tx.kind.Transfer? then
         [Adjust(AccountTarget(tx.destinationId), tx.currency, tx.amount, Repository(None))]
       else [])
    + (if !tx.kind.Transfer? then
         [Adjust(VaultTarget(source), tx.currency, sourceDelta, Repository(None))]
       else if destination == source then []
       else
         [Adjust(VaultTarget(source), tx.currency, sourceDelta, Repository(None)),
          Adjust(VaultTarget(destination), tx.currency, tx.amount, Repository(None))])
  }

  /** `transactionAccountsForBalance`: the accounts an edit or delete will move. */
  function AccountsForBalance(books: Books, tx: Transaction): Result<(Account, Option<Account>)> {
    if tx.accountId !in books.accounts || books.accounts[tx.accountId].currency != tx.currency then Err(Conflict)
    else if !tx.kind.Transfer? then Ok((books.accounts[tx.accountId], None))
    else if tx.destinationId == NO_ID || tx.destinationId == tx.accountId then Err(Conflict)
    else if tx.destinationId !in books.accounts || books.accounts[tx.destinationId].currency != tx.currency
      then Err(Conflict)
    else Ok((books.accounts[tx.accountId], Some(books.accounts[tx.destinationId])))
  }

  /** The guarded increments of `applyTransactionBalanceChange`, in order. */
  function ServiceAdjusts(tx: Transaction, source: Account, destination: Option<Account>, sourceDelta: int,
    reverse: bool)
    : seq<Adjust>
    requires tx.kind.Transfer? ==> destination.Some?
  {
    var delta := if reverse then -sourceDelta else sourceDelta;
    var received := if reverse then -tx.amount else tx.amount;
    var sourceVault := if source.vaultId == NO_ID then tx.vaultId else source.vaultId;
    [Adjust(AccountTarget(tx.accountId), source.currency, delta, Service)]
    + (if tx.kind.Transfer? then
         [Adjust(AccountTarget(tx.destinationId), destination.value.currency, received, Service)] else [])
    + (if !tx.kind.Transfer? || destination.value.vaultId != sourceVault then
         [Adjust(VaultTarget(sourceVault), tx.currency, delta, Service)] else [])
    + (if tx.kind.Transfer? && destination.value.vaultId != sourceVault then
         [Adjust(VaultTarget(destination.value.vaultId), tx.currency, received, Service)] else [])
  }

  /** `applyTransactionBalanceChange` on freshly read accounts. */
  function ServiceChange(books: Books, tx: Transaction, source: Account, destination: Option<Account>,
    reverse: bool): Result<Books> {
    var delta :- ServiceSourceDelta(tx);
    if tx.kind.Transfer? && destination.None? then Err(Conflict)
    else ApplyAll(books, ServiceAdjusts(tx, source, destination, delta, reverse))
  }

  // ---- the balance part of the three mutations ----

  function CreateBooks(books: Books, tx: Transaction): Result<Books> {
    var delta :- RepositorySourceDelta(tx);
    ApplyAll(books, CreateAdjusts(tx, books.accounts, delta))
  }

  /** Takes the effect of a stored transaction back, as a delete does, or applies one, as an edit does. */
  function ChangeBooks(books: Books, tx: Transaction, reverse: bool): Result<Books> {
    var (source, destination) :- AccountsForBalance(books, tx);
    ServiceChange(books, tx, source, destination, reverse)
  }

  /** An edit reads the accounts of both versions first, then reverses the old one and applies the new one. */
  function EditBooks(books: Books, current: Transaction, next: Transaction): Result<Books> {
    var (oldSource, oldDestination) :- AccountsForBalance(books, current);
    var (newSource, newDestination) :- AccountsForBalance(books, next);
    var reversed :- ServiceChange(books, current, oldSource, oldDestination, true);
    ServiceChange(reversed, next, newSource, newDestination, false)
  }

  // ---- meaning ----

  /** The signed effect of one stored transaction on one balance. */
  function Effect(vaultOf: map<Id, Id>, tx: Transaction, target: Target): int {
    var delta := ServiceSourceDelta(tx);
    if delta.Err? then 0
    else
      match target
      case AccountTarget(id) =>
        (if id == tx.accountId then delta.value else 0)
        + (if tx.kind.Transfer? && id == tx.destinationId then tx.amount else 0)
      case VaultTarget(id) =>
        var source, destination := Lookup(vaultOf, tx.accountId), Lookup(vaultOf, tx.destinationId);
        if tx.kind.Transfer? && source == destination then 0
        else
          (if id == source then delta.value else 0)
          + (if tx.kind.Transfer? && id == destination then tx.amount else 0)
  }

  function Lookup(m: map<Id, Id>, k: Id): Id {
    if k in m then m[k] else NO_ID
  }

  function VaultMap(books: Books): map<Id, Id> {
    map id | id in books.accounts :: books.accounts[id].vaultId
  }

  function Net(list: seq<Adjust>, target: Target): int {
    if list == [] then 0
    else (if list[0].target == target then list[0].delta else 0) + Net(list[1..], target)
  }

  function ShiftAccounts(accounts: map<Id, Account>, list: seq<Adjust>): map<Id, Account> {
    map id | id in accounts :: accounts[id].(balance := accounts[id].balance + Net(list, AccountTarget(id)))
  }

  function ShiftVaults(vaults: map<Id, Vault>, list: seq<Adjust>): map<Id, Vault> {
    map id | id in vaults :: vaults[id].(balance := vaults[id].balance + Net(list, VaultTarget(id)))
  }

  /** The books with `sign` times the effect of a transaction added to every balance. */
  function Moved(books: Books, tx: Transaction, sign: int): Books {
    var vaultOf := VaultMap(books);
    Books(
      map id | id in books.accounts ::
        books.accounts[id].(balance := books.accounts[id].balance + sign * Effect(vaultOf, tx, AccountTarget(id))),
      map id | id in books.vaults ::
        books.vaults[id].(balance := books.vaults[id].balance + sign * Effect(vaultOf, tx, VaultTarget(id))))
  }

  /** The state reached when every increment of the list is accepted. */
  function Shifted(books: Books, list: seq<Adjust>): Books {
    books.(accounts := ShiftAccounts(books.accounts, list), vaults := ShiftVaults(books.vaults, list))
  }

  /** Guarded increments either fail or move each balance by the net of its deltas. */
  lemma {:induction false} ApplyAllShifts(books: Books, list: seq<Adjust>)
    requires ApplyAll(books, list).Ok?
    ensures ApplyAll(books, list).value == Shifted(books, list)
    ensures forall a | a in list :: Touches(books, a.target)
    decreases |list|
  {
    if list == [] {
      assert ShiftAccounts(books.accounts, list) == books.accounts && ShiftVaults(books.vaults, list) == books.vaults;
    } else {
      var next := Apply(books, list[0]).value;
      ApplyAllShifts(next, list[1..]);
      ShiftedOnce(books, next, list);
    }
  }

  lemma ShiftedOnce(books: Books, next: Books, list: seq<Adjust>)
    requires list != [] && Apply(books, list[0]) == Ok(next)
    ensures Shifted(next, list[1..]) == Shifted(books, list)
  {
    hide Admits, Net, ShiftAccounts, ShiftVaults;
    AccountsStep(books.accounts, next.accounts, list);
    VaultsStep(books.vaults, next.vaults, list);
  }

  lemma AccountsStep(before: map<Id, Account>, after: map<Id, Account>, list: seq<Adjust>)
    requires list != [] && after.Keys == before.Keys
    requires forall id | id in before ::
      after[id] == before[id].(balance := before[id].balance
                                          + if list[0].target == AccountTarget(id) then list[0].delta else 0)
    ensures ShiftAccounts(after, list[1..]) == ShiftAccounts(before, list)
  {
    hide Net;
    forall id | id in before { NetHead(list, AccountTarget(id)); }
  }

  lemma VaultsStep(before: map<Id, Vault>, after: map<Id, Vault>, list: seq<Adjust>)
    requires list != [] && after.Keys == before.Keys
    requires forall id | id in before ::
      after[id] == before[id].(balance := before[id].balance
                                          + if list[0].target == VaultTarget(id) then list[0].delta else 0)
    ensures ShiftVaults(after, list[1..]) == ShiftVaults(before, list)
  {
    hide Net;
    forall id | id in before { NetHead(list, VaultTarget(id)); }
  }

  lemma NetHead(list: seq<Adjust>, target: Target)
    requires list != []
    ensures Net(list, target) == (if list[0].target == target then list[0].delta else 0) + Net(list[1..], target)
  {
  }

  /** Every balance an accepted list touches ends, as it began, in the supported range. */
  lemma {:induction false} ApplyAllKeepsRange(books: Books, list: seq<Adjust>, target: Target)
    requires ApplyAll(books, list).Ok? && Touches(books, target)
    requires InRange(BalanceOf(books, target)) || exists a | a in list :: a.target == target
    ensures Touches(ApplyAll(books, list).value, target) && InRange(BalanceOf(ApplyAll(books, list).value, target))
    decreases |list|
  {
    if list != [] {
      var next := Apply(books, list[0]).value;
      if list[0].target == target {
        GuardsMeanInRange(BalanceOf(books, target), list[0].delta);
      }
      ApplyAllKeepsRange(next, list[1..], target);
    }
  }

  lemma {:induction false} NetOfOthers(list: seq<Adjust>, target: Target)
    requires forall a | a in list :: a.target != target
    ensures Net(list, target) == 0
  {
    if list != [] {
      NetOfOthers(list[1..], target);
    }
  }

  predicate Touches(books: Books, target: Target) {
    match target
    case AccountTarget(id) => id in books.accounts
    case VaultTarget(id) => id in books.vaults
  }

  function BalanceOf(books: Books, target: Target): int
    requires Touches(books, target)
  {
    match target
    case AccountTarget(id) => books.accounts[id].balance
    case VaultTarget(id) => books.vaults[id].balance
  }
}
