/**
 * What the two separately written balance implementations have in common:
 * both add the same effect, one undoes the other, and transfers conserve.
 */
module BalanceLaws {
  import opened Outcomes
  import opened MoneyText
  import opened Store
  import opened Sums
  import opened Balances

  /** The three copies of the source delta agree: same sign rule, same limits, same refusals. */
  lemma SourceDeltasAgree(tx: Transaction)
    ensures RepositorySourceDelta(tx).Ok? ==> ServiceSourceDelta(tx) == RepositorySourceDelta(tx)
    ensures ServiceSourceDelta(tx).Ok? ==>
              (RepositorySourceDelta(tx).Ok? <==>
               (tx.kind.Transfer? ==> tx.destinationId != NO_ID && tx.destinationId != tx.accountId))
    ensures ServiceSourceDelta(tx).Ok? <==> DeletionSourceDelta(tx).Ok?
    ensures ServiceSourceDelta(tx).Ok? ==> DeletionSourceDelta(tx).value == -ServiceSourceDelta(tx).value
    ensures ServiceSourceDelta(tx).Ok? ==> InRange(ServiceSourceDelta(tx).value)
  {
  }

  /** Every account names its vault, as account creation guarantees. */
  predicate VaultsNamed(books: Books) {
    forall id | id in books.accounts :: books.accounts[id].vaultId != NO_ID
  }

  // ---- nets of the two adjustment lists ----

  lemma Net1(a: Adjust, target: Target)
    ensures Net([a], target) == if a.target == target then a.delta else 0
  {
    assert [a][1..] == [];
  }

  lemma {:induction false} NetJoin(xs: seq<Adjust>, ys: seq<Adjust>, target: Target)
    ensures Net(xs + ys, target) == Net(xs, target) + Net(ys, target)
  {
    if xs == [] {
      assert xs + ys == ys;
    } else {
      NetJoin(xs[1..], ys, target);
      assert (xs + ys)[1..] == xs[1..] + ys;
    }
  }

  /** The repository's increments add up to the effect of the created transaction. */
  lemma CreateNet(tx: Transaction, books: Books, target: Target)
    requires RepositorySourceDelta(tx).Ok?
    ensures Net(CreateAdjusts(tx, books.accounts, RepositorySourceDelta(tx).value), target)
        == Effect(VaultMap(books), tx, target)
  {
    var delta := RepositorySourceDelta(tx).value;
    var source, destination := VaultOf(books.accounts, tx.accountId), VaultOf(books.accounts, tx.destinationId);
    var a1 := Adjust(AccountTarget(tx.accountId), tx.currency, delta, Repository(Some(tx.vaultId)));
    var a2 := Adjust(AccountTarget(tx.destinationId), tx.currency, tx.amount, Repository(None));
    var v1 := Adjust(VaultTarget(source), tx.currency, delta, Repository(None));
    var v2 := Adjust(VaultTarget(destination), tx.currency, tx.amount, Repository(None));
    Net1(a1, target);
    Net1(a2, target);
    Net1(v1, target);
    Net1(v2, target);
    NetJoin([v1], [v2], target);
    assert [v1, v2] == [v1] + [v2];
    var accounts := [a1] + if tx.kind.Transfer? then [a2] else [];
    var vaults := if !tx.kind.Transfer? then [v1] else if destination == source then [] else [v1, v2];
    NetJoin([a1], if tx.kind.Transfer? then [a2] else [], target);
    NetJoin(accounts, vaults, target);
    assert CreateAdjusts(tx, books.accounts, delta) == accounts + vaults;
  }

  /** The service's increments add up to the effect, or to its negation when reversing. */
  lemma ServiceNet(tx: Transaction, books: Books, reverse: bool, target: Target)
    requires VaultsNamed(books) && AccountsForBalance(books, tx).Ok? && ServiceSourceDelta(tx).Ok?
    ensures var (source, destination) := AccountsForBalance(books, tx).value;
            Net(ServiceAdjusts(tx, source, destination, ServiceSourceDelta(tx).value, reverse), target)
            == (if reverse then -1 else 1) * Effect(VaultMap(books), tx, target)
  {
    var (source, destination) := AccountsForBalance(books, tx).value;
    var delta := if reverse then -ServiceSourceDelta(tx).value else ServiceSourceDelta(tx).value;
    var received := if reverse then -tx.amount else tx.amount;
    var a1 := Adjust(AccountTarget(tx.accountId), source.currency, delta, Service);
    var v1 := Adjust(VaultTarget(source.vaultId), tx.currency, delta, Service);
    Net1(a1, target);
    Net1(v1, target);
    var list := ServiceAdjusts(tx, source, destination, ServiceSourceDelta(tx).value, reverse);
    if tx.kind.Transfer? {
      var a2 := Adjust(AccountTarget(tx.destinationId), destination.value.currency, received, Service);
      var v2 := Adjust(VaultTarget(destination.value.vaultId), tx.currency, received, Service);
      Net1(a2, target);
      Net1(v2, target);
      NetJoin([a1], [a2], target);
      if destination.value.vaultId != source.vaultId {
        assert list == ([a1] + [a2]) + ([v1] + [v2]);
        NetJoin([a1] + [a2], [v1] + [v2], target);
        NetJoin([v1], [v2], target);
      } else {
        assert list == [a1] + [a2];
      }
    } else {
      assert list == [a1] + [v1];
      NetJoin([a1], [v1], target);
    }
  }

  lemma ShiftedIsMoved(books: Books, list: seq<Adjust>, tx: Transaction, sign: int)
    requires forall t :: Net(list, t) == sign * Effect(VaultMap(books), tx, t)
    ensures Shifted(books, list) == Moved(books, tx, sign)
  {
    hide Net, Effect;
    assert Shifted(books, list).accounts == Moved(books, tx, sign).accounts;
    assert Shifted(books, list).vaults == Moved(books, tx, sign).vaults;
  }

  /** A create that is accepted adds exactly the transaction's effect to every balance. */
  lemma CreateBooksMeans(books: Books, tx: Transaction)
    requires CreateBooks(books, tx).Ok?
    ensures CreateBooks(books, tx).value == Moved(books, tx, 1)
  {
    var list := CreateAdjusts(tx, books.accounts, RepositorySourceDelta(tx).value);
    ApplyAllShifts(books, list);
    forall t ensures Net(list, t) == 1 * Effect(VaultMap(books), tx, t) { CreateNet(tx, books, t); }
    ShiftedIsMoved(books, list, tx, 1);
  }

  /** A service change that is accepted adds or takes exactly that effect. */
  lemma ChangeBooksMeans(books: Books, tx: Transaction, reverse: bool)
    requires VaultsNamed(books) && ChangeBooks(books, tx, reverse).Ok?
    ensures ChangeBooks(books, tx, reverse).value == Moved(books, tx, if reverse then -1 else 1)
  {
    var (source, destination) := AccountsForBalance(books, tx).value;
    var list := ServiceAdjusts(tx, source, destination, ServiceSourceDelta(tx).value, reverse);
    var sign := if reverse then -1 else 1;
    ApplyAllShifts(books, list);
    forall t ensures Net(list, t) == sign * Effect(VaultMap(books), tx, t) { ServiceNet(tx, books, reverse, t); }
    ShiftedIsMoved(books, list, tx, sign);
  }

  lemma MovedKeepsVaults(books: Books, tx: Transaction, sign: int)
    ensures VaultMap(Moved(books, tx, sign)) == VaultMap(books)
    ensures VaultsNamed(books) ==> VaultsNamed(Moved(books, tx, sign))
    ensures Moved(books, tx, sign).accounts.Keys == books.accounts.Keys
    ensures Moved(books, tx, sign).vaults.Keys == books.vaults.Keys
  {
  }

  /** Adding an effect and taking it back is the identity. */
  lemma MovedBack(books: Books, tx: Transaction)
    ensures Moved(Moved(books, tx, 1), tx, -1) == books
  {
    hide Effect;
    MovedKeepsVaults(books, tx, 1);
    var back := Moved(Moved(books, tx, 1), tx, -1);
    assert back.accounts == books.accounts && back.vaults == books.vaults;
  }

  // ---- when the increments are accepted ----

  predicate DistinctTargets(list: seq<Adjust>) {
    forall i, j | 0 <= i < j < |list| :: list[i].target != list[j].target
  }

  /** Increments of different documents are accepted together exactly when each is on its own. */
  lemma {:induction false} DistinctAccepts(books: Books, list: seq<Adjust>)
    requires DistinctTargets(list)
    ensures ApplyAll(books, list).Ok? <==> forall i | 0 <= i < |list| :: Apply(books, list[i]).Ok?
    decreases |list|
  {
    if list != [] && Apply(books, list[0]).Ok? {
      var next, rest := Apply(books, list[0]).value, list[1..];
      DistinctAccepts(next, rest);
      assert forall i | 0 <= i < |rest| :: Apply(next, rest[i]).Ok? <==> Apply(books, list[i + 1]).Ok?;
      assert forall i | 0 < i < |list| :: list[i] == rest[i - 1];
    }
  }

  lemma {:induction false} NetOfDistinct(list: seq<Adjust>, i: nat)
    requires DistinctTargets(list) && i < |list|
    ensures Net(list, list[i].target) == list[i].delta
    decreases |list|
  {
    if i == 0 {
      NetOfOthers(list[1..], list[0].target);
    } else {
      NetOfDistinct(list[1..], i - 1);
    }
  }

  /** Both implementations visit the same documents in the same order with the same deltas, up to sign. */
  predicate Correspond(creates: seq<Adjust>, changes: seq<Adjust>, currency: Id, sign: int) {
    && |creates| == |changes|
    && DistinctTargets(creates)
    && forall i | 0 <= i < |creates| ::
        && changes[i].target == creates[i].target && changes[i].delta == sign * creates[i].delta
        && changes[i].writer.Service? && changes[i].currency == currency
        && creates[i].writer.Repository? && creates[i].currency == currency && InRange(creates[i].delta)
  }

  lemma ListsCorrespond(books: Books, tx: Transaction, reverse: bool)
    requires VaultsNamed(books) && RepositorySourceDelta(tx).Ok? && AccountsForBalance(books, tx).Ok?
    ensures var delta, accounts := RepositorySourceDelta(tx).value, AccountsForBalance(books, tx).value;
            Correspond(CreateAdjusts(tx, books.accounts, delta),
              ServiceAdjusts(tx, accounts.0, accounts.1, delta, reverse),
                       tx.currency, if reverse then -1 else 1)
  {
  }

  lemma TargetsNamed(books: Books, tx: Transaction)
    requires VaultsNamed(books) && RepositorySourceDelta(tx).Ok? && AccountsForBalance(books, tx).Ok?
    ensures forall a | a in CreateAdjusts(tx, books.accounts, RepositorySourceDelta(tx).value) ::
              && (a.target == AccountTarget(tx.accountId) || a.target.id != NO_ID)
              && (a.target.VaultTarget? ==> a.writer == Repository(None))
  {
  }

  /** The stored balance after an accepted list of increments of different documents. */
  lemma BalanceAfter(books: Books, list: seq<Adjust>, i: nat)
    requires DistinctTargets(list) && ApplyAll(books, list).Ok? && i < |list|
    ensures Apply(books, list[i]).Ok? && Touches(books, list[i].target)
    ensures Touches(ApplyAll(books, list).value, list[i].target)
    ensures BalanceOf(ApplyAll(books, list).value, list[i].target) == BalanceOf(books, list[i].target) + list[i].delta
  {
    DistinctAccepts(books, list);
    ApplyAllShifts(books, list);
    NetOfDistinct(list, i);
  }

  /** The reversal of an accepted increment is accepted, provided the service's own emptiness checks pass. */
  lemma ReversalAccepted(books: Books, after: Books, creates: seq<Adjust>, change: Adjust, i: nat)
    requires DistinctTargets(creates) && ApplyAll(books, creates) == Ok(after) && i < |creates|
    requires creates[i].writer.Repository? && change.writer.Service?
    requires change.target == creates[i].target && change.delta == -creates[i].delta
    requires change.currency == creates[i].currency
    ensures Apply(after, change).Ok? <==> change.target.id != NO_ID && change.currency != NO_ID
  {
    BalanceAfter(books, creates, i);
    ApplyAllShifts(books, creates);
    GuardsMeanInRange(BalanceOf(books, creates[i].target), creates[i].delta);
    GuardsMeanInRange(BalanceOf(after, creates[i].target), change.delta);
  }

  lemma AllReversalsAccepted(books: Books, after: Books, creates: seq<Adjust>, changes: seq<Adjust>, currency: Id)
    requires ApplyAll(books, creates) == Ok(after) && Correspond(creates, changes, currency, -1)
    ensures ApplyAll(after, changes).Ok? <==>
            forall i | 0 <= i < |creates| :: creates[i].target.id != NO_ID && currency != NO_ID
  {
    forall i | 0 <= i < |creates|
      ensures Apply(after, changes[i]).Ok? <==> creates[i].target.id != NO_ID && currency != NO_ID
    {
      ReversalAccepted(books, after, creates, changes[i], i);
    }
    hide Apply, ApplyAll;
    DistinctAccepts(after, changes);
  }

  lemma ReversalSucceeds(books: Books, tx: Transaction)
    requires VaultsNamed(books) && CreateBooks(books, tx).Ok?
    ensures ChangeBooks(CreateBooks(books, tx).value, tx, true).Ok? <==> tx.accountId != NO_ID && tx.currency != NO_ID
  {
    hide Effect, Net, ApplyAll, Moved;
    var after := CreateBooks(books, tx).value;
    var delta := RepositorySourceDelta(tx).value;
    CreateBooksMeans(books, tx);
    MovedKeepsVaults(books, tx, 1);
    FindsAccounts(books, tx);
    SameCreateAdjusts(books, after, tx, delta);
    ListsCorrespond(after, tx, true);
    TargetsNamed(after, tx);
    var accounts := AccountsForBalance(after, tx).value;
    var creates := CreateAdjusts(tx, books.accounts, delta);
    assert creates[0].target == AccountTarget(tx.accountId);
    hide CreateAdjusts, ServiceAdjusts;
    AllReversalsAccepted(books, after, creates, ServiceAdjusts(tx, accounts.0, accounts.1, delta, true), tx.currency);
  }

  lemma SameCreateAdjusts(books: Books, after: Books, tx: Transaction, delta: int)
    requires VaultMap(after) == VaultMap(books)
    ensures CreateAdjusts(tx, after.accounts, delta) == CreateAdjusts(tx, books.accounts, delta)
  {
    assert forall id :: VaultOf(after.accounts, id) == Lookup(VaultMap(after), id);
    assert forall id :: VaultOf(books.accounts, id) == Lookup(VaultMap(books), id);
  }

  /**
   * Cross-implementation inverse: right after an accepted create, the service's
   * reversal succeeds exactly when the transaction names its account and its
   * currency (as validation ensures), and it then restores every balance.
   */
  lemma DeleteUndoesCreate(books: Books, tx: Transaction)
    requires VaultsNamed(books) && CreateBooks(books, tx).Ok?
    ensures var after := CreateBooks(books, tx).value;
            if tx.accountId != NO_ID && tx.currency != NO_ID then ChangeBooks(after, tx, true) == Ok(books)
            else ChangeBooks(after, tx, true).Err?
  {
    hide Effect, Moved, VaultMap, ChangeBooks;
    ReversalSucceeds(books, tx);
    if tx.accountId != NO_ID && tx.currency != NO_ID {
      CreateBooksMeans(books, tx);
      MovedKeepsVaults(books, tx, 1);
      ChangeBooksMeans(Moved(books, tx, 1), tx, true);
      MovedBack(books, tx);
    }
  }

  /** An accepted create has found the accounts a later reversal will look up. */
  lemma FindsAccounts(books: Books, tx: Transaction)
    requires CreateBooks(books, tx).Ok?
    ensures AccountsForBalance(CreateBooks(books, tx).value, tx).Ok?
  {
    var delta := RepositorySourceDelta(tx).value;
    var creates := CreateAdjusts(tx, books.accounts, delta);
    hide Effect, Moved, Net;
    ApplyAllShifts(books, creates);
    assert DistinctTargets(creates);
    DistinctAccepts(books, creates);
    assert Apply(books, creates[0]).Ok?;
    if tx.kind.Transfer? {
      assert creates[1].target == AccountTarget(tx.destinationId);
      assert Apply(books, creates[1]).Ok?;
    }
  }

  /** What the repository's filter asks of a document beyond the service's: not archived, and in the named vault. */
  predicate LiveFor(books: Books, a: Adjust) {
    match a.target
    case AccountTarget(id) =>
      id in books.accounts && !books.accounts[id].archived
      && (a.writer.Repository? && a.writer.vaultId.Some? ==> books.accounts[id].vaultId == a.writer.vaultId.value)
    case VaultTarget(id) => id in books.vaults && !books.vaults[id].archived
  }

  predicate Live(books: Books, tx: Transaction) {
    forall a | a in CreateAdjusts(tx, books.accounts, 0) :: LiveFor(books, a)
  }

  lemma SameAcceptance(books: Books, create: Adjust, change: Adjust)
    requires create.writer.Repository? && change.writer.Service? && InRange(create.delta)
    requires change.target == create.target && change.delta == create.delta && change.currency == create.currency
    requires change.target.id != NO_ID && change.currency != NO_ID
    requires create.target.VaultTarget? ==> create.writer.vaultId.None?
    ensures Apply(books, create).Ok? <==> Apply(books, change).Ok? && LiveFor(books, create)
  {
    if Touches(books, create.target) {
      GuardsMeanInRange(BalanceOf(books, create.target), create.delta);
    }
  }

  /**
   * For a transaction that names its account and currency, the repository's
   * create and the service's forward change are one function of the balances:
   * the create is accepted exactly when the change is and the documents are live.
   */
  lemma ImplementationsAgree(books: Books, tx: Transaction)
    requires VaultsNamed(books) && RepositorySourceDelta(tx).Ok? && AccountsForBalance(books, tx).Ok?
    requires tx.accountId != NO_ID && tx.currency != NO_ID
    ensures CreateBooks(books, tx).Ok? <==> ChangeBooks(books, tx, false).Ok? && Live(books, tx)
    ensures CreateBooks(books, tx).Ok? ==> ChangeBooks(books, tx, false) == CreateBooks(books, tx)
  {
    hide Effect, Moved, Net, Admits, Live, LiveFor, CreateAdjusts, ServiceAdjusts;
    var delta, accounts := RepositorySourceDelta(tx).value, AccountsForBalance(books, tx).value;
    var creates := CreateAdjusts(tx, books.accounts, delta);
    var changes := ServiceAdjusts(tx, accounts.0, accounts.1, delta, false);
    ListsCorrespond(books, tx, false);
    LiveIgnoresDelta(books, tx, delta);
    TargetsNamed(books, tx);
    DistinctAccepts(books, creates);
    DistinctAccepts(books, changes);
    hide Apply, ApplyAll;
    forall i | 0 <= i < |creates|
      ensures Apply(books, creates[i]).Ok? <==> Apply(books, changes[i]).Ok? && LiveFor(books, creates[i])
    {
      SameAcceptance(books, creates[i], changes[i]);
    }
    if CreateBooks(books, tx).Ok? {
      CreateBooksMeans(books, tx);
      ChangeBooksMeans(books, tx, false);
    }
  }

  lemma LiveIgnoresDelta(books: Books, tx: Transaction, delta: int)
    ensures Live(books, tx) <==> forall i | 0 <= i < |CreateAdjusts(tx, books.accounts, delta)| ::
              LiveFor(books, CreateAdjusts(tx, books.accounts, delta)[i])
  {
    var zero, list := CreateAdjusts(tx, books.accounts, 0), CreateAdjusts(tx, books.accounts, delta);
    assert |zero| == |list|;
    assert forall i | 0 <= i < |list| :: zero[i] in zero && LiveFor(books, zero[i]) == LiveFor(books, list[i]);
  }

  lemma ForwardAfterReversal(books: Books, reversed: Books, current: Transaction, next: Transaction)
    requires AccountsForBalance(books, next).Ok? && reversed == Moved(books, current, -1)
    ensures var (source, destination) := AccountsForBalance(books, next).value;
            ServiceChange(reversed, next, source, destination, false) == ChangeBooks(reversed, next, false)
  {
    hide Effect, ApplyAll;
  }

  /** An accepted edit is an accepted delete followed by the new version's effect... */
  lemma EditBooksMeans(books: Books, current: Transaction, next: Transaction)
    requires VaultsNamed(books) && EditBooks(books, current, next).Ok?
    ensures ChangeBooks(books, current, true) == Ok(Moved(books, current, -1))
    ensures EditBooks(books, current, next) == ChangeBooks(Moved(books, current, -1), next, false)
    ensures EditBooks(books, current, next).value == Moved(Moved(books, current, -1), next, 1)
  {
    hide Effect, ApplyAll, ServiceChange, Moved;
    ChangeBooksMeans(books, current, true);
    ForwardAfterReversal(books, Moved(books, current, -1), current, next);
    MovedKeepsVaults(books, current, -1);
    ChangeBooksMeans(Moved(books, current, -1), next, false);
  }

  /** What an edit accepts, a create would accept as a transaction. */
  lemma EditedDelta(books: Books, current: Transaction, next: Transaction)
    requires EditBooks(books, current, next).Ok?
    ensures RepositorySourceDelta(next).Ok?
  {
    hide ApplyAll;
  }

  /** ...so it leaves the same balances as deleting the old version and creating the new one. */
  lemma EditIsDeleteThenCreate(books: Books, current: Transaction, next: Transaction)
    requires VaultsNamed(books) && EditBooks(books, current, next).Ok?
    requires next.accountId != NO_ID && next.currency != NO_ID
    ensures ChangeBooks(books, current, true).Ok?
    ensures var deleted := ChangeBooks(books, current, true).value;
            && (CreateBooks(deleted, next).Ok? <==> Live(deleted, next))
            && (CreateBooks(deleted, next).Ok? ==> CreateBooks(deleted, next) == EditBooks(books, current, next))
  {
    EditedDelta(books, current, next);
    hide Effect, Moved, CreateBooks, ServiceChange, Live;
    EditBooksMeans(books, current, next);
    MovedKeepsVaults(books, current, -1);
    ImplementationsAgree(Moved(books, current, -1), next);
  }

  // ---- conservation ----

  /** The balance of an account, counted when it lies in the given vault (or anywhere, when none is given). */
  ghost function BalanceIn(vault: Option<Id>): Account -> int {
    (a: Account) => if vault.None? || a.vaultId == vault.value then a.balance else 0
  }

  ghost function AccountTotal(books: Books, vault: Option<Id>): int {
    Sum(books.accounts, BalanceIn(vault))
  }

  /** An effect lands on the source account and, for a transfer, on the destination; nothing else moves. */
  lemma MovedAccounts(books: Books, tx: Transaction, sign: int)
    requires AccountsForBalance(books, tx).Ok? && ServiceSourceDelta(tx).Ok?
    ensures tx.accountId in books.accounts
    ensures tx.kind.Transfer? ==> tx.destinationId in books.accounts && tx.destinationId != tx.accountId
    ensures var source := books.accounts[tx.accountId];
            var paid := source.(balance := source.balance + sign * ServiceSourceDelta(tx).value);
            var moved := books.accounts[tx.accountId := paid];
            Moved(books, tx, sign).accounts ==
            if tx.kind.Transfer? then
              var destination := books.accounts[tx.destinationId];
              moved[tx.destinationId := destination.(balance := destination.balance + sign * tx.amount)]
            else moved
  {
  }

  /** What a transaction adds to the accounts of one vault, or of all vaults together. */
  function TotalEffect(vaultOf: map<Id, Id>, tx: Transaction, vault: Option<Id>): int
    requires ServiceSourceDelta(tx).Ok?
  {
    if vault.Some? then Effect(vaultOf, tx, VaultTarget(vault.value))
    else if tx.kind.Transfer? then 0
    else ServiceSourceDelta(tx).value
  }

  lemma DepositTotal(accounts: map<Id, Account>, id: Id, delta: int, vault: Option<Id>)
    requires id in accounts
    ensures Sum(accounts[id := accounts[id].(balance := accounts[id].balance + delta)], BalanceIn(vault))
            == Sum(accounts, BalanceIn(vault)) + if vault.None? || accounts[id].vaultId == vault.value then delta else 0
  {
    SumPut(accounts, id, accounts[id].(balance := accounts[id].balance + delta), BalanceIn(vault));
  }

  function Counted(accounts: map<Id, Account>, id: Id, vault: Option<Id>, delta: int): int
    requires id in accounts
  {
    if vault.None? || accounts[id].vaultId == vault.value then delta else 0
  }

  lemma MovedAccountsTotal(books: Books, tx: Transaction, sign: int, vault: Option<Id>)
    requires AccountsForBalance(books, tx).Ok? && ServiceSourceDelta(tx).Ok?
    ensures tx.accountId in books.accounts && (tx.kind.Transfer? ==> tx.destinationId in books.accounts)
    ensures AccountTotal(Moved(books, tx, sign), vault)
            == AccountTotal(books, vault)
               + Counted(books.accounts, tx.accountId, vault, sign * ServiceSourceDelta(tx).value)
               + if tx.kind.Transfer? then Counted(books.accounts, tx.destinationId, vault, sign * tx.amount) else 0
  {
    hide Moved, BalanceIn, Sum, AccountsForBalance, ServiceSourceDelta;
    MovedAccounts(books, tx, sign);
    var delta, received := sign * ServiceSourceDelta(tx).value, sign * tx.amount;
    var source := books.accounts[tx.accountId];
    DepositTotal(books.accounts, tx.accountId, delta, vault);
    if tx.kind.Transfer? {
      var moved := books.accounts[tx.accountId := source.(balance := source.balance + delta)];
      assert moved[tx.destinationId] == books.accounts[tx.destinationId];
      DepositTotal(moved, tx.destinationId, received, vault);
    }
  }

  lemma TotalEffectCounts(books: Books, tx: Transaction, vault: Option<Id>)
    requires AccountsForBalance(books, tx).Ok? && ServiceSourceDelta(tx).Ok?
    ensures TotalEffect(VaultMap(books), tx, vault)
            == Counted(books.accounts, tx.accountId, vault, ServiceSourceDelta(tx).value)
               + if tx.kind.Transfer? then Counted(books.accounts, tx.destinationId, vault, tx.amount) else 0
  {
  }

  /** The accounts of a vault move, together, by what the vault's own balance moves by. */
  lemma MovedTotal(books: Books, tx: Transaction, sign: int, vault: Option<Id>)
    requires sign == 1 || sign == -1
    requires AccountsForBalance(books, tx).Ok? && ServiceSourceDelta(tx).Ok?
    ensures AccountTotal(Moved(books, tx, sign), vault)
            == AccountTotal(books, vault) + sign * TotalEffect(VaultMap(books), tx, vault)
  {
    hide Moved, TotalEffect, AccountTotal, VaultMap, ServiceSourceDelta, AccountsForBalance;
    MovedAccountsTotal(books, tx, sign, vault);
    TotalEffectCounts(books, tx, vault);
    CountedScales(books.accounts, tx.accountId, vault, sign, ServiceSourceDelta(tx).value);
    if tx.kind.Transfer? {
      CountedScales(books.accounts, tx.destinationId, vault, sign, tx.amount);
    }
  }

  lemma CountedScales(accounts: map<Id, Account>, id: Id, vault: Option<Id>, sign: int, delta: int)
    requires id in accounts && (sign == 1 || sign == -1)
    ensures Counted(accounts, id, vault, sign * delta) == sign * Counted(accounts, id, vault, delta)
  {
  }

  /** How far a vault's balance is from the sum of its accounts' balances. */
  ghost function VaultGap(books: Books, vault: Id): int
    requires vault in books.vaults
  {
    books.vaults[vault].balance - AccountTotal(books, Some(vault))
  }

  /** No create, delete or edit ever moves a vault away from its accounts. */
  lemma MovedKeepsGap(books: Books, tx: Transaction, sign: int, vault: Id)
    requires sign == 1 || sign == -1
    requires AccountsForBalance(books, tx).Ok? && ServiceSourceDelta(tx).Ok? && vault in books.vaults
    ensures vault in Moved(books, tx, sign).vaults && VaultGap(Moved(books, tx, sign), vault) == VaultGap(books, vault)
  {
    MovedTotal(books, tx, sign, Some(vault));
  }

  lemma CreateFindsAccounts(books: Books, tx: Transaction)
    requires CreateBooks(books, tx).Ok?
    ensures AccountsForBalance(books, tx).Ok? && ServiceSourceDelta(tx).Ok?
  {
    FindsAccounts(books, tx);
    CreateBooksMeans(books, tx);
    SourceDeltasAgree(tx);
  }

  /** Creating or deleting a transfer leaves the sum of all account balances as it was. */
  lemma TransfersConserve(books: Books, tx: Transaction)
    requires tx.kind.Transfer? && VaultsNamed(books)
    ensures CreateBooks(books, tx).Ok? ==> AccountTotal(CreateBooks(books, tx).value, None) == AccountTotal(books, None)
    ensures ChangeBooks(books, tx, true).Ok? ==>
        AccountTotal(ChangeBooks(books, tx, true).value, None) == AccountTotal(books, None)
  {
    hide Effect, Moved, ApplyAll, AccountTotal;
    if CreateBooks(books, tx).Ok? {
      CreateBooksMeans(books, tx);
      CreateFindsAccounts(books, tx);
      MovedTotal(books, tx, 1, None);
    }
    if ChangeBooks(books, tx, true).Ok? {
      ChangeBooksMeans(books, tx, true);
      MovedTotal(books, tx, -1, None);
    }
  }

  /** An edit moves the total by what the two versions book outside of transfers; between transfers, by nothing. */
  lemma EditConserves(books: Books, current: Transaction, next: Transaction)
    requires VaultsNamed(books) && EditBooks(books, current, next).Ok?
    ensures ServiceSourceDelta(current).Ok? && ServiceSourceDelta(next).Ok?
    ensures AccountTotal(EditBooks(books, current, next).value, None) == AccountTotal(books, None)
            - TotalEffect(VaultMap(books), current, None) + TotalEffect(VaultMap(books), next, None)
  {
    hide Effect, Moved, ApplyAll, AccountTotal;
    EditBooksMeans(books, current, next);
    MovedTotal(books, current, -1, None);
    MovedKeepsVaults(books, current, -1);
    MovedTotal(Moved(books, current, -1), next, 1, None);
  }
}
