/**
 * The balance invariant over all runs: every stored balance is what its
 * opening and the stored transactions say it is, and in range.
 */
module BalanceRuns {
  import opened Outcomes
  import opened MoneyText
  import opened Store
  import opened Sums
  import opened Balances
  import opened BalanceLaws
  import opened Checkpoints
  import opened Categories
  import opened Operations
  import opened Repeatability
  import opened Isolation
  import opened Runs

  // ---- the invariant ----

  ghost function EffectOn(vaultOf: map<Id, Id>, t: Target): Transaction -> int {
    (tx: Transaction) => Effect(vaultOf, tx, t)
  }

  /** The signed effects of all stored transactions on one balance. */
  ghost function Booked(books: Books, txs: map<Id, Transaction>, t: Target): int {
    Sum(txs, EffectOn(VaultMap(books), t))
  }

  /** Where a balance starts from: a vault also carries the opening edits of its accounts so far. */
  function Origin(books: Books, edits: map<Id, int>, t: Target): int
    requires Touches(books, t)
  {
    match t
    case AccountTarget(id) => books.accounts[id].opening
    case VaultTarget(id) => books.vaults[id].opening + if id in edits then edits[id] else 0
  }

  /** A transaction the service can still reverse: its accounts exist in its currency. */
  predicate Linked(books: Books, tx: Transaction) {
    AccountsForBalance(books, tx).Ok? && ServiceSourceDelta(tx).Ok?
  }

  predicate Referenced(books: Books, txs: map<Id, Transaction>) {
    && (forall id | id in books.accounts ::
          books.accounts[id].vaultId != NO_ID && books.accounts[id].vaultId in books.vaults)
    && (forall id | id in txs :: Linked(books, txs[id]))
  }

  ghost predicate BalancedAt(books: Books, txs: map<Id, Transaction>, edits: map<Id, int>, t: Target)
    requires Touches(books, t)
  {
    BalanceOf(books, t) == Origin(books, edits, t) + Booked(books, txs, t) && InRange(BalanceOf(books, t))
  }

  ghost predicate Balanced(books: Books, txs: map<Id, Transaction>, edits: map<Id, int>) {
    Referenced(books, txs) && forall t | Touches(books, t) :: BalancedAt(books, txs, edits, t)
  }

  // ---- moving balances with the transactions ----

  lemma MovedAt(books: Books, tx: Transaction, sign: int, edits: map<Id, int>, t: Target)
    requires Touches(books, t)
    ensures var moved := Moved(books, tx, sign);
            && Touches(moved, t) && Origin(moved, edits, t) == Origin(books, edits, t)
            && BalanceOf(moved, t) == BalanceOf(books, t) + sign * Effect(VaultMap(books), tx, t)
  {
    hide Effect;
  }

  lemma MovedTouches(books: Books, tx: Transaction, sign: int, t: Target)
    ensures Touches(Moved(books, tx, sign), t) <==> Touches(books, t)
  {
    hide Effect;
  }

  lemma MovedLinks(books: Books, tx: Transaction, sign: int, x: Transaction)
    ensures Linked(Moved(books, tx, sign), x) <==> Linked(books, x)
  {
    hide Effect, ServiceSourceDelta;
  }

  lemma MovedReferenced(books: Books, tx: Transaction, sign: int, txs: map<Id, Transaction>)
    requires Referenced(books, txs)
    ensures Referenced(Moved(books, tx, sign), txs)
  {
    hide Effect, Linked;
    forall id | id in txs ensures Linked(Moved(books, tx, sign), txs[id]) {
      assert Linked(books, txs[id]);
      MovedLinks(books, tx, sign, txs[id]);
    }
  }

  /** Accepted increments leave every balance in range. */
  lemma StaysInRange(books: Books, list: seq<Adjust>, t: Target)
    requires ApplyAll(books, list).Ok? && Touches(books, t) && InRange(BalanceOf(books, t))
    ensures Touches(ApplyAll(books, list).value, t) && InRange(BalanceOf(ApplyAll(books, list).value, t))
  {
    ApplyAllKeepsRange(books, list, t);
  }

  lemma CreateInRange(books: Books, tx: Transaction, t: Target)
    requires CreateBooks(books, tx).Ok? && Touches(books, t) && InRange(BalanceOf(books, t))
    ensures Touches(CreateBooks(books, tx).value, t) && InRange(BalanceOf(CreateBooks(books, tx).value, t))
  {
    hide ApplyAll, CreateAdjusts;
    StaysInRange(books, CreateAdjusts(tx, books.accounts, RepositorySourceDelta(tx).value), t);
  }

  lemma ChangeInRange(books: Books, tx: Transaction, reverse: bool, t: Target)
    requires ChangeBooks(books, tx, reverse).Ok? && Touches(books, t) && InRange(BalanceOf(books, t))
    ensures Touches(ChangeBooks(books, tx, reverse).value, t)
        && InRange(BalanceOf(ChangeBooks(books, tx, reverse).value, t))
  {
    hide ApplyAll, ServiceAdjusts;
    var (source, destination) := AccountsForBalance(books, tx).value;
    StaysInRange(books, ServiceAdjusts(tx, source, destination, ServiceSourceDelta(tx).value, reverse), t);
  }

  // ---- create, edit, delete ----

  lemma CreateBalanced(books: Books, txs: map<Id, Transaction>, edits: map<Id, int>, tx: Transaction)
    requires Balanced(books, txs, edits) && CreateBooks(books, tx).Ok? && tx.id !in txs
    ensures Balanced(CreateBooks(books, tx).value, txs[tx.id := tx], edits)
  {
    hide Moved, CreateBooks, Effect, Referenced, Origin, BalanceOf;
    var after := CreateBooks(books, tx).value;
    CreateBooksMeans(books, tx);
    MovedKeepsVaults(books, tx, 1);
    forall t | Touches(after, t) ensures BalancedAt(after, txs[tx.id := tx], edits, t) {
      MovedTouches(books, tx, 1, t);
      assert BalancedAt(books, txs, edits, t);
      MovedAt(books, tx, 1, edits, t);
      CreateInRange(books, tx, t);
      SumPut(txs, tx.id, tx, EffectOn(VaultMap(books), t));
    }
    MovedReferenced(books, tx, 1, txs);
    NewLinked(books, after, txs, tx);
  }

  lemma NewLinked(books: Books, after: Books, txs: map<Id, Transaction>, tx: Transaction)
    requires CreateBooks(books, tx) == Ok(after) && Referenced(after, txs)
    ensures Referenced(after, txs[tx.id := tx])
  {
    hide AccountsForBalance;
    FindsAccounts(books, tx);
    SourceDeltasAgree(tx);
    hide ServiceSourceDelta;
  }

  lemma DeleteBalanced(books: Books, txs: map<Id, Transaction>, edits: map<Id, int>, id: Id)
    requires Balanced(books, txs, edits) && id in txs && ChangeBooks(books, txs[id], true).Ok? && VaultsNamed(books)
    ensures Balanced(ChangeBooks(books, txs[id], true).value, txs - {id}, edits)
  {
    hide Moved, ChangeBooks, Effect, Linked, Origin, BalanceOf;
    var tx := txs[id];
    var after := ChangeBooks(books, tx, true).value;
    ChangeBooksMeans(books, tx, true);
    MovedKeepsVaults(books, tx, -1);
    MovedReferenced(books, tx, -1, txs);
    hide VaultMap;
    forall t | Touches(after, t) ensures BalancedAt(after, txs - {id}, edits, t) {
      MovedTouches(books, tx, -1, t);
      assert BalancedAt(books, txs, edits, t);
      MovedAt(books, tx, -1, edits, t);
      ChangeInRange(books, tx, true, t);
      SumRemove(txs, id, EffectOn(VaultMap(books), t));
    }
  }

  /** An edit is a delete followed by putting the new version back. */
  lemma EditBalanced(books: Books, txs: map<Id, Transaction>, edits: map<Id, int>, id: Id, next: Transaction)
    requires Balanced(books, txs, edits) && id in txs && next.id == id && VaultsNamed(books)
    requires EditBooks(books, txs[id], next).Ok?
    ensures Balanced(EditBooks(books, txs[id], next).value, txs[id := next], edits)
  {
    hide Moved, ChangeBooks, EditBooks, Effect, Linked, Origin, BalanceOf, Referenced, VaultMap;
    var middle := Moved(books, txs[id], -1);
    EditBooksMeans(books, txs[id], next);
    DeleteBalanced(books, txs, edits, id);
    MovedKeepsVaults(books, txs[id], -1);
    PutBalanced(middle, txs - {id}, edits, next);
    assert (txs - {id})[id := next] == txs[id := next];
  }

  lemma PutBalanced(books: Books, txs: map<Id, Transaction>, edits: map<Id, int>, tx: Transaction)
    requires Balanced(books, txs, edits) && tx.id !in txs && ChangeBooks(books, tx, false).Ok? && VaultsNamed(books)
    ensures Balanced(ChangeBooks(books, tx, false).value, txs[tx.id := tx], edits)
  {
    hide Moved, ChangeBooks, Effect, Linked, Origin, BalanceOf;
    var after := ChangeBooks(books, tx, false).value;
    ChangeBooksMeans(books, tx, false);
    MovedKeepsVaults(books, tx, 1);
    MovedReferenced(books, tx, 1, txs);
    hide VaultMap;
    forall t | Touches(after, t) ensures BalancedAt(after, txs[tx.id := tx], edits, t) {
      MovedTouches(books, tx, 1, t);
      assert BalancedAt(books, txs, edits, t);
      MovedAt(books, tx, 1, edits, t);
      ChangeInRange(books, tx, false, t);
      SumPut(txs, tx.id, tx, EffectOn(VaultMap(books), t));
    }
    ChangeLinks(books, tx);
    MovedLinks(books, tx, 1, tx);
  }

  lemma ChangeLinks(books: Books, tx: Transaction)
    requires ChangeBooks(books, tx, false).Ok?
    ensures Linked(books, tx)
  {
    hide ApplyAll, ServiceAdjusts;
  }

  // ---- changes that move no money ----

  /** Rewriting transactions without changing what they book keeps the invariant. */
  lemma RewriteBalanced(books: Books, txs: map<Id, Transaction>, after: map<Id, Transaction>, edits: map<Id, int>)
    requires Balanced(books, txs, edits) && after.Keys == txs.Keys
    requires forall id | id in txs :: SameMoney(txs[id], after[id])
    ensures Balanced(books, after, edits)
  {
    hide Effect, Linked, VaultMap, BalanceOf, Origin;
    forall id | id in after ensures Linked(books, after[id]) {
      assert SameMoney(txs[id], after[id]) && Linked(books, txs[id]);
      SameMoneySameEffect(books, txs[id], after[id], AccountTarget(NO_ID));
    }
    forall t | Touches(books, t) ensures BalancedAt(books, after, edits, t) {
      assert BalancedAt(books, txs, edits, t);
      forall id | id in txs ensures Effect(VaultMap(books), txs[id], t) == Effect(VaultMap(books), after[id], t) {
        assert SameMoney(txs[id], after[id]);
        SameMoneySameEffect(books, txs[id], after[id], t);
      }
      SumSame(txs, after, EffectOn(VaultMap(books), t));
    }
  }

  predicate SameMoney(a: Transaction, b: Transaction) {
    && a.accountId == b.accountId && a.destinationId == b.destinationId && a.kind == b.kind
    && a.amount == b.amount && a.currency == b.currency
  }

  lemma SameMoneySameEffect(books: Books, a: Transaction, b: Transaction, t: Target)
    requires SameMoney(a, b)
    ensures Effect(VaultMap(books), a, t) == Effect(VaultMap(books), b, t)
    ensures Linked(books, a) <==> Linked(books, b)
  {
    hide VaultMap;
  }

  lemma {:induction false} SumSame<K(!new), V(!new)>(a: map<K, V>, b: map<K, V>, f: V -> int)
    requires a.Keys == b.Keys && forall k | k in a :: f(a[k]) == f(b[k])
    ensures Sum(a, f) == Sum(b, f)
    decreases |a|
  {
    if a != map[] {
      var k :| k in a;
      SumRemove(a, k, f);
      SumRemove(b, k, f);
      assert (a - {k}).Keys == (b - {k}).Keys;
      SumSame(a - {k}, b - {k}, f);
    } else {
      assert b == map[];
    }
  }

  // ---- opening balances ----

  function Credited(edits: map<Id, int>, vault: Id, delta: int): map<Id, int> {
    edits[vault := delta + if vault in edits then edits[vault] else 0]
  }

  /** What an accepted opening edit does, with whatever opening balance it believed was stored. */
  lemma OpeningMoves(books: Books, id: Id, seen: int, opening: int, edits: map<Id, int>, t: Target)
    requires OpeningFrom(books, id, seen, opening).Ok? && Touches(books, t)
    ensures id in books.accounts && books.accounts[id].vaultId in books.vaults
    ensures var after, vault := OpeningFrom(books, id, seen, opening).value, books.accounts[id].vaultId;
            && VaultMap(after) == VaultMap(books) && Touches(after, t)
            && BalanceOf(after, t) == BalanceOf(books, t)
              + (if t == AccountTarget(id) || t == VaultTarget(vault) then opening - seen else 0)
            && Origin(after, Credited(edits, vault, opening - seen), t)
               == (if t == AccountTarget(id) then opening
                   else Origin(books, edits, t) + (if t == VaultTarget(vault) then opening - seen else 0))
            && (InRange(BalanceOf(books, t)) ==> InRange(BalanceOf(after, t)))
  {
    var account := books.accounts[id];
    var list := OpeningAdjusts(account, books.vaults[account.vaultId], id, opening - seen);
    ApplyAllShifts(books, list);
    OpeningNet(account, books.vaults[account.vaultId], id, opening - seen, t);
    hide ApplyAll, Net, OpeningAdjusts;
    if InRange(BalanceOf(books, t)) {
      StaysInRange(books, list, t);
    }
  }

  lemma OpeningNet(account: Account, vault: Vault, id: Id, delta: int, t: Target)
    ensures Net(OpeningAdjusts(account, vault, id, delta), t)
            == if t == AccountTarget(id) || t == VaultTarget(account.vaultId) then delta else 0
  {
    var a := Adjust(AccountTarget(id), account.currency, delta, Service);
    var v := Adjust(VaultTarget(account.vaultId), vault.currency, delta, Service);
    Net1(a, t);
    Net1(v, t);
    NetJoin([a], [v], t);
    assert [a, v] == [a] + [v];
  }

  lemma OpeningKeepsDocuments(books: Books, id: Id, seen: int, opening: int)
    requires OpeningFrom(books, id, seen, opening).Ok?
    ensures var after := OpeningFrom(books, id, seen, opening).value;
            && (forall t :: Touches(after, t) <==> Touches(books, t))
            && (forall tx :: Linked(after, tx) <==> Linked(books, tx))
            && (forall x | x in after.accounts ::
              x in books.accounts && after.accounts[x].vaultId == books.accounts[x].vaultId)
  {
    hide ApplyAll, Net, OpeningAdjusts, ServiceSourceDelta;
    var account := books.accounts[id];
    ApplyAllShifts(books, OpeningAdjusts(account, books.vaults[account.vaultId], id, opening - seen));
  }

  lemma OpeningReferenced(books: Books, after: Books, txs: map<Id, Transaction>)
    requires Referenced(books, txs) && forall t :: Touches(after, t) <==> Touches(books, t)
    requires forall tx :: Linked(after, tx) <==> Linked(books, tx)
    requires forall x | x in after.accounts ::
        x in books.accounts && after.accounts[x].vaultId == books.accounts[x].vaultId
    ensures Referenced(after, txs)
  {
    hide Linked;
    forall x | x in after.accounts ensures after.accounts[x].vaultId in after.vaults {
      assert Touches(books, VaultTarget(after.accounts[x].vaultId));
    }
    forall id | id in txs ensures Linked(after, txs[id]) {
      assert Linked(books, txs[id]);
    }
  }

  /**
   * An opening edit computed from the stored opening keeps the invariant, with
   * the difference credited to the vault. Computed from any other value, it
   * breaks the account: exactly then, and for every account and every balance.
   */
  lemma OpeningBalanced(books: Books, txs: map<Id, Transaction>, edits: map<Id, int>, id: Id, seen: int, opening: int)
    requires Balanced(books, txs, edits) && OpeningFrom(books, id, seen, opening).Ok?
    ensures id in books.accounts
    ensures Balanced(OpeningFrom(books, id, seen, opening).value, txs,
        Credited(edits, books.accounts[id].vaultId, opening - seen))
            <==> seen == books.accounts[id].opening
  {
    assert Touches(books, AccountTarget(id));
    hide OpeningFrom, BalanceOf, Origin, VaultMap, Effect, Linked, Referenced;
    OpeningKeepsDocuments(books, id, seen, opening);
    var after := OpeningFrom(books, id, seen, opening).value;
    OpeningReferenced(books, after, txs);
    forall t | Touches(after, t)
      ensures BalancedAt(after, txs, Credited(edits, books.accounts[id].vaultId, opening - seen), t)
              <==> t != AccountTarget(id) || seen == books.accounts[id].opening
    {
      assert BalancedAt(books, txs, edits, t);
      OpeningMoves(books, id, seen, opening, edits, t);
      AccountOrigin(books, edits, id);
    }
    assert Touches(after, AccountTarget(id));
  }

  lemma AccountOrigin(books: Books, edits: map<Id, int>, id: Id)
    requires id in books.accounts
    ensures Origin(books, edits, AccountTarget(id)) == books.accounts[id].opening
  {
  }

  /**
   * Two edits that both read the opening before either transaction began, and
   * are both accepted: the books balance afterwards exactly if the first edit
   * left the opening as it was.
   */
  lemma ConcurrentOpenings(
    books: Books, txs: map<Id, Transaction>, edits: map<Id, int>, id: Id, first: int, second: int)
    requires Balanced(books, txs, edits) && id in books.accounts && OpeningBody(books, id, first).Ok?
    requires OpeningFrom(OpeningBody(books, id, first).value, id, books.accounts[id].opening, second).Ok?
    ensures var seen, vault := books.accounts[id].opening, books.accounts[id].vaultId;
            var between := OpeningBody(books, id, first).value;
            Balanced(OpeningFrom(between, id, seen, second).value, txs,
                     Credited(Credited(edits, vault, first - seen), vault, second - seen))
            <==> first == seen
  {
    var seen, vault := books.accounts[id].opening, books.accounts[id].vaultId;
    var between := OpeningBody(books, id, first).value;
    OpeningStored(books, id, seen, first);
    hide OpeningFrom, Balanced;
    OpeningBalanced(books, txs, edits, id, seen, first);
    OpeningBalanced(between, txs, Credited(edits, vault, first - seen), id, seen, second);
  }

  lemma OpeningStored(books: Books, id: Id, seen: int, opening: int)
    requires OpeningFrom(books, id, seen, opening).Ok?
    ensures var after := OpeningFrom(books, id, seen, opening).value;
            && id in books.accounts && id in after.accounts && after.accounts[id].opening == opening
            && after.accounts[id].vaultId == books.accounts[id].vaultId
  {
    OpeningKeepsDocuments(books, id, seen, opening);
    hide ApplyAll;
  }

  /** A vault and its one account, both opened with the same balance, and no transactions. */
  function FreshAccount(opening: int): Books {
    Books(map[10 := Account(2, 3, opening, opening, Workspace, false, false)],
          map[2 := Vault(3, opening, opening, false)])
  }

  /** Such edits are accepted, and leave the account's balance off its opening by what the first one moved. */
  lemma ConcurrentOpeningsExist(opening: int, first: int, second: int)
    requires InRange(opening) && InRange(first) && InRange(second) && InRange(first + second - opening)
    ensures var books := FreshAccount(opening);
            var between := OpeningBody(books, 10, first);
            && Balanced(books, map[], map[]) && between.Ok?
            && var after := OpeningFrom(between.value, 10, opening, second);
               && after.Ok? && 10 in after.value.accounts
               && after.value.accounts[10].opening == second
               && after.value.accounts[10].balance == second + (first - opening)
  {
    var books := FreshAccount(opening);
    FreshIsBalanced(opening);
    hide Balanced;
    OneAccountEdit(books, opening, first);
    var between := OpeningBody(books, 10, first).value;
    OneAccountEdit(between, opening, second);
  }

  lemma FreshIsBalanced(opening: int)
    requires InRange(opening)
    ensures Balanced(FreshAccount(opening), map[], map[])
  {
  }

  lemma OneAccountEdit(books: Books, seen: int, opening: int)
    requires books.accounts.Keys == {10} && books.vaults.Keys == {2}
    requires var a, v := books.accounts[10], books.vaults[2];
             && a.vaultId == 2 && !a.archived && a.currency == 3 && v.currency == 3 && a.balance == v.balance
             && InRange(a.balance) && InRange(opening) && InRange(a.balance + opening - seen)
    ensures var a, v := books.accounts[10], books.vaults[2];
            OpeningFrom(books, 10, seen, opening)
            == Ok(Books(map[10 := a.(opening := opening, balance := a.balance + opening - seen)],
                        map[2 := v.(balance := v.balance + opening - seen)]))
  {
    var a, v := books.accounts[10], books.vaults[2];
    var list := OpeningAdjusts(a, v, 10, opening - seen);
    assert books.accounts == map[10 := a] && books.vaults == map[2 := v];
    if opening == seen {
      assert ApplyAll(books, list) == Ok(books);
      assert books.accounts[10 := a.(opening := opening)] == map[10 := a.(opening := opening)];
    } else {
      var next := Apply(books, list[0]).value;
      var last := Apply(next, list[1]).value;
      assert list[1..] == [list[1]] && [list[1]][1..] == [];
      assert ApplyAll(last, []) == Ok(last);
      assert ApplyAll(next, [list[1]]) == Ok(last);
      var balance := a.balance + opening - seen;
      assert next.accounts == map[10 := a.(balance := balance)];
      assert last == Books(next.accounts, map[2 := v.(balance := balance)]);
      assert ApplyAll(books, list) == Ok(last);
      assert last.accounts[10 := last.accounts[10].(opening := opening)]
          == map[10 := a.(opening := opening, balance := balance)];
    }
  }

  // ---- new accounts and vaults ----

  /** A document nothing refers to yet books nothing; the effects on the others do not notice it. */
  lemma UnusedBooksNothing(books: Books, after: Books, txs: map<Id, Transaction>, t: Target)
    requires Referenced(books, txs) && forall id | id in books.accounts ::
        id in after.accounts && after.accounts[id] == books.accounts[id]
    ensures Booked(after, txs, t) == if Touches(books, t) then Booked(books, txs, t) else 0
  {
    hide ServiceSourceDelta;
    forall id | id in txs
      ensures Effect(VaultMap(after), txs[id], t)
              == if Touches(books, t) then Effect(VaultMap(books), txs[id], t) else 0
    {
      assert Linked(books, txs[id]);
      UnusedEffect(books, after, txs[id], t);
    }
    hide Effect, Linked, VaultMap;
    if Touches(books, t) {
      SumAgree(txs, EffectOn(VaultMap(after), t), EffectOn(VaultMap(books), t));
    } else {
      PeriodReviews.SumZero(txs, EffectOn(VaultMap(after), t));
    }
  }

  lemma UnusedEffect(books: Books, after: Books, tx: Transaction, t: Target)
    requires forall id | id in books.accounts :: books.accounts[id].vaultId in books.vaults
    requires forall id | id in books.accounts :: id in after.accounts && after.accounts[id] == books.accounts[id]
    requires Linked(books, tx)
    ensures Effect(VaultMap(after), tx, t) == if Touches(books, t) then Effect(VaultMap(books), tx, t) else 0
  {
    hide ServiceSourceDelta;
  }

  lemma GrownBalanced(books: Books, after: Books, txs: map<Id, Transaction>, edits: map<Id, int>)
    requires Balanced(books, txs, edits)
    requires forall id | id in books.accounts :: id in after.accounts && after.accounts[id] == books.accounts[id]
    requires forall id | id in books.vaults :: id in after.vaults && after.vaults[id] == books.vaults[id]
    requires forall id | id in after.accounts ::
               after.accounts[id].vaultId != NO_ID && after.accounts[id].vaultId in after.vaults
    requires forall t | Touches(after, t) && !Touches(books, t) ::
               BalanceOf(after, t) == Origin(after, edits, t) && InRange(BalanceOf(after, t))
    ensures Balanced(after, txs, edits)
  {
    hide Booked;
    forall id | id in txs ensures Linked(after, txs[id]) {
      assert Linked(books, txs[id]);
      StaysLinked(books, after, txs[id]);
    }
    forall t | Touches(after, t) ensures BalancedAt(after, txs, edits, t) {
      UnusedBooksNothing(books, after, txs, t);
      if Touches(books, t) {
        assert BalancedAt(books, txs, edits, t);
      }
    }
  }

  lemma StaysLinked(books: Books, after: Books, tx: Transaction)
    requires forall id | id in books.accounts :: id in after.accounts && after.accounts[id] == books.accounts[id]
    requires Linked(books, tx)
    ensures Linked(after, tx)
  {
    hide ServiceSourceDelta;
  }

  /** Archiving an account touches no balance. */
  lemma ArchiveBalanced(books: Books, txs: map<Id, Transaction>, edits: map<Id, int>, id: Id)
    requires Balanced(books, txs, edits) && ArchiveBody(books, id).Ok?
    ensures Balanced(ArchiveBody(books, id).value, txs, edits)
  {
    hide Effect, ServiceSourceDelta;
    var after := ArchiveBody(books, id).value;
    assert VaultMap(after) == VaultMap(books);
    hide VaultMap;
    forall x | x in txs ensures Linked(after, txs[x]) {
      assert Linked(books, txs[x]);
    }
    forall t | Touches(after, t) ensures BalancedAt(after, txs, edits, t) {
      assert Touches(books, t) && BalancedAt(books, txs, edits, t);
    }
  }

  // ---- every operation, every run ----

  /** The opening edits credited to vaults so far, after one more operation. */
  function CreditedBy(books: Books, op: Op, edits: map<Id, int>): map<Id, int> {
    match op
    case SetOpening(id, opening) =>
      if id !in books.accounts then edits
      else Credited(edits, books.accounts[id].vaultId, opening - books.accounts[id].opening)
    case AddVault(id, _, _) => edits[id := 0]
    case _ => edits
  }

  ghost function CreditedByAll(db: Db, ops: seq<Op>, edits: map<Id, int>): map<Id, int>
    decreases |ops|
  {
    if ops == [] || Exec(db, ops[0]).Err? then edits
    else CreditedByAll(Exec(db, ops[0]).value, ops[1..], CreditedBy(db.books, ops[0], edits))
  }

  lemma EditKeepsBalance(db: Db, id: Id, input: Transaction, edits: map<Id, int>)
    requires WellKeyed(db) && Balanced(db.books, db.ledger.txs, edits) && EditBody(db, id, input).Ok?
    ensures Balanced(EditBody(db, id, input).value.books, EditBody(db, id, input).value.ledger.txs, edits)
  {
    hide Balanced, EditBooks, EditedVersion, RenumberCounters, VaultsNamed, Numbered;
    var current := db.ledger.txs[id];
    EditedKeepsIdentity(db.books.accounts, current, input);
    EditBalanced(db.books, db.ledger.txs, edits, id, EditedVersion(db.books.accounts, current, input).value);
  }

  lemma CreateKeepsBalance(db: Db, c: CreateCommand, edits: map<Id, int>)
    requires Balanced(db.books, db.ledger.txs, edits) && CreateBody(db, c).Ok?
    ensures Balanced(CreateBody(db, c).value.books, CreateBody(db, c).value.ledger.txs, edits)
  {
    hide Balanced, CreateBooks, PrepareNumber, NumberTaken, Numbered;
    var tx := c.tx.(publicId := PrepareNumber(db.sequences, db.ledger.txs, c).value.1);
    CreateBalanced(db.books, db.ledger.txs, edits, tx);
  }

  lemma DeleteKeepsBalance(db: Db, id: Id, edits: map<Id, int>)
    requires WellKeyed(db) && Balanced(db.books, db.ledger.txs, edits) && DeleteBody(db, id).Ok?
    ensures Balanced(DeleteBody(db, id).value.books, DeleteBody(db, id).value.ledger.txs, edits)
  {
    hide Balanced, ChangeBooks, VaultsNamed, Numbered;
    DeleteBalanced(db.books, db.ledger.txs, edits, id);
  }

  lemma MigrateKeepsBalance(db: Db, mode: Scope, oldName: string, newName: string, edits: map<Id, int>)
    requires Balanced(db.books, db.ledger.txs, edits) && MigrateBody(db, mode, oldName, newName).Ok?
    ensures var after := MigrateBody(db, mode, oldName, newName).value; Balanced(after.books, after.ledger.txs, edits)
  {
    hide Balanced, MigrationChanges, Numbered, Affected;
    RewriteBalanced(db.books, db.ledger.txs,
                    Renamed(db.ledger.txs, Affected(db.ledger.txs, mode, oldName, newName), newName), edits);
  }

  lemma AddAccountKeepsBalance(db: Db, op: Op, edits: map<Id, int>)
    requires op.AddAccount? && Balanced(db.books, db.ledger.txs, edits) && Exec(db, op).Ok?
    ensures Balanced(Exec(db, op).value.books, Exec(db, op).value.ledger.txs, edits)
  {
    hide Linked, Booked;
    GrownBalanced(db.books, Exec(db, op).value.books, db.ledger.txs, edits);
  }

  lemma AddVaultKeepsBalance(db: Db, op: Op, edits: map<Id, int>)
    requires op.AddVault? && Balanced(db.books, db.ledger.txs, edits) && Exec(db, op).Ok?
    ensures Balanced(Exec(db, op).value.books, Exec(db, op).value.ledger.txs, edits[op.vaultId := 0])
  {
    hide Linked, Booked;
    var books := db.books;
    assert forall t | Touches(books, t) :: BalancedAt(books, db.ledger.txs, edits, t);
    assert op.vaultId !in books.vaults;
    assert forall t | Touches(books, t) :: Origin(books, edits[op.vaultId := 0], t) == Origin(books, edits, t);
    GrownBalanced(books, Exec(db, op).value.books, db.ledger.txs, edits[op.vaultId := 0]);
  }

  lemma ExecKeepsBalance(db: Db, op: Op, edits: map<Id, int>)
    requires WellKeyed(db) && Balanced(db.books, db.ledger.txs, edits) && Exec(db, op).Ok?
    ensures Balanced(Exec(db, op).value.books, Exec(db, op).value.ledger.txs, CreditedBy(db.books, op, edits))
  {
    hide Balanced, WellKeyed, CreateBody, EditBody, DeleteBody, MigrateBody, CaptureReview, OpeningFrom, ArchiveBody,
      AddAccountBody, AddVaultBody;
    match op {
      case Create(c) => CreateKeepsBalance(db, c, edits);
      case Edit(id, input) => EditKeepsBalance(db, id, input, edits);
      case Delete(id) => DeleteKeepsBalance(db, id, edits);
      case Migrate(mode, oldName, newName) => MigrateKeepsBalance(db, mode, oldName, newName, edits);
      case Capture(personal, q) => CaptureKeepsTransactions(db, op);
      case SetOpening(id, opening) =>
        var stored := if id in db.books.accounts then db.books.accounts[id].opening else 0;
        OpeningBalanced(db.books, db.ledger.txs, edits, id, stored, opening);
      case Archive(id) => ArchiveBalanced(db.books, db.ledger.txs, edits, id);
      case AddAccount(_, _, _, _, _) => AddAccountKeepsBalance(db, op, edits);
      case AddVault(_, _, _) => AddVaultKeepsBalance(db, op, edits);
      case Link(id, now) => RewriteBalanced(db.books, db.ledger.txs, Exec(db, op).value.ledger.txs, edits);
      case _ =>
    }
  }

  lemma CaptureKeepsTransactions(db: Db, op: Op)
    requires op.Capture? && Exec(db, op).Ok?
    ensures Exec(db, op).value.books == db.books && Exec(db, op).value.ledger.txs == db.ledger.txs
  {
    hide Revisions.Tally, ReviewAllowed;
  }

  lemma {:induction false} RunKeepsBalance(db: Db, ops: seq<Op>, edits: map<Id, int>)
    requires WellKeyed(db) && Balanced(db.books, db.ledger.txs, edits) && ExecAll(db, ops).Ok?
    ensures Balanced(ExecAll(db, ops).value.books, ExecAll(db, ops).value.ledger.txs, CreditedByAll(db, ops, edits))
    decreases |ops|
  {
    hide Balanced, WellKeyed, Exec, CreditedBy;
    if ops != [] {
      ExecKeepsBalance(db, ops[0], edits);
      ExecContinues(db, ops[0]);
      RunKeepsBalance(Exec(db, ops[0]).value, ops[1..], CreditedBy(db.books, ops[0], edits));
    }
  }

  lemma BalancedAlways(trace: seq<System>, n: nat, k: nat)
    requires Behaviour(trace) && WellKeyed(trace[0].history[0]) && n < |trace| && k < |trace[n].history|
    requires Balanced(trace[0].history[0].books, trace[0].history[0].ledger.txs, map[])
    ensures k <= |trace[n].log|
    ensures var db, edits := trace[n].history[k],
                             CreditedByAll(trace[n].history[0], OpsOf(trace[n].log[..k]), map[]);
            Balanced(db.books, db.ledger.txs, edits)
  {
    hide WellKeyed, ExecAll, WritesOfAll, Balanced, CreditedByAll;
    InterleavingsAreSerial(trace, n);
    CommittedRun(trace[n], 0, k);
    assert trace[n].log[0..k] == trace[n].log[..k];
    RunKeepsBalance(trace[n].history[0], OpsOf(trace[n].log[..k]), map[]);
  }

  /**
   * The balance invariant in every interleaving: in every committed state, each
   * account balance is its opening plus the signed effects of the stored
   * transactions, each vault balance is its opening plus the accumulated
   * opening edits of its accounts plus those effects that are not transfers
   * inside it, and every balance is in range.
   */
  lemma BalancesAlways(trace: seq<System>, n: nat, k: nat)
    requires Behaviour(trace) && WellKeyed(trace[0].history[0]) && n < |trace| && k < |trace[n].history|
    requires Balanced(trace[0].history[0].books, trace[0].history[0].ledger.txs, map[])
    ensures k <= |trace[n].log|
    ensures var db, first := trace[n].history[k], trace[n].history[0];
            var edits := CreditedByAll(first, OpsOf(trace[n].log[..k]), map[]);
            forall t | Touches(db.books, t) ::
              && BalanceOf(db.books, t) == Origin(db.books, edits, t)
                + Sum(db.ledger.txs, EffectOn(VaultMap(db.books), t))
              && InRange(BalanceOf(db.books, t))
  {
    hide Behaviour, WellKeyed, Referenced, VaultMap, Effect, Origin, BalanceOf, CreditedByAll;
    BalancedAlways(trace, n, k);
    var db, first := trace[n].history[k], trace[n].history[0];
    var edits := CreditedByAll(first, OpsOf(trace[n].log[..k]), map[]);
    assert Balanced(db.books, db.ledger.txs, edits);
    assert forall t | Touches(db.books, t) :: BalancedAt(db.books, db.ledger.txs, edits, t);
  }
}
