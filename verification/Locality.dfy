/**
 * Each operation only depends on the documents it writes (and, when it writes
 * the workspace document, on the ledger), and changes nothing else. This is
 * what lets write conflicts alone make the operations serializable.
 */
module Locality {
  import opened Outcomes
  import opened Store
  import opened Balances
  import opened BalanceLaws
  import opened Numbering
  import opened Operations

  ghost predicate AgreeOn<K(!new), V(!new)>(a: map<K, V>, b: map<K, V>, keys: set<K>) {
    forall k | k in keys :: Get(a, k) == Get(b, k)
  }

  ghost predicate SameBut<K(!new), V(!new)>(a: map<K, V>, b: map<K, V>, keys: set<K>) {
    forall k | k !in keys :: Get(a, k) == Get(b, k)
  }

  /** Everything about the stored transactions except the reconciliation mark. */
  function Core(txs: map<Id, Transaction>): map<Id, Transaction> {
    map id | id in txs :: txs[id].(clearedAt := None)
  }

  /**
   * No ledger transaction committed in between: only reconciliation marks,
   * releases of idempotency keys and counter advances may separate the states.
   */
  ghost predicate Quiet(earlier: Db, later: Db) {
    && earlier.ledger.version == later.ledger.version
    && earlier.ledger.events == later.ledger.events
    && earlier.ledger.reviews == later.ledger.reviews
    && Core(earlier.ledger.txs) == Core(later.ledger.txs)
    && (forall k | k in later.records :: k in earlier.records && earlier.records[k] == later.records[k])
    && Advances(earlier.sequences, later.sequences)
  }

  /** Two states agree on a write set; the workspace document stands for the ledger. */
  ghost predicate Agree(earlier: Db, later: Db, w: Writes) {
    && earlier.workspaceId == later.workspaceId && earlier.currency == later.currency
    && (w.ledger ==> Quiet(earlier, later))
    && AgreeOn(earlier.books.accounts, later.books.accounts, w.accounts)
    && AgreeOn(earlier.books.vaults, later.books.vaults, w.vaults)
    && AgreeOn(earlier.ledger.txs, later.ledger.txs, w.txs)
    && AgreeOn(earlier.sequences, later.sequences, w.sequences)
    && AgreeOn(earlier.records, later.records, w.records)
    && AgreeOn(earlier.sessions, later.sessions, w.sessions)
  }

  /** A step that writes only `w`; events and reviews are only ever appended. */
  ghost predicate Frame(before: Db, after: Db, w: Writes) {
    && before.workspaceId == after.workspaceId && before.currency == after.currency
    && before.ledger.events <= after.ledger.events && before.ledger.reviews <= after.ledger.reviews
    && (!w.ledger ==> Quiet(before, after))
    && SameBut(before.books.accounts, after.books.accounts, w.accounts)
    && SameBut(before.books.vaults, after.books.vaults, w.vaults)
    && SameBut(before.ledger.txs, after.ledger.txs, w.txs)
    && SameBut(before.sequences, after.sequences, w.sequences)
    && SameBut(before.records, after.records, w.records)
    && SameBut(before.sessions, after.sessions, w.sessions)
  }

  /** The outcome of repeating, on a later agreeing state, what succeeded on an earlier one. */
  ghost predicate Repeated(earlier: Db, later: Db, first: Db, second: Db, w: Writes) {
    && Agree(first, second, w)
    && (Quiet(earlier, later) ==> Quiet(first, second))
  }

  // ---- balances are local ----

  predicate Within(list: seq<Adjust>, accounts: set<Id>, vaults: set<Id>) {
    forall a | a in list :: if a.target.AccountTarget? then a.target.id in accounts else a.target.id in vaults
  }

  ghost predicate BooksAgree(a: Books, b: Books, accounts: set<Id>, vaults: set<Id>) {
    AgreeOn(a.accounts, b.accounts, accounts) && AgreeOn(a.vaults, b.vaults, vaults)
  }

  ghost predicate BooksFrame(a: Books, b: Books, accounts: set<Id>, vaults: set<Id>) {
    SameBut(a.accounts, b.accounts, accounts) && SameBut(a.vaults, b.vaults, vaults)
  }

  lemma ApplyLocal(b1: Books, b2: Books, a: Adjust, accounts: set<Id>, vaults: set<Id>)
    requires BooksAgree(b1, b2, accounts, vaults) && Within([a], accounts, vaults) && Apply(b1, a).Ok?
    ensures Apply(b2, a).Ok?
    ensures BooksAgree(Apply(b1, a).value, Apply(b2, a).value, accounts, vaults)
  {
    hide Admits;
    assert a in [a];
    if a.target.AccountTarget? {
      assert Get(b1.accounts, a.target.id) == Get(b2.accounts, a.target.id);
    } else {
      assert Get(b1.vaults, a.target.id) == Get(b2.vaults, a.target.id);
    }
  }

  lemma {:induction false} ApplyAllLocal(b1: Books, b2: Books, list: seq<Adjust>, accounts: set<Id>, vaults: set<Id>)
    requires BooksAgree(b1, b2, accounts, vaults) && Within(list, accounts, vaults) && ApplyAll(b1, list).Ok?
    ensures ApplyAll(b2, list).Ok?
    ensures BooksAgree(ApplyAll(b1, list).value, ApplyAll(b2, list).value, accounts, vaults)
    decreases |list|
  {
    hide BooksAgree, Apply;
    if list != [] {
      assert list[0] in list;
      ApplyLocal(b1, b2, list[0], accounts, vaults);
      ApplyAllLocal(Apply(b1, list[0]).value, Apply(b2, list[0]).value, list[1..], accounts, vaults);
    }
  }

  lemma {:induction false} ApplyAllFrame(books: Books, list: seq<Adjust>, accounts: set<Id>, vaults: set<Id>)
    requires Within(list, accounts, vaults) && ApplyAll(books, list).Ok?
    ensures BooksFrame(books, ApplyAll(books, list).value, accounts, vaults)
    decreases |list|
  {
    hide Admits;
    if list != [] {
      assert list[0] in list;
      ApplyAllFrame(Apply(books, list[0]).value, list[1..], accounts, vaults);
    }
  }

  lemma CreateBooksLocal(b1: Books, b2: Books, tx: Transaction)
    requires CreateBooks(b1, tx).Ok? && BooksAgree(b1, b2, AccountsOf(tx), VaultsOf(b1.accounts, tx))
    ensures CreateBooks(b2, tx).Ok? && VaultsOf(b2.accounts, tx) == VaultsOf(b1.accounts, tx)
    ensures BooksAgree(CreateBooks(b1, tx).value, CreateBooks(b2, tx).value, AccountsOf(tx), VaultsOf(b1.accounts, tx))
    ensures BooksFrame(b1, CreateBooks(b1, tx).value, AccountsOf(tx), VaultsOf(b1.accounts, tx))
  {
    hide ApplyAll, Admits;
    var delta := RepositorySourceDelta(tx).value;
    assert Get(b1.accounts, tx.accountId) == Get(b2.accounts, tx.accountId);
    assert tx.kind.Transfer? ==> Get(b1.accounts, tx.destinationId) == Get(b2.accounts, tx.destinationId);
    var list := CreateAdjusts(tx, b1.accounts, delta);
    assert CreateAdjusts(tx, b2.accounts, delta) == list;
    ApplyAllLocal(b1, b2, list, AccountsOf(tx), VaultsOf(b1.accounts, tx));
    ApplyAllFrame(b1, list, AccountsOf(tx), VaultsOf(b1.accounts, tx));
  }

  lemma AccountsForBalanceLocal(b1: Books, b2: Books, tx: Transaction)
    requires AgreeOn(b1.accounts, b2.accounts, AccountsOf(tx))
    ensures AccountsForBalance(b2, tx) == AccountsForBalance(b1, tx)
    ensures VaultsOf(b2.accounts, tx) == VaultsOf(b1.accounts, tx)
  {
    assert Get(b1.accounts, tx.accountId) == Get(b2.accounts, tx.accountId);
    assert tx.kind.Transfer? ==> Get(b1.accounts, tx.destinationId) == Get(b2.accounts, tx.destinationId);
  }

  /** The service's change, on accounts read from a state with the same vault assignment. */
  lemma ServiceChangeLocal(
    read: Books, b1: Books, b2: Books, tx: Transaction, reverse: bool, accounts: set<Id>, vaults: set<Id>)
    requires VaultsNamed(read) && AccountsForBalance(read, tx).Ok?
    requires AccountsOf(tx) <= accounts && VaultsOf(read.accounts, tx) <= vaults
    requires BooksAgree(b1, b2, accounts, vaults)
    requires var x := AccountsForBalance(read, tx).value; ServiceChange(b1, tx, x.0, x.1, reverse).Ok?
    ensures var x := AccountsForBalance(read, tx).value;
            var r1, r2 := ServiceChange(b1, tx, x.0, x.1, reverse), ServiceChange(b2, tx, x.0, x.1, reverse);
            && r2.Ok? && BooksAgree(r1.value, r2.value, accounts, vaults)
            && BooksFrame(b1, r1.value, accounts, vaults)
  {
    hide ApplyAll, Admits, BooksAgree, BooksFrame;
    var x := AccountsForBalance(read, tx).value;
    var list := ServiceAdjusts(tx, x.0, x.1, ServiceSourceDelta(tx).value, reverse);
    assert Within(list, accounts, vaults);
    ApplyAllLocal(b1, b2, list, accounts, vaults);
    ApplyAllFrame(b1, list, accounts, vaults);
  }

  lemma ChangeBooksLocal(b1: Books, b2: Books, tx: Transaction, reverse: bool)
    requires VaultsNamed(b1) && ChangeBooks(b1, tx, reverse).Ok?
    requires BooksAgree(b1, b2, AccountsOf(tx), VaultsOf(b1.accounts, tx))
    ensures ChangeBooks(b2, tx, reverse).Ok? && VaultsOf(b2.accounts, tx) == VaultsOf(b1.accounts, tx)
    ensures BooksAgree(ChangeBooks(b1, tx, reverse).value, ChangeBooks(b2, tx, reverse).value, AccountsOf(tx),
        VaultsOf(b1.accounts, tx))
    ensures BooksFrame(b1, ChangeBooks(b1, tx, reverse).value, AccountsOf(tx), VaultsOf(b1.accounts, tx))
  {
    hide ServiceChange;
    AccountsForBalanceLocal(b1, b2, tx);
    ServiceChangeLocal(b1, b1, b2, tx, reverse, AccountsOf(tx), VaultsOf(b1.accounts, tx));
  }

  lemma EditBooksLocal(b1: Books, b2: Books, current: Transaction, next: Transaction, accounts: set<Id>,
    vaults: set<Id>)
    requires VaultsNamed(b1) && EditBooks(b1, current, next).Ok?
    requires accounts == AccountsOf(current) + AccountsOf(next)
    requires vaults == VaultsOf(b1.accounts, current) + VaultsOf(b1.accounts, next)
    requires BooksAgree(b1, b2, accounts, vaults)
    ensures EditBooks(b2, current, next).Ok?
    ensures VaultsOf(b2.accounts, current) == VaultsOf(b1.accounts, current)
        && VaultsOf(b2.accounts, next) == VaultsOf(b1.accounts, next)
    ensures BooksAgree(EditBooks(b1, current, next).value, EditBooks(b2, current, next).value, accounts, vaults)
    ensures BooksFrame(b1, EditBooks(b1, current, next).value, accounts, vaults)
  {
    hide ServiceChange, AccountsForBalance, VaultsOf, AccountsOf;
    AccountsForBalanceLocal(b1, b2, current);
    AccountsForBalanceLocal(b1, b2, next);
    var (s, d) := AccountsForBalance(b1, current).value;
    var m1, m2 := ServiceChange(b1, current, s, d, true), ServiceChange(b2, current, s, d, true);
    ServiceChangeLocal(b1, b1, b2, current, true, accounts, vaults);
    ServiceChangeLocal(b1, m1.value, m2.value, next, false, accounts, vaults);
  }
}
