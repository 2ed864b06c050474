/**
 * The stored documents of one workspace, changed step by step the way the
 * repository and the services change them. Each method is one MongoDB
 * transaction and is proved against the function that specifies it; an error
 * rolls every write back.
 */
module WorkspaceStore {
  import opened Outcomes
  import opened MoneyText
  import opened Store
  import opened Sums
  import opened Balances
  import opened BalanceLaws
  import opened Revisions
  import opened PeriodReviews
  import opened Checkpoints
  import opened Numbering
  import opened Picks
  import opened Categories
  import opened Operations
  import opened Repeatability
  import opened Isolation
  import opened Idempotency
  import opened Stored
  import NumberRuns

  // ---- lists of increments, one more at a time ----

  lemma {:induction false} ApplyOneMore(books: Books, list: seq<Adjust>, a: Adjust)
    requires ApplyAll(books, list).Ok?
    ensures ApplyAll(books, list + [a]) == Apply(ApplyAll(books, list).value, a)
    decreases |list|
  {
    hide Apply;
    if list == [] {
      assert [] + [a] == [a] && [a][1..] == [];
    } else {
      ApplyOneMore(Apply(books, list[0]).value, list[1..], a);
      assert (list + [a])[0] == list[0] && (list + [a])[1..] == list[1..] + [a];
    }
  }

  lemma {:induction false} ApplyStops(books: Books, list: seq<Adjust>, more: seq<Adjust>)
    requires ApplyAll(books, list).Err?
    ensures ApplyAll(books, list + more) == ApplyAll(books, list)
    decreases |list|
  {
    hide Apply;
    if list != [] {
      assert (list + more)[0] == list[0] && (list + more)[1..] == list[1..] + more;
      if Apply(books, list[0]).Ok? {
        ApplyStops(Apply(books, list[0]).value, list[1..], more);
      }
    }
  }

  // ---- sorting ----

  lemma {:induction false} SortedIsAscending(list: seq<Id>, ids: set<Id>)
    requires StrictlySorted(list) && forall id :: id in list <==> id in ids
    ensures list == Ascending(ids)
    decreases |list|
  {
    hide Least, StrictlySorted;
    if list == [] {
      assert ids == {} by { forall id ensures id !in ids { assert id !in list; } }
    } else {
      FirstIsLeast(list, ids);
      RestOfSorted(list, ids);
      SortedIsAscending(list[1..], ids - {list[0]});
    }
  }

  lemma FirstIsLeast(list: seq<Id>, ids: set<Id>)
    requires list != [] && StrictlySorted(list) && forall id :: id in list <==> id in ids
    ensures ids != {} && Least(ids) == list[0]
  {
    hide Least;
    assert list[0] in list;
    LeastBounds(ids, list[0]);
    assert Least(ids) in list;
    var k :| 0 <= k < |list| && list[k] == Least(ids);
  }

  lemma RestOfSorted(list: seq<Id>, ids: set<Id>)
    requires list != [] && StrictlySorted(list) && forall id :: id in list <==> id in ids
    ensures StrictlySorted(list[1..]) && forall id :: id in list[1..] <==> id in ids - {list[0]}
  {
    forall id ensures id in list[1..] <==> id in ids - {list[0]} {
      if id in list && id != list[0] {
        var k :| 0 <= k < |list| && list[k] == id;
        assert list[1..][k - 1] == id;
      }
    }
  }

  /** Sorts the identifiers of the affected rows. */
  method SortIds(ids: set<Id>) returns (list: seq<Id>)
    ensures list == Ascending(ids)
  {
    list := [];
    var rest := ids;
    while rest != {}
      invariant rest <= ids && StrictlySorted(list)
      invariant forall id :: id in list <==> id in ids - rest
    {
      var id := PickAny(rest);
      var at := 0;
      while at < |list| && list[at] < id
        invariant 0 <= at <= |list| && forall k | 0 <= k < at :: list[k] < id
      {
        at := at + 1;
      }
      InsertSorted(list, at, id);
      list := list[..at] + [id] + list[at..];
      rest := rest - {id};
    }
    SortedIsAscending(list, ids);
  }

  lemma InsertSorted(list: seq<Id>, at: nat, id: Id)
    requires StrictlySorted(list) && at <= |list| && id !in list
    requires forall k | 0 <= k < at :: list[k] < id
    requires at < |list| ==> list[at] >= id
    ensures StrictlySorted(list[..at] + [id] + list[at..])
    ensures forall x :: x in list[..at] + [id] + list[at..] <==> x in list || x == id
  {
    assert list == list[..at] + list[at..];
    if at < |list| { assert list[at] in list; }
  }

  // ---- the store ----

  class Workspace {
    const workspaceId: Id
    const currency: Id
    var accounts: map<Id, Account>
    var vaults: map<Id, Vault>
    var version: int
    var txs: map<Id, Transaction>
    var events: seq<Event>
    var reviews: seq<Review>
    var sequences: map<Scope, Sequence>
    var records: map<RecordKey, Record>
    var sessions: map<Id, SessionStatus>

    constructor (workspaceId: Id, currency: Id)
      ensures this.workspaceId == workspaceId && this.currency == currency
      ensures View() == Db(workspaceId, currency, Books(map[], map[]), Ledger(0, map[], [], []), map[], map[], map[])
      ensures Valid()
    {
      this.workspaceId := workspaceId;
      this.currency := currency;
      accounts, vaults, version, txs, events, reviews := map[], map[], 0, map[], [], [];
      sequences, records, sessions := map[], map[], map[];
    }

    function BooksNow(): Books
      reads this`accounts, this`vaults
    {
      Books(accounts, vaults)
    }

    function LedgerNow(): Ledger
      reads this`version, this`txs, this`events, this`reviews
    {
      Ledger(version, txs, events, reviews)
    }

    function View(): Db
      reads this
    {
      Db(workspaceId, currency, BooksNow(), LedgerNow(), sequences, records, sessions)
    }

    ghost predicate Valid()
      reads this
    {
      WellKeyed(View()) && forall id | id in txs :: 0 < txs[id].amount <= MAX_MONEY_MINOR
    }

    /** Ends a failed transaction: no write survives. */
    method Rollback(saved: Db)
      requires saved.workspaceId == workspaceId && saved.currency == currency
      modifies this
      ensures View() == saved
    {
      accounts, vaults := saved.books.accounts, saved.books.vaults;
      version, txs, events, reviews := saved.ledger.version, saved.ledger.txs, saved.ledger.events,
        saved.ledger.reviews;
      sequences, records, sessions := saved.sequences, saved.records, saved.sessions;
    }

    // ---- guarded increments ----

    /**
     * `incrementBalance` and `reverseBalance`: one conditional update of one
     * document. `done` is what the transaction has already applied to `from`.
     */
    method Increment(a: Adjust, ghost from: Books, ghost done: seq<Adjust>) returns (r: Result<()>)
      requires ApplyAll(from, done) == Ok(BooksNow())
      modifies this`accounts, this`vaults
      ensures r.Ok? ==> ApplyAll(from, done + [a]) == Ok(BooksNow())
      ensures r.Err? ==> ApplyAll(from, done + [a]) == Err(r.error)
      ensures forall id | id in old(accounts) :: id in accounts && accounts[id].vaultId == old(accounts)[id].vaultId
      ensures accounts.Keys == old(accounts).Keys
    {
      ApplyOneMore(from, done, a);
      hide ApplyAll;
      match a.target {
        case AccountTarget(id) =>
          if id !in accounts || !Admits(a, accounts[id].currency, accounts[id].vaultId, accounts[id].balance,
            accounts[id].archived) {
            return Err(Conflict);
          }
          accounts := accounts[id := accounts[id].(balance := accounts[id].balance + a.delta)];
        case VaultTarget(id) =>
          if id !in vaults || !Admits(a, vaults[id].currency, NO_ID, vaults[id].balance, vaults[id].archived) {
            return Err(Conflict);
          }
          vaults := vaults[id := vaults[id].(balance := vaults[id].balance + a.delta)];
      }
      return Ok(());
    }

    /** `applyTransactionBalanceChange` */
    method ApplyBalanceChange(tx: Transaction, source: Account, destination: Option<Account>, reverse: bool)
      returns (r: Result<()>)
      modifies this`accounts, this`vaults
      ensures r.Ok? ==> ServiceChange(old(BooksNow()), tx, source, destination, reverse) == Ok(BooksNow())
      ensures r.Err? ==> ServiceChange(old(BooksNow()), tx, source, destination, reverse) == Err(r.error)
    {
      var sourceDelta :- ServiceSourceDelta(tx);
      if tx.kind.Transfer? && destination.None? {
        return Err(Conflict);
      }
      ghost var from, all := BooksNow(), ServiceAdjusts(tx, source, destination, sourceDelta, reverse);
      hide ServiceSourceDelta, Apply;
      var delta := if reverse then -sourceDelta else sourceDelta;
      var received := if reverse then -tx.amount else tx.amount;
      var vault := if source.vaultId == NO_ID then tx.vaultId else source.vaultId;
      var steps := [Adjust(AccountTarget(tx.accountId), source.currency, delta, Service)];
      if tx.kind.Transfer? {
        steps := steps + [Adjust(AccountTarget(tx.destinationId), destination.value.currency, received, Service)];
      }
      if !tx.kind.Transfer? || destination.value.vaultId != vault {
        steps := steps + [Adjust(VaultTarget(vault), tx.currency, delta, Service)];
      }
      if tx.kind.Transfer? && destination.value.vaultId != vault {
        steps := steps + [Adjust(VaultTarget(destination.value.vaultId), tx.currency, received, Service)];
      }
      assert steps == all;
      assert ApplyAll(from, []) == Ok(from) && [] + steps == steps;
      hide ApplyAll;
      r := IncrementAll(steps, from, []);
    }

    /** The increments one after the other, up to the first refusal. */
    method IncrementAll(list: seq<Adjust>, ghost from: Books, ghost done: seq<Adjust>) returns (r: Result<()>)
      requires ApplyAll(from, done) == Ok(BooksNow())
      modifies this`accounts, this`vaults
      ensures r.Ok? ==> ApplyAll(from, done + list) == Ok(BooksNow())
      ensures r.Err? ==> ApplyAll(from, done + list) == Err(r.error)
      ensures accounts.Keys == old(accounts).Keys
    {
      hide ApplyAll;
      assert done + list[..0] == done;
      for i := 0 to |list|
        invariant ApplyAll(from, done + list[..i]) == Ok(BooksNow())
        invariant accounts.Keys == old(accounts).Keys
      {
        assert done + list[..i + 1] == done + list[..i] + [list[i]];
        var step := Increment(list[i], from, done + list[..i]);
        if step.Err? {
          ApplyStops(from, done + list[..i + 1], list[i + 1..]);
          assert done + list[..i + 1] + list[i + 1..] == done + list;
          return step;
        }
      }
      assert list[..|list|] == list;
      return Ok(());
    }

    /** The balance part of `CreateFinancialTransaction`: source account, destination account, then the vaults. */
    method ApplyCreate(tx: Transaction, sourceDelta: int) returns (r: Result<()>)
      requires RepositorySourceDelta(tx) == Ok(sourceDelta)
      modifies this`accounts, this`vaults
      ensures r.Ok? ==> CreateBooks(old(BooksNow()), tx) == Ok(BooksNow())
      ensures r.Err? ==> CreateBooks(old(BooksNow()), tx) == Err(r.error)
    {
      hide RepositorySourceDelta, Apply, Admits;
      ghost var from := BooksNow();
      ghost var all := CreateAdjusts(tx, from.accounts, sourceDelta);
      assert ApplyAll(from, []) == Ok(from);
      hide ApplyAll;
      var debit := Adjust(AccountTarget(tx.accountId), tx.currency, sourceDelta, Repository(Some(tx.vaultId)));
      ghost var done := [debit];
      r := Increment(debit, from, []);
      assert [] + [debit] == done;
      if r.Err? {
        ApplyStops(from, done, all[1..]);
        assert done + all[1..] == all;
        return;
      }
      if tx.kind.Transfer? {
        var credit := Adjust(AccountTarget(tx.destinationId), tx.currency, tx.amount, Repository(None));
        done := done + [credit];
        r := Increment(credit, from, [debit]);
        if r.Err? {
          ApplyStops(from, done, all[2..]);
          assert done + all[2..] == all;
          return;
        }
      }
      var source, destination := VaultOf(accounts, tx.accountId), VaultOf(accounts, tx.destinationId);
      var vaultSteps := [];
      if !tx.kind.Transfer? {
        vaultSteps := [Adjust(VaultTarget(source), tx.currency, sourceDelta, Repository(None))];
      } else if destination != source {
        vaultSteps := [Adjust(VaultTarget(source), tx.currency, sourceDelta, Repository(None)),
                       Adjust(VaultTarget(destination), tx.currency, tx.amount, Repository(None))];
      }
      assert done + vaultSteps == all;
      r := IncrementAll(vaultSteps, from, done);
    }

    // ---- numbering ----

    /** `allocateTransactionID` */
    method AllocateId(scope: Scope) returns (r: Result<string>)
      modifies this`sequences
      ensures match Allocate(old(sequences), scope)
              case Ok((counters, text)) => r == Ok(text) && sequences == counters
              case Err(e) => r == Err(e) && sequences == old(sequences)
      ensures r.Ok? ==> HandedOut(old(sequences), sequences, scope, r.value)
    {
      var counter := Counter(sequences, scope);
      if !counter.autoGenerate {
        return Err(AutoDisabled);
      }
      if counter.next < 1 || counter.next > MAX_NUMBER {
        return Err(Exhausted);
      }
      FormatIsNumberText(counter.next, counter.digits);
      hide FormatNumber, IsNumberText;
      sequences := sequences[scope := counter.(next := counter.next + 1)];
      return Ok(FormatNumber(counter.next, counter.digits));
    }

    /** `ReserveManualTransactionID`: refuses a taken identifier, then `$max` on the counter. */
    method ReserveId(scope: Scope, text: string, except: Id) returns (r: Result<string>)
      modifies this`sequences
      ensures match Reserve(old(sequences), scope, text)
              case Ok(counters) =>
                if NumberTaken(txs, scope, text, except) then r == Err(DuplicateId) && sequences == old(sequences)
                else r == Ok(text) && sequences == counters
              case Err(e) => r == Err(e) && sequences == old(sequences)
      ensures r.Ok? ==> Reserved(old(sequences), sequences, scope, text) && Unused(txs, scope, text, except)
    {
      hide Reserved;
      if ParseNumber(text).Ok? { ReserveReserves(sequences, scope, text); }
      var number :- ParseNumber(text);
      if NumberTaken(txs, scope, text, except) {
        return Err(DuplicateId);
      }
      var counter := Counter(sequences, scope);
      if counter.next < number + 1 {
        counter := counter.(next := number + 1);
      }
      sequences := sequences[scope := counter];
      return Ok(text);
    }

    /** `PatchTransactionSequence`: the guarded settings update. */
    method PatchSequence(scope: Scope, requested: Sequence) returns (r: Result<()>)
      modifies this`sequences
      ensures match PatchBody(old(View()), scope, requested)
              case Ok(after) => r == Ok(()) && View() == after
              case Err(e) => r == Err(e) && View() == old(View())
      ensures r.Ok? ==> PatchLeaves(scope, requested, old(View()), View())
      ensures r.Err? ==> requested.next < Counter(sequences, scope).next || requested.next < 1
    {
      var counter := Counter(sequences, scope);
      var shown := Present(counter).next;
      if requested.next < shown || requested.next < counter.next {
        return Err(BelowMinimum(shown));
      }
      sequences := sequences[scope := requested];
      return Ok(());
    }

    /** `prepareTransactionIdentifier` */
    method PrepareIdentifier(c: CreateCommand) returns (r: Result<string>)
      modifies this`sequences
      ensures match PrepareNumber(old(sequences), txs, c)
              case Ok((counters, text)) => r == Ok(text) && sequences == counters
              case Err(e) => r == Err(e) && sequences == old(sequences)
    {
      if c.autoNumber {
        r := AllocateId(c.tx.scope);
      } else {
        r := ReserveId(c.tx.scope, c.tx.publicId, c.tx.id);
      }
    }

    // ---- the ledger ----

    /** `advanceLedgerVersionBy`, then one revision event per changed transaction. */
    method RecordRevisions(changes: seq<Change>)
      modifies this`version, this`events
      ensures LedgerNow() == Advance(old(LedgerNow()), txs, changes)
    {
      version := version + |changes|;
      var first := version - |changes| + 1;
      for i := 0 to |changes|
        invariant version == old(version) + |changes|
        invariant events == old(events) + Numbered(changes, first)[..i]
      {
        events := events + [Event(changes[i].id, first + i, changes[i].before, changes[i].after)];
      }
    }

    // ---- transactions ----

    /** The transaction body of `CreateFinancialTransaction`, without its error handling. */
    method CreateOnce(c: CreateCommand) returns (r: Result<Transaction>)
      requires RepositorySourceDelta(c.tx).Ok?
      modifies this
      ensures r.Ok? ==> CreateBody(old(View()), c) == Ok(View()) && Get(txs, c.tx.id) == Some(r.value)
      ensures r.Err? ==> CreateBody(old(View()), c) == Err(r.error)
    {
      hide CreateBooks, PrepareNumber, NumberTaken, NewRevision, Numbered;
      var delta := RepositorySourceDelta(c.tx).value;
      var text :- PrepareIdentifier(c);
      var tx := c.tx.(publicId := text);
      assert RepositorySourceDelta(tx) == Ok(delta);
      hide RepositorySourceDelta;
      if tx.workspaceId != workspaceId {
        return Err(Conflict);
      }
      if c.key != NO_ID {
        if RecordKeyOf(c) in records {
          return Err(Conflict);
        }
        records := records[RecordKeyOf(c) := RecordOf(c, tx)];
      }
      if tx.id in txs || NumberTaken(txs, tx.scope, text, tx.id) {
        return Err(DuplicateId);
      }
      txs := txs[tx.id := tx];
      var applied :- ApplyCreate(tx, delta);
      RecordRevisions([Change(tx.id, None, Some(NewRevision(tx)))]);
      return Ok(tx);
    }

    /**
     * `CreateFinancialTransaction`: releases an expired key, answers a repeated
     * request from its record, and otherwise creates; a failed transaction is
     * rolled back. The second lookup after a conflict only ever finds the work
     * of a concurrent caller, so it appears in `Idempotency.Answered` instead.
     */
    method CreateFinancialTransaction(c: CreateCommand, now: int) returns (r: Result<Transaction>)
      requires Valid()
      modifies this
      ensures Valid()
      ensures CreateCall(old(View()), c, now) == (View(), r)
      ensures CallLeaves(c, now, old(View()), View(), r)
    {
      CreateCallLeaves(View(), c, now);
      hide CreateBody, NumberTaken, CallLeaves;
      var delta := RepositorySourceDelta(c.tx);
      if delta.Err? {
        return Err(delta.error);
      }
      assert 0 < c.tx.amount <= MAX_MONEY_MINOR;
      hide RepositorySourceDelta;
      var k := RecordKeyOf(c);
      if k.key != NO_ID && k in records && records[k].expiresAt <= now {
        records := records - {k};
      }
      assert View() == Released(old(View()), k, now);
      hide Released;
      var first := StoredAnswer(View(), k, c.payloadHash, now);
      if first.Err? {
        return Err(first.error);
      } else if first.value.Some? {
        return Ok(first.value.value);
      }
      var saved := View();
      r := CreateOnce(c);
      if r.Err? {
        Rollback(saved);
      } else {
        hide StoredAnswer;
        CreateContinues(saved, c);
        CreatedAmount(saved, c);
      }
    }

    /** The transaction body of `UpdateTransaction`. */
    method EditOnce(id: Id, input: Transaction) returns (r: Result<Transaction>)
      requires forall x | x in txs :: txs[x].id == x
      modifies this
      ensures r.Ok? ==> EditBody(old(View()), id, input) == Ok(View()) && Get(txs, id) == Some(r.value)
      ensures r.Err? ==> EditBody(old(View()), id, input) == Err(r.error)
    {
      hide EditedVersion, RenumberCounters, AccountsForBalance, ServiceChange, NewRevision, Numbered;
      if id !in txs {
        return Err(NotFound);
      }
      var current := txs[id];
      var next :- EditedVersion(accounts, current, input);
      EditedKeepsIdentity(accounts, current, input);
      var renumbered :- Renumber(current, next);
      var oldAccounts :- AccountsForBalance(BooksNow(), current);
      var newAccounts :- AccountsForBalance(BooksNow(), next);
      var reversed :- ApplyBalanceChange(current, oldAccounts.0, oldAccounts.1, true);
      var applied :- ApplyBalanceChange(next, newAccounts.0, newAccounts.1, false);
      txs := txs[next.id := next];
      RecordRevisions([Change(next.id, Some(NewRevision(current)), Some(NewRevision(next)))]);
      return Ok(next);
    }

    /** Reserves a changed identifier. */
    method Renumber(current: Transaction, next: Transaction) returns (r: Result<()>)
      modifies this`sequences
      ensures match RenumberCounters(old(sequences), txs, current, next)
              case Ok(counters) => r == Ok(()) && sequences == counters
              case Err(e) => r == Err(e) && sequences == old(sequences)
    {
      if next.publicId != current.publicId {
        var reserved :- ReserveId(next.scope, next.publicId, current.id);
      }
      return Ok(());
    }

    /** `UpdateTransaction` */
    method UpdateTransaction(id: Id, input: Transaction) returns (r: Result<Transaction>)
      requires Valid()
      modifies this
      ensures Valid()
      ensures r.Ok? ==> EditBody(old(View()), id, input) == Ok(View()) && Get(txs, id) == Some(r.value)
      ensures r.Ok? ==> EditLeaves(id, input, old(View()), View())
      ensures r.Err? ==> EditBody(old(View()), id, input) == Err(r.error) && View() == old(View())
    {
      assert forall x | x in txs :: txs[x].id == x;
      hide EditBody, WellKeyed, EditLeaves;
      var saved := View();
      r := EditOnce(id, input);
      if r.Err? {
        Rollback(saved);
      } else {
        EditIsStored(saved, id, input);
        EditContinues(saved, id, input);
        EditedAmount(saved, id, input);
      }
    }

    /** The transaction body of `DeleteTransaction`. */
    method DeleteOnce(id: Id) returns (r: Result<()>)
      modifies this
      ensures r.Ok? ==> DeleteBody(old(View()), id) == Ok(View())
      ensures r.Err? ==> DeleteBody(old(View()), id) == Err(r.error)
    {
      hide AccountsForBalance, ServiceChange, NewRevision, Numbered;
      if id !in txs {
        return Err(NotFound);
      }
      var current := txs[id];
      var found :- AccountsForBalance(BooksNow(), current);
      var reversed :- ApplyBalanceChange(current, found.0, found.1, true);
      txs := txs - {current.id};
      records := records - OwnedRecords(records, id);
      RecordRevisions([Change(current.id, Some(NewRevision(current)), None)]);
      return Ok(());
    }

    /** `DeleteTransaction` */
    method DeleteTransaction(id: Id) returns (r: Result<()>)
      requires Valid()
      modifies this
      ensures Valid()
      ensures r.Ok? ==> DeleteBody(old(View()), id) == Ok(View()) && DeleteLeaves(id, old(View()), View())
      ensures r.Err? ==> DeleteBody(old(View()), id) == Err(r.error) && View() == old(View())
    {
      hide DeleteBody, WellKeyed, DeleteLeaves;
      var saved := View();
      r := DeleteOnce(id);
      if r.Err? {
        Rollback(saved);
      } else {
        DeleteStores(saved, id);
        DeleteContinues(saved, id);
        DeletedAmounts(saved, id);
      }
    }

    /** `UpdateAccount`, with the opening balance read before its transaction. */
    method UpdateAccount(id: Id, seen: int, opening: int) returns (r: Result<()>)
      modifies this
      ensures r.Ok? ==> OpeningFrom(old(BooksNow()), id, seen, opening) == Ok(BooksNow())
      ensures r.Ok? ==> OpeningLeaves(id, seen, opening, old(View()), View())
      ensures r.Err? ==>
                && OpeningFrom(old(BooksNow()), id, seen, opening) == Err(r.error)
                && BooksNow() == old(BooksNow())
      ensures View() == old(View()).(books := BooksNow())
    {
      if id !in accounts || accounts[id].archived || accounts[id].vaultId !in vaults {
        return Err(NotFound);
      }
      if !InRange(opening) {
        return Err(InvalidField("openingMinor"));
      }
      var account, saved, delta := accounts[id], View(), opening - seen;
      var steps := [];
      if delta != 0 {
        steps := [Adjust(AccountTarget(id), account.currency, delta, Service),
                  Adjust(VaultTarget(account.vaultId), vaults[account.vaultId].currency, delta, Service)];
      }
      assert ApplyAll(BooksNow(), []) == Ok(BooksNow()) && [] + steps == steps;
      hide ApplyAll;
      r := IncrementAll(steps, BooksNow(), []);
      if r.Err? {
        Rollback(saved);
      } else {
        accounts := accounts[id := accounts[id].(opening := opening)];
        hide OpeningLeaves;
        OpeningStores(saved, id, seen, opening);
      }
    }

    /**
     * `migrateTransactionCategorySnapshots`: one bulk update, then one revision
     * per affected row in identifier order.
     */
    method MigrateCategory(mode: Scope, oldName: string, newName: string) returns (r: Result<()>)
      requires forall x | x in txs :: txs[x].id == x
      modifies this`txs, this`version, this`events
      ensures r.Ok? ==> MigrateBody(old(View()), mode, oldName, newName) == Ok(View())
      ensures r.Ok? ==> MigrateLeaves(mode, oldName, newName, old(View()), View())
      ensures r.Err? ==> MigrateBody(old(View()), mode, oldName, newName) == Err(r.error) && View() == old(View())
    {
      hide Migrates, NewRevision, Numbered, Ascending, MigrateLeaves;
      ghost var saved := View();
      var ids := Affected(txs, mode, oldName, newName);
      if ids == {} {
        return Err(NotFound);
      }
      if |ids| > MIGRATION_MAX {
        return Err(InvalidField("category"));
      }
      var list := SortIds(ids);
      AscendingLists(ids);
      ghost var all := MigrationChanges(txs, ids, newName);
      var changes := [];
      for i := 0 to |list|
        invariant changes == all[..i]
      {
        assert list[i] in ids;
        var before := txs[list[i]];
        changes := changes + [Change(before.id, Some(NewRevision(before)),
          Some(NewRevision(before.(category := newName))))];
      }
      assert changes == all;
      txs := Renamed(txs, ids, newName);
      RecordRevisions(changes);
      MigrateStores(saved, mode, oldName, newName);
      return Ok(());
    }

    /** `periodSnapshotTotals` */
    method SnapshotNow(lens: Lens) returns (r: Result<Totals>)
      requires forall id | id in txs :: 0 < txs[id].amount <= MAX_MONEY_MINOR
      ensures r == SnapshotTotals(Images(txs), lens)
    {
      if lens.vaultIds == {} || lens.accountIds == {} {
        return Ok(NO_TOTALS);
      }
      r := SumRows(Images(txs), lens);
    }

    /** `CreatePeriodReview`: the version increment comes last, and becomes the cutoff. */
    method CreatePeriodReview(personal: bool, q: ReviewRequest) returns (r: Result<Review>)
      requires Valid()
      modifies this`version, this`reviews
      ensures Valid()
      ensures var captured := CaptureReview(old(LedgerNow()), personal, LensOf(workspaceId, currency, q), q.status);
              && (r.Ok? ==> captured == Ok(LedgerNow()) && reviews == old(reviews) + [r.value])
              && (r.Err? ==> captured == Err(r.error) && View() == old(View()))
      ensures r.Ok? ==> CaptureLeaves(q, old(View()), View())
    {
      hide SnapshotTotals, ReviewAllowed, CaptureLeaves;
      ghost var saved := View();
      var lens := LensOf(workspaceId, currency, q);
      var allowed :- ReviewAllowed(LedgerNow(), personal, lens, q.status);
      var snapshot :- SnapshotNow(lens);
      version := version + 1;
      var review := Review(lens, q.status, snapshot, version);
      reviews := reviews + [review];
      CaptureStores(saved, personal, q);
      return Ok(review);
    }
  }

  // ---- answers ----

  /**
   * What a create call leaves and answers: while the record of its key is
   * active, nothing and the recorded answer, or a conflict for another payload;
   * otherwise the requested row, once an expired record is out of the way.
   */
  ghost predicate CallLeaves(c: CreateCommand, now: int, before: Db, after: Db, r: Result<Transaction>) {
    var k := RecordKey(c.tx.createdBy, c.key);
    if c.key != NO_ID && k in before.records && now < before.records[k].expiresAt then
      && after == before
      && (r.Ok? ==> before.records[k].payloadHash == c.payloadHash && r == Ok(before.records[k].response))
      && (before.records[k].payloadHash != c.payloadHash ==> r.Err?)
    else
      var released := before.(records := if c.key != NO_ID then before.records - {k} else before.records);
      && (r.Ok? ==> CreateLeaves(c, released, after) && Get(after.ledger.txs, c.tx.id) == Some(r.value))
      && (r.Err? ==> after == before || after == released)
  }

  lemma CreateCallLeaves(db: Db, c: CreateCommand, now: int)
    ensures var (after, r) := CreateCall(db, c, now); CallLeaves(c, now, db, after, r)
  {
    hide CreateBody, CreateLeaves, RepositorySourceDelta;
    var k := RecordKey(c.tx.createdBy, c.key);
    if !(c.key != NO_ID && k in db.records && now < db.records[k].expiresAt) {
      var released := db.(records := if c.key != NO_ID then db.records - {k} else db.records);
      assert k !in db.records ==> db.records - {k} == db.records;
      assert Released(db, RecordKeyOf(c), now) == released;
      assert StoredAnswer(released, k, c.payloadHash, now) == Ok(None);
      if CreateBody(released, c).Ok? {
        CreateStores(released, c);
        assert c.tx.id in CreateBody(released, c).value.ledger.txs by { CreatedIsStored(released, c); }
      }
    }
  }

  lemma CreatedIsStored(db: Db, c: CreateCommand)
    requires CreateBody(db, c).Ok?
    ensures c.tx.id in CreateBody(db, c).value.ledger.txs
  {
    hide CreateBooks, PrepareNumber, NumberTaken;
  }

  /** An empty workspace is where every invariant starts. */
  lemma EmptyWorkspaceStarts(workspaceId: Id, currency: Id)
    ensures var db := Db(workspaceId, currency, Books(map[], map[]), Ledger(0, map[], [], []), map[], map[], map[]);
            && WellKeyed(db) && RecordsOwned(db) && LedgerInv(map[], db.ledger)
            && BalanceRuns.Balanced(db.books, db.ledger.txs, map[]) && NumberRuns.Tracked(db.sequences, db.ledger.txs)
  {
    var ledger := Ledger(0, map[], [], []);
    InvStarts(ledger);
    assert Images(ledger.txs) == map[];
  }

  // ---- checked totals ----

  predicate Priced(images: map<Id, Revision>) {
    forall id | id in images :: 0 <= images[id].amount <= MAX_MONEY_MINOR
  }

  /** Totals of some revisions: nothing negative but the net, which is a difference. */
  predicate Plausible(t: Totals) {
    0 <= t.income && 0 <= t.spending && 0 <= t.count && t.net == t.income - t.spending
  }

  lemma NothingFits()
    ensures Fits(NO_TOTALS) && Plausible(NO_TOTALS)
  {
  }

  lemma PlusNothing(t: Totals)
    ensures Plus(NO_TOTALS, t) == t && Plus(t, NO_TOTALS) == t
  {
  }

  lemma NoRows(s: Selection)
    ensures Tally(map[], s) == NO_TOTALS
  {
  }

  lemma TallyTakes(state: map<Id, Revision>, id: Id, s: Selection)
    requires id in state
    ensures Tally(state, s) == Plus(Contribution(s, state[id]), Tally(state - {id}, s))
  {
    hide Contribution, Sum;
    forall m: Metric
      ensures Sum(state, Measure(s, m)) == Part(Contribution(s, state[id]), m) + Sum(state - {id}, Measure(s, m))
    {
      SumRemove(state, id, Measure(s, m));
    }
  }

  lemma PlausibleTotals(r: Revision, t: Totals)
    requires 0 <= r.amount <= MAX_MONEY_MINOR && (t == RevisionTotals(r) || t == NO_TOTALS)
    ensures Plausible(t) && Fits(t)
  {
  }

  lemma ContributionIs(s: Selection, r: Revision)
    ensures Contribution(s, r) == RevisionTotals(r) || Contribution(s, r) == NO_TOTALS
  {
    hide Selects, RevisionTotals;
  }

  lemma PlausibleRow(s: Selection, r: Revision)
    requires 0 <= r.amount <= MAX_MONEY_MINOR
    ensures Plausible(Contribution(s, r)) && Fits(Contribution(s, r))
  {
    hide *;
    ContributionIs(s, r);
    PlausibleTotals(r, Contribution(s, r));
  }

  lemma PlausiblePlus(a: Totals, b: Totals)
    requires Plausible(a) && Plausible(b)
    ensures Plausible(Plus(a, b))
  {
  }

  lemma {:induction false} TallyPlausible(state: map<Id, Revision>, s: Selection)
    requires Priced(state)
    ensures Plausible(Tally(state, s))
    decreases |state|
  {
    hide Contribution, Tally, Plausible, Plus;
    if state == map[] {
      NoRows(s);
      NothingFits();
    } else {
      var id := PickOne(state.Keys);
      TallyTakes(state, id, s);
      PlausibleRow(s, state[id]);
      TallyPlausible(state - {id}, s);
      PlausiblePlus(Contribution(s, state[id]), Tally(state - {id}, s));
    }
  }

  /** Since nothing is negative, a part that does not fit cannot belong to a whole that does. */
  lemma OverflowStays(a: Totals, b: Totals)
    requires Plausible(a) && Plausible(b) && !Fits(a)
    ensures !Fits(Plus(a, b))
  {
  }

  lemma PlusAssociates(a: Totals, b: Totals, c: Totals)
    ensures Plus(Plus(a, b), c) == Plus(a, Plus(b, c))
  {
  }

  /** Partial sums never overflow before the whole does: the loop's check is the final range check. */
  lemma OneMoreRow(totals: Totals, rest: map<Id, Revision>, id: Id, lens: Lens)
    requires Priced(rest) && id in rest && Plausible(totals)
    ensures Fits(Contribution(Queried(lens), rest[id])) && Priced(rest - {id})
    ensures var next := Plus(totals, Contribution(Queried(lens), rest[id]));
            && Plausible(next)
            && Plus(next, Tally(rest - {id}, Queried(lens))) == Plus(totals, Tally(rest, Queried(lens)))
            && (!Fits(next) ==> !Fits(Plus(totals, Tally(rest, Queried(lens)))))
  {
    hide Tally, Contribution, Plausible, Fits, Plus;
    var delta, later := Contribution(Queried(lens), rest[id]), Tally(rest - {id}, Queried(lens));
    TallyTakes(rest, id, Queried(lens));
    PlausibleRow(Queried(lens), rest[id]);
    PlausiblePlus(totals, delta);
    TallyPlausible(rest - {id}, Queried(lens));
    PlusAssociates(totals, delta, later);
    if !Fits(Plus(totals, delta)) {
      OverflowStays(Plus(totals, delta), later);
    }
  }

  /** `totalsForTransactions` over the queried rows, with checked 64-bit addition. */
  method SumRows(images: map<Id, Revision>, lens: Lens) returns (r: Result<Totals>)
    requires Priced(images)
    ensures r == if Fits(Tally(images, Queried(lens))) then Ok(Tally(images, Queried(lens))) else Err(Overflow)
  {
    hide Tally, Plus, AddTotals, Contribution, Fits;
    ghost var whole := Tally(images, Queried(lens));
    var totals, rest := NO_TOTALS, images;
    NothingFits();
    PlusNothing(whole);
    hide Priced, Plausible;
    while rest != map[]
      invariant Priced(rest) && Fits(totals) && Plausible(totals)
      invariant Plus(totals, Tally(rest, Queried(lens))) == whole
      decreases |rest|
    {
      var id := PickAny(rest.Keys);
      var delta := Contribution(Queried(lens), rest[id]);
      OneMoreRow(totals, rest, id, lens);
      AddTotalsChecks(totals, delta);
      r := AddTotals(totals, delta);
      if r.Err? {
        return Err(Overflow);
      }
      totals := r.value;
      rest := rest - {id};
    }
    NoRows(Queried(lens));
    PlusNothing(totals);
    return Ok(totals);
  }

  // ---- stored amounts stay payable ----

  lemma CreatedAmount(db: Db, c: CreateCommand)
    requires CreateBody(db, c).Ok?
    ensures forall id | id in CreateBody(db, c).value.ledger.txs ::
              if id == c.tx.id then CreateBody(db, c).value.ledger.txs[id].amount == c.tx.amount
              else id in db.ledger.txs && CreateBody(db, c).value.ledger.txs[id] == db.ledger.txs[id]
  {
    hide CreateBooks, PrepareNumber, NumberTaken;
  }

  lemma EditedAmount(db: Db, id: Id, input: Transaction)
    requires WellKeyed(db) && EditBody(db, id, input).Ok?
    ensures Get(EditBody(db, id, input).value.ledger.txs, id).Some?
    ensures EditedVersion(db.books.accounts, db.ledger.txs[id], input).Ok?
    ensures EditedVersion(db.books.accounts, db.ledger.txs[id], input).value.id == id
    ensures forall x | x in EditBody(db, id, input).value.ledger.txs ::
              if x == id then 0 < EditBody(db, id, input).value.ledger.txs[x].amount <= MAX_MONEY_MINOR
              else x in db.ledger.txs && EditBody(db, id, input).value.ledger.txs[x] == db.ledger.txs[x]
  {
    hide EditBooks, RenumberCounters, VaultsNamed, ParseNumber;
  }

  lemma DeletedAmounts(db: Db, id: Id)
    requires DeleteBody(db, id).Ok?
    ensures forall x | x in DeleteBody(db, id).value.ledger.txs ::
              x in db.ledger.txs && DeleteBody(db, id).value.ledger.txs[x] == db.ledger.txs[x]
  {
    hide ChangeBooks;
  }
}
