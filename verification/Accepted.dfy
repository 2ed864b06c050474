/**
 * When the operations are accepted: conditions a caller could check on the
 * stored documents beforehand, in terms of balances, documents and texts.
 */
module Accepted {
  import opened Outcomes
  import opened Decimals
  import opened Texts
  import opened Store
  import opened MoneyText
  import opened Balances
  import opened BalanceLaws
  import opened Revisions
  import opened PeriodReviews
  import opened Checkpoints
  import opened Numbering
  import opened Categories
  import opened Operations
  import opened Repeatability
  import opened Reports
  import opened Stored

  // ---- money ----

  /** The balance is in range, and stays there. */
  predicate Takes(balance: int, delta: int) {
    && -9_000_000_000_000_000 <= balance <= 9_000_000_000_000_000
    && -9_000_000_000_000_000 <= balance + delta <= 9_000_000_000_000_000
  }

  predicate AccountTakes(books: Books, id: Id, currency: Id, delta: int) {
    id in books.accounts && books.accounts[id].currency == currency && Takes(books.accounts[id].balance, delta)
  }

  predicate VaultTakes(books: Books, id: Id, currency: Id, delta: int) {
    id in books.vaults && books.vaults[id].currency == currency && Takes(books.vaults[id].balance, delta)
  }

  /** An amount in range and a kind that exists. */
  predicate IsPayable(tx: Transaction) {
    0 < tx.amount <= 9_000_000_000_000_000 && !tx.kind.Unsupported?
  }

  /** Every balance the transaction touches takes `sign` times its share. */
  predicate AllTake(books: Books, tx: Transaction, sign: int) {
    && AccountTakes(books, tx.accountId, tx.currency, sign * Booking(tx))
    && var source := books.accounts[tx.accountId].vaultId;
       if tx.kind != Transfer then VaultTakes(books, source, tx.currency, sign * Booking(tx))
       else
         && tx.destinationId != NO_ID && tx.destinationId != tx.accountId
         && AccountTakes(books, tx.destinationId, tx.currency, sign * tx.amount)
         && var destination := books.accounts[tx.destinationId].vaultId;
            source != destination ==>
              && VaultTakes(books, source, tx.currency, sign * Booking(tx))
              && VaultTakes(books, destination, tx.currency, sign * tx.amount)
  }

  /** None of the documents it touches is archived, and the account lies in the vault it names. */
  predicate AllOpen(books: Books, tx: Transaction)
    requires AllTake(books, tx, 1)
  {
    var source := books.accounts[tx.accountId];
    && !source.archived && source.vaultId == tx.vaultId
    && if tx.kind != Transfer then !books.vaults[source.vaultId].archived
       else
         var destination := books.accounts[tx.destinationId];
         && !destination.archived
         && (source.vaultId != destination.vaultId ==>
               !books.vaults[source.vaultId].archived && !books.vaults[destination.vaultId].archived)
  }

  lemma RepositoryAdmits(books: Books, a: Adjust)
    requires a.writer.Repository? && (a.target.VaultTarget? ==> a.writer.vaultId.None?)
    requires 0 <= a.delta <= MAX_MONEY_MINOR || 0 <= -a.delta <= MAX_MONEY_MINOR
    ensures Apply(books, a).Ok? <==>
            match a.target
            case AccountTarget(id) =>
              && AccountTakes(books, id, a.currency, a.delta) && !books.accounts[id].archived
              && (a.writer.vaultId.Some? ==> books.accounts[id].vaultId == a.writer.vaultId.value)
            case VaultTarget(id) => VaultTakes(books, id, a.currency, a.delta) && !books.vaults[id].archived
  {
  }

  lemma ServiceAdmits(books: Books, a: Adjust)
    requires a.writer.Service?
    ensures Apply(books, a).Ok? <==>
            && a.target.id != NO_ID && a.currency != NO_ID
            && match a.target
               case AccountTarget(id) => AccountTakes(books, id, a.currency, a.delta)
               case VaultTarget(id) => VaultTakes(books, id, a.currency, a.delta)
  {
  }

  lemma CreateListAccepted(books: Books, tx: Transaction)
    requires IsPayable(tx) && (tx.kind == Transfer ==> tx.destinationId != NO_ID && tx.destinationId != tx.accountId)
    ensures RepositorySourceDelta(tx) == Ok(Booking(tx))
    ensures var list := CreateAdjusts(tx, books.accounts, Booking(tx));
            (forall i | 0 <= i < |list| :: Apply(books, list[i]).Ok?) <==> AllTake(books, tx, 1) && AllOpen(books, tx)
  {
    var list := CreateAdjusts(tx, books.accounts, Booking(tx));
    forall i | 0 <= i < |list| { RepositoryAdmits(books, list[i]); }
    hide Apply;
    var source, destination := VaultOf(books.accounts, tx.accountId), VaultOf(books.accounts, tx.destinationId);
    assert list[0].target == AccountTarget(tx.accountId);
    if tx.kind != Transfer {
      assert |list| == 2 && list[1].target == VaultTarget(source);
    } else {
      assert list[1].target == AccountTarget(tx.destinationId);
      if source != destination {
        assert |list| == 4 && list[2].target == VaultTarget(source) && list[3].target == VaultTarget(destination);
      }
    }
  }

  /** A create books its transaction exactly when it is payable, every document takes its share, and all are open. */
  lemma CreateBooksAccepts(books: Books, tx: Transaction)
    ensures CreateBooks(books, tx).Ok? <==> IsPayable(tx) && AllTake(books, tx, 1) && AllOpen(books, tx)
  {
    hide AllTake, AllOpen, Apply, ApplyAll;
    if IsPayable(tx) && (tx.kind == Transfer ==> tx.destinationId != NO_ID && tx.destinationId != tx.accountId) {
      CreateListAccepted(books, tx);
      DistinctAccepts(books, CreateAdjusts(tx, books.accounts, Booking(tx)));
    } else {
      assert RepositorySourceDelta(tx).Err?;
      NotTaken(books, tx);
    }
  }

  lemma NotTaken(books: Books, tx: Transaction)
    requires !(IsPayable(tx)
               && (tx.kind == Transfer ==> tx.destinationId != NO_ID && tx.destinationId != tx.accountId))
    ensures !(IsPayable(tx) && AllTake(books, tx, 1))
  {
  }

  /** A stored transaction the service can take back or book again. */
  predicate Changeable(books: Books, tx: Transaction, sign: int) {
    IsPayable(tx) && tx.accountId != NO_ID && tx.currency != NO_ID && AllTake(books, tx, sign)
  }

  lemma ChangeListAccepted(books: Books, tx: Transaction, reverse: bool)
    requires VaultsNamed(books) && ServiceSourceDelta(tx).Ok? && AccountsForBalance(books, tx).Ok?
    ensures var accounts := AccountsForBalance(books, tx).value;
            var list := ServiceAdjusts(tx, accounts.0, accounts.1, ServiceSourceDelta(tx).value, reverse);
            && DistinctTargets(list)
            && ((forall i | 0 <= i < |list| :: Apply(books, list[i]).Ok?) <==>
                tx.accountId != NO_ID && tx.currency != NO_ID && AllTake(books, tx, if reverse then -1 else 1))
  {
    var sign := if reverse then -1 else 1;
    var (source, destination) := AccountsForBalance(books, tx).value;
    var list := ServiceAdjusts(tx, source, destination, ServiceSourceDelta(tx).value, reverse);
    forall i | 0 <= i < |list| { ServiceAdmits(books, list[i]); }
    hide Apply;
    assert ServiceSourceDelta(tx).value == Booking(tx);
    assert list[0] == Adjust(AccountTarget(tx.accountId), tx.currency, sign * Booking(tx), Service);
    if tx.kind != Transfer {
      assert |list| == 2 && list[1] == Adjust(VaultTarget(source.vaultId), tx.currency, sign * Booking(tx), Service);
    } else {
      var other := destination.value.vaultId;
      assert list[1] == Adjust(AccountTarget(tx.destinationId), tx.currency, sign * tx.amount, Service);
      if source.vaultId != other {
        assert |list| == 4 && list[2] == Adjust(VaultTarget(source.vaultId), tx.currency, sign * Booking(tx), Service);
        assert list[3] == Adjust(VaultTarget(other), tx.currency, sign * tx.amount, Service);
      }
    }
  }

  /** The service takes a transaction back, or books it, exactly when every document takes the change. */
  lemma ChangeBooksAccepts(books: Books, tx: Transaction, reverse: bool)
    requires VaultsNamed(books)
    ensures ChangeBooks(books, tx, reverse).Ok? <==> Changeable(books, tx, if reverse then -1 else 1)
  {
    hide Apply, ApplyAll, ServiceAdjusts;
    if ServiceSourceDelta(tx).Ok? && AccountsForBalance(books, tx).Ok? {
      ChangeListAccepted(books, tx, reverse);
      var accounts := AccountsForBalance(books, tx).value;
      DistinctAccepts(books, ServiceAdjusts(tx, accounts.0, accounts.1, ServiceSourceDelta(tx).value, reverse));
      hide AllTake;
    }
  }

  // ---- numbers ----

  lemma {:induction false} ValueBounds(s: string)
    requires AllDigits(s)
    ensures Value(s) < Pow10(|s|) && (s != "" && s[0] != '0' ==> Pow10(|s| - 1) <= Value(s))
  {
    if |s| > 1 {
      ValueBounds(s[..|s| - 1]);
      assert Pow10(|s|) == 10 * Pow10(|s| - 1) && Pow10(|s| - 1) == 10 * Pow10(|s| - 2);
    } else if |s| == 1 {
      assert s[..0] == "" && Value("") == 0 && Pow10(1) == 10 * Pow10(0);
    }
  }

  lemma {:induction false} PowersGrow(a: nat, b: nat)
    requires a <= b
    ensures Pow10(a) <= Pow10(b)
    decreases b
  {
    if a < b {
      PowersGrow(a, b - 1);
    }
  }

  /** A number is printed in one way. */
  lemma NumberTextIsUnique(a: string, b: string, number: int, digits: int)
    requires 0 < number && IsNumberText(a, number, digits) && IsNumberText(b, number, digits)
    ensures a == b
  {
    if |a| == |b| {
      DigitsAreUnique(a, b);
    } else {
      ValueBounds(a);
      ValueBounds(b);
      if |a| < |b| { PowersGrow(|a|, |b| - 1); } else { PowersGrow(|b|, |a| - 1); }
      assert false;
    }
  }

  /** The number a create asks for is to be had. */
  ghost predicate NumberFree(db: Db, c: CreateCommand) {
    if c.autoNumber then
      var counter := Counter(db.sequences, c.tx.scope);
      && counter.autoGenerate && 1 <= counter.next <= 999_999_999_999_999
      && forall text | IsNumberText(text, counter.next, counter.digits) ::
           Unused(db.ledger.txs, c.tx.scope, text, c.tx.id)
    else
      && (exists number :: Denotes(c.tx.publicId, number))
      && Unused(db.ledger.txs, c.tx.scope, c.tx.publicId, c.tx.id)
  }

  lemma TakenOrUnused(txs: map<Id, Transaction>, scope: Scope, text: string, except: Id)
    ensures NumberTaken(txs, scope, text, except) <==> !Unused(txs, scope, text, except)
  {
  }

  lemma NumberPrepared(db: Db, c: CreateCommand)
    ensures var r := PrepareNumber(db.sequences, db.ledger.txs, c);
            r.Ok? && !NumberTaken(db.ledger.txs, c.tx.scope, r.value.1, c.tx.id) <==> NumberFree(db, c)
  {
    var counter := Counter(db.sequences, c.tx.scope);
    if c.autoNumber {
      if 1 <= counter.next <= MAX_NUMBER {
        var text := FormatNumber(counter.next, counter.digits);
        FormatIsNumberText(counter.next, counter.digits);
        hide FormatNumber, IsNumberText, NumberTaken, Unused;
        TakenOrUnused(db.ledger.txs, c.tx.scope, text, c.tx.id);
        forall other | IsNumberText(other, counter.next, counter.digits) ensures other == text {
          NumberTextIsUnique(other, text, counter.next, counter.digits);
        }
      }
    } else {
      hide NumberTaken, Unused;
      TakenOrUnused(db.ledger.txs, c.tx.scope, c.tx.publicId, c.tx.id);
      ReserveRefuses(db.sequences, c.tx.scope, c.tx.publicId);
      hide Reserve, Denotes;
    }
  }

  // ---- the three mutations ----

  /** Everything a create asks for: its workspace, a new identifier, a free key and number, and the money. */
  ghost predicate Creatable(db: Db, c: CreateCommand) {
    && c.tx.workspaceId == db.workspaceId && c.tx.id !in db.ledger.txs
    && (c.key != NO_ID ==> RecordKey(c.tx.createdBy, c.key) !in db.records)
    && NumberFree(db, c)
    && IsPayable(c.tx) && AllTake(db.books, c.tx, 1) && AllOpen(db.books, c.tx)
  }

  lemma TextIsNoMoney(books: Books, tx: Transaction, text: string)
    ensures var other := tx.(publicId := text);
            && (IsPayable(other) <==> IsPayable(tx)) && (AllTake(books, other, 1) <==> AllTake(books, tx, 1))
            && (AllTake(books, tx, 1) ==> (AllOpen(books, other) <==> AllOpen(books, tx)))
  {
  }

  lemma CreateAccepts(db: Db, c: CreateCommand)
    ensures CreateBody(db, c).Ok? <==> Creatable(db, c)
  {
    hide CreateBooks, PrepareNumber, NumberTaken, NumberFree, IsPayable, AllTake, AllOpen, RecordCreate;
    NumberPrepared(db, c);
    var prepared := PrepareNumber(db.sequences, db.ledger.txs, c);
    if prepared.Ok? {
      CreateBooksAccepts(db.books, c.tx.(publicId := prepared.value.1));
      TextIsNoMoney(db.books, c.tx, prepared.value.1);
    }
  }

  lemma DeleteAccepts(db: Db, id: Id)
    requires WellKeyed(db)
    ensures DeleteBody(db, id).Ok? <==> id in db.ledger.txs && Changeable(db.books, db.ledger.txs[id], -1)
  {
    hide ChangeBooks, Changeable, RecordDelete;
    if id in db.ledger.txs {
      ChangeBooksAccepts(db.books, db.ledger.txs[id], true);
    }
  }

  /** The new version's number is the old one, or to be had. */
  ghost predicate Renumberable(db: Db, current: Transaction, next: Transaction) {
    next.publicId == current.publicId
    || ((exists number :: Denotes(next.publicId, number))
        && Unused(db.ledger.txs, next.scope, next.publicId, current.id))
  }

  /** The old version can be taken back and the new one booked on what that leaves. */
  predicate Exchangeable(books: Books, reversed: Books, current: Transaction, next: Transaction) {
    && Changeable(books, current, -1) && MoneyMoves(books, reversed, Some(current), None)
    && Changeable(reversed, next, 1)
  }

  lemma EditBooksAccepts(books: Books, current: Transaction, next: Transaction)
    requires VaultsNamed(books)
    ensures EditBooks(books, current, next).Ok?
            <==> exists reversed :: Exchangeable(books, reversed, current, next)
  {
    hide Changeable, ApplyAll, MoneyMoves, Moved;
    ChangeBooksAccepts(books, current, true);
    if ChangeBooks(books, current, true).Ok? {
      ChangeBooksMeans(books, current, true);
      MovedMoves(books, current);
      var reversed := Moved(books, current, -1);
      MovedKeepsVaults(books, current, -1);
      ChangeBooksAccepts(reversed, next, false);
      SameAccounts(books, current, next);
      ForwardIsChange(books, current, next);
      forall other | MoneyMoves(books, other, Some(current), None) ensures other == reversed {
        MovesOneWay(books, current, reversed, other);
      }
      hide EditBooks, ChangeBooks, AccountsForBalance;
      assert Exchangeable(books, reversed, current, next) <==> EditBooks(books, current, next).Ok?;
    }
  }

  lemma MovesOneWay(books: Books, tx: Transaction, a: Books, b: Books)
    requires MoneyMoves(books, a, Some(tx), None) && MoneyMoves(books, b, Some(tx), None)
    ensures a == b
  {
    hide AccountShare, VaultShare;
    forall id | id in a.accounts ensures a.accounts[id] == b.accounts[id] {}
    forall id | id in a.vaults ensures a.vaults[id] == b.vaults[id] {}
    SameMaps(a.accounts, b.accounts);
    SameMaps(a.vaults, b.vaults);
  }

  lemma SameMaps<K, V>(a: map<K, V>, b: map<K, V>)
    requires a.Keys == b.Keys && forall k | k in a :: a[k] == b[k]
    ensures a == b
  {
  }

  lemma SameAccounts(books: Books, current: Transaction, next: Transaction)
    ensures AccountsForBalance(Moved(books, current, -1), next).Ok? <==> AccountsForBalance(books, next).Ok?
  {
    hide Effect;
  }

  lemma ForwardIsChange(books: Books, current: Transaction, next: Transaction)
    requires ChangeBooks(books, current, true) == Ok(Moved(books, current, -1))
    ensures EditBooks(books, current, next).Ok?
            <==> ChangeBooks(Moved(books, current, -1), next, false).Ok?
  {
    hide ServiceChange, Moved;
    if AccountsForBalance(books, next).Ok? {
      ForwardAfterReversal(books, Moved(books, current, -1), current, next);
    }
    SameAccounts(books, current, next);
  }

  /** When an edit is accepted: as a transaction, with its number, and with its money. */
  lemma EditAccepts(db: Db, id: Id, input: Transaction)
    requires WellKeyed(db)
    ensures EditBody(db, id, input).Ok?
            <==> && id in db.ledger.txs && Editable(db.books.accounts, db.ledger.txs[id], input)
                 && exists next, reversed ::
                      && EditStores(db.books.accounts, db.ledger.txs[id], input, next)
                      && Renumberable(db, db.ledger.txs[id], next)
                      && Exchangeable(db.books, reversed, db.ledger.txs[id], next)
  {
    hide EditedVersion, Editable, EditStores, EditBooks, RenumberCounters, Renumberable, Exchangeable, RecordEdit,
      VaultsNamed;
    if id in db.ledger.txs {
      var current := db.ledger.txs[id];
      EditedStores(db.books.accounts, current, input);
      if EditedVersion(db.books.accounts, current, input).Ok? {
        var next := EditedVersion(db.books.accounts, current, input).value;
        forall other | EditStores(db.books.accounts, current, input, other) ensures other == next {
          StoresOneWay(db.books.accounts, current, input, next, other);
        }
        EditBooksAccepts(db.books, current, next);
        RenumberAccepts(db, current, next);
      }
    }
  }

  lemma RenumberAccepts(db: Db, current: Transaction, next: Transaction)
    ensures RenumberCounters(db.sequences, db.ledger.txs, current, next).Ok? <==> Renumberable(db, current, next)
  {
    hide Reserve, Denotes;
    ReserveRefuses(db.sequences, next.scope, next.publicId);
    TakenOrUnused(db.ledger.txs, next.scope, next.publicId, current.id);
    hide NumberTaken, Unused;
  }

  lemma StoresOneWay(
    accounts: map<Id, Account>, current: Transaction, input: Transaction, a: Transaction, b: Transaction)
    requires EditStores(accounts, current, input, a) && EditStores(accounts, current, input, b)
    ensures a == b
  {
    OneCore(IsSpace, input.category, a.category, b.category);
    OneCore(IsSpace, input.merchant, a.merchant, b.merchant);
    OneCore(IsSpace, input.notes, a.notes, b.notes);
    OneCore(IsSpace, input.description, a.description, b.description);
    OneCore(IsSpace, if All(IsSpace, input.publicId) then current.publicId else input.publicId, a.publicId, b.publicId);
    hide IsCore, IsSpace, All;
  }

  /** A rename is carried out exactly when there are rows to rename, and not more than five thousand. */
  lemma MigrateAccepts(db: Db, mode: Scope, oldName: string, newName: string)
    ensures MigrateBody(db, mode, oldName, newName).Ok?
            <==> 0 < |Renames(db.ledger.txs, mode, oldName, newName)| <= 5_000
  {
    AffectedAreRenames(db.ledger.txs, mode, oldName, newName);
    hide Affected, Renames, MigrationChanges, Advance, Renamed;
  }

  /** An opening is edited exactly when the account is open and both balances take the difference. */
  lemma OpeningAccepts(db: Db, id: Id, seen: int, opening: int)
    requires WellKeyed(db) && id in db.books.accounts && db.books.accounts[id].vaultId in db.books.vaults
    requires id != NO_ID && db.books.accounts[id].currency != NO_ID
    requires db.books.vaults[db.books.accounts[id].vaultId].currency != NO_ID
    ensures var a, v := db.books.accounts[id], db.books.vaults[db.books.accounts[id].vaultId];
            OpeningFrom(db.books, id, seen, opening).Ok?
            <==> && !a.archived && -9_000_000_000_000_000 <= opening <= 9_000_000_000_000_000
                 && (opening != seen ==> Takes(a.balance, opening - seen) && Takes(v.balance, opening - seen))
  {
    var a, v := db.books.accounts[id], db.books.vaults[db.books.accounts[id].vaultId];
    var list := OpeningAdjusts(a, v, id, opening - seen);
    forall i | 0 <= i < |list| { ServiceAdmits(db.books, list[i]); }
    assert list != [] ==> list[0].target == AccountTarget(id) && list[1].target == VaultTarget(a.vaultId);
    hide Apply;
    DistinctAccepts(db.books, list);
    if ApplyAll(db.books, list).Ok? {
      ApplyAllShifts(db.books, list);
    }
    hide ApplyAll;
  }

  // ---- period reviews ----

  /** Reviews of one workspace, view, actor and period. */
  predicate InSeries(a: Lens, b: Lens) {
    (a.workspaceId, a.view, a.actor, a.fromDay, a.toDay) == (b.workspaceId, b.view, b.actor, b.fromDay, b.toDay)
  }

  /** The review of the series that has the greatest cutoff, the last one of them. */
  predicate IsPrior(reviews: seq<Review>, k: int, lens: Lens) {
    && 0 <= k < |reviews| && InSeries(reviews[k].lens, lens)
    && forall j | 0 <= j < |reviews| && InSeries(reviews[j].lens, lens) ::
         reviews[j].cutoff < reviews[k].cutoff || (reviews[j].cutoff == reviews[k].cutoff && j <= k)
  }

  lemma {:induction false} LatestMeans(reviews: seq<Review>, lens: Lens)
    ensures Latest(reviews, lens).Some? ==>
              exists k | 0 <= k < |reviews| :: IsPrior(reviews, k, lens) && Latest(reviews, lens) == Some(reviews[k])
    ensures Latest(reviews, lens).None? ==> forall k :: !IsPrior(reviews, k, lens)
    ensures Latest(reviews, lens).None? ==> forall r | r in reviews :: !InSeries(r.lens, lens)
  {
    if reviews != [] {
      var n := |reviews| - 1;
      var earlier := reviews[..n];
      LatestMeans(earlier, lens);
      if Latest(earlier, lens).Some? {
        var k :| 0 <= k < n && IsPrior(earlier, k, lens) && Latest(earlier, lens) == Some(earlier[k]);
        if InSeries(reviews[n].lens, lens) && earlier[k].cutoff <= reviews[n].cutoff {
          assert IsPrior(reviews, n, lens);
        } else {
          assert IsPrior(reviews, k, lens);
        }
      } else if InSeries(reviews[n].lens, lens) {
        assert forall j | 0 <= j < n :: reviews[j] in earlier;
        assert IsPrior(reviews, n, lens);
      }
    }
  }

  lemma OnePrior(reviews: seq<Review>, i: int, j: int, lens: Lens)
    requires IsPrior(reviews, i, lens) && IsPrior(reviews, j, lens)
    ensures i == j
  {
  }

  /** Some revision since a review changed what the new one would look at, and what changed can be counted. */
  ghost predicate ChangedSince(ledger: Ledger, prior: Review, lens: Lens) {
    var seen := prior.lens.(vaultIds := lens.vaultIds, accountIds := lens.accountIds);
    && (exists e | e in ledger.events :: e.version > prior.cutoff && RelevantEvent(seen, e))
    && Summary(seen, ledger.events, prior.cutoff).Ok?
  }

  /** When a checkpoint may follow the ones there are. */
  ghost predicate Capturable(ledger: Ledger, personal: bool, lens: Lens, status: ReviewStatus) {
    && 0 <= lens.toDay - lens.fromDay <= 365
    && (lens.view == WorkspaceView ==> !personal && status == Closed)
    && |lens.vaultIds| <= 10_000 && |lens.accountIds| <= 10_000
    && forall k | 0 <= k < |ledger.reviews| && IsPrior(ledger.reviews, k, lens) ::
         var prior := ledger.reviews[k];
         && !(prior.status == Closed && status == Reviewed)
         && (prior.status == status ==> ChangedSince(ledger, prior, lens))
  }

  lemma SummaryCounts(lens: Lens, events: seq<Event>, cutoff: int)
    ensures var r := Summary(lens, events, cutoff);
            r.Ok? ==> (r.value.1 != 0
                       <==> exists e | e in events :: e.version > cutoff && RelevantEvent(lens, e))
  {
    ChangesAreWitnessed(lens, events, cutoff);
    hide DeltaSum, ChangeCount;
  }

  lemma AllowedMeans(ledger: Ledger, personal: bool, lens: Lens, status: ReviewStatus)
    ensures ReviewAllowed(ledger, personal, lens, status).Ok? <==> Capturable(ledger, personal, lens, status)
  {
    hide Latest, Summary, RelevantEvent, IsPrior;
    LatestMeans(ledger.reviews, lens);
    if Latest(ledger.reviews, lens).Some? {
      var k :| 0 <= k < |ledger.reviews| && IsPrior(ledger.reviews, k, lens)
               && Latest(ledger.reviews, lens) == Some(ledger.reviews[k]);
      var prior := ledger.reviews[k];
      forall j | 0 <= j < |ledger.reviews| && IsPrior(ledger.reviews, j, lens) ensures j == k {
        OnePrior(ledger.reviews, j, k, lens);
      }
      SummaryCounts(AsSeen(prior.lens, lens), ledger.events, prior.cutoff);
    }
  }

  /** A review is captured exactly when it may follow, and the totals of the rows it counts can be stored. */
  lemma CaptureAccepts(ledger: Ledger, personal: bool, lens: Lens, status: ReviewStatus)
    ensures CaptureReview(ledger, personal, lens, status).Ok?
            <==> && Capturable(ledger, personal, lens, status)
                 && forall t | Reported(t, ledger.txs, lens) :: Fits(t)
  {
    hide ReviewAllowed, Capturable, Counts, Tally;
    AllowedMeans(ledger, personal, lens, status);
    TallyReports(ledger.txs, lens);
    if lens.vaultIds == {} || lens.accountIds == {} {
      assert SnapshotTotals(Images(ledger.txs), lens) == Ok(NO_TOTALS);
      SnapshotIsTally(Images(ledger.txs), lens);
    }
  }
}
