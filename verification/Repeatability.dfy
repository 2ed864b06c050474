/**
 * Operation by operation: what succeeded on a snapshot succeeds, with the same
 * writes and the same outcome, on any later state that agrees on its write set.
 */
module Repeatability {
  import opened Outcomes
  import opened Store
  import opened Balances
  import opened BalanceLaws
  import opened Revisions
  import opened PeriodReviews
  import opened Checkpoints
  import opened Numbering
  import opened Categories
  import opened Texts
  import opened Operations
  import opened Locality

  // ---- numbering ----

  lemma CoreGet(a: map<Id, Transaction>, b: map<Id, Transaction>, id: Id)
    requires Core(a) == Core(b)
    ensures id in a <==> id in b
    ensures id in a ==> a[id].(clearedAt := None) == b[id].(clearedAt := None)
  {
    assert id in Core(a) <==> id in Core(b);
    if id in a {
      assert Core(a)[id] == Core(b)[id];
    }
  }

  lemma NumberTakenCore(a: map<Id, Transaction>, b: map<Id, Transaction>, scope: Scope, text: string, except: Id)
    requires Core(a) == Core(b)
    ensures NumberTaken(a, scope, text, except) <==> NumberTaken(b, scope, text, except)
  {
    if NumberTaken(a, scope, text, except) {
      var id :| id in a && id != except && a[id].scope == scope && a[id].publicId == text;
      CoreGet(a, b, id);
      assert id in b && b[id].scope == scope && b[id].publicId == text;
    }
    if NumberTaken(b, scope, text, except) {
      var id :| id in b && id != except && b[id].scope == scope && b[id].publicId == text;
      CoreGet(a, b, id);
      assert id in a && a[id].scope == scope && a[id].publicId == text;
    }
  }

  /** A reservation whose `$max` wrote nothing writes nothing on a counter that has advanced, either. */
  lemma ReserveRepeats(c1: Counters, c2: Counters, scope: Scope, text: string)
    requires Advances(c1, c2) && Reserve(c1, scope, text).Ok?
    requires AgreeOn(c1, c2, ChangedCounters(c1, Reserve(c1, scope, text).value))
    ensures Reserve(c2, scope, text).Ok?
    ensures ChangedCounters(c2, Reserve(c2, scope, text).value) == ChangedCounters(c1, Reserve(c1, scope, text).value)
    ensures AgreeOn(Reserve(c1, scope, text).value, Reserve(c2, scope, text).value,
        ChangedCounters(c1, Reserve(c1, scope, text).value))
    ensures Advances(Reserve(c1, scope, text).value, Reserve(c2, scope, text).value)
  {
    var number := ParseNumber(text).value;
    assert number >= 1;
    hide ParseNumber;
    var r1, r2 := Reserve(c1, scope, text).value, Reserve(c2, scope, text).value;
    forall s: Scope ensures Counter(r1, s).next <= Counter(r2, s).next {
      assert Counter(c1, s).next <= Counter(c2, s).next;
    }
    if scope in ChangedCounters(c1, r1) {
      assert Get(c1, scope) == Get(c2, scope);
    } else {
      assert scope in c1 && c1[scope] == r1[scope];
      assert Counter(c1, scope).next <= Counter(c2, scope).next;
    }
  }

  lemma AllocateRepeats(c1: Counters, c2: Counters, scope: Scope)
    requires Advances(c1, c2) && Allocate(c1, scope).Ok?
    requires AgreeOn(c1, c2, ChangedCounters(c1, Allocate(c1, scope).value.0))
    ensures Allocate(c2, scope).Ok? && Allocate(c2, scope).value.1 == Allocate(c1, scope).value.1
    ensures ChangedCounters(c2, Allocate(c2, scope).value.0) == ChangedCounters(c1, Allocate(c1, scope).value.0)
    ensures AgreeOn(Allocate(c1, scope).value.0, Allocate(c2, scope).value.0,
        ChangedCounters(c1, Allocate(c1, scope).value.0))
    ensures Advances(Allocate(c1, scope).value.0, Allocate(c2, scope).value.0)
  {
    hide FormatNumber;
    var r1 := Allocate(c1, scope).value.0;
    assert scope in ChangedCounters(c1, r1);
    assert Get(c1, scope) == Get(c2, scope);
    var r2 := Allocate(c2, scope).value.0;
    forall s: Scope ensures Counter(r1, s).next <= Counter(r2, s).next {
      assert Counter(c1, s).next <= Counter(c2, s).next;
    }
  }

  lemma PrepareRepeats(c1: Counters, c2: Counters, t1: map<Id, Transaction>, t2: map<Id, Transaction>, c: CreateCommand)
    requires Advances(c1, c2) && Core(t1) == Core(t2) && PrepareNumber(c1, t1, c).Ok?
    requires AgreeOn(c1, c2, ChangedCounters(c1, PrepareNumber(c1, t1, c).value.0))
    ensures var p1, p2 := PrepareNumber(c1, t1, c), PrepareNumber(c2, t2, c);
            && p2.Ok? && p2.value.1 == p1.value.1
            && ChangedCounters(c2, p2.value.0) == ChangedCounters(c1, p1.value.0)
            && AgreeOn(p1.value.0, p2.value.0, ChangedCounters(c1, p1.value.0))
            && Advances(p1.value.0, p2.value.0)
  {
    hide Allocate, Reserve, ChangedCounters, NumberTaken, AgreeOn, Advances;
    if c.autoNumber {
      AllocateRepeats(c1, c2, c.tx.scope);
    } else {
      NumberTakenCore(t1, t2, c.tx.scope, c.tx.publicId, c.tx.id);
      ReserveRepeats(c1, c2, c.tx.scope, c.tx.publicId);
    }
  }

  lemma CountersFrame(before: Counters, after: Counters)
    requires before.Keys <= after.Keys
    ensures SameBut(before, after, ChangedCounters(before, after))
  {
  }

  lemma CoreOfPut(a: map<Id, Transaction>, b: map<Id, Transaction>, id: Id, x: Transaction)
    requires Core(a) == Core(b)
    ensures Core(a[id := x]) == Core(b[id := x])
  {
    assert Core(a[id := x]) == Core(a)[id := x.(clearedAt := None)];
    assert Core(b[id := x]) == Core(b)[id := x.(clearedAt := None)];
  }

  lemma CoreOfRemove(a: map<Id, Transaction>, b: map<Id, Transaction>, id: Id)
    requires Core(a) == Core(b)
    ensures Core(a - {id}) == Core(b - {id})
  {
    assert Core(a - {id}) == Core(a) - {id};
    assert Core(b - {id}) == Core(b) - {id};
  }

  // ---- create ----

  lemma CreateFrames(db: Db, c: CreateCommand)
    requires CreateBody(db, c).Ok?
    ensures Frame(db, CreateBody(db, c).value, WritesOf(db, Create(c)))
  {
    hide CreateBooks, NumberTaken, AccountsOf, VaultsOf, Allocate, ParseNumber, ChangedCounters, Numbered, NewRevision;
    var prepared := PrepareNumber(db.sequences, db.ledger.txs, c).value;
    var tx := c.tx.(publicId := prepared.1);
    CreateTouches(db.books, c.tx, prepared.1);
    CreateBooksLocal(db.books, db.books, tx);
    PrepareKeepsKeys(db.sequences, db.ledger.txs, c);
    CountersFrame(db.sequences, prepared.0);
  }

  lemma PrepareKeepsKeys(counters: Counters, txs: map<Id, Transaction>, c: CreateCommand)
    requires PrepareNumber(counters, txs, c).Ok?
    ensures counters.Keys <= PrepareNumber(counters, txs, c).value.0.Keys
  {
    hide NumberTaken, ParseNumber, FormatNumber;
  }

  /** The identifier does not matter to balances. */
  lemma CreateTouches(books: Books, tx: Transaction, text: string)
    ensures AccountsOf(tx.(publicId := text)) == AccountsOf(tx)
    ensures VaultsOf(books.accounts, tx.(publicId := text)) == VaultsOf(books.accounts, tx)
  {
  }

  lemma RecordCreateRepeats(l1: Ledger, l2: Ledger, tx: Transaction)
    requires l1.version == l2.version && l1.events == l2.events && l1.reviews == l2.reviews
        && Core(l1.txs) == Core(l2.txs)
    ensures var r1, r2 := RecordCreate(l1, tx), RecordCreate(l2, tx);
            r1.version == r2.version && r1.events == r2.events && r1.reviews == r2.reviews
              && Core(r1.txs) == Core(r2.txs)
    ensures tx.id in l1.txs <==> tx.id in l2.txs
    ensures RecordCreate(l1, tx).txs == l1.txs[tx.id := tx] && RecordCreate(l2, tx).txs == l2.txs[tx.id := tx]
  {
    CoreGet(l1.txs, l2.txs, tx.id);
    CoreOfPut(l1.txs, l2.txs, tx.id, tx);
  }

  /** The second state accepts the create too, and has it write the same documents. */
  lemma CreateAccepted(d1: Db, d2: Db, c: CreateCommand)
    requires CreateBody(d1, c).Ok? && Agree(d1, d2, WritesOf(d1, Create(c)))
    ensures CreateBody(d2, c).Ok? && WritesOf(d2, Create(c)) == WritesOf(d1, Create(c))
  {
    hide CreateBooks, NumberTaken, AccountsOf, VaultsOf, PrepareNumber, ChangedCounters, RecordCreate, Advances, Core;
    var prepared := PrepareNumber(d1.sequences, d1.ledger.txs, c).value;
    var tx := c.tx.(publicId := prepared.1);
    CreateTouches(d1.books, c.tx, prepared.1);
    CreateTouches(d2.books, c.tx, prepared.1);
    PrepareRepeats(d1.sequences, d2.sequences, d1.ledger.txs, d2.ledger.txs, c);
    CreateBooksLocal(d1.books, d2.books, tx);
    NumberTakenCore(d1.ledger.txs, d2.ledger.txs, tx.scope, prepared.1, tx.id);
    RecordCreateRepeats(d1.ledger, d2.ledger, tx);
    if c.key != NO_ID {
      assert Get(d1.records, RecordKeyOf(c)) == Get(d2.records, RecordKeyOf(c));
    }
  }

  lemma CreateRepeats(d1: Db, d2: Db, c: CreateCommand)
    requires CreateBody(d1, c).Ok? && Agree(d1, d2, WritesOf(d1, Create(c)))
    ensures CreateBody(d2, c).Ok? && WritesOf(d2, Create(c)) == WritesOf(d1, Create(c))
    ensures Repeated(d1, d2, CreateBody(d1, c).value, CreateBody(d2, c).value, WritesOf(d1, Create(c)))
  {
    hide CreateBooks, NumberTaken, AccountsOf, VaultsOf, PrepareNumber, ChangedCounters, Advances, Core, RecordCreate,
      RecordOf, RecordKeyOf;
    CreateAccepted(d1, d2, c);
    var prepared := PrepareNumber(d1.sequences, d1.ledger.txs, c).value;
    var tx := c.tx.(publicId := prepared.1);
    CreateTouches(d1.books, c.tx, prepared.1);
    PrepareRepeats(d1.sequences, d2.sequences, d1.ledger.txs, d2.ledger.txs, c);
    CreateBooksLocal(d1.books, d2.books, tx);
    RecordCreateRepeats(d1.ledger, d2.ledger, tx);
    var writes := WritesOf(d1, Create(c));
    assert writes.accounts == AccountsOf(tx) && writes.vaults == VaultsOf(d1.books.accounts, tx);
    hide WritesOf;
  }

  // ---- edit ----

  lemma EditedLocal(a1: map<Id, Account>, a2: map<Id, Account>, current: Transaction, input: Transaction)
    requires EditedVersion(a1, current, input).Ok?
    requires AgreeOn(a1, a2, AccountsOf(EditedVersion(a1, current, input).value))
    ensures EditedVersion(a2, current, input) == EditedVersion(a1, current, input)
  {
    hide ParseNumber;
    var next := EditedVersion(a1, current, input).value;
    assert next.accountId == input.accountId && next.kind == input.kind;
    assert Get(a1, input.accountId) == Get(a2, input.accountId);
    if input.kind.Transfer? {
      assert next.destinationId == input.destinationId;
      assert Get(a1, input.destinationId) == Get(a2, input.destinationId);
    }
  }

  lemma EditedKeepsIdentity(accounts: map<Id, Account>, current: Transaction, input: Transaction)
    requires EditedVersion(accounts, current, input).Ok?
    ensures var next := EditedVersion(accounts, current, input).value;
            next.id == current.id && next.clearedAt == current.clearedAt && next.scope == current.scope
  {
    hide ParseNumber;
  }

  lemma RenumberRepeats(
    c1: Counters, c2: Counters, t1: map<Id, Transaction>, t2: map<Id, Transaction>, current: Transaction,
      next: Transaction)
    requires Advances(c1, c2) && Core(t1) == Core(t2) && RenumberCounters(c1, t1, current, next).Ok?
    requires AgreeOn(c1, c2, ChangedCounters(c1, RenumberCounters(c1, t1, current, next).value))
    ensures var p1, p2 := RenumberCounters(c1, t1, current, next), RenumberCounters(c2, t2, current, next);
            && p2.Ok?
            && ChangedCounters(c2, p2.value) == ChangedCounters(c1, p1.value)
            && AgreeOn(p1.value, p2.value, ChangedCounters(c1, p1.value))
            && Advances(p1.value, p2.value)
  {
    if next.publicId == current.publicId {
      assert ChangedCounters(c1, c1) == {} == ChangedCounters(c2, c2);
    } else {
      hide Reserve, ChangedCounters, NumberTaken, AgreeOn, Advances;
      NumberTakenCore(t1, t2, next.scope, next.publicId, current.id);
      ReserveRepeats(c1, c2, next.scope, next.publicId);
    }
  }

  lemma RenumberKeepsKeys(counters: Counters, txs: map<Id, Transaction>, current: Transaction, next: Transaction)
    requires RenumberCounters(counters, txs, current, next).Ok?
    ensures counters.Keys <= RenumberCounters(counters, txs, current, next).value.Keys
  {
    hide NumberTaken, ParseNumber;
  }

  lemma EditFrames(db: Db, id: Id, input: Transaction)
    requires VaultsNamed(db.books) && EditBody(db, id, input).Ok?
    requires db.ledger.txs[id].id == id
    ensures Frame(db, EditBody(db, id, input).value, WritesOf(db, Edit(id, input)))
  {
    hide EditBooks, EditedVersion, RenumberCounters, AccountsOf, VaultsOf, ChangedCounters, NewRevision, Numbered;
    var current := db.ledger.txs[id];
    var next := EditedVersion(db.books.accounts, current, input).value;
    var counters := RenumberCounters(db.sequences, db.ledger.txs, current, next).value;
    EditedKeepsIdentity(db.books.accounts, current, input);
    EditBooksLocal(db.books, db.books, current, next,
                   AccountsOf(current) + AccountsOf(next),
                   VaultsOf(db.books.accounts, current) + VaultsOf(db.books.accounts, next));
    RenumberKeepsKeys(db.sequences, db.ledger.txs, current, next);
    CountersFrame(db.sequences, counters);
  }

  lemma RecordEditRepeats(l1: Ledger, l2: Ledger, current: Transaction, next: Transaction)
    requires l1.version == l2.version && l1.events == l2.events && l1.reviews == l2.reviews
        && Core(l1.txs) == Core(l2.txs)
    ensures var r1, r2 := RecordEdit(l1, current, next), RecordEdit(l2, current, next);
            r1.version == r2.version && r1.events == r2.events && r1.reviews == r2.reviews
              && Core(r1.txs) == Core(r2.txs)
  {
    CoreOfPut(l1.txs, l2.txs, next.id, next);
  }

  lemma EditRepeats(d1: Db, d2: Db, id: Id, input: Transaction)
    requires VaultsNamed(d1.books) && EditBody(d1, id, input).Ok? && d1.ledger.txs[id].id == id
    requires Agree(d1, d2, WritesOf(d1, Edit(id, input)))
    ensures EditBody(d2, id, input).Ok? && WritesOf(d2, Edit(id, input)) == WritesOf(d1, Edit(id, input))
    ensures Repeated(d1, d2, EditBody(d1, id, input).value, EditBody(d2, id, input).value,
        WritesOf(d1, Edit(id, input)))
  {
    hide EditBooks, EditedVersion, RenumberCounters, AccountsOf, VaultsOf, ChangedCounters, NewRevision, Numbered,
      Advances, Core;
    var current := d1.ledger.txs[id];
    var next := EditedVersion(d1.books.accounts, current, input).value;
    assert Get(d1.ledger.txs, id) == Get(d2.ledger.txs, id);
    EditedLocal(d1.books.accounts, d2.books.accounts, current, input);
    EditedKeepsIdentity(d1.books.accounts, current, input);
    EditBooksLocal(d1.books, d2.books, current, next,
                   AccountsOf(current) + AccountsOf(next),
                   VaultsOf(d1.books.accounts, current) + VaultsOf(d1.books.accounts, next));
    RenumberRepeats(d1.sequences, d2.sequences, d1.ledger.txs, d2.ledger.txs, current, next);
    RecordEditRepeats(d1.ledger, d2.ledger, current, next);
    hide Advance;
  }

  // ---- delete ----

  lemma DeleteFrames(db: Db, id: Id)
    requires VaultsNamed(db.books) && DeleteBody(db, id).Ok? && db.ledger.txs[id].id == id
    ensures Frame(db, DeleteBody(db, id).value, WritesOf(db, Delete(id)))
  {
    hide ChangeBooks, AccountsOf, VaultsOf, NewRevision, Numbered, OwnedRecords;
    ChangeBooksLocal(db.books, db.books, db.ledger.txs[id], true);
  }

  lemma DeleteRepeats(d1: Db, d2: Db, id: Id)
    requires VaultsNamed(d1.books) && DeleteBody(d1, id).Ok? && d1.ledger.txs[id].id == id
    requires Agree(d1, d2, WritesOf(d1, Delete(id)))
    ensures DeleteBody(d2, id).Ok? && WritesOf(d2, Delete(id)) == WritesOf(d1, Delete(id))
    ensures Repeated(d1, d2, DeleteBody(d1, id).value, DeleteBody(d2, id).value, WritesOf(d1, Delete(id)))
  {
    hide ChangeBooks, AccountsOf, VaultsOf, NewRevision, Numbered, Advances, Core;
    assert Get(d1.ledger.txs, id) == Get(d2.ledger.txs, id);
    var current := d1.ledger.txs[id];
    ChangeBooksLocal(d1.books, d2.books, current, true);
    CoreOfRemove(d1.ledger.txs, d2.ledger.txs, id);
    assert OwnedRecords(d2.records, id) == OwnedRecords(d1.records, id) by {
      forall k | k in OwnedRecords(d1.records, id) ensures k in OwnedRecords(d2.records, id) {
        assert Get(d1.records, k) == Get(d2.records, k);
      }
    }
    hide Advance;
  }

  // ---- category migration ----

  lemma MigratesCore(t1: map<Id, Transaction>, t2: map<Id, Transaction>, mode: Scope, oldName: string, newName: string)
    requires Core(t1) == Core(t2)
    ensures Affected(t1, mode, oldName, newName) == Affected(t2, mode, oldName, newName)
  {
    hide Lower, NormalizedName, Core;
    forall id ensures id in Affected(t1, mode, oldName, newName) <==> id in Affected(t2, mode, oldName, newName) {
      CoreGet(t1, t2, id);
    }
  }

  lemma MigrationChangesCore(t1: map<Id, Transaction>, t2: map<Id, Transaction>, ids: set<Id>, newName: string)
    requires Core(t1) == Core(t2) && ids <= t1.Keys
    ensures ids <= t2.Keys && MigrationChanges(t1, ids, newName) == MigrationChanges(t2, ids, newName)
  {
    forall id | id in ids
      ensures id in t2 && NewRevision(t1[id]) == NewRevision(t2[id])
              && NewRevision(t1[id].(category := newName)) == NewRevision(t2[id].(category := newName))
    {
      CoreGet(t1, t2, id);
    }
    AscendingLists(ids);
    hide Core, NewRevision, Ascending;
    var c1, c2 := MigrationChanges(t1, ids, newName), MigrationChanges(t2, ids, newName);
    assert |c1| == |c2| && forall i | 0 <= i < |c1| :: Ascending(ids)[i] in ids && c1[i] == c2[i];
  }

  lemma RenamedCore(t1: map<Id, Transaction>, t2: map<Id, Transaction>, ids: set<Id>, newName: string)
    requires Core(t1) == Core(t2)
    ensures Core(Renamed(t1, ids, newName)) == Core(Renamed(t2, ids, newName))
  {
    var r1, r2 := Core(Renamed(t1, ids, newName)), Core(Renamed(t2, ids, newName));
    forall id
      ensures id in r1 <==> id in r2
      ensures id in r1 ==> r1[id] == r2[id]
    {
      CoreGet(t1, t2, id);
    }
  }

  lemma MigrateFrames(db: Db, mode: Scope, oldName: string, newName: string)
    requires MigrateBody(db, mode, oldName, newName).Ok?
    ensures Frame(db, MigrateBody(db, mode, oldName, newName).value, WritesOf(db, Op.Migrate(mode, oldName, newName)))
  {
    hide Affected, MigrationChanges, Numbered;
  }

  lemma MigrateRepeats(d1: Db, d2: Db, mode: Scope, oldName: string, newName: string)
    requires MigrateBody(d1, mode, oldName, newName).Ok?
    requires Agree(d1, d2, WritesOf(d1, Op.Migrate(mode, oldName, newName)))
    ensures MigrateBody(d2, mode, oldName, newName).Ok?
    ensures WritesOf(d2, Op.Migrate(mode, oldName, newName)) == WritesOf(d1, Op.Migrate(mode, oldName, newName))
    ensures Repeated(d1, d2, MigrateBody(d1, mode, oldName, newName).value,
        MigrateBody(d2, mode, oldName, newName).value,
                     WritesOf(d1, Op.Migrate(mode, oldName, newName)))
  {
    hide Migrates, MigrationChanges, Core, Advances;
    var ids := Affected(d1.ledger.txs, mode, oldName, newName);
    MigratesCore(d1.ledger.txs, d2.ledger.txs, mode, oldName, newName);
    MigrationChangesCore(d1.ledger.txs, d2.ledger.txs, ids, newName);
    RenamedCore(d1.ledger.txs, d2.ledger.txs, ids, newName);
    hide Affected, Numbered;
    forall id | id in ids
      ensures Get(Renamed(d1.ledger.txs, ids, newName), id) == Get(Renamed(d2.ledger.txs, ids, newName), id)
    {
      assert Get(d1.ledger.txs, id) == Get(d2.ledger.txs, id);
    }
  }

  // ---- capture ----

  lemma ImagesCore(t1: map<Id, Transaction>, t2: map<Id, Transaction>)
    requires Core(t1) == Core(t2)
    ensures Images(t1) == Images(t2)
  {
    var i1, i2 := Images(t1), Images(t2);
    forall id
      ensures id in i1 <==> id in i2
      ensures id in i1 ==> i1[id] == i2[id]
    {
      CoreGet(t1, t2, id);
    }
  }

  lemma CaptureFrames(db: Db, op: Op)
    requires op.Capture? && Exec(db, op).Ok?
    ensures Frame(db, Exec(db, op).value, WritesOf(db, op))
  {
    hide ReviewAllowed, SnapshotTotals, Images;
  }

  lemma CaptureRepeats(d1: Db, d2: Db, op: Op)
    requires op.Capture? && Exec(d1, op).Ok? && Agree(d1, d2, WritesOf(d1, op))
    ensures Exec(d2, op).Ok? && WritesOf(d2, op) == WritesOf(d1, op)
    ensures Repeated(d1, d2, Exec(d1, op).value, Exec(d2, op).value, WritesOf(d1, op))
  {
    hide SnapshotTotals, Images, Core, Advances, Latest, Summary;
    ImagesCore(d1.ledger.txs, d2.ledger.txs);
  }

  // ---- the operations outside the ledger ----

  lemma OpeningFrames(db: Db, op: Op)
    requires op.SetOpening? && Exec(db, op).Ok?
    ensures Frame(db, Exec(db, op).value, WritesOf(db, op))
  {
    hide ApplyAll, Admits, Core;
    var w := WritesOf(db, op);
    var account := db.books.accounts[op.accountId];
    ApplyAllFrame(db.books, OpeningAdjusts(account, db.books.vaults[account.vaultId], op.accountId,
      op.opening - account.opening),
                  w.accounts, w.vaults);
  }

  lemma OpeningRepeats(d1: Db, d2: Db, op: Op)
    requires op.SetOpening? && Exec(d1, op).Ok? && Agree(d1, d2, WritesOf(d1, op))
    requires op.accountId in d2.books.accounts && d2.books.accounts[op.accountId].vaultId in d2.books.vaults
    requires d1.books.vaults[d1.books.accounts[op.accountId].vaultId].currency
             == d2.books.vaults[d2.books.accounts[op.accountId].vaultId].currency
    ensures Exec(d2, op).Ok? && WritesOf(d2, op) == WritesOf(d1, op)
    ensures Repeated(d1, d2, Exec(d1, op).value, Exec(d2, op).value, WritesOf(d1, op))
  {
    hide ApplyAll, Admits, Core, Advances;
    var w := WritesOf(d1, op);
    assert Get(d1.books.accounts, op.accountId) == Get(d2.books.accounts, op.accountId);
    var account := d1.books.accounts[op.accountId];
    var list := OpeningAdjusts(account, d1.books.vaults[account.vaultId], op.accountId, op.opening - account.opening);
    ApplyAllLocal(d1.books, d2.books, list, w.accounts, w.vaults);
    assert Get(ApplyAll(d1.books, list).value.accounts, op.accountId)
      == Get(ApplyAll(d2.books, list).value.accounts, op.accountId);
  }

  lemma ArchiveFrames(db: Db, op: Op)
    requires op.Archive? && Exec(db, op).Ok?
    ensures Frame(db, Exec(db, op).value, WritesOf(db, op))
  {
    hide Core;
  }

  lemma ArchiveRepeats(d1: Db, d2: Db, op: Op)
    requires op.Archive? && Exec(d1, op).Ok? && Agree(d1, d2, WritesOf(d1, op))
    ensures Exec(d2, op).Ok? && WritesOf(d2, op) == WritesOf(d1, op)
    ensures Repeated(d1, d2, Exec(d1, op).value, Exec(d2, op).value, WritesOf(d1, op))
  {
    hide Core, Advances;
    assert Get(d1.books.accounts, op.accountId) == Get(d2.books.accounts, op.accountId);
  }

  /** Accounts and vaults are never removed, and never change their vault or currency. */
  predicate Continues(a: Db, b: Db) {
    && (forall id | id in a.books.accounts ::
          && id in b.books.accounts
          && b.books.accounts[id].vaultId == a.books.accounts[id].vaultId
          && b.books.accounts[id].currency == a.books.accounts[id].currency)
    && (forall id | id in a.books.vaults ::
      id in b.books.vaults && b.books.vaults[id].currency == a.books.vaults[id].currency)
  }

  lemma AddAccountFrames(db: Db, op: Op)
    requires op.AddAccount? && Exec(db, op).Ok?
    ensures Frame(db, Exec(db, op).value, WritesOf(db, op))
  {
    hide Core;
  }

  lemma AddVaultFrames(db: Db, op: Op)
    requires op.AddVault? && Exec(db, op).Ok?
    ensures Frame(db, Exec(db, op).value, WritesOf(db, op))
  {
    hide Core;
  }

  lemma FinishFrames(db: Db, op: Op)
    requires op.Finish? && Exec(db, op).Ok?
    ensures Frame(db, Exec(db, op).value, WritesOf(db, op))
  {
    hide Core;
  }

  lemma AddAccountRepeats(d1: Db, d2: Db, op: Op)
    requires op.AddAccount? && Exec(d1, op).Ok? && Agree(d1, d2, WritesOf(d1, op)) && Continues(d1, d2)
    ensures Exec(d2, op).Ok? && WritesOf(d2, op) == WritesOf(d1, op)
    ensures Repeated(d1, d2, Exec(d1, op).value, Exec(d2, op).value, WritesOf(d1, op))
  {
    hide Core, Advances;
    assert Get(d1.books.accounts, op.accountId) == Get(d2.books.accounts, op.accountId);
  }

  lemma AddVaultRepeats(d1: Db, d2: Db, op: Op)
    requires op.AddVault? && Exec(d1, op).Ok? && Agree(d1, d2, WritesOf(d1, op))
    ensures Exec(d2, op).Ok? && WritesOf(d2, op) == WritesOf(d1, op)
    ensures Repeated(d1, d2, Exec(d1, op).value, Exec(d2, op).value, WritesOf(d1, op))
  {
    hide Core, Advances;
    assert Get(d1.books.vaults, op.vaultId) == Get(d2.books.vaults, op.vaultId);
  }

  lemma FinishRepeats(d1: Db, d2: Db, op: Op)
    requires op.Finish? && Exec(d1, op).Ok? && Agree(d1, d2, WritesOf(d1, op))
    ensures Exec(d2, op).Ok? && WritesOf(d2, op) == WritesOf(d1, op)
    ensures Repeated(d1, d2, Exec(d1, op).value, Exec(d2, op).value, WritesOf(d1, op))
  {
    hide Core, Advances;
    assert Get(d1.sessions, op.sessionId) == Get(d2.sessions, op.sessionId);
  }

  lemma CoreOfMark(txs: map<Id, Transaction>, id: Id, mark: Option<int>)
    requires id in txs
    ensures Core(txs[id := txs[id].(clearedAt := mark)]) == Core(txs)
  {
    var marked := txs[id := txs[id].(clearedAt := mark)];
    assert forall k | k in txs :: Core(marked)[k] == Core(txs)[k];
  }

  lemma LinkFrames(db: Db, op: Op)
    requires op.Link? && Exec(db, op).Ok?
    ensures Frame(db, Exec(db, op).value, WritesOf(db, op))
  {
    hide Core;
    CoreOfMark(db.ledger.txs, op.id, Some(op.now));
  }

  lemma LinkRepeats(d1: Db, d2: Db, op: Op)
    requires op.Link? && Exec(d1, op).Ok? && Agree(d1, d2, WritesOf(d1, op))
    ensures Exec(d2, op).Ok? && WritesOf(d2, op) == WritesOf(d1, op)
    ensures Repeated(d1, d2, Exec(d1, op).value, Exec(d2, op).value, WritesOf(d1, op))
  {
    hide Core, Advances;
    assert Get(d1.ledger.txs, op.id) == Get(d2.ledger.txs, op.id);
    CoreOfMark(d1.ledger.txs, op.id, Some(op.now));
    CoreOfMark(d2.ledger.txs, op.id, Some(op.now));
  }

  lemma ReleaseFrames(db: Db, op: Op)
    requires op.Release? && Exec(db, op).Ok?
    ensures Frame(db, Exec(db, op).value, WritesOf(db, op))
  {
    hide Core;
  }

  lemma PatchFrames(db: Db, op: Op)
    requires op.PatchCounter? && Exec(db, op).Ok?
    ensures Frame(db, Exec(db, op).value, WritesOf(db, op))
  {
    hide Core;
  }

  // ---- all operations ----

  /** Accounts name their vaults, and transactions are stored under their own identifier. */
  predicate WellKeyed(db: Db) {
    VaultsNamed(db.books) && forall id | id in db.ledger.txs :: db.ledger.txs[id].id == id
  }

  /** Operations that run inside `WithTransaction`; the two others are single atomic updates. */
  predicate Transactional(op: Op) {
    !op.Release? && !op.PatchCounter?
  }

  lemma ReadsStored(db: Db, op: Op)
    requires (op.Edit? || op.Delete?) && Exec(db, op).Ok?
    ensures op.id in db.ledger.txs
  {
    hide EditedVersion, RenumberCounters, EditBooks, ChangeBooks;
  }

  lemma ExecFrames(db: Db, op: Op)
    requires WellKeyed(db) && Exec(db, op).Ok?
    ensures Frame(db, Exec(db, op).value, WritesOf(db, op))
  {
    hide Frame, WritesOf, CreateBody, EditBody, DeleteBody, MigrateBody;
    match op {
      case Create(c) => CreateFrames(db, c);
      case Edit(id, input) =>
        ReadsStored(db, op);
        EditFrames(db, id, input);
      case Delete(id) =>
        ReadsStored(db, op);
        DeleteFrames(db, id);
      case Migrate(mode, oldName, newName) => MigrateFrames(db, mode, oldName, newName);
      case Capture(_, _) => CaptureFrames(db, op);
      case SetOpening(_, _) => OpeningFrames(db, op);
      case Archive(_) => ArchiveFrames(db, op);
      case AddAccount(_, _, _, _, _) => AddAccountFrames(db, op);
      case AddVault(_, _, _) => AddVaultFrames(db, op);
      case Link(_, _) => LinkFrames(db, op);
      case Finish(_, _) => FinishFrames(db, op);
      case Release(_, _) => ReleaseFrames(db, op);
      case PatchCounter(_, _) => PatchFrames(db, op);
    }
  }

  lemma ExecRepeats(d1: Db, d2: Db, op: Op)
    requires WellKeyed(d1) && Transactional(op) && Continues(d1, d2)
    requires Exec(d1, op).Ok? && Agree(d1, d2, WritesOf(d1, op))
    ensures Exec(d2, op).Ok? && WritesOf(d2, op) == WritesOf(d1, op)
    ensures Repeated(d1, d2, Exec(d1, op).value, Exec(d2, op).value, WritesOf(d1, op))
  {
    hide Repeated, WritesOf, CreateBody, EditBody, DeleteBody, MigrateBody, CaptureReview, OpeningBody;
    match op {
      case Create(c) => CreateRepeats(d1, d2, c);
      case Edit(id, input) =>
        ReadsStored(d1, op);
        EditRepeats(d1, d2, id, input);
      case Delete(id) =>
        ReadsStored(d1, op);
        DeleteRepeats(d1, d2, id);
      case Migrate(mode, oldName, newName) => MigrateRepeats(d1, d2, mode, oldName, newName);
      case Capture(_, _) => CaptureRepeats(d1, d2, op);
      case SetOpening(id, _) =>
        OpeningReads(d1, d2, op);
        OpeningRepeats(d1, d2, op);
      case Archive(_) => ArchiveRepeats(d1, d2, op);
      case AddAccount(_, _, _, _, _) => AddAccountRepeats(d1, d2, op);
      case AddVault(_, _, _) => AddVaultRepeats(d1, d2, op);
      case Link(_, _) => LinkRepeats(d1, d2, op);
      case Finish(_, _) => FinishRepeats(d1, d2, op);
    }
  }

  lemma OpeningReads(d1: Db, d2: Db, op: Op)
    requires op.SetOpening? && Exec(d1, op).Ok? && Continues(d1, d2)
    ensures var id := op.accountId;
            && id in d1.books.accounts && d1.books.accounts[id].vaultId in d1.books.vaults
            && id in d2.books.accounts && d2.books.accounts[id].vaultId in d2.books.vaults
            && d1.books.vaults[d1.books.accounts[id].vaultId].currency
              == d2.books.vaults[d2.books.accounts[id].vaultId].currency
  {
    hide ApplyAll;
  }
}
