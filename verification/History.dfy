/**
 * Every operation keeps the ledger's history invariant, and what a category
 * migration leaves behind.
 */
module History {
  import opened Outcomes
  import opened Decimals
  import opened Store
  import opened Balances
  import opened BalanceLaws
  import opened Revisions
  import opened PeriodReviews
  import opened Checkpoints
  import opened Numbering
  import opened Picks
  import opened Categories
  import opened Texts
  import opened Operations
  import opened Repeatability

  // ---- one change ----

  lemma OneChange(from: map<Id, Revision>, c: Change, first: int)
    requires c.before == Get(from, c.id)
    ensures Describes(from, [c], if c.after.Some? then from[c.id := c.after.value] else from - {c.id}, first)
  {
    var events := Numbered([c], first);
    assert events[..0] == [];
    assert Replay(from, events[..0]) == from;
    assert Replay(from, events) == ApplyEvent(Replay(from, events[..0]), events[0]);
  }

  lemma ImagesPut(txs: map<Id, Transaction>, id: Id, tx: Transaction)
    ensures Images(txs[id := tx]) == Images(txs)[id := NewRevision(tx)]
  {
    hide NewRevision;
  }

  lemma ImagesRemove(txs: map<Id, Transaction>, id: Id)
    ensures Images(txs - {id}) == Images(txs) - {id}
  {
    hide NewRevision;
  }

  // ---- a migration is a block of changes ----

  function Members(list: seq<Id>): set<Id> {
    set id | id in list
  }

  /** After its first `k` events, the replay shows exactly the first `k` rows renamed. */
  lemma {:induction false} MigrationReplays(txs: map<Id, Transaction>, ids: set<Id>, newName: string, first: int,
    k: nat)
    requires ids <= txs.Keys && k <= |ids|
    ensures |MigrationChanges(txs, ids, newName)| == |ids|
    ensures Replay(Images(txs), Numbered(MigrationChanges(txs, ids, newName), first)[..k])
            == Images(Renamed(txs, Members(Ascending(ids)[..k]), newName))
  {
    hide NewRevision, Ascending;
    var list, events := Ascending(ids), Numbered(MigrationChanges(txs, ids, newName), first);
    if k == 0 {
      assert Renamed(txs, Members(list[..0]), newName) == txs;
    } else {
      MigrationReplays(txs, ids, newName, first, k - 1);
      assert events[..k][..k - 1] == events[..k - 1];
      AscendingLists(ids);
      assert list[k - 1] in ids;
      RenamedOneMore(txs, Members(list[..k - 1]), list[k - 1], newName);
      assert Members(list[..k]) == Members(list[..k - 1]) + {list[k - 1]};
    }
  }

  lemma RenamedOneMore(txs: map<Id, Transaction>, done: set<Id>, id: Id, newName: string)
    requires id in txs
    ensures Images(Renamed(txs, done + {id}, newName))
            == Images(Renamed(txs, done, newName))[id := NewRevision(txs[id].(category := newName))]
  {
    hide NewRevision;
  }

  lemma MigrationDescribes(txs: map<Id, Transaction>, ids: set<Id>, newName: string, first: int)
    requires ids <= txs.Keys
    ensures Describes(Images(txs), MigrationChanges(txs, ids, newName), Images(Renamed(txs, ids, newName)), first)
  {
    hide NewRevision, Replay, Images, Renamed, Ascending;
    var list, changes := Ascending(ids), MigrationChanges(txs, ids, newName);
    var events := Numbered(changes, first);
    AscendingLists(ids);
    forall i | 0 <= i < |events|
      ensures events[i].before == Get(Replay(Images(txs), events[..i]), events[i].transactionId)
    {
      MigrationReplays(txs, ids, newName, first, i);
      assert list[i] in ids;
      NotYetRenamed(txs, list, i, newName);
    }
    MigrationReplays(txs, ids, newName, first, |ids|);
    assert events[..|ids|] == events && list[..|ids|] == list;
    forall id ensures id in Members(list) <==> id in ids {
      assert id in list <==> id in ids;
    }
    assert Members(list) == ids;
    assert Chained(Images(txs), events);
  }

  lemma NotYetRenamed(txs: map<Id, Transaction>, list: seq<Id>, i: nat, newName: string)
    requires i < |list| && StrictlySorted(list) && list[i] in txs
    ensures Get(Images(Renamed(txs, Members(list[..i]), newName)), list[i]) == Some(NewRevision(txs[list[i]]))
  {
    hide NewRevision;
    assert list[i] !in list[..i];
  }

  // ---- every operation ----

  lemma CreateKeepsLedger(base: map<Id, Revision>, ledger: Ledger, tx: Transaction)
    requires LedgerInv(base, ledger) && tx.id !in ledger.txs
    ensures LedgerInv(base, RecordCreate(ledger, tx))
  {
    hide LedgerInv, Describes, NewRevision, Advance;
    OneChange(Images(ledger.txs), Change(tx.id, None, Some(NewRevision(tx))), ledger.version + 1);
    ImagesPut(ledger.txs, tx.id, tx);
    AdvanceKeeps(base, ledger, ledger.txs[tx.id := tx], [Change(tx.id, None, Some(NewRevision(tx)))]);
  }

  lemma EditKeepsLedger(base: map<Id, Revision>, ledger: Ledger, current: Transaction, next: Transaction)
    requires LedgerInv(base, ledger) && Get(ledger.txs, next.id) == Some(current)
    ensures LedgerInv(base, RecordEdit(ledger, current, next))
  {
    hide LedgerInv, Describes, NewRevision, Advance;
    var change := Change(next.id, Some(NewRevision(current)), Some(NewRevision(next)));
    OneChange(Images(ledger.txs), change, ledger.version + 1);
    ImagesPut(ledger.txs, next.id, next);
    AdvanceKeeps(base, ledger, ledger.txs[next.id := next], [change]);
  }

  lemma DeleteKeepsLedger(base: map<Id, Revision>, ledger: Ledger, current: Transaction)
    requires LedgerInv(base, ledger) && Get(ledger.txs, current.id) == Some(current)
    ensures LedgerInv(base, RecordDelete(ledger, current))
  {
    hide LedgerInv, Describes, NewRevision, Advance;
    var change := Change(current.id, Some(NewRevision(current)), None);
    OneChange(Images(ledger.txs), change, ledger.version + 1);
    ImagesRemove(ledger.txs, current.id);
    AdvanceKeeps(base, ledger, ledger.txs - {current.id}, [change]);
  }

  lemma MarkKeepsLedger(base: map<Id, Revision>, ledger: Ledger, id: Id, mark: Option<int>)
    requires LedgerInv(base, ledger) && id in ledger.txs
    ensures LedgerInv(base, ledger.(txs := ledger.txs[id := ledger.txs[id].(clearedAt := mark)]))
  {
    hide Images, Replay, Chained, Increasing, Succession, UpTo, Tally;
    var marked := ledger.(txs := ledger.txs[id := ledger.txs[id].(clearedAt := mark)]);
    CoreOfMark(ledger.txs, id, mark);
    ImagesCore(ledger.txs, marked.txs);
    forall r | r in ledger.reviews ensures Faithful(base, marked, r) {
      assert Faithful(base, ledger, r);
    }
  }

  /**
   * No committed operation breaks the history: revisions replay to the stored transactions, and
   * every review stays faithful.
   */
  lemma ExecKeepsLedger(base: map<Id, Revision>, db: Db, op: Op)
    requires WellKeyed(db) && LedgerInv(base, db.ledger) && Exec(db, op).Ok?
    ensures LedgerInv(base, Exec(db, op).value.ledger)
  {
    hide LedgerInv, CreateBooks, EditBooks, ChangeBooks, PrepareNumber, RenumberCounters, EditedVersion, CaptureReview,
      RecordCreate, RecordEdit, RecordDelete, NumberTaken, Affected, MigrationChanges, Advance, Renamed, Describes,
        Images,
      OpeningBody, VaultsNamed;
    match op {
      case Create(c) =>
        var tx := c.tx.(publicId := PrepareNumber(db.sequences, db.ledger.txs, c).value.1);
        CreateKeepsLedger(base, db.ledger, tx);
      case Edit(id, input) =>
        var current := db.ledger.txs[id];
        EditedKeepsIdentity(db.books.accounts, current, input);
        EditKeepsLedger(base, db.ledger, current, EditedVersion(db.books.accounts, current, input).value);
      case Delete(id) => DeleteKeepsLedger(base, db.ledger, db.ledger.txs[id]);
      case Migrate(mode, oldName, newName) => MigrateKeepsLedger(base, db, mode, oldName, newName);
      case Capture(personal, q) =>
        CaptureKeeps(base, db.ledger, personal, LensOf(db.workspaceId, db.currency, q), q.status);
      case Link(id, now) => MarkKeepsLedger(base, db.ledger, id, Some(now));
      case _ =>
    }
  }

  lemma MigrateKeepsLedger(base: map<Id, Revision>, db: Db, mode: Scope, oldName: string, newName: string)
    requires LedgerInv(base, db.ledger) && MigrateBody(db, mode, oldName, newName).Ok?
    ensures LedgerInv(base, MigrateBody(db, mode, oldName, newName).value.ledger)
  {
    hide LedgerInv, Describes, MigrationChanges, Advance, Renamed, Images, Migrates;
    var ids := Affected(db.ledger.txs, mode, oldName, newName);
    MigrationDescribes(db.ledger.txs, ids, newName, db.ledger.version + 1);
    AdvanceKeeps(base, db.ledger, Renamed(db.ledger.txs, ids, newName), MigrationChanges(db.ledger.txs, ids, newName));
  }

  // ---- category migration ----

  /**
   * The events of one migration: one per row in identifier order, consecutively versioned,
   * moving no money and no count.
   */
  ghost predicate IsBlock(added: seq<Event>, ids: set<Id>, last: int) {
    && |added| == |ids|
    && (forall i | 0 <= i < |added| :: added[i].version == last - |ids| + 1 + i)
    && (forall i, j | 0 <= i < j < |added| :: added[i].transactionId < added[j].transactionId)
    && (forall i | 0 <= i < |added| :: added[i].transactionId in ids)
    && (forall id | id in ids :: exists i :: 0 <= i < |added| && added[i].transactionId == id)
    && (forall i, lens: Lens | 0 <= i < |added| :: EventDelta(lens, added[i]) == NO_TOTALS)
  }

  lemma ChangesAreABlock(txs: map<Id, Transaction>, ids: set<Id>, newName: string, first: int)
    requires ids <= txs.Keys
    ensures |MigrationChanges(txs, ids, newName)| == |ids|
    ensures IsBlock(Numbered(MigrationChanges(txs, ids, newName), first), ids, first + |ids| - 1)
  {
    hide EventDelta, NewRevision, Ascending;
    var list, added := Ascending(ids), Numbered(MigrationChanges(txs, ids, newName), first);
    AscendingLists(ids);
    forall i, lens: Lens | 0 <= i < |added| ensures EventDelta(lens, added[i]) == NO_TOTALS {
      assert list[i] in ids;
      RenameMovesNothing(lens, added[i], txs[list[i]], newName);
    }
    assert forall i | 0 <= i < |added| :: added[i].transactionId == list[i] && list[i] in ids;
    forall id | id in ids ensures exists i :: 0 <= i < |added| && added[i].transactionId == id {
      var i :| 0 <= i < |list| && list[i] == id;
      assert added[i].transactionId == id;
    }
  }

  /**
   * A migration of n rows appends exactly n events, one per affected row in
   * identifier order, with the versions last - n + 1 .. last, and no such event
   * moves money or counts for any lens.
   */
  lemma MigrationIsABlock(db: Db, mode: Scope, oldName: string, newName: string)
    requires MigrateBody(db, mode, oldName, newName).Ok?
    ensures var ids, after := Affected(db.ledger.txs, mode, oldName, newName),
        MigrateBody(db, mode, oldName, newName).value;
            && db.ledger.events <= after.ledger.events && after.ledger.version == db.ledger.version + |ids|
            && IsBlock(after.ledger.events[|db.ledger.events|..], ids, after.ledger.version)
  {
    hide IsBlock, Migrates, Renamed, MigrationChanges, Numbered;
    var ids, after := Affected(db.ledger.txs, mode, oldName, newName), MigrateBody(db, mode, oldName, newName).value;
    ChangesAreABlock(db.ledger.txs, ids, newName, db.ledger.version + 1);
    assert after.ledger.events[|db.ledger.events|..]
        == Numbered(MigrationChanges(db.ledger.txs, ids, newName), db.ledger.version + 1);
  }

  lemma RenameMovesNothing(lens: Lens, e: Event, tx: Transaction, newName: string)
    requires e.before == Some(NewRevision(tx)) && e.after == Some(NewRevision(tx.(category := newName)))
    ensures EventDelta(lens, e) == NO_TOTALS
  {
    var r := NewRevision(tx);
    assert e.after.value == r.(category := newName);
    hide NewRevision;
    CategoryIsNotCounted(lens, r, newName);
    hide Contribution;
  }

  lemma CategoryIsNotCounted(lens: Lens, r: Revision, newName: string)
    ensures Contribution(Relevant(lens), r.(category := newName)) == Contribution(Relevant(lens), r)
  {
  }

  /** The versions a block takes are taken by no other revision, ever. */
  lemma VersionsAreUnique(base: map<Id, Revision>, ledger: Ledger, i: nat, j: nat)
    requires LedgerInv(base, ledger) && i < |ledger.events| && j < |ledger.events|
    ensures ledger.events[i].version == ledger.events[j].version <==> i == j
  {
    hide Tally, Replay, Chained, Succession;
  }

  /**
   * A rename writes the new name into every row carrying the old one in
   * whatever case, and leaves all other rows alone. Afterwards a row carries the
   * old name only if it got the new one and the two are the same up to case.
   */
  lemma OldNameIsGone(txs: map<Id, Transaction>, mode: Scope, oldName: string, newName: string, id: Id)
    requires id in txs
    ensures var after := Renamed(txs, Affected(txs, mode, oldName, newName), newName);
            && id in after
            && after[id] == (if CarriesName(txs[id], mode, oldName) then txs[id].(category := newName) else txs[id])
            && (CarriesName(after[id], mode, oldName) <==>
                CarriesName(txs[id], mode, oldName) && SameText(newName, Trim(oldName)))
  {
    hide SameText, Trim, Lower;
    UsesMeans(txs[id], mode, oldName);
  }

  /** `DeleteTransactionCategory`, apart from removing the category document itself. */
  ghost function RemoveCategory(db: Db, mode: Scope, name: string, replacement: Option<string>): Result<Db> {
    var usage := set id | id in db.ledger.txs && Uses(db.ledger.txs[id], mode, name);
    var _ :- Need(usage != {} ==> replacement.Some?, Conflict);
    var _ :- Need(|usage| <= MIGRATION_MAX, InvalidField("replacementCategoryId"));
    if usage == {} || Affected(db.ledger.txs, mode, name, replacement.value) == {} then Ok(db)
    else MigrateBody(db, mode, name, replacement.value)
  }

  /**
   * A deleted category leaves no row referring to it, exactly when no row used
   * it or the replacement's name is a different one up to case (as the unique
   * index on normalized names guarantees for two categories of one mode).
   */
  lemma RemovalLeavesNoReference(db: Db, mode: Scope, name: string, replacement: Option<string>)
    requires RemoveCategory(db, mode, name, replacement).Ok?
    ensures var after := RemoveCategory(db, mode, name, replacement).value.ledger.txs;
            (forall id | id in after :: !CarriesName(after[id], mode, name))
            <==> (forall id | id in db.ledger.txs :: !CarriesName(db.ledger.txs[id], mode, name))
                 || replacement.None? || !SameText(replacement.value, Trim(name))
  {
    hide SameText, Trim, Lower, MigrationChanges, CarriesName, Renamed, Uses;
    var txs := db.ledger.txs;
    var usage := set id | id in txs && Uses(txs[id], mode, name);
    forall id | id in txs ensures id in usage <==> CarriesName(txs[id], mode, name) {
      UsesMeans(txs[id], mode, name);
    }
    if usage != {} {
      var used := PickOne(usage);
      var ids := Affected(txs, mode, name, replacement.value);
      RenamedAway(txs, mode, name, replacement.value, used);
      assert RemoveCategory(db, mode, name, replacement).value.ledger.txs == Renamed(txs, ids, replacement.value) by {
        NothingRenamed(txs, replacement.value);
      }
    }
  }

  lemma NothingRenamed(txs: map<Id, Transaction>, newName: string)
    ensures Renamed(txs, {}, newName) == txs
  {
  }

  lemma RenamedAway(txs: map<Id, Transaction>, mode: Scope, name: string, newName: string, used: Id)
    requires used in txs && CarriesName(txs[used], mode, name)
    ensures var after := Renamed(txs, Affected(txs, mode, name, newName), newName);
            (forall id | id in after :: !CarriesName(after[id], mode, name)) <==> !SameText(newName, Trim(name))
  {
    hide SameText, Trim, CarriesName, Affected;
    forall id | id in txs { OldNameIsGone(txs, mode, name, newName, id); }
  }

  // ---- what no delta reports ----

  /**
   * A committed create keeps the destination its request carried, on a transfer
   * and on every other type (edits clear it). If the review's query counts the
   * transaction and that destination lies outside the review's accounts, the
   * live totals move by all it counts for, the reported deltas by nothing,
   * whatever the cutoff: a snapshot that was live is not any more.
   */
  lemma StrayCreateIsMissed(db: Db, c: CreateCommand, lens: Lens)
    requires CreateBody(db, c).Ok? && InQuery(lens, NewRevision(c.tx))
    requires c.tx.destinationId != NO_ID && c.tx.destinationId !in lens.accountIds
    ensures var before, after := db.ledger, CreateBody(db, c).value.ledger;
            var then_, now := Tally(Images(before.txs), Queried(lens)), Tally(Images(after.txs), Queried(lens));
            && c.tx.id in after.txs && after.txs[c.tx.id].destinationId == c.tx.destinationId
            && now == Plus(then_, RevisionTotals(NewRevision(c.tx)))
            && (c.tx.kind.Income? ==> now.income == then_.income + c.tx.amount)
            && now.count == then_.count + 1
            && forall cutoff :: DeltaSum(lens, after.events, cutoff) == DeltaSum(lens, before.events, cutoff)
  {
    var after := CreateBody(db, c).value.ledger;
    var tx := c.tx.(publicId := PrepareNumber(db.sequences, db.ledger.txs, c).value.1);
    assert after == RecordCreate(db.ledger, tx) && tx.id !in db.ledger.txs by {
      hide PrepareNumber, CreateBooks, NumberTaken, Numbered;
    }
    StrayRecord(db.ledger, tx, lens);
    hide CreateBody, RecordCreate, Tally, DeltaSum, InQuery, Images, PrepareNumber;
    assert RevisionTotals(NewRevision(tx)) == RevisionTotals(NewRevision(c.tx));
  }

  lemma StrayRecord(ledger: Ledger, tx: Transaction, lens: Lens)
    requires InQuery(lens, NewRevision(tx)) && tx.id !in ledger.txs
    requires tx.destinationId != NO_ID && tx.destinationId !in lens.accountIds
    ensures var after := RecordCreate(ledger, tx);
            && after.txs == ledger.txs[tx.id := tx]
            && Tally(Images(after.txs), Queried(lens))
               == Plus(Tally(Images(ledger.txs), Queried(lens)), RevisionTotals(NewRevision(tx)))
            && forall cutoff :: DeltaSum(lens, after.events, cutoff) == DeltaSum(lens, ledger.events, cutoff)
  {
    hide Tally, DeltaSum, InQuery, NewRevision, Images, Plus, RevisionTotals, RecordCreate;
    var r := NewRevision(tx);
    CreateAppends(ledger, tx);
    ImagesPut(ledger.txs, tx.id, tx);
    RevisionIds(tx);
    ImageKeys(ledger.txs);
    var e := Event(tx.id, ledger.version + 1, None, Some(r));
    StrayDestinationIsMissed(Images(ledger.txs), ledger.events, lens, r, e);
  }

  lemma CreateAppends(ledger: Ledger, tx: Transaction)
    ensures var after := RecordCreate(ledger, tx);
            && after.txs == ledger.txs[tx.id := tx]
            && after.events == ledger.events + [Event(tx.id, ledger.version + 1, None, Some(NewRevision(tx)))]
  {
    hide NewRevision;
  }

  lemma ImageKeys(txs: map<Id, Transaction>)
    ensures Images(txs).Keys == txs.Keys
  {
    hide NewRevision;
  }

  lemma RevisionIds(tx: Transaction)
    ensures NewRevision(tx).id == tx.id && NewRevision(tx).destinationId == tx.destinationId
  {
  }

  // ---- such creates exist ----

  /** One open account in one vault, and a second account in another vault. */
  function SmallWorkspace(): Db {
    var open_, other := Account(2, 3, 0, 0, Workspace, false, false), Account(5, 3, 0, 0, Workspace, false, false);
    Db(1, 3, Books(map[10 := open_, 11 := other], map[2 := Vault(3, 0, 0, false), 5 := Vault(3, 0, 0, false)]),
       Ledger(0, map[], [], []), map[], map[], map[])
  }

  /** A request on the first account that names the second one as its destination. */
  function Naming(kind: Kind): CreateCommand {
    CreateCommand(
      Transaction(7, 1, "", ScopeOf(kind, false), 2, 10, 11, 9, kind, 100, 3, "", "", "", "", NO_ID, [], [],
                  Workspace, 1, 1, None, false),
      true, NO_ID, NO_ID, 0)
  }

  /** A member's review of the first account's vault only. */
  const FIRST_ACCOUNT := Lens(1, 3, MemberView, 9, 0, 1, {2}, {10})

  /**
   * Both everyday members of the family are accepted: an income with a stray destination, and a
   * transfer out of scope.
   */
  lemma StrayCreatesExist(kind: Kind)
    requires kind.Income? || kind.Transfer?
    ensures var db, c := SmallWorkspace(), Naming(kind);
            && CreateBody(db, c).Ok? && InQuery(FIRST_ACCOUNT, NewRevision(c.tx))
            && c.tx.destinationId != NO_ID && c.tx.destinationId !in FIRST_ACCOUNT.accountIds
  {
    var db, c := SmallWorkspace(), Naming(kind);
    hide FormatNumber;
    var text := PrepareNumber(db.sequences, db.ledger.txs, c).value.1;
    SmallBooks(kind, text);
    hide CreateBooks;
  }

  lemma SmallBooks(kind: Kind, text: string)
    requires kind.Income? || kind.Transfer?
    ensures CreateBooks(SmallWorkspace().books, Naming(kind).tx.(publicId := text)).Ok?
  {
    var books, tx := SmallWorkspace().books, Naming(kind).tx.(publicId := text);
    var list := CreateAdjusts(tx, books.accounts, RepositorySourceDelta(tx).value);
    DistinctAccepts(books, list);
    hide ApplyAll;
  }
}
