/**
 * Snapshot isolation with write conflicts, and the theorem the whole ledger
 * rests on: every interleaving of transactions that commits is the serial run
 * of the same transactions in commit order.
 */
module Isolation {
  import opened Outcomes
  import opened Store
  import opened Balances
  import opened BalanceLaws
  import opened Checkpoints
  import opened Numbering
  import opened Categories
  import opened Operations
  import opened Locality
  import opened Repeatability

  // ---- the system ----

  datatype Entry = Entry(ops: seq<Op>, writes: Writes)

  /** A running transaction: the commit it reads its snapshot at, and what it will do. */
  datatype Session = Session(begin: nat, ops: seq<Op>)

  /** Every committed state in order, the commits between them, and the running transactions. */
  datatype System = System(history: seq<Db>, log: seq<Entry>, active: map<int, Session>)

  function PutAll<K, V>(current: map<K, V>, view: map<K, V>, keys: set<K>): map<K, V> {
    map k | k in current.Keys + view.Keys && (if k in keys then k in view else k in current) ::
      if k in keys then view[k] else current[k]
  }

  /** What a commit installs: its own version of the documents it wrote, everything else as committed by now. */
  function Overlay(current: Db, snapshot: Db, view: Db, w: Writes): Db
    requires |snapshot.ledger.events| <= |view.ledger.events| && |snapshot.ledger.reviews| <= |view.ledger.reviews|
  {
    Db(
      current.workspaceId, current.currency,
      Books(PutAll(current.books.accounts, view.books.accounts, w.accounts),
        PutAll(current.books.vaults, view.books.vaults, w.vaults)),
      Ledger(
        if w.ledger then view.ledger.version else current.ledger.version,
        PutAll(current.ledger.txs, view.ledger.txs, w.txs),
        current.ledger.events + view.ledger.events[|snapshot.ledger.events|..],
        current.ledger.reviews + view.ledger.reviews[|snapshot.ledger.reviews|..]),
      PutAll(current.sequences, view.sequences, w.sequences),
      PutAll(current.records, view.records, w.records),
      PutAll(current.sessions, view.sessions, w.sessions))
  }

  function Now(s: System): Db
    requires s.history != []
  {
    s.history[|s.history| - 1]
  }

  ghost predicate Begin(s: System, t: System, id: int, ops: seq<Op>) {
    && id !in s.active
    && (forall op | op in ops :: Transactional(op))
    && t == s.(active := s.active[id := Session(|s.log|, ops)])
  }

  /** First committer wins: no commit since the snapshot wrote a document this one writes. */
  ghost predicate Commit(s: System, t: System, id: int) {
    && id in s.active && s.history != [] && s.active[id].begin < |s.history|
    && var ops, begin, snapshot := s.active[id].ops, s.active[id].begin, s.history[s.active[id].begin];
    && ExecAll(snapshot, ops).Ok?
    && var view, w := ExecAll(snapshot, ops).value, WritesOfAll(snapshot, ops);
    && (forall k | begin <= k < |s.log| :: Disjoint(s.log[k].writes, w))
    && |snapshot.ledger.events| <= |view.ledger.events| && |snapshot.ledger.reviews| <= |view.ledger.reviews|
    && t == System(s.history + [Overlay(Now(s), snapshot, view, w)], s.log + [Entry(ops, w)], s.active - {id})
  }

  /** Errors, write conflicts and client failures all end a transaction without effect; a retry begins anew. */
  ghost predicate Abort(s: System, t: System, id: int) {
    t == s.(active := s.active - {id})
  }

  /** A single-document update outside any transaction. */
  ghost predicate Immediate(s: System, t: System, op: Op) {
    && s.history != [] && !Transactional(op) && Exec(Now(s), op).Ok?
    && t == System(s.history + [Exec(Now(s), op).value], s.log + [Entry([op], WritesOfAll(Now(s), [op]))], s.active)
  }

  ghost predicate Step(s: System, t: System) {
    || (exists id, ops :: Begin(s, t, id, ops))
    || (exists id :: Commit(s, t, id))
    || (exists id :: Abort(s, t, id))
    || (exists op :: Immediate(s, t, op))
  }

  function Start(db: Db): System {
    System([db], [], map[])
  }

  /** A behaviour: any finite interleaving of steps. */
  ghost predicate Behaviour(trace: seq<System>) {
    && trace != []
    && |trace[0].history| == 1 && trace[0] == Start(trace[0].history[0])
    && forall i | 0 < i < |trace| :: Step(trace[i - 1], trace[i])
  }

  // ---- the claim ----

  /** Each committed state is the previous one with the committed transaction run on it alone. */
  ghost predicate Serial(s: System) {
    && |s.history| == |s.log| + 1
    && forall i | 0 <= i < |s.log| ::
        && ExecAll(s.history[i], s.log[i].ops) == Ok(s.history[i + 1])
        && s.log[i].writes == WritesOfAll(s.history[i], s.log[i].ops)
  }

  ghost predicate Wellformed(s: System) {
    && Serial(s)
    && (forall i | 0 <= i < |s.history| :: WellKeyed(s.history[i]))
    && (forall id | id in s.active ::
          s.active[id].begin <= |s.log| && forall op | op in s.active[id].ops :: Transactional(op))
  }

  // ---- relations compose ----

  lemma QuietJoin(a: Db, b: Db, c: Db)
    requires Quiet(a, b) && Quiet(b, c)
    ensures Quiet(a, c)
  {
    hide Core;
    forall s: Scope ensures Counter(a.sequences, s).next <= Counter(c.sequences, s).next {
      assert Counter(a.sequences, s).next <= Counter(b.sequences, s).next <= Counter(c.sequences, s).next;
    }
  }

  lemma AgreeJoin(a: Db, b: Db, c: Db, w: Writes)
    requires Agree(a, b, w) && Agree(b, c, w)
    ensures Agree(a, c, w)
  {
    if w.ledger {
      QuietJoin(a, b, c);
    }
    hide Quiet;
  }

  lemma FrameJoin(a: Db, b: Db, c: Db, v: Writes, w: Writes)
    requires Frame(a, b, v) && Frame(b, c, w)
    ensures Frame(a, c, Union(v, w))
  {
    if !v.ledger && !w.ledger {
      QuietJoin(a, b, c);
    }
    hide Quiet;
  }

  /** A step that writes none of the documents of `w` leaves them agreeing. */
  lemma FrameAgrees(a: Db, b: Db, v: Writes, w: Writes)
    requires Frame(a, b, v) && Disjoint(v, w)
    ensures Agree(a, b, w)
  {
    hide Quiet;
  }

  lemma AgreeAfter(d1: Db, d2: Db, v1: Db, v2: Db, v: Writes, w: Writes)
    requires Agree(d1, d2, Union(v, w)) && Repeated(d1, d2, v1, v2, v) && Frame(d1, v1, v) && Frame(d2, v2, v)
    ensures Agree(v1, v2, w)
  {
    hide Quiet;
  }

  lemma AgreeBoth(v1: Db, v2: Db, f1: Db, f2: Db, v: Writes, w: Writes)
    requires Agree(v1, v2, v) && Repeated(v1, v2, f1, f2, w) && Frame(v1, f1, w) && Frame(v2, f2, w)
    ensures Agree(f1, f2, Union(v, w))
  {
    hide Quiet;
  }

  lemma ContinuesAfter(d1: Db, d2: Db, v1: Db, v2: Db, w: Writes)
    requires Continues(d1, d2) && Continues(d1, v1) && Continues(d2, v2) && Frame(d1, v1, w) && Agree(v1, v2, w)
    ensures Continues(v1, v2)
  {
    hide Quiet;
    forall id | id in v1.books.accounts
      ensures id in v2.books.accounts && v2.books.accounts[id].vaultId == v1.books.accounts[id].vaultId
              && v2.books.accounts[id].currency == v1.books.accounts[id].currency
    {
      if id in w.accounts {
        assert Get(v1.books.accounts, id) == Get(v2.books.accounts, id);
      } else {
        assert Get(d1.books.accounts, id) == Get(v1.books.accounts, id);
      }
    }
    forall id | id in v1.books.vaults
      ensures id in v2.books.vaults && v2.books.vaults[id].currency == v1.books.vaults[id].currency
    {
      if id in w.vaults {
        assert Get(v1.books.vaults, id) == Get(v2.books.vaults, id);
      } else {
        assert Get(d1.books.vaults, id) == Get(v1.books.vaults, id);
      }
    }
  }

  // ---- every operation continues the accounts and keeps documents under their keys ----

  lemma MovedContinues(db: Db, books: Books, tx: Transaction, sign: int)
    requires books == Moved(db.books, tx, sign)
    ensures Continues(db, db.(books := books)) && (VaultsNamed(db.books) ==> VaultsNamed(books))
  {
    hide Effect;
  }

  lemma CreateContinues(db: Db, c: CreateCommand)
    requires WellKeyed(db) && CreateBody(db, c).Ok?
    ensures Continues(db, CreateBody(db, c).value) && WellKeyed(CreateBody(db, c).value)
  {
    hide Moved, CreateBooks, PrepareNumber, NumberTaken;
    var tx := c.tx.(publicId := PrepareNumber(db.sequences, db.ledger.txs, c).value.1);
    CreateBooksMeans(db.books, tx);
    MovedContinues(db, CreateBooks(db.books, tx).value, tx, 1);
  }

  lemma EditContinues(db: Db, id: Id, input: Transaction)
    requires WellKeyed(db) && EditBody(db, id, input).Ok?
    ensures Continues(db, EditBody(db, id, input).value) && WellKeyed(EditBody(db, id, input).value)
  {
    hide Moved, EditBooks, EditedVersion, RenumberCounters, ChangeBooks;
    var current := db.ledger.txs[id];
    var next := EditedVersion(db.books.accounts, current, input).value;
    EditedKeepsIdentity(db.books.accounts, current, input);
    EditBooksMeans(db.books, current, next);
    MovedContinues(db, Moved(db.books, current, -1), current, -1);
    MovedContinues(db.(books := Moved(db.books, current, -1)), EditBooks(db.books, current, next).value, next, 1);
  }

  lemma DeleteContinues(db: Db, id: Id)
    requires WellKeyed(db) && DeleteBody(db, id).Ok?
    ensures Continues(db, DeleteBody(db, id).value) && WellKeyed(DeleteBody(db, id).value)
  {
    hide Moved, ChangeBooks;
    ChangeBooksMeans(db.books, db.ledger.txs[id], true);
    MovedContinues(db, ChangeBooks(db.books, db.ledger.txs[id], true).value, db.ledger.txs[id], -1);
  }

  lemma OpeningContinues(db: Db, op: Op)
    requires WellKeyed(db) && op.SetOpening? && Exec(db, op).Ok?
    ensures Continues(db, Exec(db, op).value) && WellKeyed(Exec(db, op).value)
  {
    hide ApplyAll, Net;
    var account := db.books.accounts[op.accountId];
    ApplyAllShifts(db.books, OpeningAdjusts(account, db.books.vaults[account.vaultId], op.accountId,
      op.opening - account.opening));
  }

  lemma ExecContinues(db: Db, op: Op)
    requires WellKeyed(db) && Exec(db, op).Ok?
    ensures Continues(db, Exec(db, op).value) && WellKeyed(Exec(db, op).value)
  {
    hide CreateBody, EditBody, DeleteBody, OpeningBody, ReviewAllowed, MigrationChanges, Numbered, Affected;
    match op {
      case Create(c) => CreateContinues(db, c);
      case Edit(id, input) => EditContinues(db, id, input);
      case Delete(id) => DeleteContinues(db, id);
      case SetOpening(_, _) => OpeningContinues(db, op);
      case _ =>
    }
  }

  // ---- transactions of several operations ----

  lemma {:induction false} AllFrames(db: Db, ops: seq<Op>)
    requires WellKeyed(db) && ExecAll(db, ops).Ok?
    ensures Frame(db, ExecAll(db, ops).value, WritesOfAll(db, ops))
    ensures Continues(db, ExecAll(db, ops).value) && WellKeyed(ExecAll(db, ops).value)
    decreases |ops|
  {
    hide Frame, Exec, WritesOf, WellKeyed;
    if ops == [] {
      NothingFrames(db);
    } else {
      var next := Exec(db, ops[0]).value;
      ExecFrames(db, ops[0]);
      ExecContinues(db, ops[0]);
      AllFrames(next, ops[1..]);
      FrameJoin(db, next, ExecAll(db, ops).value, WritesOf(db, ops[0]), WritesOfAll(next, ops[1..]));
    }
  }

  lemma NothingFrames(db: Db)
    ensures Frame(db, db, NO_WRITES)
  {
    hide Core;
  }

  lemma {:induction false} AllRepeats(d1: Db, d2: Db, ops: seq<Op>)
    requires WellKeyed(d1) && WellKeyed(d2) && Continues(d1, d2) && ExecAll(d1, ops).Ok?
    requires forall op | op in ops :: Transactional(op)
    requires Agree(d1, d2, WritesOfAll(d1, ops))
    ensures ExecAll(d2, ops).Ok? && WritesOfAll(d2, ops) == WritesOfAll(d1, ops)
    ensures Repeated(d1, d2, ExecAll(d1, ops).value, ExecAll(d2, ops).value, WritesOfAll(d1, ops))
    decreases |ops|
  {
    if ops != [] {
      var op, rest := ops[0], ops[1..];
      var v1 := Exec(d1, op).value;
      var w, later := WritesOf(d1, op), WritesOfAll(v1, rest);
      hide Exec, WritesOf, Continues, WellKeyed, Quiet;
      assert Agree(d1, d2, w);
      ExecRepeats(d1, d2, op);
      var v2 := Exec(d2, op).value;
      ExecFrames(d1, op);
      ExecFrames(d2, op);
      ExecContinues(d1, op);
      ExecContinues(d2, op);
      hide Agree, Frame;
      ContinuesAfter(d1, d2, v1, v2, w);
      AgreeAfter(d1, d2, v1, v2, w, later);
      AllRepeats(v1, v2, rest);
      AllFrames(v1, rest);
      AllFrames(v2, rest);
      AgreeBoth(v1, v2, ExecAll(v1, rest).value, ExecAll(v2, rest).value, w, later);
    }
  }

  // ---- the overlay is the repeated run ----

  lemma PutAllIs<K(!new), V(!new)>(current: map<K, V>, view: map<K, V>, result: map<K, V>, keys: set<K>)
    requires SameBut(current, result, keys) && AgreeOn(view, result, keys)
    ensures PutAll(current, view, keys) == result
  {
    var p := PutAll(current, view, keys);
    forall k
      ensures k in p <==> k in result
      ensures k in p ==> p[k] == result[k]
    {
      if k in keys {
        assert Get(view, k) == Get(result, k);
      } else {
        assert Get(current, k) == Get(result, k);
      }
    }
  }

  lemma OverlayIsRepeat(d1: Db, d2: Db, v1: Db, v2: Db, w: Writes)
    requires Agree(d1, d2, w) && Agree(v1, v2, w) && Frame(d1, v1, w) && Frame(d2, v2, w)
    ensures Overlay(d2, d1, v1, w) == v2
  {
    hide Core, Advances;
    PutAllIs(d2.books.accounts, v1.books.accounts, v2.books.accounts, w.accounts);
    PutAllIs(d2.books.vaults, v1.books.vaults, v2.books.vaults, w.vaults);
    PutAllIs(d2.ledger.txs, v1.ledger.txs, v2.ledger.txs, w.txs);
    PutAllIs(d2.sequences, v1.sequences, v2.sequences, w.sequences);
    PutAllIs(d2.records, v1.records, v2.records, w.records);
    PutAllIs(d2.sessions, v1.sessions, v2.sessions, w.sessions);
    hide AgreeOn, SameBut, PutAll;
    assert v2.ledger.events == d2.ledger.events + v1.ledger.events[|d1.ledger.events|..];
    assert v2.ledger.reviews == d2.ledger.reviews + v1.ledger.reviews[|d1.ledger.reviews|..];
  }

  // ---- the theorem ----

  lemma ContinuesJoin(a: Db, b: Db, c: Db)
    requires Continues(a, b) && Continues(b, c)
    ensures Continues(a, c)
  {
  }

  /** Across commits that wrote none of a write set's documents, the committed states agree on it. */
  lemma {:induction false} AgreeAcross(s: System, i: nat, j: nat, w: Writes)
    requires Wellformed(s) && i <= j <= |s.log|
    requires forall k | i <= k < j :: Disjoint(s.log[k].writes, w)
    ensures Agree(s.history[i], s.history[j], w) && Continues(s.history[i], s.history[j])
    decreases j
  {
    hide Agree, Frame, WellKeyed, ExecAll, WritesOfAll, Disjoint;
    if i == j {
      SelfAgrees(s.history[i], w);
    } else {
      AgreeAcross(s, i, j - 1, w);
      var last := j - 1;
      assert ExecAll(s.history[last], s.log[last].ops) == Ok(s.history[last + 1]);
      AllFrames(s.history[j - 1], s.log[j - 1].ops);
      FrameAgrees(s.history[j - 1], s.history[j], s.log[j - 1].writes, w);
      AgreeJoin(s.history[i], s.history[j - 1], s.history[j], w);
      ContinuesJoin(s.history[i], s.history[j - 1], s.history[j]);
    }
  }

  lemma SelfAgrees(db: Db, w: Writes)
    ensures Agree(db, db, w) && Continues(db, db)
  {
    hide Core;
  }

  lemma CommitKeeps(s: System, t: System, id: int)
    requires Wellformed(s) && Commit(s, t, id)
    ensures Wellformed(t)
  {
    hide Agree, Frame, WellKeyed, ExecAll, WritesOfAll, Disjoint, Overlay, Continues;
    var x := s.active[id];
    var snapshot, current := s.history[x.begin], Now(s);
    var view, w := ExecAll(snapshot, x.ops).value, WritesOfAll(snapshot, x.ops);
    AgreeAcross(s, x.begin, |s.log|, w);
    AllRepeats(snapshot, current, x.ops);
    AllFrames(snapshot, x.ops);
    AllFrames(current, x.ops);
    OverlayIsRepeat(snapshot, current, view, ExecAll(current, x.ops).value, w);
  }

  lemma ImmediateKeeps(s: System, t: System, op: Op)
    requires Wellformed(s) && Immediate(s, t, op)
    ensures Wellformed(t)
  {
    hide WellKeyed, Exec, WritesOf;
    assert ExecAll(Exec(Now(s), op).value, [op][1..]) == Ok(Exec(Now(s), op).value);
    ExecContinues(Now(s), op);
    hide ExecAll, WritesOfAll;
  }

  lemma StepKeeps(s: System, t: System)
    requires Wellformed(s) && Step(s, t)
    ensures Wellformed(t)
  {
    hide Commit, Immediate, ExecAll, WritesOfAll, WellKeyed;
    if id, ops :| Begin(s, t, id, ops) {
    } else if id :| Commit(s, t, id) {
      CommitKeeps(s, t, id);
    } else if id :| Abort(s, t, id) {
    } else {
      var op :| Immediate(s, t, op);
      ImmediateKeeps(s, t, op);
    }
  }

  /**
   * Serializability: in every behaviour of the snapshot-isolated system, at
   * every point, the committed states are exactly those of the serial run of
   * the committed transactions in commit order.
   */
  lemma {:induction false} InterleavingsAreSerial(trace: seq<System>, n: nat)
    requires Behaviour(trace) && WellKeyed(trace[0].history[0]) && n < |trace|
    ensures Wellformed(trace[n])
    ensures trace[n].history[0] == trace[0].history[0]
  {
    hide Step, WellKeyed, ExecAll, WritesOfAll;
    if n > 0 {
      InterleavingsAreSerial(trace, n - 1);
      StepKeeps(trace[n - 1], trace[n]);
      StepExtends(trace[n - 1], trace[n]);
    }
  }

  lemma StepExtends(s: System, t: System)
    requires Wellformed(s) && Step(s, t)
    ensures s.history <= t.history
  {
    hide ExecAll, WritesOfAll, Exec, Overlay, WellKeyed, Disjoint;
  }
}
