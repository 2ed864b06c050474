/**
 * The startup backfill of transaction numbers: what any interrupted run leaves
 * behind, and what rerunning it to completion guarantees.
 */
module Backfill {
  import opened Outcomes
  import opened Store
  import opened Numbering
  import opened Picks

  // ---- stored rows and counters ----

  /** What the migration reads of a transaction; an invalid stored scope reads as none. */
  datatype Row = Row(workspaceId: Id, kind: Kind, hasSplits: bool, storedScope: Option<Scope>, publicId: string)

  datatype SequenceKey = SequenceKey(workspaceId: Id, scope: Scope)

  datatype State = State(rows: map<Id, Row>, sequences: map<SequenceKey, Sequence>)

  /** `transactionSequenceMigrationScope` */
  function MigrationScope(r: Row): Scope {
    if r.storedScope.Some? then r.storedScope.value else ScopeOf(r.kind, r.hasSplits)
  }

  function KeyOf(r: Row): SequenceKey {
    SequenceKey(r.workspaceId, MigrationScope(r))
  }

  predicate Eligible(id: Id, r: Row) {
    id != NO_ID && r.workspaceId != NO_ID
  }

  function NextOf(s: State, key: SequenceKey): int {
    if key in s.sequences then s.sequences[key].next else DEFAULT_SEQUENCE.next
  }

  /** Stored counters print at most eighteen digits. */
  ghost predicate Printable(s: State) {
    forall key | key in s.sequences :: s.sequences[key].digits <= MAX_DIGITS
  }

  // ---- progress ----

  ghost predicate Kept(a: State, s: State) {
    && a.rows.Keys == s.rows.Keys
    && forall id | id in a.rows ::
        && s.rows[id] == a.rows[id].(storedScope := s.rows[id].storedScope, publicId := s.rows[id].publicId)
        && KeyOf(s.rows[id]) == KeyOf(a.rows[id])
        && (s.rows[id].storedScope == a.rows[id].storedScope
            || (a.rows[id].storedScope == None
                && s.rows[id].storedScope == Some(ScopeOf(a.rows[id].kind, a.rows[id].hasSplits))))
        && (a.rows[id].publicId != "" ==> s.rows[id].publicId == a.rows[id].publicId)
  }

  ghost predicate Raised(a: State, s: State) {
    && a.sequences.Keys <= s.sequences.Keys
    && (forall key | key in a.sequences :: s.sequences[key] == a.sequences[key].(next := s.sequences[key].next))
    && (forall key | key in s.sequences && key !in a.sequences ::
          s.sequences[key] == Sequence(true, s.sequences[key].next, 4))
    && forall key: SequenceKey :: NextOf(a, key) <= NextOf(s, key)
  }

  ghost predicate Assigned(a: State, s: State, id: Id) {
    id in a.rows && id in s.rows && a.rows[id].publicId == "" && s.rows[id].publicId != ""
  }

  /** Larger than every number the rows of a scope carry: above their high-water mark. */
  ghost predicate AboveAll(rows: map<Id, Row>, key: SequenceKey, n: int) {
    forall id | id in rows && Eligible(id, rows[id]) && KeyOf(rows[id]) == key && ParseNumber(rows[id].publicId).Ok? ::
      ParseNumber(rows[id].publicId).value < n
  }

  /** The minimum width of a scope's numbers, which the migration never changes. */
  function WidthOf(s: State, key: SequenceKey): int {
    if key in s.sequences then s.sequences[key].digits else 4
  }

  /**
   * A newly assigned number comes from the new range of its row's own counter,
   * above the prior high-water mark, and is written in that counter's width.
   */
  ghost predicate Fresh(a: State, s: State, id: Id)
    requires Assigned(a, s, id)
  {
    var key, n := KeyOf(a.rows[id]), ParseNumber(s.rows[id].publicId);
    && id != NO_ID && a.rows[id].workspaceId != NO_ID
    && s.rows[id].storedScope.Some? && key == SequenceKey(a.rows[id].workspaceId, s.rows[id].storedScope.value)
    && n.Ok? && NextOf(a, key) <= n.value < NextOf(s, key) && AboveAll(a.rows, key, n.value)
    && IsNumberText(s.rows[id].publicId, n.value, WidthOf(a, key))
  }

  ghost predicate Distinct(a: State, s: State) {
    forall i, j | Assigned(a, s, i) && Assigned(a, s, j) && i != j && KeyOf(a.rows[i]) == KeyOf(a.rows[j]) ::
      ParseNumber(s.rows[i].publicId) != ParseNumber(s.rows[j].publicId)
  }

  /** All that any number of interrupted runs may have done to `a`. */
  ghost predicate Progress(a: State, s: State) {
    Kept(a, s) && Raised(a, s) && (forall id | Assigned(a, s, id) :: Fresh(a, s, id)) && Distinct(a, s)
  }

  /** Every eligible row carries its scope and an identifier. */
  ghost predicate Complete(s: State) {
    forall id | id in s.rows && id != NO_ID && s.rows[id].workspaceId != NO_ID ::
      s.rows[id].publicId != "" && s.rows[id].storedScope.Some?
  }

  lemma ProgressStarts(a: State)
    ensures Progress(a, a)
  {
    hide ParseNumber;
  }

  lemma KeptJoin(a: State, b: State, c: State)
    requires Kept(a, b) && Kept(b, c)
    ensures Kept(a, c)
  {
    hide KeyOf;
  }

  lemma RaisedJoin(a: State, b: State, c: State)
    requires Raised(a, b) && Raised(b, c)
    ensures Raised(a, c)
  {
    forall key: SequenceKey ensures NextOf(a, key) <= NextOf(c, key) {
      assert NextOf(a, key) <= NextOf(b, key) <= NextOf(c, key);
    }
  }

  lemma FreshJoin(a: State, b: State, c: State, id: Id)
    requires Progress(a, b) && Progress(b, c) && Assigned(a, c, id)
    ensures Fresh(a, c, id)
  {
    hide ParseNumber, KeyOf, Distinct;
    var key := KeyOf(a.rows[id]);
    assert NextOf(a, key) <= NextOf(b, key) <= NextOf(c, key);
    if Assigned(a, b, id) {
      assert Fresh(a, b, id);
    } else {
      assert Assigned(b, c, id) && Fresh(b, c, id);
      var n := ParseNumber(c.rows[id].publicId).value;
      forall x | x in a.rows && Eligible(x, a.rows[x]) && KeyOf(a.rows[x]) == key && ParseNumber(a.rows[x].publicId).Ok?
        ensures ParseNumber(a.rows[x].publicId).value < n
      {
        EmptyIsNoNumber(a.rows[x].publicId);
        assert b.rows[x].publicId == a.rows[x].publicId && KeyOf(b.rows[x]) == key;
      }
    }
  }

  lemma EmptyIsNoNumber(text: string)
    requires ParseNumber(text).Ok?
    ensures text != ""
  {
  }

  lemma DistinctJoin(a: State, b: State, c: State)
    requires Progress(a, b) && Progress(b, c)
    ensures Distinct(a, c)
  {
    hide ParseNumber, KeyOf, AboveAll;
    forall i, j | Assigned(a, c, i) && Assigned(a, c, j) && i != j && KeyOf(a.rows[i]) == KeyOf(a.rows[j])
      ensures ParseNumber(c.rows[i].publicId) != ParseNumber(c.rows[j].publicId)
    {
      if Assigned(a, b, i) && !Assigned(a, b, j) {
        assert Fresh(a, b, i) && Assigned(b, c, j) && Fresh(b, c, j);
      } else if !Assigned(a, b, i) && Assigned(a, b, j) {
        assert Fresh(a, b, j) && Assigned(b, c, i) && Fresh(b, c, i);
      } else if !Assigned(a, b, i) {
        assert Assigned(b, c, i) && Assigned(b, c, j);
      }
    }
  }

  /** Runs compose: whatever was interrupted, what the next run does is again progress from the start. */
  lemma ProgressJoin(a: State, b: State, c: State)
    requires Progress(a, b) && Progress(b, c)
    ensures Progress(a, c)
  {
    hide KeyOf, Fresh, Distinct;
    KeptJoin(a, b, c);
    RaisedJoin(a, b, c);
    forall id | Assigned(a, c, id) ensures Fresh(a, c, id) { FreshJoin(a, b, c, id); }
    DistinctJoin(a, b, c);
  }

  // ---- single writes ----

  /** Persisting a row's scope. */
  lemma ScopeStep(a: State, s: State, id: Id)
    requires Progress(a, s) && id in s.rows
    ensures Progress(a, s.(rows := s.rows[id := s.rows[id].(storedScope := Some(MigrationScope(s.rows[id])))]))
  {
    hide ParseNumber, AboveAll;
    var t := s.(rows := s.rows[id := s.rows[id].(storedScope := Some(MigrationScope(s.rows[id])))]);
    assert forall x | x in s.rows :: t.rows[x].publicId == s.rows[x].publicId;
    assert forall x :: Assigned(a, t, x) <==> Assigned(a, s, x);
    forall x | Assigned(a, t, x) ensures Fresh(a, t, x) { assert Fresh(a, s, x); }
  }

  /** Inserting, raising or incrementing a counter. */
  lemma CounterStep(a: State, s: State, t: State)
    requires Progress(a, s) && t.rows == s.rows && Raised(s, t)
    ensures Progress(a, t)
  {
    hide ParseNumber, AboveAll, KeyOf;
    RaisedJoin(a, s, t);
    assert forall x :: Assigned(a, t, x) <==> Assigned(a, s, x);
    forall x | Assigned(a, t, x) ensures Fresh(a, t, x) {
      assert Fresh(a, s, x);
      assert NextOf(s, KeyOf(a.rows[x])) <= NextOf(t, KeyOf(a.rows[x]));
    }
  }

  /** Storing a number the counter has just handed out. */
  lemma AssignStep(a: State, s: State, id: Id, text: string, n: int)
    requires Progress(a, s) && id in s.rows && s.rows[id].publicId == "" && Eligible(id, s.rows[id])
    requires ParseNumber(text) == Ok(n) && IsNumberText(text, n, WidthOf(a, KeyOf(s.rows[id])))
    requires var key := KeyOf(s.rows[id]);
             && NextOf(a, key) <= n < NextOf(s, key) && AboveAll(a.rows, key, n)
             && forall x | Assigned(a, s, x) && KeyOf(a.rows[x]) == key :: ParseNumber(s.rows[x].publicId).value < n
    ensures Progress(a, s.(rows := s.rows[id := s.rows[id].(publicId := text,
        storedScope := Some(MigrationScope(s.rows[id])))]))
  {
    EmptyIsNoNumber(text);
    hide ParseNumber, AboveAll;
    var t := s.(rows := s.rows[id := s.rows[id].(publicId := text, storedScope := Some(MigrationScope(s.rows[id])))]);
    assert forall x | x in s.rows && x != id :: t.rows[x] == s.rows[x];
    assert KeyOf(t.rows[id]) == KeyOf(s.rows[id]);
    hide KeyOf;
    assert Kept(a, t);
    forall x | Assigned(a, t, x) ensures Fresh(a, t, x) {
      if x != id { assert Assigned(a, s, x) && Fresh(a, s, x); }
    }
    assert Distinct(a, t) by {
      forall i, j | Assigned(a, t, i) && Assigned(a, t, j) && i != j && KeyOf(a.rows[i]) == KeyOf(a.rows[j])
        ensures ParseNumber(t.rows[i].publicId) != ParseNumber(t.rows[j].publicId)
      {
        if i == id {
          assert Assigned(a, s, j) && Fresh(a, s, j);
        } else if j == id {
          assert Assigned(a, s, i) && Fresh(a, s, i);
        } else {
          assert Assigned(a, s, i) && Assigned(a, s, j);
        }
      }
    }
  }

  // ---- the migration ----

  /** The scan's result: for every eligible row its scope, with at least the row's number. */
  ghost predicate Covers(highWater: map<SequenceKey, int>, id: Id, r: Row) {
    Eligible(id, r) ==>
      && r.storedScope.Some?
      && KeyOf(r) in highWater && highWater[KeyOf(r)] >= 0
      && (r.publicId != "" ==> ParseNumber(r.publicId).Ok? && ParseNumber(r.publicId).value <= highWater[KeyOf(r)])
  }

  /** Some row of the scope carries the number. */
  ghost predicate Reached(rows: map<Id, Row>, key: SequenceKey, n: int) {
    exists id | id in rows :: KeyOf(rows[id]) == key && ParseNumber(rows[id].publicId) == Ok(n)
  }

  lemma ReachedHere(rows: map<Id, Row>, id: Id, n: int)
    requires id in rows && ParseNumber(rows[id].publicId) == Ok(n)
    ensures Reached(rows, KeyOf(rows[id]), n)
  {
  }

  /** Persisting a row's scope changes neither its key nor what any row carries. */
  lemma ScopeChangesLittle(rows: map<Id, Row>, id: Id)
    requires id in rows
    ensures var after := rows[id := rows[id].(storedScope := Some(MigrationScope(rows[id])))];
            && KeyOf(after[id]) == KeyOf(rows[id])
            && forall key, n :: Reached(rows, key, n) ==> Reached(after, key, n)
  {
    hide ParseNumber;
    var after := rows[id := rows[id].(storedScope := Some(MigrationScope(rows[id])))];
    forall key, n | Reached(rows, key, n) ensures Reached(after, key, n) {
      var x :| x in rows && KeyOf(rows[x]) == key && ParseNumber(rows[x].publicId) == Ok(n);
      assert KeyOf(after[x]) == key && after[x].publicId == rows[x].publicId;
    }
  }

  ghost predicate Seeded(s: State, key: SequenceKey, mark: int) {
    key in s.sequences && s.sequences[key].next > mark
  }

  ghost predicate AllSeeded(s: State, highWater: map<SequenceKey, int>) {
    forall key | key in highWater :: Seeded(s, key, highWater[key])
  }

  const BAD_IDENTIFIER := InvalidField("transaction_id")

  /** A row still without an identifier whose scope has none left. */
  ghost predicate Starved(s: State, id: Id) {
    && id in s.rows && Eligible(id, s.rows[id]) && s.rows[id].publicId == ""
    && KeyOf(s.rows[id]) in s.sequences && !(1 <= s.sequences[KeyOf(s.rows[id])].next <= 999_999_999_999_999)
  }

  ghost predicate Invalid(id: Id, r: Row) {
    Eligible(id, r) && r.publicId != "" && ParseNumber(r.publicId).Err?
  }

  lemma KeptEligible(from: State, s: State)
    requires Progress(from, s)
    ensures s.rows.Keys == from.rows.Keys
    ensures forall id | id in s.rows ::
              && Eligible(id, s.rows[id]) == Eligible(id, from.rows[id]) && KeyOf(s.rows[id]) == KeyOf(from.rows[id])
              && (from.rows[id].storedScope.Some? ==> s.rows[id].storedScope.Some?)
  {
    hide ParseNumber, AboveAll, Distinct;
  }

  lemma RowIsSeeded(from: State, s: State, highWater: map<SequenceKey, int>, id: Id)
    requires Progress(from, s) && id in s.rows && Eligible(id, s.rows[id])
    requires (forall x | x in from.rows :: Covers(highWater, x, from.rows[x])) && AllSeeded(s, highWater)
    ensures var key := KeyOf(s.rows[id]); key in highWater && highWater[key] >= 0 && Seeded(s, key, highWater[key])
  {
    KeptEligible(from, s);
    hide ParseNumber, Progress, KeyOf;
    assert Covers(highWater, id, from.rows[id]);
  }

  lemma SeededStays(before: State, after: State, highWater: map<SequenceKey, int>)
    requires AllSeeded(before, highWater) && Raised(before, after)
    ensures AllSeeded(after, highWater)
  {
    forall key | key in highWater ensures Seeded(after, key, highWater[key]) {
      assert Seeded(before, key, highWater[key]);
      assert NextOf(before, key) <= NextOf(after, key);
    }
  }

  /** The number a seeded counter hands out next is above the high-water mark and above everything assigned so far. */
  lemma NumberIsNew(from: State, s: State, highWater: map<SequenceKey, int>, key: SequenceKey)
    requires Progress(from, s) && key in highWater && AllSeeded(s, highWater)
    requires forall x | x in from.rows :: Covers(highWater, x, from.rows[x])
    ensures key in s.sequences && NextOf(from, key) <= NextOf(s, key)
    ensures s.sequences[key].digits == WidthOf(from, key)
    ensures AboveAll(from.rows, key, NextOf(s, key))
    ensures forall x | Assigned(from, s, x) && KeyOf(from.rows[x]) == key :: ParseNumber(s.rows[x].publicId).Ok?
              && ParseNumber(s.rows[x].publicId).value < NextOf(s, key)
  {
    hide ParseNumber, KeyOf, Distinct, Kept;
    assert Seeded(s, key, highWater[key]);
    forall id | id in from.rows && Eligible(id, from.rows[id]) && KeyOf(from.rows[id]) == key
      && ParseNumber(from.rows[id].publicId).Ok?
      ensures ParseNumber(from.rows[id].publicId).value < NextOf(s, key)
    {
      EmptyIsNoNumber(from.rows[id].publicId);
      assert Covers(highWater, id, from.rows[id]);
    }
    forall x | Assigned(from, s, x) && KeyOf(from.rows[x]) == key
      ensures ParseNumber(s.rows[x].publicId).Ok? && ParseNumber(s.rows[x].publicId).value < NextOf(s, key)
    {
      assert Fresh(from, s, x);
    }
  }

  class Migration {
    var rows: map<Id, Row>
    var sequences: map<SequenceKey, Sequence>
    /** How many more writes this process survives. */
    var writesLeft: nat

    function Now(): State
      reads this`rows, this`sequences
    {
      State(rows, sequences)
    }

    method Write() returns (r: Result<()>)
      modifies this`writesLeft
      ensures if old(writesLeft) > 0 then r == Ok(()) && writesLeft == old(writesLeft) - 1
              else r == Err(Interrupted) && writesLeft == 0
    {
      if writesLeft == 0 {
        return Err(Interrupted);
      }
      writesLeft := writesLeft - 1;
      return Ok(());
    }

    /** `scanTransactionSequenceHighWater` */
    method ScanHighWater(order: seq<Id>, ghost from: State) returns (r: Result<map<SequenceKey, int>>)
      requires Progress(from, Now()) && forall id | id in rows :: id in order
      modifies this`rows, this`writesLeft
      ensures Progress(from, Now())
      ensures r.Ok? ==> forall id | id in rows :: Covers(r.value, id, rows[id])
      ensures r.Ok? ==> forall key | key in r.value && r.value[key] != 0 :: Reached(rows, key, r.value[key])
      ensures r.Ok? ==> |r.value| <= |order| && writesLeft >= old(writesLeft) - |order|
      ensures r.Err? ==>
                || (r.error == Interrupted && old(writesLeft) < |order|)
                || (r.error == BAD_IDENTIFIER && exists id | id in rows :: Invalid(id, rows[id]))
    {
      hide Progress, ParseNumber, KeyOf, Reached, MigrationScope;
      var highWater: map<SequenceKey, int> := map[];
      for i := 0 to |order|
        invariant Progress(from, Now()) && rows.Keys == old(rows).Keys
        invariant forall j | 0 <= j < i && order[j] in rows :: Covers(highWater, order[j], rows[order[j]])
        invariant forall key | key in highWater :: highWater[key] >= 0
        invariant forall key | key in highWater && highWater[key] != 0 :: Reached(rows, key, highWater[key])
        invariant |highWater| <= i && writesLeft >= old(writesLeft) - i
      {
        var id := order[i];
        if id in rows && Eligible(id, rows[id]) {
          var key := KeyOf(rows[id]);
          if key !in highWater {
            highWater := highWater[key := 0];
          }
          if rows[id].storedScope != Some(MigrationScope(rows[id])) {
            var written :- Write();
            ScopeStep(from, Now(), id);
            ScopeChangesLittle(rows, id);
            rows := rows[id := rows[id].(storedScope := Some(MigrationScope(rows[id])))];
          }
          if rows[id].publicId != "" {
            var number := ParseNumber(rows[id].publicId);
            if number.Err? {
              assert Invalid(id, rows[id]);
              return Err(BAD_IDENTIFIER);
            }
            if number.value > highWater[key] {
              ReachedHere(rows, id, number.value);
              highWater := highWater[key := number.value];
            }
          }
        }
      }
      forall id | id in rows ensures Covers(highWater, id, rows[id]) {
        var j :| 0 <= j < |order| && order[j] == id;
      }
      return Ok(highWater);
    }

    /** `seedTransactionSequence`: insert the default counter, then raise it; two writes. */
    method SeedSequence(key: SequenceKey, minimumNext: int, ghost from: State) returns (r: Result<()>)
      requires Progress(from, Now()) && Printable(Now())
      modifies this`sequences, this`writesLeft
      ensures Progress(from, Now()) && Printable(Now()) && Raised(old(Now()), Now())
      ensures r.Ok? ==> Seeded(Now(), key, minimumNext - 1) && writesLeft == old(writesLeft) - 2
      ensures r.Ok? ==>
                sequences[key].next in {old(NextOf(Now(), key)), if minimumNext < 1 then 1 else minimumNext}
      ensures r.Err? ==> r.error == Interrupted && old(writesLeft) < 2
    {
      hide Progress;
      var inserted :- Write();
      if key !in sequences {
        CounterStep(from, Now(), Now().(sequences := sequences[key := DEFAULT_SEQUENCE]));
        sequences := sequences[key := DEFAULT_SEQUENCE];
      }
      var raised :- Write();
      var minimum := if minimumNext < 1 then 1 else minimumNext;
      if sequences[key].next < minimum {
        CounterStep(from, Now(), Now().(sequences := sequences[key := sequences[key].(next := minimum)]));
        sequences := sequences[key := sequences[key].(next := minimum)];
      }
      return Ok(());
    }

    /** `allocateMigrationTransactionID`: the guarded increment, whatever the counter's automatic mode. */
    method AllocateId(key: SequenceKey, ghost from: State) returns (r: Result<string>)
      requires Progress(from, Now()) && Printable(Now()) && key in sequences
      modifies this`sequences, this`writesLeft
      ensures Progress(from, Now()) && Printable(Now()) && Raised(old(Now()), Now())
      ensures r.Ok? ==>
                && ParseNumber(r.value) == Ok(old(sequences)[key].next)
                && IsNumberText(r.value, old(sequences)[key].next, old(sequences)[key].digits)
                && sequences[key].next == old(sequences)[key].next + 1
                && writesLeft == old(writesLeft) - 1
      ensures r.Err? ==>
                || (r.error == Interrupted && old(writesLeft) == 0)
                || (r.error == Exhausted && !(1 <= sequences[key].next <= 999_999_999_999_999))
    {
      hide Progress, ParseNumber, FormatNumber, IsNumberText;
      var counter := sequences[key];
      if counter.next < 1 || counter.next > MAX_NUMBER {
        return Err(Exhausted);
      }
      var incremented :- Write();
      CounterStep(from, Now(), Now().(sequences := sequences[key := counter.(next := counter.next + 1)]));
      sequences := sequences[key := counter.(next := counter.next + 1)];
      NumberRoundTrip(counter.next, counter.digits);
      FormatIsNumberText(counter.next, counter.digits);
      return Ok(FormatNumber(counter.next, counter.digits));
    }

    /** Seeds the counter of every scope the scan found. */
    method SeedAll(highWater: map<SequenceKey, int>, ghost from: State) returns (r: Result<()>)
      requires Progress(from, Now()) && Printable(Now())
      modifies this`sequences, this`writesLeft
      ensures Progress(from, Now()) && Printable(Now())
      ensures r.Ok? ==> AllSeeded(Now(), highWater) && writesLeft == old(writesLeft) - 2 * |highWater|
      ensures r.Err? ==> r.error == Interrupted && old(writesLeft) < 2 * |highWater|
    {
      hide Progress;
      var todo := highWater.Keys;
      KeysCount(highWater);
      while todo != {}
        invariant writesLeft == old(writesLeft) - 2 * (|highWater| - |todo|) && |todo| <= |highWater|
        invariant todo <= highWater.Keys && Progress(from, Now()) && Printable(Now())
        invariant forall key | key in highWater && key !in todo :: Seeded(Now(), key, highWater[key])
        decreases todo
      {
        var key := PickAny(todo);
        ghost var before := Now();
        var seeded :- SeedSequence(key, highWater[key] + 1, from);
        forall other | other in highWater && other !in todo ensures Seeded(Now(), other, highWater[other]) {
          assert Seeded(before, other, highWater[other]);
          assert NextOf(before, other) <= NextOf(Now(), other);
        }
        todo := todo - {key};
      }
      return Ok(());
    }

    /** Allocates for one row and stores the number: the two writes between which a crash loses a number but no more. */
    method AssignRow(id: Id, ghost from: State, ghost highWater: map<SequenceKey, int>) returns (r: Result<()>)
      requires Progress(from, Now()) && Printable(Now()) && id in rows && Eligible(id, rows[id])
          && rows[id].publicId == ""
      requires (forall x | x in from.rows :: Covers(highWater, x, from.rows[x])) && AllSeeded(Now(), highWater)
      modifies this
      ensures Progress(from, Now()) && Printable(Now()) && AllSeeded(Now(), highWater) && rows.Keys == old(rows).Keys
      ensures forall x | x in rows && old(rows)[x].publicId != "" :: rows[x].publicId != ""
      ensures r.Ok? ==> rows[id].publicId != "" && writesLeft == old(writesLeft) - 2
      ensures r.Err? ==>
                || (r.error == Interrupted && old(writesLeft) < 2)
                || (r.error == Exhausted && Starved(Now(), id))
    {
      hide Progress, ParseNumber;
      var key := KeyOf(rows[id]);
      RowIsSeeded(from, Now(), highWater, id);
      ghost var before := Now();
      var drawn := AllocateId(key, from);
      SeededStays(before, Now(), highWater);
      var text :- drawn;
      var stored :- Write();
      NumberIsNew(from, before, highWater, key);
      AssignStep(from, Now(), id, text, before.sequences[key].next);
      EmptyIsNoNumber(text);
      rows := rows[id := rows[id].(publicId := text, storedScope := Some(MigrationScope(rows[id])))];
      return Ok(());
    }

    /** The second cursor: every eligible row still without an identifier, in order. */
    method AssignAll(order: seq<Id>, ghost from: State, ghost highWater: map<SequenceKey, int>) returns (r: Result<()>)
      requires Progress(from, Now()) && Printable(Now()) && AllSeeded(Now(), highWater)
      requires forall x | x in from.rows :: Covers(highWater, x, from.rows[x])
      requires forall id | id in rows :: id in order
      modifies this
      ensures Progress(from, Now()) && Printable(Now())
      ensures r.Ok? ==> Complete(Now())
      ensures r.Err? ==>
                || (r.error == Interrupted && old(writesLeft) < 2 * |order|)
                || (r.error == Exhausted && exists id | id in rows :: Starved(Now(), id))
    {
      hide Progress, ParseNumber;
      for i := 0 to |order|
        invariant Progress(from, Now()) && Printable(Now()) && AllSeeded(Now(), highWater)
        invariant rows.Keys == old(rows).Keys && writesLeft >= old(writesLeft) - 2 * i
        invariant forall j | 0 <= j < i && order[j] in rows && Eligible(order[j], rows[order[j]]) ::
            rows[order[j]].publicId != ""
      {
        var id := order[i];
        if id in rows && Eligible(id, rows[id]) && rows[id].publicId == "" {
          KeptEligible(from, Now());
          ghost var before := rows;
          assert forall x | x in rows :: Eligible(x, before[x]) == Eligible(x, from.rows[x]);
          var given :- AssignRow(id, from, highWater);
          KeptEligible(from, Now());
          assert forall x | x in rows :: Eligible(x, rows[x]) == Eligible(x, before[x]);
        }
      }
      KeptEligible(from, Now());
      forall id | id in rows && Eligible(id, rows[id]) ensures rows[id].publicId != "" && rows[id].storedScope.Some? {
        assert id in order && Covers(highWater, id, from.rows[id]);
        var j :| 0 <= j < |order| && order[j] == id;
      }
      return Ok(());
    }

    /**
     * `backfillTransactionSequences`. However early it is stopped, identifiers
     * that existed are untouched and those it assigned are new, distinct and
     * above their scope's high-water mark; if it finishes, every eligible row
     * has one; otherwise it reports why not, and with five writes per row left
     * it is never a crash.
     */
    method Run(order: seq<Id>) returns (r: Result<()>)
      requires Printable(Now()) && forall id | id in rows :: id in order
      modifies this
      ensures Progress(old(Now()), Now()) && Printable(Now())
      ensures r.Ok? ==> Complete(Now())
      ensures r.Err? ==>
                || (r.error == Interrupted && old(writesLeft) < 5 * |order|)
                || (r.error == BAD_IDENTIFIER && exists id | id in rows :: Invalid(id, rows[id]))
                || (r.error == Exhausted && exists id | id in rows :: Starved(Now(), id))
    {
      hide Progress, ParseNumber, Complete, AllSeeded, Covers;
      ghost var start := Now();
      ProgressStarts(start);
      var highWater :- ScanHighWater(order, start);
      ghost var from := Now();
      ProgressStarts(from);
      var seeded := SeedAll(highWater, from);
      ProgressJoin(start, from, Now());
      KeptEligible(start, Now());
      if seeded.Err? {
        return seeded;
      }
      r := AssignAll(order, from, highWater);
      ProgressJoin(start, from, Now());
    }

    /**
     * A deployment's restarts: each run dies after its own number of writes, the
     * last one need not. However it went, what is left is progress from the very
     * first state.
     */
    method Restart(order: seq<Id>, crashes: seq<nat>) returns (r: Result<()>)
      requires Printable(Now()) && forall id | id in rows :: id in order
      modifies this
      ensures Progress(old(Now()), Now())
      ensures r.Ok? ==> Complete(Now())
      ensures r.Err? ==>
                || (r.error == BAD_IDENTIFIER && exists id | id in rows :: Invalid(id, rows[id]))
                || (r.error == Exhausted && exists id | id in rows :: Starved(Now(), id))
    {
      hide Progress, ParseNumber;
      ghost var start := Now();
      ProgressStarts(start);
      for i := 0 to |crashes|
        invariant Progress(start, Now()) && Printable(Now()) && rows.Keys == start.rows.Keys
      {
        ghost var from := Now();
        writesLeft := crashes[i];
        var stopped := Run(order);
        ProgressJoin(start, from, Now());
        KeptEligible(start, Now());
      }
      ghost var from := Now();
      writesLeft := 5 * |order|;
      r := Run(order);
      ProgressJoin(start, from, Now());
    }
  }
}
