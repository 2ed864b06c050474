/** Statement import: finding duplicates inside the statement and matches in the ledger. */
module ImportDetection {
  import opened Outcomes
  import opened Store
  import opened Texts

  const MATCH_DAY_DRIFT := 3

  datatype RowState = New | Invalid | DuplicateRow | PossibleMatch

  datatype RowAction = Undecided | CreateRow | LinkRow | IgnoreRow

  datatype Row = Row(
    index: int, occurredAt: int, description: string, notes: string, reference: string, amount: int, credit: bool,
    state: RowState, action: RowAction, target: Id)

  /** `importRowIdentity`: the civil day, the amount and the normalized text; not the direction. */
  datatype Identity = Identity(day: int, amount: int, text: string)

  function IdentityOf(r: Row): Identity {
    Identity(CivilDay(r.occurredAt), r.amount, Normalized(r.description))
  }

  /** The same line of a statement: one day, one amount, the same words up to letter case. */
  predicate SameLine(a: Row, b: Row) {
    && a.occurredAt / 86_400 == b.occurredAt / 86_400 && a.amount == b.amount
    && SameWords(Fields(a.description), Fields(b.description))
  }

  lemma IdentityMeans(a: Row, b: Row)
    ensures IdentityOf(a) == IdentityOf(b) <==> SameLine(a, b)
  {
    NormalizedMeans(a.description, b.description);
    hide Normalized, Fields, SameWords;
  }

  // ---- scoring ----

  predicate IsPunctuation(c: char) {
    c in {',', '.', ';', ':', '!', '?', '(', ')', '[', ']', '{', '}', '\'', '"'}
  }

  function Bare(w: string): string {
    if w != "" && IsPunctuation(w[0]) then Bare(w[1..])
    else if w != "" && IsPunctuation(w[|w| - 1]) then Bare(w[..|w| - 1])
    else w
  }

  /** `tokenSet` */
  function Tokens(text: string): set<string> {
    set w | w in Fields(text) && |Bare(w)| >= 2 :: Bare(w)
  }

  /** Comma, point, colons, marks, brackets and quotes, by code point. */
  lemma PunctuationIs(c: char)
    ensures IsPunctuation(c) <==>
            c as int in {0x21, 0x22, 0x27, 0x28, 0x29, 0x2C, 0x2E, 0x3A, 0x3B, 0x3F, 0x5B, 0x5D, 0x7B, 0x7D}
  {
  }

  /** Stripping takes the punctuation off both ends, and nothing else. */
  lemma {:induction false} BareIsCore(w: string)
    ensures IsCore(IsPunctuation, Bare(w), w)
    decreases |w|
  {
    hide IsPunctuation;
    if w != "" && IsPunctuation(w[0]) {
      BareIsCore(w[1..]);
      CoreAfter(IsPunctuation, w[0], Bare(w), w[1..]);
      assert w == [w[0]] + w[1..];
    } else if w != "" && IsPunctuation(w[|w| - 1]) {
      BareIsCore(w[..|w| - 1]);
      CoreBefore(IsPunctuation, w[|w| - 1], Bare(w), w[..|w| - 1]);
      assert w == w[..|w| - 1] + [w[|w| - 1]];
    } else {
      assert w == w[0..|w|] && w[..0] == "" && w[|w|..] == "";
    }
  }

  /** The tokens of a text: its words of at least two characters once punctuation around them is gone. */
  lemma TokensMean(text: string, token: string)
    ensures token in Tokens(text)
            <==> |token| >= 2 && exists w | w in Fields(text) :: IsCore(IsPunctuation, token, w)
  {
    hide IsPunctuation, Fields;
    forall w | w in Fields(text) ensures IsCore(IsPunctuation, token, w) <==> token == Bare(w) {
      BareIsCore(w);
      if IsCore(IsPunctuation, token, w) { OneCore(IsPunctuation, w, token, Bare(w)); }
    }
    hide IsCore;
  }

  /** The word overlap reaches a percentage, in exact arithmetic. */
  predicate Overlap(left: string, right: string, percent: int) {
    var l, r := Tokens(left), Tokens(right);
    l != {} && r != {} && 100 * |l * r| >= percent * (|l| + |r| - |l * r|)
  }

  /** A match in hundredths; `exact` is same amount, within a day, same text. */
  datatype Score = Score(points: nat, exact: bool)

  const NO_SCORE := Score(0, false)

  /** `scoreImportMatch` */
  function ScoreOf(row: Row, c: Transaction): Score {
    if c.amount != row.amount then NO_SCORE
    else
      var apart := if c.occurredAt < row.occurredAt then row.occurredAt - c.occurredAt
        else c.occurredAt - row.occurredAt;
      var days := apart / SECONDS_PER_DAY;
      var rowText := Normalized(row.description);
      var otherText := Normalized(if c.merchant == "" then c.category else c.merchant);
      var sameText := rowText != "" && rowText == otherText;
      if days == 0 && sameText then Score(100, true)
      else if days > MATCH_DAY_DRIFT then NO_SCORE
      else if days == 0 && Overlap(rowText, otherText, 34) then Score(90, false)
      else if sameText then Score(85, false)
      else if days == 0 then Score(70, false)
      else if Overlap(rowText, otherText, 50) then Score(75, false)
      else NO_SCORE
  }

  /** Of all the tokens of two texts, at least so many percent are in both. */
  predicate Alike(left: string, right: string, percent: int) {
    var l, r := Tokens(left), Tokens(right);
    l != {} && r != {} && 100 * |l * r| >= percent * |l + r|
  }

  /**
   * The score in terms of the two lines: the same amount is a condition of any
   * match, less than a day apart with the same words an exact one; then come,
   * within the same day, similar words and any words, and, less than four days
   * apart, the same words and half-similar ones.
   */
  lemma ScoreMeans(row: Row, c: Transaction)
    ensures var text := if c.merchant != "" then c.merchant else c.category;
            var sameWords := Fields(row.description) != [] && SameWords(Fields(row.description), Fields(text));
            var sameDay := -86_400 < c.occurredAt - row.occurredAt < 86_400;
            var near := -4 * 86_400 < c.occurredAt - row.occurredAt < 4 * 86_400;
            var similar := Alike(Normalized(row.description), Normalized(text), 34);
            var close := Alike(Normalized(row.description), Normalized(text), 50);
            ScoreOf(row, c)
            == if c.amount != row.amount || !near then Score(0, false)
               else if sameDay then
                 if sameWords then Score(100, true) else if similar then Score(90, false) else Score(70, false)
               else if sameWords then Score(85, false)
               else if close then Score(75, false)
               else Score(0, false)
  {
    var text := if c.merchant != "" then c.merchant else c.category;
    NormalizedMeans(row.description, text);
    NormalizedMeans(row.description, "");
    assert Fields("") == [] && Normalized("") == "";
    hide Normalized, Fields, Tokens, SameText;
  }

  /** Reconciled transactions may only absorb an exact duplicate. */
  predicate Offered(row: Row, c: Transaction) {
    ScoreOf(row, c).points > 0 && (c.clearedAt.None? || ScoreOf(row, c).exact)
  }

  predicate IsBest(row: Row, candidates: seq<Transaction>, best: Option<nat>) {
    match best
    case None => forall j | 0 <= j < |candidates| :: !Offered(row, candidates[j])
    case Some(i) =>
      && i < |candidates| && Offered(row, candidates[i])
      && forall j | 0 <= j < |candidates| && Offered(row, candidates[j]) ::
          && ScoreOf(row, candidates[j]).points <= ScoreOf(row, candidates[i]).points
          && (j < i ==> ScoreOf(row, candidates[j]).points < ScoreOf(row, candidates[i]).points)
  }

  /** The matching loop: the first of the best-scoring offered candidates. */
  method FindBest(row: Row, candidates: seq<Transaction>) returns (best: Option<nat>)
    ensures IsBest(row, candidates, best)
  {
    hide ScoreOf;
    best := None;
    var bestPoints := 0;
    for i := 0 to |candidates|
      invariant IsBest(row, candidates[..i], best)
      invariant best.None? ==> bestPoints == 0
      invariant best.Some? ==> bestPoints == ScoreOf(row, candidates[best.value]).points
    {
      var score := ScoreOf(row, candidates[i]);
      if score.points > bestPoints && (candidates[i].clearedAt.None? || score.exact) {
        best, bestPoints := Some(i), score.points;
      }
    }
    assert candidates[..|candidates|] == candidates;
  }

  lemma BestIsUnique(row: Row, candidates: seq<Transaction>, a: Option<nat>, b: Option<nat>)
    requires IsBest(row, candidates, a) && IsBest(row, candidates, b)
    ensures a == b
  {
    hide ScoreOf;
  }

  // ---- review states ----

  function Judged(row: Row, candidates: seq<Transaction>, best: Option<nat>): Row
    requires best.Some? ==> best.value < |candidates|
  {
    if best.None? then row
    else
      var c := candidates[best.value];
      if ScoreOf(row, c).exact then row.(state := DuplicateRow, action := IgnoreRow, target := c.id)
      else row.(state := PossibleMatch, action := LinkRow, target := c.id)
  }

  /** An earlier new row of the statement is the same line. */
  predicate Repeats(rows: seq<Row>, i: nat)
    requires i < |rows|
  {
    exists j | 0 <= j < i :: rows[j].state == New && SameLine(rows[j], rows[i])
  }

  /** Without a match the row stays; an exact one makes it a duplicate to ignore, any other a link to propose. */
  predicate JudgedBy(row: Row, candidates: seq<Transaction>, best: Option<nat>, r: Row) {
    match best
    case None => r == row
    case Some(k) =>
      && k < |candidates|
      && r == row.(target := candidates[k].id, state := r.state, action := r.action)
      && (if ScoreOf(row, candidates[k]).exact then r.state == DuplicateRow && r.action == IgnoreRow
          else r.state == PossibleMatch && r.action == LinkRow)
  }

  /** What detection makes of the `i`-th row. */
  ghost predicate ReviewedAs(rows: seq<Row>, candidates: seq<Transaction>, i: nat, r: Row)
    requires i < |rows|
  {
    if rows[i].state != New then r == rows[i]
    else if Repeats(rows, i) then r == rows[i].(state := DuplicateRow, action := IgnoreRow)
    else exists best :: IsBest(rows[i], candidates, best) && JudgedBy(rows[i], candidates, best, r)
  }

  /** Some valid row carries a date other than the zero instant. */
  predicate Dated(rows: seq<Row>) {
    exists i | 0 <= i < |rows| :: rows[i].state != Invalid && rows[i].occurredAt != 0
  }

  /** As parsing leaves them: valid rows are to be created, invalid ones wait for a decision. */
  predicate Parsed(rows: seq<Row>) {
    forall i | 0 <= i < |rows| ::
      (rows[i].state == New && rows[i].action == CreateRow) || (rows[i].state == Invalid && rows[i].action == Undecided)
  }

  /** `importDateBounds` */
  method DateBounds(rows: seq<Row>) returns (bounds: Option<(int, int)>)
    ensures bounds.Some? <==> Dated(rows)
    ensures bounds.Some? ==> forall i | 0 <= i < |rows| && rows[i].state != Invalid && rows[i].occurredAt != 0 ::
              bounds.value.0 <= rows[i].occurredAt <= bounds.value.1
    ensures bounds.Some? ==> exists i, j | 0 <= i < |rows| && 0 <= j < |rows| ::
              rows[i].occurredAt == bounds.value.0 && rows[j].occurredAt == bounds.value.1
  {
    bounds := None;
    for i := 0 to |rows|
      invariant bounds.Some? <==> exists k | 0 <= k < i :: rows[k].state != Invalid && rows[k].occurredAt != 0
      invariant bounds.Some? ==> forall k | 0 <= k < i && rows[k].state != Invalid && rows[k].occurredAt != 0 ::
                  bounds.value.0 <= rows[k].occurredAt <= bounds.value.1
      invariant bounds.Some? ==> exists k, j | 0 <= k < i && 0 <= j < i ::
                  rows[k].occurredAt == bounds.value.0 && rows[j].occurredAt == bounds.value.1
    {
      var at := rows[i].occurredAt;
      if rows[i].state != Invalid && at != 0 {
        if bounds.None? {
          bounds := Some((at, at));
        } else {
          var (first, last) := bounds.value;
          bounds := Some((if at < first then at else first, if at > last then at else last));
        }
      }
    }
  }

  /** `detectImportConflicts`, on the candidates found around the statement's dates. */
  method Detect(rows: array<Row>, candidates: seq<Transaction>)
    modifies rows
    ensures !Dated(old(rows[..])) ==> rows[..] == old(rows[..])
    ensures Dated(old(rows[..])) ==> forall i | 0 <= i < rows.Length ::
        ReviewedAs(old(rows[..]), candidates, i, rows[i])
  {
    hide ScoreOf, IdentityOf, IsBest, SameLine;
    ghost var first := rows[..];
    var bounds := DateBounds(rows[..]);
    if bounds.None? {
      return;
    }
    var seen: set<Identity> := {};
    for n := 0 to rows.Length
      invariant forall k | n <= k < rows.Length :: rows[k] == first[k]
      invariant forall k | 0 <= k < n :: ReviewedAs(first, candidates, k, rows[k])
      invariant forall x :: x in seen <==> exists k | 0 <= k < n :: first[k].state == New && IdentityOf(first[k]) == x
    {
      var row := rows[n];
      if row.state == New {
        forall k | 0 <= k < n ensures IdentityOf(first[k]) == IdentityOf(row) <==> SameLine(first[k], row) {
          IdentityMeans(first[k], row);
        }
        var identity := IdentityOf(row);
        if identity in seen {
          rows[n] := row.(state := DuplicateRow, action := IgnoreRow);
        } else {
          var best := FindBest(row, candidates);
          BestInRange(row, candidates, best);
          rows[n] := Judged(row, candidates, best);
          assert !Repeats(first, n);
        }
        seen := seen + {identity};
      }
    }
  }

  lemma BestInRange(row: Row, candidates: seq<Transaction>, best: Option<nat>)
    requires IsBest(row, candidates, best)
    ensures best.Some? ==> best.value < |candidates| && Offered(row, candidates[best.value])
  {
    hide ScoreOf;
  }

  // ---- what detection guarantees ----

  ghost predicate Reviewed(rows: seq<Row>, candidates: seq<Transaction>, after: seq<Row>) {
    && |after| == |rows|
    && if Dated(rows) then forall i | 0 <= i < |rows| :: ReviewedAs(rows, candidates, i, after[i]) else after == rows
  }

  predicate ToBook(r: Row) {
    r.action == CreateRow || r.action == LinkRow
  }

  /** Rows to create or link are pairwise different. */
  ghost predicate BookedApart(rows: seq<Row>) {
    forall i, j | 0 <= i < j < |rows| && ToBook(rows[i]) && ToBook(rows[j]) ::
      !SameLine(rows[i], rows[j])
  }

  lemma ReviewKeepsIdentity(rows: seq<Row>, candidates: seq<Transaction>, i: nat, r: Row)
    requires i < |rows| && Parsed(rows) && ReviewedAs(rows, candidates, i, r)
    ensures forall x :: (SameLine(r, x) <==> SameLine(rows[i], x)) && (SameLine(x, r) <==> SameLine(x, rows[i]))
    ensures ToBook(r) ==> rows[i].state == New && !Repeats(rows, i)
  {
    hide ScoreOf, IsBest;
  }

  /**
   * Right after detection no two rows to create or link are the same line,
   * provided some valid row is dated; without one, detection is skipped, and
   * this holds exactly when the statement did not repeat a line.
   */
  lemma DetectionSetsApart(rows: seq<Row>, candidates: seq<Transaction>, after: seq<Row>)
    requires Parsed(rows) && Reviewed(rows, candidates, after)
    ensures Dated(rows) ==> BookedApart(after)
    ensures !Dated(rows) ==>
              (BookedApart(after) <==> forall i | 0 <= i < |rows| && rows[i].state == New :: !Repeats(rows, i))
  {
    hide ScoreOf, IsBest, ReviewedAs;
    if Dated(rows) {
      forall i, j | 0 <= i < j < |after| && ToBook(after[i]) && ToBook(after[j])
        ensures !SameLine(after[i], after[j])
      {
        ReviewKeepsIdentity(rows, candidates, i, after[i]);
        ReviewKeepsIdentity(rows, candidates, j, after[j]);
      }
    }
  }

  /** The statement and the candidates determine the outcome: no choice is left to the loop. */
  lemma DetectionIsDetermined(rows: seq<Row>, candidates: seq<Transaction>, a: seq<Row>, b: seq<Row>)
    requires Reviewed(rows, candidates, a) && Reviewed(rows, candidates, b)
    ensures a == b
  {
    hide ScoreOf, IdentityOf, Repeats;
    if Dated(rows) {
      forall i | 0 <= i < |rows| ensures a[i] == b[i] {
        assert ReviewedAs(rows, candidates, i, a[i]) && ReviewedAs(rows, candidates, i, b[i]);
        if rows[i].state == New && !Repeats(rows, i) {
          var x :| IsBest(rows[i], candidates, x) && JudgedBy(rows[i], candidates, x, a[i]);
          var y :| IsBest(rows[i], candidates, y) && JudgedBy(rows[i], candidates, y, b[i]);
          BestIsUnique(rows[i], candidates, x, y);
        }
      }
    }
  }

  /** The failing family, concretely: a statement dated with the zero instant books a repeated line twice. */
  lemma ZeroDatesAreNotCompared(text: string, amount: int, candidates: seq<Transaction>)
    ensures var row := Row(0, 0, text, "", "", amount, false, New, CreateRow, NO_ID);
            var rows := [row, row.(index := 1)];
            Parsed(rows) && Reviewed(rows, candidates, rows) && !BookedApart(rows)
  {
    var row := Row(0, 0, text, "", "", amount, false, New, CreateRow, NO_ID);
    var rows := [row, row.(index := 1)];
    assert IdentityOf(rows[0]) == IdentityOf(rows[1]) && ToBook(rows[0]) && ToBook(rows[1]);
  }

  /**
   * A reconciled transaction is only ever matched exactly, and then ignored; link targets are
   * unreconciled candidates.
   */
  lemma ReconciledOnlyExactly(rows: seq<Row>, candidates: seq<Transaction>, after: seq<Row>, i: nat)
    requires Parsed(rows) && Reviewed(rows, candidates, after) && i < |rows| && after[i] != rows[i] && !Repeats(rows, i)
    ensures exists k | 0 <= k < |candidates| ::
              && after[i].target == candidates[k].id && Offered(rows[i], candidates[k])
              && (candidates[k].clearedAt.Some? || ScoreOf(rows[i], candidates[k]).exact ==>
                after[i].action == IgnoreRow)
              && (after[i].action == LinkRow ==> candidates[k].clearedAt.None?)
  {
    hide ScoreOf, IdentityOf;
    var best :| IsBest(rows[i], candidates, best) && JudgedBy(rows[i], candidates, best, after[i]);
    BestInRange(rows[i], candidates, best);
  }
}
