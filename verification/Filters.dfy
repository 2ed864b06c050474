/**
 * The query documents the services build and edit in place, with the meaning
 * MongoDB gives them, and what they select.
 */
module Filters {
  import opened Outcomes
  import opened Store
  import opened Texts

  // ---- documents ----

  datatype Field =
    | WorkspaceField | PublicIdField | VaultField | AccountField | DestinationField | CreatorField | KindField
    | AmountField | CurrencyField | CategoryField | MerchantField | NotesField | DescriptionField | ContactField
    | PrivacyField | OccurredField | CreatedField | ReportingField | FirstSplitField | VersionField

  /** A field of the document itself or of a revision event's embedded before or after image. */
  datatype Path = Top(field: Field) | Before(field: Field) | After(field: Field)

  datatype Value =
    | Number(n: int) | Text(text: string) | KindValue(kind: Kind) | PrivacyValue(privacy: Privacy) | Something

  /** Legacy transactions may lack `occurred_at`, which then reads as the zero instant. */
  datatype Doc = TransactionDoc(tx: Transaction, undated: bool) | EventDoc(event: Event, workspaceId: Id)

  /** Empty strings are omitted from stored documents. */
  function NonEmpty(text: string): Option<Value> {
    if text == "" then None else Some(Text(text))
  }

  function NonEmptyId(id: Id): Option<Value> {
    if id == NO_ID then None else Some(Number(id))
  }

  function ReadTransaction(tx: Transaction, undated: bool, f: Field): Option<Value> {
    match f
    case WorkspaceField => Some(Number(tx.workspaceId))
    case PublicIdField => NonEmpty(tx.publicId)
    case VaultField => Some(Number(tx.vaultId))
    case AccountField => Some(Number(tx.accountId))
    case DestinationField => NonEmptyId(tx.destinationId)
    case CreatorField => Some(Number(tx.createdBy))
    case KindField => Some(KindValue(tx.kind))
    case AmountField => Some(Number(tx.amount))
    case CurrencyField => Some(Number(tx.currency))
    case CategoryField => NonEmpty(tx.category)
    case MerchantField => NonEmpty(tx.merchant)
    case NotesField => NonEmpty(tx.notes)
    case DescriptionField => NonEmpty(tx.description)
    case ContactField => NonEmptyId(tx.contactId)
    case PrivacyField => Some(PrivacyValue(tx.privacy))
    case OccurredField => if undated then None else Some(Number(tx.occurredAt))
    case CreatedField => Some(Number(tx.createdAt))
    case FirstSplitField => if tx.splits == [] then None else Some(Something)
    case ReportingField => None
    case VersionField => None
  }

  function ReadRevision(side: Option<Revision>, f: Field): Option<Value> {
    if side.None? then None
    else
      var r := side.value;
      match f
      case WorkspaceField => Some(Number(r.workspaceId))
      case VaultField => Some(Number(r.vaultId))
      case AccountField => Some(Number(r.accountId))
      case DestinationField => NonEmptyId(r.destinationId)
      case CreatorField => Some(Number(r.createdBy))
      case CurrencyField => Some(Number(r.currency))
      case PrivacyField => Some(PrivacyValue(r.privacy))
      case ReportingField => Some(Number(r.reportingDay))
      case _ => None
  }

  function Read(d: Doc, p: Path): Option<Value> {
    match d
    case TransactionDoc(tx, undated) => if p.Top? then ReadTransaction(tx, undated, p.field) else None
    case EventDoc(e, workspaceId) =>
      match p
      case Top(f) =>
        if f == WorkspaceField then Some(Number(workspaceId))
        else if f == VersionField then Some(Number(e.version))
        else None
      case Before(f) => ReadRevision(e.before, f)
      case After(f) => ReadRevision(e.after, f)
  }

  // ---- query documents ----

  datatype Test =
    | Equals(value: Value)
    | OneOf(values: set<Value>)
    | Bounds(gt: Option<int>, gte: Option<int>, lt: Option<int>, lte: Option<int>)
    | Exists(present: bool)
    | StartsWith(literal: string)
    | ContainsIgnoringCase(literal: string)

  /** An aggregation expression, as used under `$expr`; a missing operand sorts before every value. */
  datatype Expr =
    | Embedded(before: bool)
    | EqExpr(path: Path, value: Value)
    | InExpr(path: Path, values: set<Value>)
    | AbsentOrEmpty(path: Path)
    | AtLeast(path: Path, bound: int)
    | AtMost(path: Path, bound: int)
    | AllExpr(parts: seq<Expr>)
    | AnyExpr(parts: seq<Expr>)

  datatype Key = At(path: Path) | OrKey | AndKey | ExprKey

  datatype Clause = Is(test: Test) | AnyOf(list: seq<Filter>) | AllOf(list: seq<Filter>) | Computed(expr: Expr)

  datatype Filter = Filter(clauses: map<Key, Clause>)

  // ---- evaluation ----

  predicate Passes(t: Test, v: Option<Value>) {
    match t
    case Equals(value) => v == Some(value)
    case OneOf(values) => v.Some? && v.value in values
    case Bounds(gt, gte, lt, lte) =>
      && v.Some? && v.value.Number?
      && (gt.Some? ==> gt.value < v.value.n) && (gte.Some? ==> gte.value <= v.value.n)
      && (lt.Some? ==> v.value.n < lt.value) && (lte.Some? ==> v.value.n <= lte.value)
    case Exists(present) => v.Some? == present
    case StartsWith(literal) => v.Some? && v.value.Text? && literal <= v.value.text
    case ContainsIgnoringCase(literal) => v.Some? && v.value.Text? && Occurs(Lower(literal), Lower(v.value.text))
  }

  predicate Evaluates(e: Expr, d: Doc)
    decreases e
  {
    match e
    case Embedded(before) => d.EventDoc? && (if before then d.event.before.Some? else d.event.after.Some?)
    case EqExpr(path, value) => Read(d, path) == Some(value)
    case InExpr(path, values) => Read(d, path).Some? && Read(d, path).value in values
    case AbsentOrEmpty(path) => Read(d, path).None? || Read(d, path).value == Text("")
    case AtLeast(path, bound) => Read(d, path).Some? && Read(d, path).value.Number? && bound <= Read(d, path).value.n
    case AtMost(path, bound) => Read(d, path).None? || (Read(d, path).value.Number? && Read(d, path).value.n <= bound)
    case AllExpr(parts) => forall i | 0 <= i < |parts| :: Evaluates(parts[i], d)
    case AnyExpr(parts) => exists i | 0 <= i < |parts| :: Evaluates(parts[i], d)
  }

  /** A query document selects what passes every one of its clauses. */
  predicate Accepts(f: Filter, d: Doc)
    decreases f
  {
    forall k | k in f.clauses :: Holds(k, f.clauses[k], d)
  }

  predicate Holds(k: Key, c: Clause, d: Doc)
    decreases c
  {
    match c
    case Is(test) => k.At? && Passes(test, Read(d, k.path))
    case AnyOf(list) => exists i | 0 <= i < |list| :: Accepts(list[i], d)
    case AllOf(list) => forall i | 0 <= i < |list| :: Accepts(list[i], d)
    case Computed(expr) => Evaluates(expr, d)
  }

  // ---- editing a query document ----

  function One(k: Key, c: Clause): Filter {
    Filter(map[k := c])
  }

  function PutIf(m: map<Key, Clause>, wanted: bool, k: Key, c: Clause): map<Key, Clause> {
    if wanted then m[k := c] else m
  }

  lemma OneSelects(k: Key, c: Clause, d: Doc)
    ensures Accepts(One(k, c), d) <==> Holds(k, c, d)
  {
    assert k in One(k, c).clauses;
  }

  /** Adding a clause under a fresh key narrows the selection by that clause. */
  lemma Adding(m: map<Key, Clause>, wanted: bool, k: Key, c: Clause, d: Doc)
    requires k !in m
    ensures Accepts(Filter(PutIf(m, wanted, k, c)), d) <==> Accepts(Filter(m), d) && (wanted ==> Holds(k, c, d))
  {
    if wanted {
      Replacing(m, k, c, d);
      assert m - {k} == m;
    }
  }

  /** Writing a clause under a used key replaces the one that was there. */
  lemma Replacing(m: map<Key, Clause>, k: Key, c: Clause, d: Doc)
    ensures Accepts(Filter(m[k := c]), d) <==> Accepts(Filter(m - {k}), d) && Holds(k, c, d)
  {
    hide Holds;
    var with_, without := Filter(m[k := c]), Filter(m - {k});
    if Accepts(with_, d) {
      assert Holds(k, with_.clauses[k], d);
      forall x | x in without.clauses ensures Holds(x, without.clauses[x], d) { assert Holds(x, with_.clauses[x], d); }
    }
    if Accepts(without, d) && Holds(k, c, d) {
      forall x | x in with_.clauses ensures Holds(x, with_.clauses[x], d) {
        if x != k { assert Holds(x, without.clauses[x], d); }
      }
    }
  }

  lemma Splitting(m: map<Key, Clause>, k: Key, d: Doc)
    requires k in m
    ensures Accepts(Filter(m), d) <==> Accepts(Filter(m - {k}), d) && Holds(k, m[k], d)
  {
    assert m[k := m[k]] == m;
    Replacing(m, k, m[k], d);
  }

  lemma NoClauses(d: Doc)
    ensures Accepts(Filter(map[]), d)
  {
  }

  lemma Either(k: Key, a: Filter, b: Filter, d: Doc)
    ensures Holds(k, AnyOf([a, b]), d) <==> Accepts(a, d) || Accepts(b, d)
  {
    hide Accepts;
    assert [a, b][0] == a && [a, b][1] == b;
    if Accepts(a, d) { assert Accepts([a, b][0], d); }
    if Accepts(b, d) { assert Accepts([a, b][1], d); }
  }

  lemma Both(k: Key, a: Filter, b: Filter, d: Doc)
    ensures Holds(k, AllOf([a, b]), d) <==> Accepts(a, d) && Accepts(b, d)
  {
    hide Accepts;
    assert [a, b][0] == a && [a, b][1] == b;
  }

  function Numbers(ids: set<Id>): set<Value> {
    set id | id in ids :: Number(id)
  }

  function Kinds(kinds: set<Kind>): set<Value> {
    set k | k in kinds :: KindValue(k)
  }
}
