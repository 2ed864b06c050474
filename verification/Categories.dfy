/** Category matching and the rows a rename or replacement migrates. */
module Categories {
  import opened Decimals
  import opened Texts
  import opened Store
  import opened Numbering
  import opened Picks

  const MIGRATION_MAX := 5_000

  // ---- kinds and their names ----

  function KindOf(name: string): Kind {
    if name == "expense" then Expense else if name == "income" then Income else if name == "transfer" then Transfer
    else if name == "refund" then Refund else if name == "reimbursement" then Reimbursement
    else if name == "adjustment" then Adjustment else Unsupported(name)
  }

  function KindName(k: Kind): string {
    match k
    case Expense => "expense"
    case Income => "income"
    case Transfer => "transfer"
    case Refund => "refund"
    case Reimbursement => "reimbursement"
    case Adjustment => "adjustment"
    case Unsupported(name) => name
  }

  lemma KindNames(k: Kind)
    ensures !k.Unsupported? ==> KindOf(KindName(k)) == k
    ensures forall name: string :: KindName(KindOf(name)) == name
  {
  }

  // ---- matching a category ----

  /** `normalizedTransactionCategoryName` */
  function NormalizedName(name: string): string {
    Lower(Trim(name))
  }

  /** The type part of the usage filter for a category mode. */
  predicate InMode(tx: Transaction, mode: Scope) {
    match mode
    case SplitScope => tx.splits != []
    case IncomeScope => tx.splits == [] && (tx.kind.Income? || tx.kind.Refund? || tx.kind.Reimbursement?)
    case TransferScope => tx.splits == [] && tx.kind.Transfer?
    case ExpenseScope => tx.splits == [] && (tx.kind.Expense? || tx.kind.Adjustment?)
  }

  /** The usage filter: anchored, case-insensitive equality with the trimmed name, in one mode. */
  predicate Uses(tx: Transaction, mode: Scope, name: string) {
    InMode(tx, mode) && Lower(tx.category) == NormalizedName(name)
  }

  /** A row of the mode whose category is the name, up to letter case and the blanks around the name. */
  predicate CarriesName(tx: Transaction, mode: Scope, name: string) {
    InMode(tx, mode) && SameText(tx.category, Trim(name))
  }

  /** The usage filter, in characters: the trimmed name and the stored one are the same up to letter case. */
  lemma UsesMeans(tx: Transaction, mode: Scope, name: string)
    ensures Uses(tx, mode, name) <==> CarriesName(tx, mode, name)
  {
    hide InMode, Trim;
    LowerMeans(tx.category, Trim(name));
  }

  /** The migration filter: the usage filter without the rows that already carry the new name. */
  predicate Migrates(tx: Transaction, mode: Scope, oldName: string, newName: string) {
    Uses(tx, mode, oldName) && tx.category != newName
  }

  /** For stored kinds the filter's mode test is the numbering scope of the transaction. */
  lemma ModeIsScope(tx: Transaction, mode: Scope)
    requires !tx.kind.Unsupported?
    ensures InMode(tx, mode) <==> ScopeOf(tx.kind, tx.splits != []) == mode
  {
  }

  function Affected(txs: map<Id, Transaction>, mode: Scope, oldName: string, newName: string): set<Id> {
    set id | id in txs && Migrates(txs[id], mode, oldName, newName)
  }

  function Renamed(txs: map<Id, Transaction>, ids: set<Id>, newName: string): map<Id, Transaction> {
    map id | id in txs :: if id in ids then txs[id].(category := newName) else txs[id]
  }

  ghost function Least(ids: set<Id>): (least: Id)
    requires ids != {}
    ensures least in ids
    decreases |ids|
  {
    var x := PickOne(ids);
    var rest := ids - {x};
    if rest == {} then x
    else
      var least := Least(rest);
      if x <= least then x else least
  }

  lemma {:induction false} LeastBounds(ids: set<Id>, id: Id)
    requires id in ids
    ensures Least(ids) <= id
    decreases |ids|
  {
    var x := PickOne(ids);
    if id != x {
      LeastBounds(ids - {x}, id);
    } else if ids - {x} != {} {
      var least := Least(ids - {x});
    }
  }

  /** The identifiers in ascending order, as the migration visits its rows. */
  ghost function Ascending(ids: set<Id>): (list: seq<Id>)
    ensures |list| == |ids|
    decreases |ids|
  {
    if ids == {} then [] else [Least(ids)] + Ascending(ids - {Least(ids)})
  }

  lemma {:induction false} AscendingHolds(ids: set<Id>, id: Id)
    ensures id in Ascending(ids) <==> id in ids
    decreases |ids|
  {
    if ids != {} {
      AscendingHolds(ids - {Least(ids)}, id);
    }
  }

  predicate StrictlySorted(list: seq<Id>) {
    forall i, j | 0 <= i < j < |list| :: list[i] < list[j]
  }

  lemma SortedCons(first: Id, tail: seq<Id>)
    requires StrictlySorted(tail) && forall j | 0 <= j < |tail| :: first < tail[j]
    ensures StrictlySorted([first] + tail)
  {
  }

  lemma {:induction false} AscendingSorted(ids: set<Id>)
    ensures StrictlySorted(Ascending(ids))
    decreases |ids|
  {
    hide Least;
    if ids != {} {
      hide StrictlySorted;
      var first := Least(ids);
      var rest := ids - {first};
      AscendingSorted(rest);
      var tail := Ascending(rest);
      assert Ascending(ids) == [first] + tail;
      hide Ascending;
      forall j | 0 <= j < |tail| ensures first < tail[j] {
        AscendingHolds(rest, tail[j]);
        LeastBounds(ids, tail[j]);
      }
      SortedCons(first, tail);
    }
  }

  /** It lists exactly the given identifiers, in ascending order. */
  lemma AscendingLists(ids: set<Id>)
    ensures forall id :: id in Ascending(ids) <==> id in ids
    ensures forall i | 0 <= i < |Ascending(ids)| :: Ascending(ids)[i] in ids
    ensures StrictlySorted(Ascending(ids))
  {
    hide Ascending;
    forall id ensures id in Ascending(ids) <==> id in ids { AscendingHolds(ids, id); }
    assert forall i | 0 <= i < |Ascending(ids)| :: Ascending(ids)[i] in Ascending(ids);
    AscendingSorted(ids);
  }
}
