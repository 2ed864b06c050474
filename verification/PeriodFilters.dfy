/**
 * The two filters of period reviews: the snapshot query over transactions, and
 * the index-friendly filter over revision events.
 */
module PeriodFilters {
  import opened Outcomes
  import opened Store
  import opened Revisions
  import opened Filters
  import opened Queries

  // ---- the snapshot query ----

  function PeriodQuery(lens: Lens): Query {
    Query(NO_ID, NO_ID, NO_ID, "", "", "", "", "", None, None,
          Some(lens.fromDay * SECONDS_PER_DAY), Some((lens.toDay + 1) * SECONDS_PER_DAY))
  }

  /** What the snapshot filter selects, dated as the date clause understands it. */
  predicate InPeriod(lens: Lens, actorId: Id, tx: Transaction, undated: bool) {
    && Visible(Reader(lens.workspaceId, actorId, lens.vaultIds, lens.accountIds), tx)
    && DatedIn(PeriodQuery(lens).from, PeriodQuery(lens).to, tx, undated)
    && (lens.view.WorkspaceView? ==> tx.privacy == Workspace)
    && tx.currency == lens.currency
  }

  lemma PlainRequest(lens: Lens)
    ensures WellPut(PeriodQuery(lens)) && forall tx :: Wanted(PeriodQuery(lens), tx)
  {
  }

  /** The filter of `periodSnapshotTotals`: the list query, its privacy narrowed and its currency fixed. */
  method SnapshotFilter(lens: Lens, actorId: Id) returns (f: Option<Filter>)
    requires lens.fromDay <= lens.toDay
    ensures f.None? <==> lens.vaultIds == {} || lens.accountIds == {}
    ensures f.Some? ==> forall tx, undated ::
              Accepts(f.value, TransactionDoc(tx, undated)) <==> InPeriod(lens, actorId, tx, undated)
  {
    hide Wanted, WellPut, Visible, DatedIn, Accepts;
    var reader, q := Reader(lens.workspaceId, actorId, lens.vaultIds, lens.accountIds), PeriodQuery(lens);
    PlainRequest(lens);
    var listed := TransactionQuery(reader, q);
    if listed.Err? || listed.value.None? {
      return None;
    }
    var filter := listed.value.value.clauses;
    ghost var list := filter;
    if lens.view.WorkspaceView? {
      filter := filter[OrKey := AnyOf([One(On(PrivacyField), Is(Equals(PrivacyValue(Workspace))))])];
    }
    ghost var narrowed := filter;
    filter := filter[On(CurrencyField) := Is(Equals(Number(lens.currency)))];
    forall tx, undated
      ensures Accepts(Filter(filter), TransactionDoc(tx, undated)) <==> InPeriod(lens, actorId, tx, undated)
    {
      var d := TransactionDoc(tx, undated);
      var shared := One(On(PrivacyField), Is(Equals(PrivacyValue(Workspace))));
      Adding(list, lens.view.WorkspaceView?, OrKey, AnyOf([shared]), d);
      Adding(narrowed, true, On(CurrencyField), Is(Equals(Number(lens.currency))), d);
      SharedMeans(tx, undated);
    }
    return Some(Filter(filter));
  }

  lemma SharedMeans(tx: Transaction, undated: bool)
    ensures Holds(OrKey, AnyOf([One(On(PrivacyField), Is(Equals(PrivacyValue(Workspace))))]),
        TransactionDoc(tx, undated))
            <==> tx.privacy == Workspace
  {
    var shared := One(On(PrivacyField), Is(Equals(PrivacyValue(Workspace))));
    OneSelects(On(PrivacyField), Is(Equals(PrivacyValue(Workspace))), TransactionDoc(tx, undated));
    assert [shared][0] == shared;
  }

  lemma DayBounds(from: int, to: int, instant: int)
    ensures from <= CivilDay(instant) <= to <==> from * SECONDS_PER_DAY <= instant < (to + 1) * SECONDS_PER_DAY
  {
  }

  /**
   * The snapshot filter and the revision test agree on every transaction but
   * one family: a stored zero occurrence whose zero instant falls into the
   * period while its creation day does not. Reviews of days after day zero
   * never meet it.
   */
  lemma PeriodQueryMeans(lens: Lens, actorId: Id, tx: Transaction, undated: bool)
    requires undated ==> tx.occurredAt == 0
    requires lens.view.MemberView? ==> actorId == lens.actor
    ensures lens.fromDay > 0 ==> (InPeriod(lens, actorId, tx, undated) <==> InQuery(lens, NewRevision(tx)))
    ensures (InPeriod(lens, actorId, tx, undated) <==> InQuery(lens, NewRevision(tx)))
            <==> !(&& Visible(Reader(lens.workspaceId, actorId, lens.vaultIds, lens.accountIds), tx)
                   && (lens.view.WorkspaceView? ==> tx.privacy == Workspace) && tx.currency == lens.currency
                   && !undated && tx.occurredAt == 0
                   && lens.fromDay <= 0 <= lens.toDay && !(lens.fromDay <= CivilDay(tx.createdAt) <= lens.toDay))
  {
    var q := PeriodQuery(lens);
    DateClauseMeans(q.from, q.to, tx, undated);
    DayBounds(lens.fromDay, lens.toDay, EffectiveInstant(tx.occurredAt, tx.createdAt));
    DayBounds(lens.fromDay, lens.toDay, tx.createdAt);
    DayBounds(lens.fromDay, lens.toDay, 0);
    hide DatedIn, CivilDay;
  }

  /** The family, concretely: a review of day zero captures a zero-dated row created the day after. */
  lemma ZeroDatedIsCaptured()
    ensures var lens := Lens(1, 3, WorkspaceView, 9, 0, 0, {2}, {10});
            var tx := Transaction(7, 1, "1", ExpenseScope, 2, 10, NO_ID, 9, Expense, 100, 3, "", "", "", "", NO_ID,
                                  [], [], Workspace, 0, SECONDS_PER_DAY, None, false);
            InPeriod(lens, 9, tx, false) && !InQuery(lens, NewRevision(tx))
  {
  }

  // ---- the revision event filter ----

  function OfSide(before: bool, f: Field): Path {
    if before then Before(f) else After(f)
  }

  function PrivacyExpr(lens: Lens, before: bool): Expr {
    match lens.view
    case MemberView =>
      AnyExpr([EqExpr(OfSide(before, PrivacyField), PrivacyValue(Workspace)),
        EqExpr(OfSide(before, CreatorField), Number(lens.actor))])
    case WorkspaceView => EqExpr(OfSide(before, PrivacyField), PrivacyValue(Workspace))
  }

  function DestinationExpr(lens: Lens, before: bool): Expr {
    AnyExpr([AbsentOrEmpty(OfSide(before, DestinationField)),
      InExpr(OfSide(before, DestinationField), Numbers(lens.accountIds))])
  }

  function RelevantParts(lens: Lens, before: bool): seq<Expr> {
    [Embedded(before),
     EqExpr(OfSide(before, WorkspaceField), Number(lens.workspaceId)),
     EqExpr(OfSide(before, CurrencyField), Number(lens.currency)),
     InExpr(OfSide(before, VaultField), Numbers(lens.vaultIds)),
     InExpr(OfSide(before, AccountField), Numbers(lens.accountIds)),
     DestinationExpr(lens, before),
     PrivacyExpr(lens, before),
     AtLeast(OfSide(before, ReportingField), lens.fromDay),
     AtMost(OfSide(before, ReportingField), lens.toDay)]
  }

  /** `periodRevisionRelevantExpression` */
  function RelevantExpr(lens: Lens, before: bool): Expr {
    AllExpr(RelevantParts(lens, before))
  }

  function PrivacyBranch(lens: Lens, before: bool): Filter {
    match lens.view
    case MemberView =>
      One(OrKey, AnyOf([One(At(OfSide(before, PrivacyField)), Is(Equals(PrivacyValue(Workspace)))),
                        One(At(OfSide(before, CreatorField)), Is(Equals(Number(lens.actor))))]))
    case WorkspaceView => One(At(OfSide(before, PrivacyField)), Is(Equals(PrivacyValue(Workspace))))
  }

  function DestinationBranch(lens: Lens, before: bool): Filter {
    var key := At(OfSide(before, DestinationField));
    One(OrKey, AnyOf([One(key, Is(Exists(false))), One(key, Is(Equals(Text("")))),
      One(key, Is(OneOf(Numbers(lens.accountIds))))]))
  }

  function BranchParts(lens: Lens, before: bool): seq<Filter> {
    [One(At(OfSide(before, WorkspaceField)), Is(Equals(Number(lens.workspaceId)))),
     One(At(OfSide(before, CurrencyField)), Is(Equals(Number(lens.currency)))),
     One(At(OfSide(before, ReportingField)), Is(Bounds(None, Some(lens.fromDay), None, Some(lens.toDay)))),
     One(At(OfSide(before, VaultField)), Is(OneOf(Numbers(lens.vaultIds)))),
     One(At(OfSide(before, AccountField)), Is(OneOf(Numbers(lens.accountIds)))),
     DestinationBranch(lens, before),
     PrivacyBranch(lens, before)]
  }

  /** `periodRevisionOrdinaryBranch` */
  function OrdinaryBranch(lens: Lens, before: bool): Filter {
    One(AndKey, AllOf(BranchParts(lens, before)))
  }

  /** `periodEventFilter` */
  function PeriodEventFilter(lens: Lens, cutoff: int): Filter {
    Filter(map[
      At(Top(WorkspaceField)) := Is(Equals(Number(lens.workspaceId))),
      At(Top(VersionField)) := Is(Bounds(Some(cutoff), None, None, None)),
      OrKey := AnyOf([OrdinaryBranch(lens, true), OrdinaryBranch(lens, false)]),
      ExprKey := Computed(AnyExpr([RelevantExpr(lens, true), RelevantExpr(lens, false)]))])
  }

  function SideOf(e: Event, before: bool): Option<Revision> {
    if before then e.before else e.after
  }

  lemma SideReads(e: Event, workspaceId: Id, before: bool, r: Revision)
    requires SideOf(e, before) == Some(r)
    ensures Evaluates(Embedded(before), EventDoc(e, workspaceId))
    ensures Read(EventDoc(e, workspaceId), OfSide(before, WorkspaceField)) == Some(Number(r.workspaceId))
    ensures Read(EventDoc(e, workspaceId), OfSide(before, CurrencyField)) == Some(Number(r.currency))
    ensures Read(EventDoc(e, workspaceId), OfSide(before, VaultField)) == Some(Number(r.vaultId))
    ensures Read(EventDoc(e, workspaceId), OfSide(before, AccountField)) == Some(Number(r.accountId))
    ensures Read(EventDoc(e, workspaceId), OfSide(before, ReportingField)) == Some(Number(r.reportingDay))
  {
  }

  lemma NoSideReads(e: Event, workspaceId: Id, before: bool)
    requires SideOf(e, before).None?
    ensures !Evaluates(Embedded(before), EventDoc(e, workspaceId))
    ensures Read(EventDoc(e, workspaceId), OfSide(before, WorkspaceField)) == None
  {
  }

  lemma InNumbers(id: Id, ids: set<Id>)
    ensures Number(id) in Numbers(ids) <==> id in ids
  {
  }

  lemma PrivacyExprMeans(lens: Lens, before: bool, e: Event, workspaceId: Id)
    requires SideOf(e, before).Some?
    ensures Evaluates(PrivacyExpr(lens, before), EventDoc(e, workspaceId)) <==> VisibleTo(lens, SideOf(e, before).value)
  {
    var d := EventDoc(e, workspaceId);
    if lens.view.MemberView? {
      var a := EqExpr(OfSide(before, PrivacyField), PrivacyValue(Workspace));
      var b := EqExpr(OfSide(before, CreatorField), Number(lens.actor));
      EitherExpr(a, b, d);
    }
  }

  lemma EitherExpr(a: Expr, b: Expr, d: Doc)
    ensures Evaluates(AnyExpr([a, b]), d) <==> Evaluates(a, d) || Evaluates(b, d)
  {
    assert [a, b][0] == a && [a, b][1] == b;
  }

  predicate NoStrayDestination(lens: Lens, r: Revision) {
    r.destinationId == NO_ID || r.destinationId in lens.accountIds
  }

  lemma DestinationExprMeans(lens: Lens, before: bool, e: Event, workspaceId: Id)
    requires SideOf(e, before).Some?
    ensures Evaluates(DestinationExpr(lens, before), EventDoc(e, workspaceId))
        <==> NoStrayDestination(lens, SideOf(e, before).value)
  {
    var d := EventDoc(e, workspaceId);
    var path := OfSide(before, DestinationField);
    EitherExpr(AbsentOrEmpty(path), InExpr(path, Numbers(lens.accountIds)), d);
  }

  lemma NineParts(parts: seq<Expr>, d: Doc)
    requires |parts| == 9
    ensures Evaluates(AllExpr(parts), d) <==>
            && Evaluates(parts[0], d) && Evaluates(parts[1], d) && Evaluates(parts[2], d)
            && Evaluates(parts[3], d) && Evaluates(parts[4], d) && Evaluates(parts[5], d)
            && Evaluates(parts[6], d) && Evaluates(parts[7], d) && Evaluates(parts[8], d)
  {
  }

  lemma PathExprs(p: Path, v: Value, vs: set<Value>, low: int, high: int, d: Doc)
    ensures Evaluates(EqExpr(p, v), d) <==> Read(d, p) == Some(v)
    ensures Evaluates(InExpr(p, vs), d) <==> Read(d, p).Some? && Read(d, p).value in vs
    ensures Evaluates(AtLeast(p, low), d) && Evaluates(AtMost(p, high), d) <==>
            Read(d, p).Some? && Read(d, p).value.Number? && low <= Read(d, p).value.n <= high
  {
    hide Read;
  }

  lemma PresentSideMeans(lens: Lens, before: bool, e: Event, workspaceId: Id, r: Revision)
    requires SideOf(e, before) == Some(r)
    ensures Evaluates(RelevantExpr(lens, before), EventDoc(e, workspaceId)) <==> InScope(lens, r)
  {
    hide PrivacyExpr, DestinationExpr, VisibleTo, Read, SideOf, OfSide, Numbers, Evaluates;
    var d := EventDoc(e, workspaceId);
    NineParts(RelevantParts(lens, before), d);
    SideReads(e, workspaceId, before, r);
    InNumbers(r.vaultId, lens.vaultIds);
    InNumbers(r.accountId, lens.accountIds);
    PrivacyExprMeans(lens, before, e, workspaceId);
    DestinationExprMeans(lens, before, e, workspaceId);
    PathExprs(OfSide(before, WorkspaceField), Number(lens.workspaceId), {}, 0, 0, d);
    PathExprs(OfSide(before, CurrencyField), Number(lens.currency), {}, 0, 0, d);
    PathExprs(OfSide(before, VaultField), Something, Numbers(lens.vaultIds), 0, 0, d);
    PathExprs(OfSide(before, AccountField), Something, Numbers(lens.accountIds), 0, 0, d);
    PathExprs(OfSide(before, ReportingField), Something, {}, lens.fromDay, lens.toDay, d);
  }

  /** The aggregation expression is the revision test of one side. */
  lemma RelevantExprMeans(lens: Lens, before: bool, e: Event, workspaceId: Id)
    ensures Evaluates(RelevantExpr(lens, before), EventDoc(e, workspaceId))
            <==> SideOf(e, before).Some? && InScope(lens, SideOf(e, before).value)
  {
    hide InScope, Evaluates;
    if SideOf(e, before).None? {
      NineParts(RelevantParts(lens, before), EventDoc(e, workspaceId));
      NoSideReads(e, workspaceId, before);
    } else {
      PresentSideMeans(lens, before, e, workspaceId, SideOf(e, before).value);
    }
  }

  lemma SevenFilters(k: Key, list: seq<Filter>, d: Doc)
    requires |list| == 7
    ensures Accepts(One(k, AllOf(list)), d) <==>
            && Accepts(list[0], d) && Accepts(list[1], d) && Accepts(list[2], d) && Accepts(list[3], d)
            && Accepts(list[4], d) && Accepts(list[5], d) && Accepts(list[6], d)
  {
    OneSelects(k, AllOf(list), d);
    hide Accepts;
  }

  lemma PathTest(p: Path, t: Test, d: Doc)
    ensures Accepts(One(At(p), Is(t)), d) <==> Passes(t, Read(d, p))
  {
    OneSelects(At(p), Is(t), d);
    hide Accepts, Passes, Read;
  }

  lemma PrivacyBranchMeans(lens: Lens, before: bool, e: Event, workspaceId: Id)
    requires SideOf(e, before).Some?
    ensures Accepts(PrivacyBranch(lens, before), EventDoc(e, workspaceId)) <==> VisibleTo(lens, SideOf(e, before).value)
  {
    var d := EventDoc(e, workspaceId);
    var privacy, creator := OfSide(before, PrivacyField), OfSide(before, CreatorField);
    PathTest(privacy, Equals(PrivacyValue(Workspace)), d);
    PathTest(creator, Equals(Number(lens.actor)), d);
    var a, b := One(At(privacy), Is(Equals(PrivacyValue(Workspace)))), One(At(creator), Is(Equals(Number(lens.actor))));
    hide Accepts;
    Either(OrKey, a, b, d);
    OneSelects(OrKey, AnyOf([a, b]), d);
  }

  lemma DestinationBranchMeans(lens: Lens, before: bool, e: Event, workspaceId: Id)
    requires SideOf(e, before).Some?
    ensures Accepts(DestinationBranch(lens, before), EventDoc(e, workspaceId))
        <==> NoStrayDestination(lens, SideOf(e, before).value)
  {
    var d := EventDoc(e, workspaceId);
    var path := OfSide(before, DestinationField);
    PathTest(path, Exists(false), d);
    PathTest(path, Equals(Text("")), d);
    PathTest(path, OneOf(Numbers(lens.accountIds)), d);
    var list := [One(At(path), Is(Exists(false))), One(At(path), Is(Equals(Text("")))),
      One(At(path), Is(OneOf(Numbers(lens.accountIds))))];
    hide Accepts;
    assert Holds(OrKey, AnyOf(list), d) <==> Accepts(list[0], d) || Accepts(list[1], d) || Accepts(list[2], d);
    OneSelects(OrKey, AnyOf(list), d);
  }

  /** So is the ordinary, indexable branch, on its own. */
  lemma OrdinaryBranchMeans(lens: Lens, before: bool, e: Event, workspaceId: Id)
    ensures Accepts(OrdinaryBranch(lens, before), EventDoc(e, workspaceId))
            <==> SideOf(e, before).Some? && InScope(lens, SideOf(e, before).value)
  {
    var d := EventDoc(e, workspaceId);
    SevenFilters(AndKey, BranchParts(lens, before), d);
    PathTest(OfSide(before, WorkspaceField), Equals(Number(lens.workspaceId)), d);
    if SideOf(e, before).None? {
      NoSideReads(e, workspaceId, before);
      hide Accepts;
    } else {
      var r := SideOf(e, before).value;
      SideReads(e, workspaceId, before, r);
      InNumbers(r.vaultId, lens.vaultIds);
      InNumbers(r.accountId, lens.accountIds);
      PrivacyBranchMeans(lens, before, e, workspaceId);
      DestinationBranchMeans(lens, before, e, workspaceId);
      hide Accepts, DestinationBranch, PrivacyBranch, VisibleTo, Read, SideOf, OfSide, Numbers;
      PathTest(OfSide(before, CurrencyField), Equals(Number(lens.currency)), d);
      PathTest(OfSide(before, ReportingField), Bounds(None, Some(lens.fromDay), None, Some(lens.toDay)), d);
      PathTest(OfSide(before, VaultField), OneOf(Numbers(lens.vaultIds)), d);
      PathTest(OfSide(before, AccountField), OneOf(Numbers(lens.accountIds)), d);
    }
  }

  /** The prefilter only repeats the expression: dropping it changes no result. */
  lemma PrefilterIsRedundant(lens: Lens, e: Event, workspaceId: Id, before: bool)
    ensures Evaluates(RelevantExpr(lens, before), EventDoc(e, workspaceId))
            ==> Accepts(OrdinaryBranch(lens, before), EventDoc(e, workspaceId))
  {
    hide *;
    RelevantExprMeans(lens, before, e, workspaceId);
    OrdinaryBranchMeans(lens, before, e, workspaceId);
  }

  /** The event filter selects exactly the workspace's events after the cutoff with a relevant side. */
  lemma EventFilterMeans(lens: Lens, cutoff: int, e: Event, workspaceId: Id)
    ensures Accepts(PeriodEventFilter(lens, cutoff), EventDoc(e, workspaceId))
            <==> workspaceId == lens.workspaceId && e.version > cutoff && RelevantEvent(lens, e)
  {
    var d, m := EventDoc(e, workspaceId), PeriodEventFilter(lens, cutoff).clauses;
    RelevantExprMeans(lens, true, e, workspaceId);
    RelevantExprMeans(lens, false, e, workspaceId);
    OrdinaryBranchMeans(lens, true, e, workspaceId);
    OrdinaryBranchMeans(lens, false, e, workspaceId);
    hide InScope, RelevantExpr, OrdinaryBranch;
    EitherExpr(RelevantExpr(lens, true), RelevantExpr(lens, false), d);
    Either(OrKey, OrdinaryBranch(lens, true), OrdinaryBranch(lens, false), d);
    assert Holds(At(Top(WorkspaceField)), m[At(Top(WorkspaceField))], d) <==> workspaceId == lens.workspaceId;
    assert Holds(At(Top(VersionField)), m[At(Top(VersionField))], d) <==> e.version > cutoff;
    assert Holds(ExprKey, m[ExprKey], d) <==> RelevantEvent(lens, e);
    assert Holds(OrKey, m[OrKey], d) <==> RelevantEvent(lens, e);
    hide Holds, RelevantEvent;
    assert m.Keys == {At(Top(WorkspaceField)), At(Top(VersionField)), OrKey, ExprKey};
  }
}
