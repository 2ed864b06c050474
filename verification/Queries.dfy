/**
 * The transaction list query and its rewrites: the search clause, the date
 * clause, and the filter of a period snapshot, against what they should select.
 */
module Queries {
  import opened Outcomes
  import opened Decimals
  import opened Texts
  import opened MoneyText
  import opened Store
  import opened Categories
  import opened Numbering
  import opened Picks
  import opened Revisions
  import opened Filters

  const MAX_SEARCH := 100

  /** `TransactionFilter`: empty text, the empty identifier and absent bounds request nothing. */
  datatype Query = Query(
    vaultId: Id,
    accountId: Id,
    contactId: Id,
    publicId: string,
    kind: string,
    category: string,
    merchant: string,
    search: string,
    minAmount: Option<int>,
    maxAmount: Option<int>,
    from: Option<int>,
    to: Option<int>)

  /** Whose transactions: the workspace, the reader, and the vaults and accounts open to the reader. */
  datatype Reader = Reader(workspaceId: Id, actorId: Id, vaultIds: set<Id>, accountIds: set<Id>)

  // ---- what is asked for ----

  predicate Visible(reader: Reader, tx: Transaction) {
    && tx.workspaceId == reader.workspaceId && tx.vaultId in reader.vaultIds && tx.accountId in reader.accountIds
    && (tx.privacy == Workspace || tx.createdBy == reader.actorId)
  }

  datatype KindTest = ModeTest(mode: Scope) | ExactTest(kind: Kind)

  /** The four numbering scopes name themselves; every other text names one stored type. */
  function KindTestOf(text: string): KindTest {
    var name := Lower(Trim(text));
    if name == "split" then ModeTest(SplitScope) else if name == "expense" then ModeTest(ExpenseScope)
    else if name == "income" then ModeTest(IncomeScope) else if name == "transfer" then ModeTest(TransferScope)
    else ExactTest(KindOf(name))
  }

  predicate OfKind(t: KindTest, tx: Transaction) {
    match t
    case ModeTest(mode) => InMode(tx, mode)
    case ExactTest(kind) => tx.kind == kind
  }

  /**
   * The four modes ask for the rows of a category type, whatever the letter case
   * and the blanks around them; any other text asks for the rows of one kind.
   */
  predicate KindAsked(text: string, tx: Transaction) {
    var name := Trim(text);
    if SameText(name, "split") then tx.splits != []
    else if SameText(name, "expense") then tx.splits == [] && tx.kind in {Expense, Adjustment}
    else if SameText(name, "income") then tx.splits == [] && tx.kind in {Income, Refund, Reimbursement}
    else if SameText(name, "transfer") then tx.splits == [] && tx.kind == Transfer
    else KindName(tx.kind) == Lower(name) && (tx.kind.Unsupported? ==> KindOf(Lower(name)) == tx.kind)
  }

  lemma NamesMode(text: string, name: string)
    requires name in {"split", "expense", "income", "transfer"}
    ensures Lower(text) == name <==> SameText(text, name)
  {
    LowerMeans(text, name);
    assert Lower(name) == name;
    hide SameText;
  }

  lemma KindAskedMeans(text: string, tx: Transaction)
    ensures OfKind(KindTestOf(text), tx) <==> KindAsked(text, tx)
  {
    NamesMode(Trim(text), "split");
    NamesMode(Trim(text), "expense");
    NamesMode(Trim(text), "income");
    NamesMode(Trim(text), "transfer");
    hide Lower, SameText, Trim;
    ExactKind(tx.kind, Lower(Trim(text)));
    hide KindOf, KindName;
  }

  lemma ExactKind(kind: Kind, name: string)
    ensures kind == KindOf(name) <==> KindName(kind) == name && (kind.Unsupported? ==> KindOf(name) == kind)
  {
  }

  /** A requested text must be carried; a blank request matches nothing, since empty text is never stored. */
  predicate Carries(requested: string, stored: string) {
    requested != "" ==> stored != "" && stored == Trim(requested)
  }

  /** The trimmed term starts the identifier, or is mentioned in one of the texts, in whatever letter case. */
  predicate Found(search: string, tx: Transaction) {
    var term := Trim(search);
    term != "" ==>
      || term <= tx.publicId
      || Mentions(tx.merchant, term) || Mentions(tx.category, term)
      || Mentions(tx.description, term) || Mentions(tx.notes, term)
  }

  predicate Wanted(q: Query, tx: Transaction) {
    && (q.vaultId != NO_ID ==> tx.vaultId == q.vaultId)
    && (q.accountId != NO_ID ==> tx.accountId == q.accountId)
    && (q.contactId != NO_ID ==> tx.contactId == q.contactId)
    && Carries(q.publicId, tx.publicId)
    && (q.kind != "" ==> KindAsked(q.kind, tx))
    && Carries(q.category, tx.category) && Carries(q.merchant, tx.merchant)
    && Found(q.search, tx)
    && (q.minAmount.Some? ==> q.minAmount.value <= tx.amount) && (q.maxAmount.Some? ==> tx.amount <= q.maxAmount.value)
  }

  predicate During(from: Option<int>, to: Option<int>, instant: int) {
    (from.Some? ==> from.value <= instant) && (to.Some? ==> instant < to.value)
  }

  /** The specification of a transaction list: visible, wanted, and dated in the half-open range. */
  predicate Listed(reader: Reader, q: Query, tx: Transaction) {
    Visible(reader, tx) && Wanted(q, tx) && During(q.from, q.to, EffectiveInstant(tx.occurredAt, tx.createdAt))
  }

  // ---- which requests are refused ----

  predicate AmountOk(bound: Option<int>) {
    bound.Some? ==> 0 <= bound.value <= MAX_MONEY_MINOR
  }

  predicate WellPut(q: Query) {
    && (q.publicId != "" ==> ParseNumber(Trim(q.publicId)).Ok?)
    && |Trim(q.search)| <= 100
    && (q.minAmount.Some? ==> 0 <= q.minAmount.value <= 9_000_000_000_000_000)
    && (q.maxAmount.Some? ==> 0 <= q.maxAmount.value <= 9_000_000_000_000_000)
    && (q.minAmount.Some? && q.maxAmount.Some? ==> q.minAmount.value <= q.maxAmount.value)
  }

  predicate Answerable(reader: Reader, q: Query) {
    && (q.from.Some? && q.to.Some? ==> q.from.value < q.to.value)
    && reader.vaultIds != {} && reader.accountIds != {}
    && (q.vaultId != NO_ID ==> q.vaultId in reader.vaultIds)
    && (q.accountId != NO_ID ==> q.accountId in reader.accountIds)
    && WellPut(q)
  }

  // ---- clauses ----

  function On(f: Field): Key {
    At(Top(f))
  }

  function VisibilityClause(actorId: Id): Clause {
    AnyOf([One(On(PrivacyField), Is(Equals(PrivacyValue(Workspace)))),
           One(On(CreatorField), Is(Equals(Number(actorId))))])
  }

  function ScopeClauses(reader: Reader): map<Key, Clause> {
    map[On(WorkspaceField) := Is(Equals(Number(reader.workspaceId))),
        On(VaultField) := Is(OneOf(Numbers(reader.vaultIds))),
        On(AccountField) := Is(OneOf(Numbers(reader.accountIds))),
        OrKey := VisibilityClause(reader.actorId)]
  }

  function WithIds(m: map<Key, Clause>, q: Query): map<Key, Clause> {
    var m := PutIf(m, q.vaultId != NO_ID, On(VaultField), Is(Equals(Number(q.vaultId))));
    var m := PutIf(m, q.accountId != NO_ID, On(AccountField), Is(Equals(Number(q.accountId))));
    PutIf(m, q.contactId != NO_ID, On(ContactField), Is(Equals(Number(q.contactId))))
  }

  function KindsOf(mode: Scope): set<Kind> {
    match mode
    case ExpenseScope => {Expense, Adjustment}
    case IncomeScope => {Income, Refund, Reimbursement}
    case TransferScope => {Transfer}
    case SplitScope => {}
  }

  function WithKind(m: map<Key, Clause>, t: KindTest): map<Key, Clause> {
    match t
    case ExactTest(kind) => m[On(KindField) := Is(Equals(KindValue(kind)))]
    case ModeTest(mode) =>
      PutIf(m, mode != SplitScope, On(KindField), Is(OneOf(Kinds(KindsOf(mode)))))
        [On(FirstSplitField) := Is(Exists(mode == SplitScope))]
  }

  function WithTexts(m: map<Key, Clause>, q: Query): map<Key, Clause> {
    var m := PutIf(m, q.category != "", On(CategoryField), Is(Equals(Text(Trim(q.category)))));
    PutIf(m, q.merchant != "", On(MerchantField), Is(Equals(Text(Trim(q.merchant)))))
  }

  function SearchTests(term: string): seq<Filter> {
    [One(On(PublicIdField), Is(StartsWith(term))),
     One(On(MerchantField), Is(ContainsIgnoringCase(term))),
     One(On(CategoryField), Is(ContainsIgnoringCase(term))),
     One(On(DescriptionField), Is(ContainsIgnoringCase(term))),
     One(On(NotesField), Is(ContainsIgnoringCase(term)))]
  }

  /** The search rewrite: the visibility `$or` moves under an `$and`, next to the search `$or`. */
  function WithSearch(m: map<Key, Clause>, term: string): map<Key, Clause> {
    if term == "" || OrKey !in m then m
    else (m - {OrKey})[AndKey := AllOf([One(OrKey, m[OrKey]), One(OrKey, AnyOf(SearchTests(term)))])]
  }

  function WithAmounts(m: map<Key, Clause>, q: Query): map<Key, Clause> {
    PutIf(m, q.minAmount.Some? || q.maxAmount.Some?, On(AmountField), Is(Bounds(None, q.minAmount, None, q.maxAmount)))
  }

  function NumberAndKind(m: map<Key, Clause>, q: Query): map<Key, Clause> {
    var m := PutIf(m, q.publicId != "", On(PublicIdField), Is(Equals(Text(Trim(q.publicId)))));
    if q.kind != "" then WithKind(m, KindTestOf(q.kind)) else m
  }

  /** Everything but the date clause. */
  function QueryClauses(reader: Reader, q: Query): map<Key, Clause> {
    WithRequested(WithIds(ScopeClauses(reader), q), q)
  }

  function WithRequested(m: map<Key, Clause>, q: Query): map<Key, Clause> {
    WithAmounts(WithSearch(WithTexts(NumberAndKind(m, q), q), Trim(q.search)), q)
  }

  // ---- what the clauses select ----

  /** The visibility clause is in place, and the clauses still to come are not. */
  predicate BeforeNumber(m: map<Key, Clause>) {
    On(PublicIdField) !in m && On(KindField) !in m && On(FirstSplitField) !in m && BeforeTexts(m)
  }

  predicate BeforeTexts(m: map<Key, Clause>) {
    On(CategoryField) !in m && On(MerchantField) !in m && BeforeSearch(m)
  }

  predicate BeforeSearch(m: map<Key, Clause>) {
    OrKey in m && AndKey !in m && On(AmountField) !in m
  }

  lemma Overriding(m: map<Key, Clause>, wanted: bool, k: Key, c: Clause, d: Doc)
    requires k in m && (wanted && Holds(k, c, d) ==> Holds(k, m[k], d))
    ensures Accepts(Filter(PutIf(m, wanted, k, c)), d) <==> Accepts(Filter(m), d) && (wanted ==> Holds(k, c, d))
  {
    hide Accepts, Holds;
    if wanted {
      Replacing(m, k, c, d);
      Splitting(m, k, d);
    }
  }

  lemma VisibilityMeans(actorId: Id, tx: Transaction, undated: bool)
    ensures Holds(OrKey, VisibilityClause(actorId), TransactionDoc(tx, undated))
        <==> tx.privacy == Workspace || tx.createdBy == actorId
  {
    var d := TransactionDoc(tx, undated);
    var a, b := One(On(PrivacyField), Is(Equals(PrivacyValue(Workspace)))),
      One(On(CreatorField), Is(Equals(Number(actorId))));
    Either(OrKey, a, b, d);
    OneSelects(On(PrivacyField), Is(Equals(PrivacyValue(Workspace))), d);
    OneSelects(On(CreatorField), Is(Equals(Number(actorId))), d);
    hide Accepts;
  }

  lemma ScopeMeans(reader: Reader, tx: Transaction, undated: bool)
    ensures Accepts(Filter(ScopeClauses(reader)), TransactionDoc(tx, undated)) <==> Visible(reader, tx)
  {
    var d, m := TransactionDoc(tx, undated), ScopeClauses(reader);
    VisibilityMeans(reader.actorId, tx, undated);
    hide VisibilityClause;
    assert m[On(WorkspaceField)] == Is(Equals(Number(reader.workspaceId)));
    assert m[On(VaultField)] == Is(OneOf(Numbers(reader.vaultIds)));
    assert m[On(AccountField)] == Is(OneOf(Numbers(reader.accountIds)));
    assert m[OrKey] == VisibilityClause(reader.actorId);
    assert Number(tx.vaultId) in Numbers(reader.vaultIds) <==> tx.vaultId in reader.vaultIds;
    assert Number(tx.accountId) in Numbers(reader.accountIds) <==> tx.accountId in reader.accountIds;
    assert forall k | k in m :: k == On(WorkspaceField) || k == On(VaultField) || k == On(AccountField) || k == OrKey;
  }

  lemma IdsMean(m: map<Key, Clause>, q: Query, reader: Reader, tx: Transaction, undated: bool)
    requires m == ScopeClauses(reader) && Answerable(reader, q)
    ensures Accepts(Filter(WithIds(m, q)), TransactionDoc(tx, undated))
            <==> Visible(reader, tx) && (q.vaultId != NO_ID ==> tx.vaultId == q.vaultId)
                 && (q.accountId != NO_ID ==> tx.accountId == q.accountId)
                 && (q.contactId != NO_ID ==> tx.contactId == q.contactId)
  {
    var d := TransactionDoc(tx, undated);
    ScopeMeans(reader, tx, undated);
    hide Accepts, VisibilityClause;
    var vault, account := Is(Equals(Number(q.vaultId))), Is(Equals(Number(q.accountId)));
    var m1 := PutIf(m, q.vaultId != NO_ID, On(VaultField), vault);
    var m2 := PutIf(m1, q.accountId != NO_ID, On(AccountField), account);
    assert m[On(VaultField)] == Is(OneOf(Numbers(reader.vaultIds)));
    assert m1[On(AccountField)] == Is(OneOf(Numbers(reader.accountIds)));
    Overriding(m, q.vaultId != NO_ID, On(VaultField), vault, d);
    Overriding(m1, q.accountId != NO_ID, On(AccountField), account, d);
    Adding(m2, q.contactId != NO_ID, On(ContactField), Is(Equals(Number(q.contactId))), d);
  }

  lemma IdsLeaveRest(reader: Reader, q: Query)
    ensures BeforeNumber(WithIds(ScopeClauses(reader), q))
  {
    hide VisibilityClause;
  }

  lemma KindMeans(m: map<Key, Clause>, t: KindTest, tx: Transaction, undated: bool)
    requires On(KindField) !in m && On(FirstSplitField) !in m
    ensures Accepts(Filter(WithKind(m, t)), TransactionDoc(tx, undated))
            <==> Accepts(Filter(m), TransactionDoc(tx, undated)) && OfKind(t, tx)
    ensures BeforeTexts(m) ==> BeforeTexts(WithKind(m, t))
  {
    hide Accepts;
    var d := TransactionDoc(tx, undated);
    match t {
      case ExactTest(kind) => Adding(m, true, On(KindField), Is(Equals(KindValue(kind))), d);
      case ModeTest(mode) =>
        var m1 := PutIf(m, mode != SplitScope, On(KindField), Is(OneOf(Kinds(KindsOf(mode)))));
        Adding(m, mode != SplitScope, On(KindField), Is(OneOf(Kinds(KindsOf(mode)))), d);
        Adding(m1, true, On(FirstSplitField), Is(Exists(mode == SplitScope)), d);
        assert KindValue(tx.kind) in Kinds(KindsOf(mode)) <==> tx.kind in KindsOf(mode);
    }
  }

  lemma TextMeans(requested: string, f: Field, stored: string, tx: Transaction, undated: bool)
    requires ReadTransaction(tx, undated, f) == NonEmpty(stored)
    ensures (requested != "" ==> Holds(On(f), Is(Equals(Text(Trim(requested)))), TransactionDoc(tx, undated)))
            <==> Carries(requested, stored)
  {
    hide Trim, ReadTransaction;
  }

  lemma TextsMean(m: map<Key, Clause>, q: Query, tx: Transaction, undated: bool)
    requires BeforeTexts(m)
    ensures Accepts(Filter(WithTexts(m, q)), TransactionDoc(tx, undated))
            <==> && Accepts(Filter(m), TransactionDoc(tx, undated))
                 && Carries(q.category, tx.category) && Carries(q.merchant, tx.merchant)
    ensures BeforeSearch(WithTexts(m, q))
  {
    var d := TransactionDoc(tx, undated);
    TextMeans(q.category, CategoryField, tx.category, tx, undated);
    TextMeans(q.merchant, MerchantField, tx.merchant, tx, undated);
    hide Accepts, Holds, Carries, Trim;
    var category, merchant := Is(Equals(Text(Trim(q.category)))), Is(Equals(Text(Trim(q.merchant))));
    Adding(m, q.category != "", On(CategoryField), category, d);
    Adding(PutIf(m, q.category != "", On(CategoryField), category), q.merchant != "", On(MerchantField), merchant, d);
  }

  lemma SearchTestMeans(f: Field, t: Test, d: Doc)
    ensures Accepts(One(On(f), Is(t)), d) <==> Passes(t, Read(d, Top(f)))
  {
    OneSelects(On(f), Is(t), d);
    hide Accepts, Passes, Read;
  }

  lemma TextMentions(term: string, f: Field, text: string, tx: Transaction, undated: bool)
    requires term != "" && ReadTransaction(tx, undated, f) == NonEmpty(text)
    ensures Accepts(One(On(f), Is(ContainsIgnoringCase(term))), TransactionDoc(tx, undated)) <==> Mentions(text, term)
  {
    SearchTestMeans(f, ContainsIgnoringCase(term), TransactionDoc(tx, undated));
    hide SameText, Lower, Accepts, ReadTransaction;
    OccursMeans(term, text);
  }

  lemma SearchMeans(term: string, tx: Transaction, undated: bool)
    requires term != ""
    ensures Holds(OrKey, AnyOf(SearchTests(term)), TransactionDoc(tx, undated))
            <==> || term <= tx.publicId
                 || Mentions(tx.merchant, term) || Mentions(tx.category, term)
                 || Mentions(tx.description, term) || Mentions(tx.notes, term)
  {
    hide Accepts, Mentions, Holds, Passes, Read, ReadTransaction, One;
    FiveTests(SearchTests(term), TransactionDoc(tx, undated));
    NumberStarts(term, tx, undated);
    FieldsAreRead(tx, undated);
    TextMentions(term, MerchantField, tx.merchant, tx, undated);
    TextMentions(term, CategoryField, tx.category, tx, undated);
    TextMentions(term, DescriptionField, tx.description, tx, undated);
    TextMentions(term, NotesField, tx.notes, tx, undated);
  }

  lemma FieldsAreRead(tx: Transaction, undated: bool)
    ensures ReadTransaction(tx, undated, MerchantField) == NonEmpty(tx.merchant)
    ensures ReadTransaction(tx, undated, CategoryField) == NonEmpty(tx.category)
    ensures ReadTransaction(tx, undated, DescriptionField) == NonEmpty(tx.description)
    ensures ReadTransaction(tx, undated, NotesField) == NonEmpty(tx.notes)
  {
  }

  lemma NumberStarts(term: string, tx: Transaction, undated: bool)
    requires term != ""
    ensures Accepts(One(On(PublicIdField), Is(StartsWith(term))), TransactionDoc(tx, undated))
            <==> term <= tx.publicId
  {
    SearchTestMeans(PublicIdField, StartsWith(term), TransactionDoc(tx, undated));
    hide Accepts;
  }

  lemma FiveTests(list: seq<Filter>, d: Doc)
    requires |list| == 5
    ensures Holds(OrKey, AnyOf(list), d) <==>
            Accepts(list[0], d) || Accepts(list[1], d) || Accepts(list[2], d) || Accepts(list[3], d)
              || Accepts(list[4], d)
  {
    hide Accepts;
  }

  /** The rewrite keeps the visibility test and adds the search test. */
  lemma RewriteMeans(m: map<Key, Clause>, term: string, d: Doc)
    requires OrKey in m && AndKey !in m
    ensures Accepts(Filter(WithSearch(m, term)), d)
            <==> Accepts(Filter(m), d) && (term != "" ==> Holds(OrKey, AnyOf(SearchTests(term)), d))
    ensures On(AmountField) !in m ==> On(AmountField) !in WithSearch(m, term)
  {
    hide SearchTests;
    if term != "" {
      var a, b := One(OrKey, m[OrKey]), One(OrKey, AnyOf(SearchTests(term)));
      OneSelects(OrKey, m[OrKey], d);
      OneSelects(OrKey, AnyOf(SearchTests(term)), d);
      Splitting(m, OrKey, d);
      Both(AndKey, a, b, d);
      hide Accepts, Holds;
      Adding(m - {OrKey}, true, AndKey, AllOf([a, b]), d);
    }
  }

  lemma AmountsMean(m: map<Key, Clause>, q: Query, tx: Transaction, undated: bool)
    requires On(AmountField) !in m
    ensures Accepts(Filter(WithAmounts(m, q)), TransactionDoc(tx, undated))
            <==> && Accepts(Filter(m), TransactionDoc(tx, undated))
                 && (q.minAmount.Some? ==> q.minAmount.value <= tx.amount)
                   && (q.maxAmount.Some? ==> tx.amount <= q.maxAmount.value)
  {
    hide Accepts;
    Adding(m, q.minAmount.Some? || q.maxAmount.Some?, On(AmountField), Is(Bounds(None, q.minAmount, None, q.maxAmount)),
           TransactionDoc(tx, undated));
  }

  lemma NumberAndKindMean(m: map<Key, Clause>, q: Query, tx: Transaction, undated: bool)
    requires BeforeNumber(m)
    ensures Accepts(Filter(NumberAndKind(m, q)), TransactionDoc(tx, undated))
            <==> && Accepts(Filter(m), TransactionDoc(tx, undated))
                 && Carries(q.publicId, tx.publicId) && (q.kind != "" ==> KindAsked(q.kind, tx))
    ensures BeforeTexts(NumberAndKind(m, q))
  {
    TextMeans(q.publicId, PublicIdField, tx.publicId, tx, undated);
    KindAskedMeans(q.kind, tx);
    hide Accepts, Holds, Carries, Trim, WithKind, OfKind, KindTestOf, KindAsked;
    var number := Is(Equals(Text(Trim(q.publicId))));
    Adding(m, q.publicId != "", On(PublicIdField), number, TransactionDoc(tx, undated));
    if q.kind != "" {
      KindMeans(PutIf(m, q.publicId != "", On(PublicIdField), number), KindTestOf(q.kind), tx, undated);
    }
  }

  lemma RestMeans(m: map<Key, Clause>, q: Query, tx: Transaction, undated: bool)
    requires BeforeSearch(m)
    ensures Accepts(Filter(WithAmounts(WithSearch(m, Trim(q.search)), q)), TransactionDoc(tx, undated))
            <==> && Accepts(Filter(m), TransactionDoc(tx, undated)) && Found(q.search, tx)
                 && (q.minAmount.Some? ==> q.minAmount.value <= tx.amount)
                   && (q.maxAmount.Some? ==> tx.amount <= q.maxAmount.value)
  {
    hide Accepts, Holds, Trim, WithSearch, WithAmounts, SearchTests, Occurs, Lower, Mentions;
    RewriteMeans(m, Trim(q.search), TransactionDoc(tx, undated));
    if Trim(q.search) != "" { SearchMeans(Trim(q.search), tx, undated); }
    AmountsMean(WithSearch(m, Trim(q.search)), q, tx, undated);
  }

  /** Without its date clause, the query selects exactly the visible, wanted transactions. */
  lemma ClausesMean(reader: Reader, q: Query, tx: Transaction, undated: bool)
    requires Answerable(reader, q)
    ensures Accepts(Filter(QueryClauses(reader, q)), TransactionDoc(tx, undated))
        <==> Visible(reader, tx) && Wanted(q, tx)
  {
    var m0 := ScopeClauses(reader);
    var m1 := WithIds(m0, q);
    IdsMean(m0, q, reader, tx, undated);
    IdsLeaveRest(reader, q);
    hide WithIds, ScopeClauses, Visible, VisibilityClause, Accepts, Carries, Trim, Answerable, WithTexts, NumberAndKind,
      WithSearch, WithAmounts, OfKind, KindTestOf, KindAsked, Found, BeforeNumber, BeforeTexts, BeforeSearch;
    NumberAndKindMean(m1, q, tx, undated);
    var m2 := NumberAndKind(m1, q);
    TextsMean(m2, q, tx, undated);
    RestMeans(WithTexts(m2, q), q, tx, undated);
  }

  // ---- the date clause ----

  function DateBounds(from: Option<int>, to: Option<int>): Clause {
    Is(Bounds(None, from, to, None))
  }

  /** `effectiveTransactionDateClause`: dated in range, or undated and created in range. */
  function DateClause(from: Option<int>, to: Option<int>): Filter {
    One(OrKey, AnyOf([
      One(On(OccurredField), DateBounds(from, to)),
      One(AndKey, AllOf([
        One(OrKey, AnyOf([One(On(OccurredField), Is(Exists(false))), One(On(OccurredField), Is(Equals(Number(0))))])),
        One(On(CreatedField), DateBounds(from, to))]))]))
  }

  predicate DatedIn(from: Option<int>, to: Option<int>, tx: Transaction, undated: bool) {
    || (!undated && During(from, to, tx.occurredAt))
    || ((undated || tx.occurredAt == 0) && During(from, to, tx.createdAt))
  }

  lemma DateClauseSelects(from: Option<int>, to: Option<int>, tx: Transaction, undated: bool)
    ensures Accepts(DateClause(from, to), TransactionDoc(tx, undated)) <==> DatedIn(from, to, tx, undated)
  {
    var d := TransactionDoc(tx, undated);
    var absent, zero := One(On(OccurredField), Is(Exists(false))), One(On(OccurredField), Is(Equals(Number(0))));
    var dated, created := One(On(OccurredField), DateBounds(from, to)), One(On(CreatedField), DateBounds(from, to));
    var legacy := One(OrKey, AnyOf([absent, zero]));
    OneSelects(On(OccurredField), Is(Exists(false)), d);
    OneSelects(On(OccurredField), Is(Equals(Number(0))), d);
    OneSelects(On(OccurredField), DateBounds(from, to), d);
    OneSelects(On(CreatedField), DateBounds(from, to), d);
    hide Accepts;
    Either(OrKey, absent, zero, d);
    OneSelects(OrKey, AnyOf([absent, zero]), d);
    Both(AndKey, legacy, created, d);
    OneSelects(AndKey, AllOf([legacy, created]), d);
    Either(OrKey, dated, One(AndKey, AllOf([legacy, created])), d);
    OneSelects(OrKey, AnyOf([dated, One(AndKey, AllOf([legacy, created]))]), d);
  }

  /**
   * The clause means the effective date, exactly but for one family: a stored
   * zero occurrence whose own zero instant lies in the range while the creation
   * instant, which is the effective one, does not.
   */
  lemma DateClauseMeans(from: Option<int>, to: Option<int>, tx: Transaction, undated: bool)
    requires undated ==> tx.occurredAt == 0
    ensures (DatedIn(from, to, tx, undated) <==> During(from, to, EffectiveInstant(tx.occurredAt, tx.createdAt)))
            <==> !(!undated && tx.occurredAt == 0 && During(from, to, 0) && !During(from, to, tx.createdAt))
    ensures from.Some? && from.value > 0 ==>
              (DatedIn(from, to, tx, undated) <==> During(from, to, EffectiveInstant(tx.occurredAt, tx.createdAt)))
  {
  }

  /**
   * The family, concretely: a row stored with a zero occurrence and created a
   * day later is listed for the range that ends with day zero.
   */
  lemma ZeroDatedIsListed(tx: Transaction)
    requires tx.occurredAt == 0 && tx.createdAt == SECONDS_PER_DAY
    ensures Accepts(DateClause(None, Some(SECONDS_PER_DAY)), TransactionDoc(tx, false))
    ensures !During(None, Some(SECONDS_PER_DAY), EffectiveInstant(tx.occurredAt, tx.createdAt))
  {
    DateClauseSelects(None, Some(SECONDS_PER_DAY), tx, false);
  }

  /**
   * `addTransactionDateClause`: every top-level clause moves under one `$and`,
   * so that the date `$or` cannot replace the visibility `$or`.
   */
  method AddDateClause(query: map<Key, Clause>, from: Option<int>, to: Option<int>) returns (r: map<Key, Clause>)
    ensures from.None? && to.None? ==> r == query
    ensures from.Some? || to.Some? ==> r.Keys == {AndKey}
    ensures forall tx, undated ::
              Accepts(Filter(r), TransactionDoc(tx, undated))
              <==> Accepts(Filter(query), TransactionDoc(tx, undated))
                   && (from.Some? || to.Some? ==> DatedIn(from, to, tx, undated))
  {
    if from.None? && to.None? {
      return query;
    }
    hide Accepts, DatedIn;
    var clauses, rest := [], query;
    forall d ensures Accepts(Filter(query), d) <==> AllAccept(clauses, d) && Accepts(Filter(rest), d) {}
    while rest != map[]
      invariant forall d :: Accepts(Filter(query), d) <==> AllAccept(clauses, d) && Accepts(Filter(rest), d)
      decreases |rest|
    {
      var key := PickAny(rest.Keys);
      forall d
        ensures Accepts(Filter(query), d)
                <==> AllAccept(clauses + [One(key, rest[key])], d) && Accepts(Filter(rest - {key}), d)
      {
        Splitting(rest, key, d);
        OneSelects(key, rest[key], d);
        AllAcceptMore(clauses, One(key, rest[key]), d);
      }
      clauses := clauses + [One(key, rest[key])];
      rest := rest - {key};
    }
    ghost var before := clauses;
    clauses := clauses + [DateClause(from, to)];
    r := map[AndKey := AllOf(clauses)];
    forall tx, undated
      ensures Accepts(Filter(r), TransactionDoc(tx, undated))
              <==> Accepts(Filter(query), TransactionDoc(tx, undated)) && DatedIn(from, to, tx, undated)
    {
      var d := TransactionDoc(tx, undated);
      NoClauses(d);
      AllAcceptMore(before, DateClause(from, to), d);
      DateClauseSelects(from, to, tx, undated);
      OneSelects(AndKey, AllOf(clauses), d);
    }
  }

  predicate AllAccept(list: seq<Filter>, d: Doc) {
    forall i | 0 <= i < |list| :: Accepts(list[i], d)
  }

  lemma AllAcceptMore(list: seq<Filter>, f: Filter, d: Doc)
    ensures AllAccept(list + [f], d) <==> AllAccept(list, d) && Accepts(f, d)
  {
    hide Accepts;
    var more := list + [f];
    assert more[|list|] == f;
    assert forall i | 0 <= i < |list| :: more[i] == list[i];
  }

  // ---- the query builder ----

  /** The identifier, type, text, search and amount clauses, added one after the other. */
  method AddRequested(scoped: map<Key, Clause>, q: Query) returns (r: Result<map<Key, Clause>>)
    requires OrKey in scoped
    ensures r.Ok? <==> WellPut(q)
    ensures r.Ok? ==> r.value == WithRequested(scoped, q)
  {
    hide Trim, ParseNumber, SearchTests, KindTestOf, WithKind;
    var filter := scoped;
    if q.publicId != "" {
      if ParseNumber(Trim(q.publicId)).Err? {
        return Err(InvalidField("transactionId"));
      }
      filter := filter[On(PublicIdField) := Is(Equals(Text(Trim(q.publicId))))];
    }
    if q.kind != "" {
      filter := WithKind(filter, KindTestOf(q.kind));
    }
    assert filter == NumberAndKind(scoped, q);
    hide NumberAndKind;
    if q.category != "" {
      filter := filter[On(CategoryField) := Is(Equals(Text(Trim(q.category))))];
    }
    if q.merchant != "" {
      filter := filter[On(MerchantField) := Is(Equals(Text(Trim(q.merchant))))];
    }
    assert filter == WithTexts(NumberAndKind(scoped, q), q);
    hide WithTexts, WithSearch;
    var term := Trim(q.search);
    if |term| > MAX_SEARCH {
      return Err(InvalidField("search"));
    }
    filter := WithSearch(filter, term);
    if q.minAmount.Some? || q.maxAmount.Some? {
      if !AmountOk(q.minAmount) {
        return Err(InvalidField("minAmountMinor"));
      }
      if !AmountOk(q.maxAmount) {
        return Err(InvalidField("maxAmountMinor"));
      }
      if q.minAmount.Some? && q.maxAmount.Some? && q.minAmount.value > q.maxAmount.value {
        return Err(InvalidField("amount"));
      }
      filter := filter[On(AmountField) := Is(Bounds(None, q.minAmount, None, q.maxAmount))];
    }
    return Ok(filter);
  }

  /**
   * `transactionQueryForScope`. A query document comes back exactly for
   * answerable requests, and it selects exactly what the request asks for,
   * dated as the date clause understands it (see `DateClauseMeans`).
   */
  method TransactionQuery(reader: Reader, q: Query) returns (r: Result<Option<Filter>>)
    ensures r.Ok? && r.value.Some? <==> Answerable(reader, q)
    ensures r.Ok? && r.value.None? ==> reader.vaultIds == {} || reader.accountIds == {}
    ensures Answerable(reader, q) && (q.from.Some? || q.to.Some?) ==> r.value.value.clauses.Keys == {AndKey}
    ensures Answerable(reader, q) ==> forall tx, undated ::
              Accepts(r.value.value, TransactionDoc(tx, undated))
              <==> && Visible(reader, tx) && Wanted(q, tx)
                   && (q.from.Some? || q.to.Some? ==> DatedIn(q.from, q.to, tx, undated))
  {
    hide Visible, Wanted, DatedIn, Accepts, VisibilityClause, WellPut, WithRequested;
    if q.from.Some? && q.to.Some? && q.to.value <= q.from.value {
      return Err(InvalidField("period"));
    }
    if reader.vaultIds == {} {
      return Ok(None);
    }
    if q.vaultId != NO_ID && q.vaultId !in reader.vaultIds {
      return Err(Forbidden);
    }
    if reader.accountIds == {} {
      return Ok(None);
    }
    var filter := ScopeClauses(reader);
    if q.vaultId != NO_ID {
      filter := filter[On(VaultField) := Is(Equals(Number(q.vaultId)))];
    }
    if q.accountId != NO_ID {
      if q.accountId !in reader.accountIds {
        return Err(Forbidden);
      }
      filter := filter[On(AccountField) := Is(Equals(Number(q.accountId)))];
    }
    if q.contactId != NO_ID {
      filter := filter[On(ContactField) := Is(Equals(Number(q.contactId)))];
    }
    assert filter == WithIds(ScopeClauses(reader), q) && OrKey in filter;
    hide WithIds, ScopeClauses;
    var requested :- AddRequested(filter, q);
    filter := AddDateClause(requested, q.from, q.to);
    forall tx, undated
      ensures Accepts(Filter(filter), TransactionDoc(tx, undated))
              <==> && Visible(reader, tx) && Wanted(q, tx)
                   && (q.from.Some? || q.to.Some? ==> DatedIn(q.from, q.to, tx, undated))
    {
      ClausesMean(reader, q, tx, undated);
    }
    return Ok(Some(Filter(filter)));
  }

  /** With a lower bound after the zero instant, or every occurrence set, the query is its specification. */
  lemma QueryMeansListed(reader: Reader, q: Query, tx: Transaction, undated: bool)
    requires undated ==> tx.occurredAt == 0
    requires (q.from.Some? && q.from.value > 0) || undated || tx.occurredAt != 0
    ensures Visible(reader, tx) && Wanted(q, tx) && (q.from.Some? || q.to.Some? ==> DatedIn(q.from, q.to, tx, undated))
            <==> Listed(reader, q, tx)
  {
    hide Visible, Wanted;
    DateClauseMeans(q.from, q.to, tx, undated);
  }
}
