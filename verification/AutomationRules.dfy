/**
 * Automation rules: the order they run in, the fold over one transaction, and
 * the provenance that explains its result.
 */
module AutomationRules {
  import opened Outcomes
  import opened Decimals
  import opened Texts
  import opened Store
  import opened Categories

  const MAX_RULES := 1000
  const MAX_CONDITIONS := 10
  const MAX_ACTIONS := 6
  const DEFAULT_PRIORITY := 100
  const MAX_PRIORITY := 100_000

  // ---- rules ----

  datatype TextField = KindText | DescriptionText | CategoryText

  datatype IdField = AccountId | ContactId

  datatype TextOperator = EqualTo | NotEqualTo | Containing

  /** An amount bound the stored condition lacks makes the condition fail. */
  datatype Condition =
    | TextCondition(field: TextField, operator: TextOperator, candidates: seq<string>)
    | IdCondition(idField: IdField, ids: seq<Id>)
    | AmountIs(min: Option<int>)
    | AmountAbove(min: Option<int>)
    | AmountBelow(min: Option<int>)
    | AmountBetween(min: Option<int>, max: Option<int>)
    | Imported(expected: bool)
    | UnknownCondition

  /** Texts are the trimmed ones that validation and execution both use. */
  datatype Action =
    | SetCategory(category: string)
    | SetContact(contactId: Id)
    | Rename(merchant: string)
    | SetAccount(accountId: Id)
    | AddTag(tag: string)
    | SetPrivacy(privacy: Privacy)
    | UnknownAction

  datatype Rule = Rule(id: Id, priority: int, createdAt: int, enabled: bool, conditions: seq<Condition>,
    actions: seq<Action>)

  /** What actions look up: the workspace's contacts and accounts. */
  datatype Directory = Directory(contacts: set<Id>, accounts: map<Id, Account>)

  // ---- what the service stores ----

  /** `validateRuleCondition` */
  predicate ValidCondition(c: Condition) {
    match c
    case TextCondition(f, op, candidates) =>
      && candidates != []
      && (op.EqualTo? || (op.Containing? && f.DescriptionText?) || (op.NotEqualTo? && f.CategoryText?))
    case IdCondition(_, ids) => ids != []
    case AmountIs(min) => min.Some? && min.value >= 0
    case AmountAbove(min) => min.Some? && min.value >= 0
    case AmountBelow(min) => min.Some? && min.value >= 0
    case AmountBetween(min, max) => min.Some? && max.Some? && 0 <= min.value <= max.value
    case Imported(_) => true
    case UnknownCondition => false
  }

  predicate ShortText(s: string, limit: nat) {
    s != "" && Trim(s) == s && |s| <= limit
  }

  /** `validateRuleAction` */
  predicate ValidAction(d: Directory, a: Action) {
    match a
    case SetCategory(value) => ShortText(value, 100)
    case SetContact(value) => value == NO_ID || value in d.contacts
    case Rename(value) => ShortText(value, 200)
    case SetAccount(value) =>
      value in d.accounts && !d.accounts[value].archived && !d.accounts[value].inactive
      && d.accounts[value].privacy == Workspace
    case AddTag(value) => ShortText(value, 60) && ',' !in value && '\n' !in value
    case SetPrivacy(value) => value != Privacy.Selected
    case UnknownAction => false
  }

  /** `normalizeAutomationRuleInput`: the rules a create or an update lets into the store. */
  predicate Storable(d: Directory, r: Rule) {
    && r.id != NO_ID && 0 <= r.priority <= MAX_PRIORITY
    && 0 < |r.conditions| <= MAX_CONDITIONS && (forall c | c in r.conditions :: ValidCondition(c))
    && 0 < |r.actions| <= MAX_ACTIONS && (forall a | a in r.actions :: ValidAction(d, a))
  }

  // ---- conditions ----

  function TextOf(tx: Transaction, f: TextField): string {
    match f
    case KindText => KindName(tx.kind)
    case DescriptionText => Trim(tx.merchant + " " + tx.description)
    case CategoryText => tx.category
  }

  predicate TextMatches(op: TextOperator, target: string, candidate: string) {
    match op
    case EqualTo => target == candidate
    case NotEqualTo => target != candidate
    case Containing => candidate != "" && Occurs(candidate, target)
  }

  /** `evaluateRuleCondition`: one matching candidate is enough, for every operator. */
  predicate ConditionHolds(c: Condition, tx: Transaction) {
    match c
    case TextCondition(f, op, candidates) =>
      exists x | x in candidates :: TextMatches(op, Normalized(TextOf(tx, f)), Normalized(x))
    case IdCondition(f, ids) => (if f.AccountId? then tx.accountId else tx.contactId) in ids
    case AmountIs(min) => min.Some? && tx.amount == min.value
    case AmountAbove(min) => min.Some? && tx.amount > min.value
    case AmountBelow(min) => min.Some? && tx.amount < min.value
    case AmountBetween(min, max) => min.Some? && max.Some? && min.value <= tx.amount <= max.value
    case Imported(expected) => tx.imported == expected
    case UnknownCondition => false
  }

  /** A rule without conditions never fires. */
  predicate Fires(r: Rule, tx: Transaction) {
    r.conditions != [] && forall c | c in r.conditions :: ConditionHolds(c, tx)
  }

  /** The text a condition is compared with. */
  lemma TextIs(tx: Transaction, f: TextField)
    ensures f == CategoryText ==> TextOf(tx, f) == tx.category
    ensures f == DescriptionText ==> IsCore(IsSpace, TextOf(tx, f), tx.merchant + " " + tx.description)
    ensures f == KindText ==> KindOf(TextOf(tx, f)) == tx.kind || tx.kind.Unsupported?
  {
    hide IsSpace;
    KindNames(tx.kind);
    TrimMeans(tx.merchant + " " + tx.description, Trim(tx.merchant + " " + tx.description));
    hide KindOf, KindName;
  }

  /** What an operator asks of a text and a candidate, in words and letters. */
  predicate Compares(op: TextOperator, text: string, x: string) {
    match op
    case EqualTo => SameWords(Fields(text), Fields(x))
    case NotEqualTo => !SameWords(Fields(text), Fields(x))
    case Containing => Fields(x) != [] && Mentions(Join(Fields(text)), Join(Fields(x)))
  }

  /**
   * A text condition compares words, up to letter case: one candidate with the
   * same words is enough for equality, one with others for inequality, and one
   * mentioned in the text, blanks squeezed, for containment.
   */
  lemma TextConditionMeans(tx: Transaction, f: TextField, op: TextOperator, candidates: seq<string>)
    ensures ConditionHolds(TextCondition(f, op, candidates), tx)
            <==> exists x | x in candidates :: Compares(op, TextOf(tx, f), x)
  {
    hide TextOf, Compares, TextMatches, Normalized;
    forall x ensures TextMatches(op, Normalized(TextOf(tx, f)), Normalized(x)) <==> Compares(op, TextOf(tx, f), x) {
      MatchMeans(op, TextOf(tx, f), x);
    }
  }

  lemma MatchMeans(op: TextOperator, text: string, x: string)
    ensures TextMatches(op, Normalized(text), Normalized(x)) <==> Compares(op, text, x)
  {
    hide Fields, Join, Lower, SameWords, Mentions, Occurs;
    NormalizedMeans(text, x);
    OccursMeans(Join(Fields(x)), Join(Fields(text)));
    NormalizedEmpty(x);
  }

  lemma NormalizedEmpty(x: string)
    ensures Normalized(x) == "" <==> Fields(x) == []
  {
    NormalizedMeans(x, "");
    assert Fields("") == [] && Normalized("") == "";
    hide Lower, Join, Fields;
  }

  /** The conditions on numbers and marks; an amount condition without the bound it needs never holds. */
  lemma OtherConditionsMean(tx: Transaction, low: int, high: int, ids: seq<Id>, expected: bool)
    ensures ConditionHolds(IdCondition(AccountId, ids), tx) <==> tx.accountId in ids
    ensures ConditionHolds(IdCondition(ContactId, ids), tx) <==> tx.contactId in ids
    ensures ConditionHolds(AmountIs(Some(low)), tx) <==> tx.amount == low
    ensures ConditionHolds(AmountAbove(Some(low)), tx) <==> !(tx.amount <= low)
    ensures ConditionHolds(AmountBelow(Some(low)), tx) <==> !(low <= tx.amount)
    ensures ConditionHolds(AmountBetween(Some(low), Some(high)), tx) <==> !(tx.amount < low) && !(high < tx.amount)
    ensures ConditionHolds(Imported(expected), tx) <==> tx.imported == expected
    ensures forall c | c in {AmountIs(None), AmountAbove(None), AmountBelow(None), UnknownCondition} ::
              !ConditionHolds(c, tx)
    ensures forall x :: !ConditionHolds(AmountBetween(None, x), tx) && !ConditionHolds(AmountBetween(x, None), tx)
  {
  }

  // ---- actions and their provenance ----

  /** One recorded field change; tags are recorded as an addition with nothing before it. */
  datatype Change =
    | CategoryChange(from: string, to: string)
    | ContactChange(fromId: Id, toId: Id)
    | MerchantChange(from: string, to: string)
    | AccountChange(fromId: Id, toId: Id)
    | TagAdded(tag: string)
    | PrivacyChange(fromPrivacy: Privacy, toPrivacy: Privacy)

  datatype Applied = Applied(ruleId: Id, changes: seq<Change>)

  function ApplyAction(d: Directory, a: Action, tx: Transaction): (Transaction, seq<Change>) {
    match a
    case SetCategory(value) =>
      if tx.category == value then (tx, []) else (tx.(category := value), [CategoryChange(tx.category, value)])
    case SetContact(value) =>
      if tx.contactId == value || value !in d.contacts then (tx, [])
      else (tx.(contactId := value), [ContactChange(tx.contactId, value)])
    case Rename(value) =>
      if tx.merchant == value then (tx, []) else (tx.(merchant := value), [MerchantChange(tx.merchant, value)])
    case SetAccount(value) =>
      if tx.accountId == value || value !in d.accounts then (tx, [])
      else
        var account := d.accounts[value];
        if account.archived || account.inactive || account.currency != tx.currency || account.vaultId != tx.vaultId then
          (tx, [])
        else if account.privacy != Workspace && tx.privacy != Private then
          (tx.(accountId := value, privacy := Private),
           [AccountChange(tx.accountId, value), PrivacyChange(tx.privacy, Private)])
        else (tx.(accountId := value), [AccountChange(tx.accountId, value)])
    case AddTag(value) =>
      if exists t | t in tx.tags :: Lower(t) == Lower(value) then (tx, [])
      else (tx.(tags := tx.tags + [value]), [TagAdded(value)])
    case SetPrivacy(value) =>
      if tx.privacy == value || value == Privacy.Selected then (tx, [])
      else (tx.(privacy := value), [PrivacyChange(tx.privacy, value)])
    case UnknownAction => (tx, [])
  }

  /** An account an action may move a transaction to. */
  predicate Reachable(d: Directory, id: Id, tx: Transaction) {
    && id in d.accounts && !d.accounts[id].archived && !d.accounts[id].inactive
    && d.accounts[id].currency == tx.currency && d.accounts[id].vaultId == tx.vaultId
  }

  /**
   * What an action leaves: exactly its field, and exactly what it asks for,
   * wherever that is allowed; something is recorded exactly when something
   * changed.
   */
  lemma ActionMeans(d: Directory, a: Action, tx: Transaction)
    ensures var (after, changes) := ApplyAction(d, a, tx);
            && (changes == [] <==> after == tx)
            && match a
               case SetCategory(value) => after == tx.(category := value)
               case Rename(value) => after == tx.(merchant := value)
               case SetContact(value) => after == if value in d.contacts then tx.(contactId := value) else tx
               case SetAccount(value) =>
                 after == if Reachable(d, value, tx) && value != tx.accountId then
                            tx.(accountId := value,
                                privacy := if d.accounts[value].privacy == Workspace then tx.privacy else Private)
                          else tx
               case AddTag(value) =>
                 after == if exists t | t in tx.tags :: SameText(t, value) then tx
                          else tx.(tags := tx.tags + [value])
               case SetPrivacy(value) => after == if value == Privacy.Selected then tx else tx.(privacy := value)
               case UnknownAction => after == tx
  {
    if a.AddTag? {
      TagMeans(d, a.tag, tx);
    }
    hide Lower, SameText;
  }

  lemma TagMeans(d: Directory, tag: string, tx: Transaction)
    ensures var (after, changes) := ApplyAction(d, AddTag(tag), tx);
            && (changes == [] <==> after == tx)
            && after == if exists t | t in tx.tags :: SameText(t, tag) then tx else tx.(tags := tx.tags + [tag])
  {
    forall t: string { LowerMeans(t, tag); }
    hide Lower, SameText;
    assert |tx.tags + [tag]| == |tx.tags| + 1;
  }

  /** Manual runs skip account moves. */
  function ApplyActions(d: Directory, actions: seq<Action>, tx: Transaction, manual: bool): (Transaction, seq<Change>) {
    if actions == [] then (tx, [])
    else
      var (before, changes) := ApplyActions(d, actions[..|actions| - 1], tx, manual);
      var last := actions[|actions| - 1];
      if manual && last.SetAccount? then (before, changes)
      else
        var (after, more) := ApplyAction(d, last, before);
        (after, changes + more)
  }

  /** Each rule once, in order, on what the earlier ones left. */
  function ApplyRules(d: Directory, rules: seq<Rule>, tx: Transaction, manual: bool): (Transaction, seq<Applied>) {
    if rules == [] then (tx, [])
    else
      var (before, records) := ApplyRules(d, rules[..|rules| - 1], tx, manual);
      var rule := rules[|rules| - 1];
      if !rule.enabled || !Fires(rule, before) then (before, records)
      else
        var (after, changes) := ApplyActions(d, rule.actions, before, manual);
        (after, if changes == [] then records else records + [Applied(rule.id, changes)])
  }

  /** A rule acts exactly when it is enabled and has conditions, all of which hold. */
  lemma OneRule(d: Directory, r: Rule, tx: Transaction, manual: bool)
    ensures ApplyRules(d, [r], tx, manual).0
            == if r.enabled && |r.conditions| > 0
                 && (forall i | 0 <= i < |r.conditions| :: ConditionHolds(r.conditions[i], tx))
               then ApplyActions(d, r.actions, tx, manual).0 else tx
  {
    hide ConditionHolds, ApplyActions;
    assert [r][..0] == [];
    assert ApplyRules(d, [], tx, manual) == (tx, []);
  }

  // ---- replay ----

  /** Re-applies a recorded change, refusing one whose `from` is not what is there. */
  function Redo(tx: Transaction, c: Change): Option<Transaction> {
    match c
    case CategoryChange(from, to) => if tx.category == from then Some(tx.(category := to)) else None
    case ContactChange(from, to) => if tx.contactId == from then Some(tx.(contactId := to)) else None
    case MerchantChange(from, to) => if tx.merchant == from then Some(tx.(merchant := to)) else None
    case AccountChange(from, to) => if tx.accountId == from then Some(tx.(accountId := to)) else None
    case TagAdded(tag) => Some(tx.(tags := tx.tags + [tag]))
    case PrivacyChange(from, to) => if tx.privacy == from then Some(tx.(privacy := to)) else None
  }

  function Replay(tx: Transaction, changes: seq<Change>): Option<Transaction> {
    if changes == [] then Some(tx)
    else
      var before := Replay(tx, changes[..|changes| - 1]);
      if before.None? then None else Redo(before.value, changes[|changes| - 1])
  }

  function AllChanges(records: seq<Applied>): seq<Change> {
    if records == [] then [] else AllChanges(records[..|records| - 1]) + records[|records| - 1].changes
  }

  lemma {:induction false} ReplayJoin(tx: Transaction, xs: seq<Change>, ys: seq<Change>)
    requires Replay(tx, xs).Some?
    ensures Replay(tx, xs + ys) == Replay(Replay(tx, xs).value, ys)
    decreases |ys|
  {
    hide Redo;
    if ys == [] {
      assert xs + ys == xs;
    } else {
      ReplayJoin(tx, xs, ys[..|ys| - 1]);
      assert (xs + ys)[..|xs + ys| - 1] == xs + ys[..|ys| - 1];
    }
  }

  lemma ActionReplays(d: Directory, a: Action, tx: Transaction)
    ensures Replay(tx, ApplyAction(d, a, tx).1) == Some(ApplyAction(d, a, tx).0)
  {
    var changes := ApplyAction(d, a, tx).1;
    assert Replay(tx, []) == Some(tx);
    if |changes| == 1 {
      assert changes[..0] == [];
    } else if |changes| == 2 {
      assert changes[..1] == [changes[0]] && [changes[0]][..0] == [];
      assert Replay(tx, [changes[0]]) == Redo(tx, changes[0]);
    }
  }

  lemma {:induction false} ActionsReplay(d: Directory, actions: seq<Action>, tx: Transaction, manual: bool)
    ensures Replay(tx, ApplyActions(d, actions, tx, manual).1) == Some(ApplyActions(d, actions, tx, manual).0)
  {
    hide ApplyAction, Redo;
    if actions != [] {
      var rest, last := actions[..|actions| - 1], actions[|actions| - 1];
      var (before, changes) := ApplyActions(d, rest, tx, manual);
      ActionsReplay(d, rest, tx, manual);
      if !(manual && last.SetAccount?) {
        ActionReplays(d, last, before);
        ReplayJoin(tx, changes, ApplyAction(d, last, before).1);
      }
    }
  }

  /**
   * The provenance explains the result: replaying the recorded changes over the
   * original transaction, each on exactly the value it recorded as `from`,
   * gives the final one.
   */
  lemma {:induction false} RulesReplay(d: Directory, rules: seq<Rule>, tx: Transaction, manual: bool)
    ensures Replay(tx, AllChanges(ApplyRules(d, rules, tx, manual).1)) == Some(ApplyRules(d, rules, tx, manual).0)
  {
    hide ApplyActions, Redo, Fires;
    if rules != [] {
      var rest, rule := rules[..|rules| - 1], rules[|rules| - 1];
      var (before, records) := ApplyRules(d, rest, tx, manual);
      RulesReplay(d, rest, tx, manual);
      if rule.enabled && Fires(rule, before) {
        var changes := ApplyActions(d, rule.actions, before, manual).1;
        ActionsReplay(d, rule.actions, before, manual);
        ReplayJoin(tx, AllChanges(records), changes);
        if changes != [] {
          assert (records + [Applied(rule.id, changes)])[..|records|] == records;
        } else {
          assert AllChanges(records) + [] == AllChanges(records);
        }
      }
    }
  }

  // ---- what rules never touch ----

  /** Equal but for the descriptive fields, the account and the privacy. */
  predicate SameSubstance(a: Transaction, b: Transaction) {
    b == a.(category := b.category, contactId := b.contactId, merchant := b.merchant, accountId := b.accountId,
      tags := b.tags, privacy := b.privacy)
  }

  lemma ActionKeepsSubstance(d: Directory, a: Action, tx: Transaction)
    ensures SameSubstance(tx, ApplyAction(d, a, tx).0)
    ensures !a.SetAccount? ==> ApplyAction(d, a, tx).0.accountId == tx.accountId
  {
  }

  lemma {:induction false} ActionsKeepSubstance(d: Directory, actions: seq<Action>, tx: Transaction, manual: bool)
    ensures SameSubstance(tx, ApplyActions(d, actions, tx, manual).0)
    ensures manual ==> ApplyActions(d, actions, tx, manual).0.accountId == tx.accountId
  {
    hide ApplyAction;
    if actions != [] {
      var rest, last := actions[..|actions| - 1], actions[|actions| - 1];
      ActionsKeepSubstance(d, rest, tx, manual);
      ActionKeepsSubstance(d, last, ApplyActions(d, rest, tx, manual).0);
    }
  }

  /** Amount, type, currency, vault and destination never change; in a manual run, neither does the account. */
  lemma {:induction false} RulesKeepSubstance(d: Directory, rules: seq<Rule>, tx: Transaction, manual: bool)
    ensures var after := ApplyRules(d, rules, tx, manual).0;
            && SameSubstance(tx, after)
            && after.amount == tx.amount && after.kind == tx.kind && after.currency == tx.currency
            && after.vaultId == tx.vaultId && after.destinationId == tx.destinationId
            && (manual ==> after.accountId == tx.accountId)
  {
    hide ApplyActions, Fires;
    if rules != [] {
      var rest, rule := rules[..|rules| - 1], rules[|rules| - 1];
      RulesKeepSubstance(d, rest, tx, manual);
      ActionsKeepSubstance(d, rule.actions, ApplyRules(d, rest, tx, manual).0, manual);
    }
  }

  // ---- each rule at most once ----

  predicate DistinctIds(rules: seq<Rule>) {
    forall i, j | 0 <= i < j < |rules| :: rules[i].id != rules[j].id
  }

  /** `source` says which rule left each record: an enabled one, in rule order, none twice. */
  predicate LeftBy(records: seq<Applied>, rules: seq<Rule>, source: seq<nat>) {
    && |source| == |records|
    && (forall i | 0 <= i < |source| ::
          && source[i] < |rules| && rules[source[i]].enabled
          && records[i].ruleId == rules[source[i]].id && records[i].changes != [])
    && (forall i, j | 0 <= i < j < |source| :: source[i] < source[j])
  }

  lemma OneMoreRule(records: seq<Applied>, rest: seq<Rule>, source: seq<nat>, rule: Rule)
    requires LeftBy(records, rest, source)
    ensures LeftBy(records, rest + [rule], source)
  {
  }

  lemma OneMoreRecord(records: seq<Applied>, rest: seq<Rule>, source: seq<nat>, rule: Rule, changes: seq<Change>)
    requires LeftBy(records, rest, source) && rule.enabled && changes != []
    ensures LeftBy(records + [Applied(rule.id, changes)], rest + [rule], source + [|rest|])
  {
  }

  /** Records come from enabled rules, each rule leaving at most one, in rule order. */
  lemma {:induction false} EachRuleOnce(d: Directory, rules: seq<Rule>, tx: Transaction, manual: bool)
    returns (source: seq<nat>)
    ensures LeftBy(ApplyRules(d, rules, tx, manual).1, rules, source)
  {
    hide ApplyActions, Fires;
    if rules == [] {
      source := [];
    } else {
      hide LeftBy;
      var rest, rule := rules[..|rules| - 1], rules[|rules| - 1];
      var (before, records) := ApplyRules(d, rest, tx, manual);
      assert rules == rest + [rule];
      source := EachRuleOnce(d, rest, tx, manual);
      OneMoreRule(records, rest, source, rule);
      var changes := ApplyActions(d, rule.actions, before, manual).1;
      if rule.enabled && Fires(rule, before) && changes != [] {
        OneMoreRecord(records, rest, source, rule, changes);
        source := source + [|rest|];
      }
    }
  }

  // ---- the order rules run in ----

  /** Priority, then creation time, then identifier. */
  predicate Before(a: Rule, b: Rule) {
    || a.priority < b.priority
    || (a.priority == b.priority && a.createdAt < b.createdAt)
    || (a.priority == b.priority && a.createdAt == b.createdAt && a.id < b.id)
  }

  predicate Sorted(rules: seq<Rule>) {
    forall i, j | 0 <= i < j < |rules| :: Before(rules[i], rules[j])
  }

  ghost predicate SameRules(a: seq<Rule>, b: seq<Rule>) {
    forall r :: r in a <==> r in b
  }

  function Inserted(rules: seq<Rule>, r: Rule): seq<Rule> {
    if rules == [] || Before(r, rules[0]) then [r] + rules else [rules[0]] + Inserted(rules[1..], r)
  }

  function Ordered(rules: seq<Rule>): seq<Rule> {
    if rules == [] then [] else Inserted(Ordered(rules[..|rules| - 1]), rules[|rules| - 1])
  }

  /** The query returns at most a thousand rules, in the store's own order. */
  function Taken(stored: seq<Rule>): seq<Rule> {
    if |stored| <= MAX_RULES then stored else stored[..MAX_RULES]
  }

  lemma {:induction false} InsertedHolds(rules: seq<Rule>, r: Rule, x: Rule)
    ensures x in Inserted(rules, r) <==> x in rules || x == r
  {
    hide Before;
    if rules != [] {
      InsertedHolds(rules[1..], r, x);
      assert x in rules <==> x == rules[0] || x in rules[1..];
    }
  }

  lemma {:induction false} InsertedSorted(rules: seq<Rule>, r: Rule)
    requires Sorted(rules) && forall i | 0 <= i < |rules| :: rules[i].id != r.id
    ensures Sorted(Inserted(rules, r))
  {
    if rules != [] && !Before(r, rules[0]) {
      var tail := Inserted(rules[1..], r);
      InsertedSorted(rules[1..], r);
      forall j | 0 <= j < |tail| ensures Before(rules[0], tail[j]) {
        InsertedHolds(rules[1..], r, tail[j]);
        assert tail[j] in tail;
      }
    }
  }

  lemma {:induction false} OrderedHolds(rules: seq<Rule>, x: Rule)
    ensures x in Ordered(rules) <==> x in rules
  {
    if rules != [] {
      OrderedHolds(rules[..|rules| - 1], x);
      InsertedHolds(Ordered(rules[..|rules| - 1]), rules[|rules| - 1], x);
      assert x in rules <==> x in rules[..|rules| - 1] || x == rules[|rules| - 1];
    }
  }

  lemma {:induction false} OrderedSorted(rules: seq<Rule>)
    requires DistinctIds(rules)
    ensures Sorted(Ordered(rules))
  {
    if rules != [] {
      var rest, last := rules[..|rules| - 1], rules[|rules| - 1];
      OrderedSorted(rest);
      hide Sorted, Inserted, Ordered;
      forall i | 0 <= i < |Ordered(rest)| ensures Ordered(rest)[i].id != last.id {
        OrderedHolds(rest, Ordered(rest)[i]);
        assert Ordered(rest)[i] in rest;
      }
      InsertedSorted(Ordered(rest), last);
      assert Ordered(rules) == Inserted(Ordered(rest), last) by { UnfoldOrdered(rules); }
    }
  }

  lemma UnfoldOrdered(rules: seq<Rule>)
    requires rules != []
    ensures Ordered(rules) == Inserted(Ordered(rules[..|rules| - 1]), rules[|rules| - 1])
  {
    hide Inserted;
  }

  lemma HasMember(rules: seq<Rule>)
    requires rules != []
    ensures exists r :: r in rules
  {
    assert rules[0] in rules;
  }

  /** A set of rules has only one sorted listing. */
  lemma {:induction false} SortedIsUnique(a: seq<Rule>, b: seq<Rule>)
    requires Sorted(a) && Sorted(b) && SameRules(a, b)
    ensures a == b
  {
    if a == [] {
      if b != [] { HasMember(b); }
    } else {
      assert a[0] in b;
      assert b[0] in a;
      assert a[0] == b[0];
      TailRules(a, b);
      SortedIsUnique(a[1..], b[1..]);
    }
  }

  lemma TailRules(a: seq<Rule>, b: seq<Rule>)
    requires a != [] && b != [] && a[0] == b[0] && Sorted(a) && Sorted(b) && SameRules(a, b)
    ensures SameRules(a[1..], b[1..])
  {
    forall r ensures r in a[1..] <==> r in b[1..] {
      assert r in a <==> r == a[0] || r in a[1..];
      assert r in b <==> r == b[0] || r in b[1..];
    }
  }

  lemma DistinctPrefix(rules: seq<Rule>, n: nat)
    requires DistinctIds(rules) && n <= |rules|
    ensures DistinctIds(rules[..n])
  {
  }

  /** With at most a thousand rules, the store's order is irrelevant, and so is it to what the rules do. */
  lemma StoreOrderIsIrrelevant(stored: seq<Rule>, other: seq<Rule>, d: Directory, tx: Transaction, manual: bool)
    requires DistinctIds(stored) && DistinctIds(other) && SameRules(stored, other)
    requires |stored| <= MAX_RULES && |other| <= MAX_RULES
    ensures Ordered(Taken(stored)) == Ordered(Taken(other))
    ensures ApplyRules(d, Ordered(Taken(stored)), tx, manual) == ApplyRules(d, Ordered(Taken(other)), tx, manual)
  {
    hide Ordered, Sorted, ApplyRules;
    OrderedSorted(stored);
    OrderedSorted(other);
    forall r ensures r in Ordered(stored) <==> r in Ordered(other) {
      OrderedHolds(stored, r);
      OrderedHolds(other, r);
    }
    SortedIsUnique(Ordered(stored), Ordered(other));
  }

  /** With more, the listing always depends on it: some other order of the same rules loses a different one. */
  lemma ManyRulesDependOnStoreOrder(stored: seq<Rule>)
    requires DistinctIds(stored) && |stored| > MAX_RULES
    ensures exists other :: DistinctIds(other) && SameRules(stored, other) && |other| == |stored|
                            && Ordered(Taken(stored)) != Ordered(Taken(other))
  {
    var other := Rotated(stored);
    RotatedRules(stored);
    hide Ordered;
    OrderedHolds(Taken(stored), stored[0]);
    OrderedHolds(Taken(other), stored[0]);
  }

  /** The same rules with the first one stored last. */
  function Rotated(stored: seq<Rule>): seq<Rule>
    requires stored != []
  {
    stored[1..] + [stored[0]]
  }

  lemma RotatedRules(stored: seq<Rule>)
    requires DistinctIds(stored) && |stored| > MAX_RULES
    ensures DistinctIds(Rotated(stored)) && SameRules(stored, Rotated(stored)) && |Rotated(stored)| == |stored|
    ensures stored[0] in Taken(stored) && stored[0] !in Taken(Rotated(stored))
    ensures forall r | r in Taken(Rotated(stored)) :: r in stored[1..]
  {
    var other := Rotated(stored);
    forall r ensures r in stored <==> r in other {
      assert r in stored <==> r == stored[0] || r in stored[1..];
    }
    assert Taken(stored)[0] == stored[0];
    assert forall i | 0 <= i < MAX_RULES :: Taken(other)[i] == stored[i + 1] == stored[1..][i];
  }

  // ---- where independence of the store's order ends ----

  /** A rule that every payable transaction meets. */
  function Renaming(id: Id, category: string): Rule {
    Rule(id, DEFAULT_PRIORITY, id, true, [AmountAbove(Some(0))], [SetCategory(category)])
  }

  /** A rule that no payable transaction meets. */
  function SilentRule(id: Id): Rule {
    Rule(id, DEFAULT_PRIORITY, id, true, [AmountBelow(Some(0))], [SetCategory("x")])
  }

  function Silent(first: Id, n: nat): (rules: seq<Rule>)
    ensures |rules| == n && forall i | 0 <= i < n :: rules[i] == SilentRule(first + i)
  {
    seq(n, i => SilentRule(first + i))
  }

  predicate NeverFires(r: Rule) {
    r.conditions == [AmountBelow(Some(0))]
  }

  lemma {:induction false} SilentRulesDoNothing(d: Directory, rules: seq<Rule>, tx: Transaction, manual: bool)
    requires tx.amount > 0 && forall r | r in rules :: NeverFires(r)
    ensures ApplyRules(d, rules, tx, manual) == (tx, [])
  {
    if rules != [] {
      var last := rules[|rules| - 1];
      SilentRulesDoNothing(d, rules[..|rules| - 1], tx, manual);
      assert last in rules && !ConditionHolds(last.conditions[0], tx);
    }
  }

  lemma {:induction false} OneRenaming(
    d: Directory, rules: seq<Rule>, id: Id, category: string, tx: Transaction, manual: bool)
    requires tx.amount > 0 && forall r | r in rules :: r == Renaming(id, category) || NeverFires(r)
    ensures ApplyRules(d, rules, tx, manual).0
            == if Renaming(id, category) in rules then tx.(category := category) else tx
  {
    if rules != [] {
      var rest, last := rules[..|rules| - 1], rules[|rules| - 1];
      assert last in rules && forall r | r in rest :: r in rules;
      assert Renaming(id, category) in rules <==> Renaming(id, category) in rest || last == Renaming(id, category);
      OneRenaming(d, rest, id, category, tx, manual);
      if last == Renaming(id, category) {
        RenamingRenames(d, id, category, ApplyRules(d, rest, tx, manual).0, manual);
      } else {
        assert !ConditionHolds(last.conditions[0], ApplyRules(d, rest, tx, manual).0);
      }
      hide ApplyActions;
    }
  }

  lemma RenamingRenames(d: Directory, id: Id, category: string, tx: Transaction, manual: bool)
    requires tx.amount > 0
    ensures var r := Renaming(id, category);
            r.enabled && Fires(r, tx) && ApplyActions(d, r.actions, tx, manual).0 == tx.(category := category)
  {
    var r := Renaming(id, category);
    assert r.actions[..0] == [];
    assert ApplyActions(d, [], tx, manual) == (tx, []);
  }

  /**
   * The limit is where independence ends: for every larger number of rules
   * there are rules the service accepts, and two orders of storing them, under
   * which one and the same transaction comes out with different categories.
   */
  lemma ManyRulesChangeTheResult(n: nat, d: Directory, tx: Transaction, category: string, manual: bool)
    requires n > MAX_RULES && tx.amount > 0 && category != tx.category && ValidAction(d, SetCategory(category))
    ensures var stored := [Renaming(1, category)] + Silent(2, n - 1);
            && DistinctIds(stored) && |stored| == n && (forall r | r in stored :: Storable(d, r))
            && DistinctIds(Rotated(stored)) && SameRules(stored, Rotated(stored))
            && ApplyRules(d, Ordered(Taken(stored)), tx, manual).0 == tx.(category := category)
            && ApplyRules(d, Ordered(Taken(Rotated(stored))), tx, manual).0 == tx
  {
    var stored := [Renaming(1, category)] + Silent(2, n - 1);
    assert stored[0] == Renaming(1, category) && stored[1..] == Silent(2, n - 1);
    RotatedRules(stored);
    WitnessesAreStorable(d, stored, category);
    hide ApplyRules, Ordered, Taken, Storable;
    forall r | r in Ordered(Taken(Rotated(stored))) ensures NeverFires(r) {
      OrderedHolds(Taken(Rotated(stored)), r);
    }
    SilentRulesDoNothing(d, Ordered(Taken(Rotated(stored))), tx, manual);
    forall r | r in Ordered(Taken(stored)) ensures r == stored[0] || NeverFires(r) {
      OrderedHolds(Taken(stored), r);
      TakenHolds(stored, r);
    }
    OrderedHolds(Taken(stored), stored[0]);
    OneRenaming(d, Ordered(Taken(stored)), 1, category, tx, manual);
  }

  lemma WitnessesAreStorable(d: Directory, rules: seq<Rule>, category: string)
    requires ValidAction(d, SetCategory(category))
    requires forall r | r in rules :: r.id > 0 && (r == Renaming(r.id, category) || r == SilentRule(r.id))
    ensures forall r | r in rules :: Storable(d, r)
  {
  }

  lemma TakenHolds(stored: seq<Rule>, r: Rule)
    requires r in Taken(stored)
    ensures r in stored
  {
  }

  lemma InsertedPast(rules: seq<Rule>, r: Rule, i: nat)
    requires i < |rules| && !Before(r, rules[i])
    ensures rules[..i] + Inserted(rules[i..], r) == rules[..i + 1] + Inserted(rules[i + 1..], r)
  {
    hide Before;
    var here, later := rules[i..], Inserted(rules[i + 1..], r);
    assert here[0] == rules[i] && here[1..] == rules[i + 1..];
    assert rules[..i + 1] == rules[..i] + [rules[i]];
    hide Inserted;
    assert (rules[..i] + [rules[i]]) + later == rules[..i] + ([rules[i]] + later);
  }

  lemma InsertedHere(rules: seq<Rule>, r: Rule)
    requires rules == [] || Before(r, rules[0])
    ensures Inserted(rules, r) == [r] + rules
  {
  }

  method InsertRule(rules: seq<Rule>, r: Rule) returns (next: seq<Rule>)
    ensures next == Inserted(rules, r)
  {
    hide Before, Inserted;
    var i := 0;
    assert rules[..0] + Inserted(rules[0..], r) == Inserted(rules, r);
    while i < |rules| && !Before(r, rules[i])
      invariant 0 <= i <= |rules|
      invariant rules[..i] + Inserted(rules[i..], r) == Inserted(rules, r)
    {
      InsertedPast(rules, r, i);
      i := i + 1;
    }
    InsertedHere(rules[i..], r);
    next := rules[..i] + ([r] + rules[i..]);
  }

  /** `listAutomationRulesOrdered` */
  method ListRules(stored: seq<Rule>) returns (rules: seq<Rule>)
    requires DistinctIds(stored)
    ensures rules == Ordered(Taken(stored)) && Sorted(rules) && SameRules(rules, Taken(stored))
    ensures forall i, j | 0 <= i < j < |rules| ::
              && rules[i].priority <= rules[j].priority
              && (rules[i].priority == rules[j].priority ==> rules[i].createdAt <= rules[j].createdAt)
              && (rules[i].priority == rules[j].priority && rules[i].createdAt == rules[j].createdAt ==>
                    rules[i].id < rules[j].id)
    ensures forall r :: r in rules <==> exists k :: 0 <= k < |stored| && k < 1000 && stored[k] == r
  {
    hide Ordered, Sorted, DistinctIds, Inserted;
    var taken := Taken(stored);
    DistinctPrefix(stored, |taken|);
    rules := [];
    EmptyOrdered();
    for n := 0 to |taken|
      invariant rules == Ordered(taken[..n])
    {
      assert taken[..n + 1][..n] == taken[..n];
      UnfoldOrdered(taken[..n + 1]);
      rules := InsertRule(rules, taken[n]);
    }
    assert taken[..|taken|] == taken;
    OrderedSorted(taken);
    forall r ensures r in rules <==> r in taken { OrderedHolds(taken, r); }
    SortedMeans(rules);
    hide SameRules, Taken;
    TakenMeans(stored);
  }

  lemma SortedMeans(rules: seq<Rule>)
    requires Sorted(rules)
    ensures forall i, j | 0 <= i < j < |rules| ::
              && rules[i].priority <= rules[j].priority
              && (rules[i].priority == rules[j].priority ==> rules[i].createdAt <= rules[j].createdAt)
              && (rules[i].priority == rules[j].priority && rules[i].createdAt == rules[j].createdAt ==>
                    rules[i].id < rules[j].id)
  {
    forall i, j | 0 <= i < j < |rules| ensures Before(rules[i], rules[j]) {}
  }

  lemma TakenMeans(stored: seq<Rule>)
    ensures forall r :: r in Taken(stored) <==> exists k :: 0 <= k < |stored| && k < 1000 && stored[k] == r
  {
  }

  lemma EmptyOrdered()
    ensures Ordered([]) == []
  {
  }

  // ---- the transaction being built or edited ----

  class Draft {
    var tx: Transaction
    var automation: seq<Applied>

    constructor (tx: Transaction)
      ensures this.tx == tx && automation == []
    {
      this.tx, automation := tx, [];
    }

    /** `applyRuleAction` */
    method Act(d: Directory, a: Action) returns (changes: seq<Change>)
      modifies this`tx
      ensures ApplyAction(d, a, old(tx)) == (tx, changes)
    {
      changes := [];
      match a {
        case SetCategory(value) =>
          if tx.category != value {
            changes := [CategoryChange(tx.category, value)];
            tx := tx.(category := value);
          }
        case SetContact(value) =>
          if tx.contactId != value && value in d.contacts {
            changes := [ContactChange(tx.contactId, value)];
            tx := tx.(contactId := value);
          }
        case Rename(value) =>
          if tx.merchant != value {
            changes := [MerchantChange(tx.merchant, value)];
            tx := tx.(merchant := value);
          }
        case SetAccount(value) =>
          if tx.accountId != value && value in d.accounts {
            var account := d.accounts[value];
            if !account.archived && !account.inactive && account.currency == tx.currency
              && account.vaultId == tx.vaultId {
              changes := [AccountChange(tx.accountId, value)];
              tx := tx.(accountId := value);
              if account.privacy != Workspace && tx.privacy != Private {
                changes := changes + [PrivacyChange(tx.privacy, Private)];
                assert changes == [AccountChange(old(tx).accountId, value), PrivacyChange(old(tx).privacy, Private)];
                tx := tx.(privacy := Private);
              }
            }
          }
        case AddTag(value) =>
          if !exists t | t in tx.tags :: Lower(t) == Lower(value) {
            tx := tx.(tags := tx.tags + [value]);
            changes := [TagAdded(value)];
          }
        case SetPrivacy(value) =>
          if tx.privacy != value && value != Privacy.Selected {
            changes := [PrivacyChange(tx.privacy, value)];
            tx := tx.(privacy := value);
          }
        case UnknownAction =>
      }
    }

    /** `applyAutomationRulesToTransaction`, and the loop of a manual run. */
    method Run(d: Directory, rules: seq<Rule>, manual: bool)
      modifies this
      ensures tx == ApplyRules(d, rules, old(tx), manual).0
      ensures automation == old(automation) + ApplyRules(d, rules, old(tx), manual).1
    {
      hide ApplyAction, Fires, ApplyActions;
      assert rules[..|rules|] == rules;
      for n := 0 to |rules|
        invariant tx == ApplyRules(d, rules[..n], old(tx), manual).0
        invariant automation == old(automation) + ApplyRules(d, rules[..n], old(tx), manual).1
      {
        var rule := rules[n];
        assert rules[..n + 1][..n] == rules[..n];
        if rule.enabled && Fires(rule, tx) {
          var changes := Perform(d, rule.actions, manual);
          if changes != [] {
            automation := automation + [Applied(rule.id, changes)];
          }
        }
      }
    }

    method Perform(d: Directory, actions: seq<Action>, manual: bool) returns (changes: seq<Change>)
      modifies this`tx
      ensures ApplyActions(d, actions, old(tx), manual) == (tx, changes)
    {
      hide ApplyAction;
      changes := [];
      assert actions[..|actions|] == actions;
      for n := 0 to |actions|
        invariant ApplyActions(d, actions[..n], old(tx), manual) == (tx, changes)
      {
        assert actions[..n + 1][..n] == actions[..n];
        if !(manual && actions[n].SetAccount?) {
          var more := Act(d, actions[n]);
          changes := changes + more;
        }
      }
    }
  }
}
