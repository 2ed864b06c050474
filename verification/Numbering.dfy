/**
 * User-facing transaction numbers: their text, and the counters that hand
 * them out.
 */
module Numbering {
  import opened Outcomes
  import opened Decimals
  import opened Texts
  import opened Store

  const MAX_NUMBER: int := 999_999_999_999_999
  const MAX_DIGITS: int := 18
  const DEFAULT_SEQUENCE := Sequence(true, 1, 4)

  // ---- text ----

  function FormatNumber(number: int, digits: int): string
    requires 0 <= number
  {
    PadLeft(Render(number), digits)
  }

  function ParseNumber(text: string): Result<int> {
    var value := Trim(text);
    if value == "" || |value| > MAX_DIGITS || !AllDigits(value) then Err(InvalidField("transactionId"))
    else
      var number := Value(value);
      if 1 <= number <= MAX_NUMBER then Ok(number) else Err(InvalidField("transactionId"))
  }

  /** Every number a counter may hand out, in any configured width, parses back to itself. */
  lemma NumberRoundTrip(number: int, digits: int)
    requires 1 <= number <= MAX_NUMBER && digits <= MAX_DIGITS
    ensures ParseNumber(FormatNumber(number, digits)) == Ok(number)
  {
    hide Value, Render;
    var s := FormatNumber(number, digits);
    PadRoundTrip(number, digits);
    ShortNumbers(number);
    assert s != "" by {
      RenderRoundTrip(number);
    }
    assert Trim(s) == s;
  }

  /** The digits of a number, with zeros in front up to a minimum width and none beyond it. */
  predicate IsNumberText(text: string, number: int, digits: int) {
    && text != "" && AllDigits(text) && Value(text) == number
    && |text| >= digits && (|text| > digits && |text| > 1 ==> text[0] != '0')
  }

  /**
   * What a number is printed as: its digits, in a text as long as the minimum
   * width or the number's own digit count, whichever is larger. No other text
   * is that.
   */
  lemma NumberText(number: int, digits: int, count: nat, other: string)
    requires 1 <= number && 0 < count && Pow10(count - 1) <= number < Pow10(count)
    ensures var text := FormatNumber(number, digits);
            && IsNumberText(text, number, digits)
            && |text| == (if digits > count then digits else count)
            && (AllDigits(other) && Value(other) == number && |other| == |text| ==> other == text)
  {
    hide Value, Render, Pow10;
    var text := FormatNumber(number, digits);
    RenderRoundTrip(number);
    RenderDigits(number, count);
    PadRoundTrip(number, digits);
    if AllDigits(other) && Value(other) == number && |other| == |text| {
      DigitsAreUnique(other, text);
    }
  }

  lemma FormatIsNumberText(number: int, digits: int)
    requires 1 <= number
    ensures IsNumberText(FormatNumber(number, digits), number, digits)
  {
    hide Value, Render;
    RenderRoundTrip(number);
    PadRoundTrip(number, digits);
  }

  /** The first automatic number of a scope nobody configured. */
  lemma FirstNumber(scope: Scope)
    ensures Allocate(map[], scope) == Ok((map[scope := Sequence(true, 2, 4)], "0001"))
  {
    assert Render(1) == "1";
    assert Repeat('0', 3) + "1" == "0001";
  }

  lemma ShortNumbers(number: nat)
    requires number <= MAX_NUMBER
    ensures |Render(number)| <= 15
  {
    assert Pow10(5) == 100_000;
    assert Pow10(10) == 10_000_000_000;
    assert Pow10(15) == 1_000_000_000_000_000;
    RenderLength(number, 15);
  }

  /** The numbering scope of a transaction kind; anything with splits is numbered as a split. */
  function ScopeOf(kind: Kind, hasSplits: bool): Scope {
    if hasSplits then SplitScope
    else
      match kind
      case Transfer => TransferScope
      case Income => IncomeScope
      case Refund => IncomeScope
      case Reimbursement => IncomeScope
      case _ => ExpenseScope
  }

  // ---- counters ----

  type Counters = map<Scope, Sequence>

  /** The stored counter, or the default that an upsert would insert. */
  function Counter(counters: Counters, scope: Scope): Sequence {
    if scope in counters then counters[scope] else DEFAULT_SEQUENCE
  }

  /** `PresentTransactionSequence`: clamps stored values for display and comparison. */
  function Present(s: Sequence): Sequence {
    s.(next := if s.next < 1 then 1 else s.next,
       digits := if s.digits < 1 || s.digits > MAX_DIGITS then DEFAULT_SEQUENCE.digits else s.digits)
  }

  /** `allocateTransactionID`: one guarded increment; the number handed out is the one before it. */
  function Allocate(counters: Counters, scope: Scope): Result<(Counters, string)> {
    var counter := Counter(counters, scope);
    if !counter.autoGenerate then Err(AutoDisabled)
    else if 1 <= counter.next <= MAX_NUMBER then
      Ok((counters[scope := counter.(next := counter.next + 1)], FormatNumber(counter.next, counter.digits)))
    else Err(Exhausted)
  }

  /** The counter part of `ReserveManualTransactionID`: `$max` with the successor of the claimed number. */
  function Reserve(counters: Counters, scope: Scope, text: string): Result<Counters> {
    var number :- ParseNumber(text);
    var counter := Counter(counters, scope);
    Ok(counters[scope := counter.(next := if counter.next < number + 1 then number + 1 else counter.next)])
  }

  /** What the settings service sends to the counter: stored values overridden by the accepted inputs. */
  function Requested(
    current: Sequence, autoGenerate: Option<bool>, next: Option<int>, digits: Option<int>): Result<Sequence>
  {
    var shown := Present(current);
    var _ :- Need(next.Some? ==> 1 <= next.value <= MAX_NUMBER, InvalidField("nextNumber"));
    var _ :- Need(digits.Some? ==> 1 <= digits.value <= MAX_DIGITS, InvalidField("minimumDigits"));
    Ok(Sequence(if autoGenerate.Some? then autoGenerate.value else shown.autoGenerate,
                if next.Some? then next.value else shown.next,
                if digits.Some? then digits.value else shown.digits))
  }

  /** `PatchTransactionSequence`: the guarded `$set`, refused when the counter is already further. */
  function Patch(counters: Counters, scope: Scope, requested: Sequence): Result<Counters> {
    var counter := Counter(counters, scope);
    if requested.next < Present(counter).next || requested.next < counter.next then
      Err(BelowMinimum(Present(counter).next))
    else Ok(counters[scope := requested])
  }

  // ---- what the counter operations do ----

  /** The number a text stands for: between blanks, at most eighteen digits, in range. */
  ghost predicate Denotes(text: string, number: int) {
    exists core | IsCore(IsSpace, core, text) ::
      0 < |core| <= 18 && AllDigits(core) && Value(core) == number && 1 <= number <= 999_999_999_999_999
  }

  lemma ParseMeans(text: string, number: int)
    ensures ParseNumber(text) == Ok(number) <==> Denotes(text, number)
  {
    hide Value, IsCore;
    forall core { TrimMeans(text, core); }
    assert IsCore(IsSpace, Trim(text), text);
    hide Trim;
  }

  /** Numbers are handed out one after the other, by counters that allow it and are not spent. */
  lemma AllocateMeans(counters: Counters, scope: Scope)
    requires AllSound(counters)
    ensures var counter, r := Counter(counters, scope), Allocate(counters, scope);
            && (r.Ok? <==> counter.autoGenerate && counter.next <= 999_999_999_999_999)
            && (r.Err? ==> r.error == if counter.autoGenerate then Exhausted else AutoDisabled)
            && (r.Ok? ==>
                  && r.value.0 == counters[scope := counter.(next := counter.next + 1)]
                  && IsNumberText(r.value.1, counter.next, counter.digits))
  {
    var counter := Counter(counters, scope);
    FormatIsNumberText(counter.next, counter.digits);
    hide FormatNumber, IsNumberText;
  }

  /** A reservation puts the counter past the reserved number, if it was not there already, and changes nothing else. */
  lemma ReserveMeans(counters: Counters, scope: Scope, text: string, number: int)
    requires Denotes(text, number)
    ensures var counter, r := Counter(counters, scope), Reserve(counters, scope, text);
            r.Ok? && r.value == counters[scope := counter.(next := if counter.next > number then counter.next
                                                                   else number + 1)]
  {
    ParseMeans(text, number);
    hide ParseNumber, Denotes;
  }

  lemma ParseFinds(text: string)
    ensures ParseNumber(text).Ok? <==> exists number :: Denotes(text, number)
  {
    forall number { ParseMeans(text, number); }
    hide Denotes, ParseNumber;
    if ParseNumber(text).Ok? { assert Denotes(text, ParseNumber(text).value); }
  }

  lemma ReserveRefuses(counters: Counters, scope: Scope, text: string)
    ensures Reserve(counters, scope, text).Ok? <==> exists number :: Denotes(text, number)
  {
    ParseFinds(text);
    hide Denotes, ParseNumber;
  }

  /**
   * A settings change computed from the stored counter takes effect as asked,
   * field by field, exactly when the number asked for is neither used up nor out
   * of range and the width is printable.
   */
  lemma SettingsTakeEffect(
    counters: Counters, scope: Scope, autoGenerate: Option<bool>, next: Option<int>, digits: Option<int>)
    requires AllSound(counters)
    ensures var counter := Counter(counters, scope);
            var asked := Requested(counter, autoGenerate, next, digits);
            && (asked.Ok? && Patch(counters, scope, asked.value).Ok? <==>
                && (next.Some? ==> counter.next <= next.value <= 999_999_999_999_999)
                && (digits.Some? ==> 1 <= digits.value <= 18))
            && (asked.Ok? && Patch(counters, scope, asked.value).Ok? ==>
                  Patch(counters, scope, asked.value).value
                  == counters[scope := Sequence(
                      if autoGenerate.Some? then autoGenerate.value else counter.autoGenerate,
                      if next.Some? then next.value else counter.next,
                      if digits.Some? then digits.value else counter.digits)])
  {
  }

  // ---- what every counter operation keeps ----

  /** In range, and wide enough to print anything it hands out. */
  predicate Sound(s: Sequence) {
    1 <= s.next <= MAX_NUMBER + 1 && 1 <= s.digits <= MAX_DIGITS
  }

  predicate AllSound(counters: Counters) {
    forall scope | scope in counters :: Sound(counters[scope])
  }

  /** No counter ever moves back. */
  predicate Advances(before: Counters, after: Counters) {
    forall scope: Scope :: Counter(before, scope).next <= Counter(after, scope).next
  }

  /** The text denotes a number below the counter: it was handed out or reserved. */
  predicate Claimed(counters: Counters, scope: Scope, text: string) {
    ParseNumber(text).Ok? ==> ParseNumber(text).value < Counter(counters, scope).next
  }

  /** An allocation hands out a valid number no earlier claim of the scope denotes, in any width. */
  lemma AllocateIsFresh(counters: Counters, scope: Scope)
    requires AllSound(counters) && Allocate(counters, scope).Ok?
    ensures var (after, text) := Allocate(counters, scope).value;
            && AllSound(after) && Advances(counters, after)
            && ParseNumber(text) == Ok(Counter(counters, scope).next)
            && Claimed(after, scope, text)
            && forall earlier | Claimed(counters, scope, earlier) :: earlier != text
  {
    hide FormatNumber, ParseNumber;
    var counter := Counter(counters, scope);
    NumberRoundTrip(counter.next, counter.digits);
  }

  /** A reservation claims its number without ever moving the counter back. */
  lemma ReserveClaims(counters: Counters, scope: Scope, text: string)
    requires AllSound(counters) && Reserve(counters, scope, text).Ok?
    ensures var after := Reserve(counters, scope, text).value;
            AllSound(after) && Advances(counters, after) && Claimed(after, scope, text)
  {
  }

  /** A settings change, however stale the values it was computed from, never moves the counter back. */
  lemma PatchAdvances(
    counters: Counters, scope: Scope, seen: Sequence,
    autoGenerate: Option<bool>, next: Option<int>, digits: Option<int>)
    requires AllSound(counters) && Sound(seen) && Requested(seen, autoGenerate, next, digits).Ok?
    ensures var requested := Requested(seen, autoGenerate, next, digits).value;
            && Sound(requested)
            && (Patch(counters, scope, requested).Ok? ==>
                  AllSound(Patch(counters, scope, requested).value)
                    && Advances(counters, Patch(counters, scope, requested).value))
  {
  }

  /** Claims survive every advance of the counters. */
  lemma ClaimsSurvive(before: Counters, after: Counters, scope: Scope, text: string)
    requires Claimed(before, scope, text) && Advances(before, after)
    ensures Claimed(after, scope, text)
  {
    hide ParseNumber;
  }
}
