/**
 * Money as text: the statement parser, the exporter's printer and the digit
 * grouping of share texts. Amounts are integers in minor units.
 */
module MoneyText {
  import opened Outcomes
  import opened Decimals
  import opened Texts

  const MAX_MONEY_MINOR: int := 9_000_000_000_000_000

  predicate InRange(amount: int) {
    -MAX_MONEY_MINOR <= amount <= MAX_MONEY_MINOR
  }

  // ---- the string operations the parser is built from ----

  /** `strings.LastIndex` of a character, -1 when absent. */
  function LastIndex(s: string, c: char): (i: int)
    ensures -1 <= i < |s|
    ensures i >= 0 ==> s[i] == c
    ensures forall k | i < k < |s| :: s[k] != c
  {
    if s == "" then -1
    else if s[|s| - 1] == c then |s| - 1
    else LastIndex(s[..|s| - 1], c)
  }

  /** `strings.Index` of a character, -1 when absent. */
  function FirstIndex(s: string, c: char): (i: int)
    ensures -1 <= i < |s|
    ensures i >= 0 ==> s[i] == c
    ensures forall k | 0 <= k < (if i < 0 then |s| else i) :: s[k] != c
  {
    if s == "" then -1
    else if s[0] == c then 0
    else
      var i := FirstIndex(s[1..], c);
      if i < 0 then -1 else i + 1
  }

  function CountOf(s: string, c: char): nat {
    if s == "" then 0 else (if s[0] == c then 1 else 0) + CountOf(s[1..], c)
  }

  /** `strings.ReplaceAll(s, c, "")` */
  function RemoveAll(s: string, c: char): string {
    if s == "" then "" else (if s[0] == c then "" else [s[0]]) + RemoveAll(s[1..], c)
  }

  /** `strings.Replace(s, c, d, 1)` */
  function ReplaceFirst(s: string, c: char, d: char): string {
    var i := FirstIndex(s, c);
    if i < 0 then s else s[i := d]
  }

  predicate IsMoneySymbol(c: char) {
    c == ' ' || c == '\t' || c == '\U{20B9}' || c == '$' || c == '\U{20AC}' || c == '\U{00A3}'
  }

  function StripSymbols(s: string): string {
    if s == "" then "" else (if IsMoneySymbol(s[0]) then "" else [s[0]]) + StripSymbols(s[1..])
  }

  // ---- the parser ----

  /** Brings both decimal conventions to digits with one decimal point. */
  function NormalizeSeparators(s: string): string {
    var lastDot := LastIndex(s, '.');
    var lastComma := LastIndex(s, ',');
    if lastDot >= 0 && lastComma >= 0 then
      if lastDot > lastComma then RemoveAll(s, ',') else ReplaceFirst(RemoveAll(s, '.'), ',', '.')
    else if lastComma >= 0 then
      var fractionLength := |s| - lastComma - 1;
      if 0 < fractionLength <= 2 && CountOf(s, ',') == 1 then ReplaceFirst(s, ',', '.') else RemoveAll(s, ',')
    else s
  }

  /** Reads digits with at most one point and at most two decimals. */
  function ParseMagnitude(s: string): Result<int> {
    var dot := FirstIndex(s, '.');
    var intPart := if dot >= 0 then s[..dot] else s;
    var fraction := if dot >= 0 then s[dot + 1..] else "";
    if |fraction| > 2 || !AllDigits(intPart) || !AllDigits(fraction) || intPart == "" then
      Err(InvalidField("number"))
    else
      var cents := if |fraction| == 1 then 10 * Value(fraction) else Value(fraction);
      if Value(intPart) > MAX_MONEY_MINOR / 100 || Value(intPart) * 100 + cents > MAX_MONEY_MINOR then
        Err(InvalidField("number"))
      else Ok(Value(intPart) * 100 + cents)
  }

  /** Trims, takes accounting parentheses and a plus sign off, drops symbols; says if parentheses were there. */
  function Unwrap(raw: string): (bool, string) {
    var trimmed := Trim(raw);
    var parenthesised := 2 <= |trimmed| && trimmed[0] == '(' && trimmed[|trimmed| - 1] == ')';
    var inner := Trim(if parenthesised then trimmed[1..|trimmed| - 1] else trimmed);
    (parenthesised, StripSymbols(if inner != "" && inner[0] == '+' then inner[1..] else inner))
  }

  /** Reads a normalised text: at most one point, an optional minus, then the magnitude. */
  function ParseSigned(plain: string, negative: bool): Result<int> {
    if CountOf(plain, '.') > 1 then Err(InvalidField("number"))
    else
      var minus := plain != "" && plain[0] == '-';
      var magnitude :- ParseMagnitude(if minus then plain[1..] else plain);
      Ok(if negative || minus then -magnitude else magnitude)
  }

  function ParseStatementMoney(raw: string): Result<int> {
    var (parenthesised, cleaned) := Unwrap(raw);
    if cleaned == "" then Err(InvalidField("number"))
    else ParseSigned(NormalizeSeparators(cleaned), parenthesised)
  }

  // ---- the printers ----

  /** The exporter's `%d.%02d` with a leading minus. */
  function FormatMajorAmount(amount: int): string {
    var magnitude: nat := if amount < 0 then -amount else amount;
    (if amount < 0 then "-" else "") + Render(magnitude / 100) + "." + PadLeft(Render(magnitude % 100), 2)
  }

  /** Digits in groups of three from the right, the groups joined by `mark`. */
  function Grouped(digits: string, mark: char): string {
    if |digits| <= 3 then digits
    else Grouped(digits[..|digits| - 3], mark) + [mark] + digits[|digits| - 3..]
  }

  /** The in-place grouping loop of the share text. */
  method GroupDigits(digits: string) returns (grouped: string)
    ensures grouped == Grouped(digits, ',')
  {
    grouped := digits;
    var index := |digits| - 3;
    assert digits[..index + 3] == digits;
    ghost var tail := "";
    while index > 0
      invariant -3 <= index && index + 3 <= |digits|
      invariant grouped == digits[..index + 3] + tail
      invariant Grouped(digits, ',') == Grouped(digits[..index + 3], ',') + tail
    {
      var head := digits[..index + 3];
      assert head[..index] == digits[..index] == grouped[..index];
      assert grouped[index..] == head[index..] + tail;
      tail := "," + head[index..] + tail;
      grouped := grouped[..index] + "," + grouped[index..];
      index := index - 3;
    }
  }

  /** The digits part of a share text: grouped major units, decimals only when there are any. */
  function ShareDigits(magnitude: nat): string {
    Grouped(Render(magnitude / 100), ',')
    + if magnitude % 100 != 0 then "." + PadLeft(Render(magnitude % 100), 2) else ""
  }

  // ---- facts about the string operations ----

  predicate Free(s: string, c: char) {
    forall i | 0 <= i < |s| :: s[i] != c
  }

  lemma {:induction false} RemoveAllJoin(a: string, b: string, c: char)
    ensures RemoveAll(a + b, c) == RemoveAll(a, c) + RemoveAll(b, c)
  {
    if a == "" {
      assert a + b == b;
    } else {
      var kept := if a[0] == c then "" else [a[0]];
      RemoveAllJoin(a[1..], b, c);
      assert (a + b)[1..] == a[1..] + b && (a + b)[0] == a[0];
      assert RemoveAll(a + b, c) == kept + RemoveAll(a[1..] + b, c) by { hide CountOf; }
      assert kept + (RemoveAll(a[1..], c) + RemoveAll(b, c)) == RemoveAll(a, c) + RemoveAll(b, c);
    }
  }

  lemma RemoveMark(a: string, c: char, b: string)
    ensures RemoveAll(a + [c] + b, c) == RemoveAll(a, c) + RemoveAll(b, c)
  {
    assert RemoveAll([c], c) == "";
    hide RemoveAll;
    RemoveAllJoin(a + [c], b, c);
    RemoveAllJoin(a, [c], c);
  }

  lemma {:induction false} RemoveAllFree(s: string, c: char)
    requires Free(s, c)
    ensures RemoveAll(s, c) == s
  {
    if s != "" {
      RemoveAllFree(s[1..], c);
    }
  }

  lemma {:induction false} StripSymbolsNothing(s: string)
    requires forall i | 0 <= i < |s| :: !IsMoneySymbol(s[i])
    ensures StripSymbols(s) == s
  {
    if s != "" {
      StripSymbolsNothing(s[1..]);
    }
  }

  lemma {:induction false} CountFree(s: string, c: char)
    requires Free(s, c)
    ensures CountOf(s, c) == 0
  {
    if s != "" {
      CountFree(s[1..], c);
    }
  }

  lemma {:induction false} CountJoin(a: string, b: string, c: char)
    ensures CountOf(a + b, c) == CountOf(a, c) + CountOf(b, c)
  {
    if a == "" {
      assert a + b == b;
    } else {
      CountJoin(a[1..], b, c);
      assert (a + b)[1..] == a[1..] + b;
    }
  }

  /** A separator between two pieces free of it occurs exactly once, there. */
  lemma SingleMark(a: string, c: char, b: string)
    requires Free(a, c) && Free(b, c)
    ensures CountOf(a + [c] + b, c) == 1
    ensures FirstIndex(a + [c] + b, c) == |a| == LastIndex(a + [c] + b, c)
  {
    var s := a + [c] + b;
    CountFree(a, c);
    CountFree(b, c);
    CountJoin(a + [c], b, c);
    CountJoin(a, [c], c);
    assert CountOf([c], c) == 1;
    assert s[|a|] == c;
  }

  predicate GroupText(s: string, mark: char) {
    forall i | 0 <= i < |s| :: IsDigit(s[i]) || s[i] == mark
  }

  /** Grouping keeps the digits and adds only marks. */
  lemma {:induction false} GroupedKeepsDigits(digits: string, mark: char)
    requires AllDigits(digits) && !IsDigit(mark)
    ensures RemoveAll(Grouped(digits, mark), mark) == digits
  {
    if |digits| <= 3 {
      RemoveAllFree(digits, mark);
    } else {
      var head, tail := digits[..|digits| - 3], digits[|digits| - 3..];
      GroupedKeepsDigits(head, mark);
      hide RemoveAll;
      RemoveMark(Grouped(head, mark), mark, tail);
      RemoveAllFree(tail, mark);
    }
  }

  /** A grouped text starts with a digit and consists of digits and marks. */
  lemma {:induction false} GroupedText(digits: string, mark: char)
    requires digits != "" && AllDigits(digits) && !IsDigit(mark)
    ensures Grouped(digits, mark) != "" && IsDigit(Grouped(digits, mark)[0])
    ensures GroupText(Grouped(digits, mark), mark)
  {
    if |digits| > 3 {
      GroupedText(digits[..|digits| - 3], mark);
    }
  }

  /** A grouped text ends in three digits after its last mark. */
  lemma GroupedTail(digits: string, mark: char)
    requires digits != "" && AllDigits(digits) && !IsDigit(mark)
    ensures var g := Grouped(digits, mark);
            if |digits| <= 3 then Free(g, mark) && g == digits
            else |g| >= 4 && LastIndex(g, mark) == |g| - 4 && IsDigit(g[|g| - 1])
  {
    hide LastIndex;
    var g := Grouped(digits, mark);
    if |digits| > 3 {
      var tail := digits[|digits| - 3..];
      assert g[|g| - 4] == mark;
      assert forall k | |g| - 4 < k < |g| :: g[k] == tail[k - (|g| - 3)];
    }
  }

  // ---- reading back what was written ----

  /** Text of digits and marks: nothing to trim, unwrap or strip. */
  predicate Bare(s: string) {
    && s != ""
    && (s[0] == '-' || IsDigit(s[0]))
    && IsDigit(s[|s| - 1])
    && forall i | 0 <= i < |s| :: IsDigit(s[i]) || s[i] == '-' || s[i] == '.' || s[i] == ','
  }

  lemma BareText(s: string)
    requires Bare(s)
    ensures Unwrap(s) == (false, s)
  {
    StripSymbolsNothing(s);
  }

  lemma MagnitudeOf(intPart: string, fraction: string)
    requires intPart != "" && AllDigits(intPart) && AllDigits(fraction) && |fraction| == 2
    requires 100 * Value(intPart) + Value(fraction) <= MAX_MONEY_MINOR
    ensures ParseMagnitude(intPart + "." + fraction) == Ok(100 * Value(intPart) + Value(fraction))
  {
    hide Value, FirstIndex, CountOf, LastIndex;
    var s := intPart + "." + fraction;
    var dot := |intPart|;
    assert FirstIndex(s, '.') == dot by { SingleMark(intPart, '.', fraction); }
    hide AllDigits;
    assert s[..dot] == intPart && s[dot + 1..] == fraction;
  }

  lemma WholeMagnitudeOf(intPart: string)
    requires intPart != "" && AllDigits(intPart) && 100 * Value(intPart) <= MAX_MONEY_MINOR
    ensures ParseMagnitude(intPart) == Ok(100 * Value(intPart))
  {
    assert FirstIndex(intPart, '.') == -1 && Value("") == 0;
    hide Value, FirstIndex;
  }

  /** A bare text that normalises to `digits.dd` parses to that amount, without sign. */
  lemma ParseBare(s: string, intPart: string, fraction: string)
    requires Bare(s) && NormalizeSeparators(s) == intPart + "." + fraction
    requires intPart != "" && AllDigits(intPart) && AllDigits(fraction) && |fraction| == 2
    requires 100 * Value(intPart) + Value(fraction) <= MAX_MONEY_MINOR
    ensures ParseStatementMoney(s) == Ok(100 * Value(intPart) + Value(fraction))
  {
    hide NormalizeSeparators, CountOf, ParseMagnitude, Unwrap, Value;
    BareText(s);
    SingleMark(intPart, '.', fraction);
    MagnitudeOf(intPart, fraction);
    assert IsDigit(NormalizeSeparators(s)[0]);
  }

  lemma MajorAndMinor(magnitude: nat)
    requires magnitude <= MAX_MONEY_MINOR
    ensures var ip, fp := Render(magnitude / 100), PadLeft(Render(magnitude % 100), 2);
            ip != "" && AllDigits(ip) && AllDigits(fp) && |fp| == 2 && 100 * Value(ip) + Value(fp) == magnitude
  {
    RenderRoundTrip(magnitude / 100);
    TwoDigits(magnitude % 100);
  }

  /** A plain `digits.dd`, with or without a leading minus, is bare and already normal. */
  lemma PointText(sign: string, ip: string, fp: string)
    requires sign == "" || sign == "-"
    requires ip != "" && AllDigits(ip) && AllDigits(fp) && |fp| == 2
    ensures var s := sign + ip + "." + fp; Bare(s) && NormalizeSeparators(s) == s && CountOf(s, '.') == 1
  {
    hide Value, CountOf;
    var s := sign + ip + "." + fp;
    var head := sign + ip;
    SingleMark(head, '.', fp);
    assert s == head + "." + fp;
    assert Free(s, ',');
    assert s[|s| - 1] == fp[1];
    assert s[0] == head[0];
  }

  lemma ParseMinus(s: string, body: string, m: int)
    requires s == "-" + body && Bare(s) && NormalizeSeparators(s) == s && CountOf(s, '.') == 1
    requires ParseMagnitude(body) == Ok(m)
    ensures ParseStatementMoney(s) == Ok(-m)
  {
    hide NormalizeSeparators, CountOf, ParseMagnitude, Unwrap;
    BareText(s);
    assert s[1..] == body;
  }

  lemma PointTextParses(negative: bool, ip: string, fp: string)
    requires ip != "" && AllDigits(ip) && AllDigits(fp) && |fp| == 2
    requires 100 * Value(ip) + Value(fp) <= MAX_MONEY_MINOR
    ensures var m := 100 * Value(ip) + Value(fp);
            ParseStatementMoney((if negative then "-" else "") + ip + "." + fp) == Ok(if negative then -m else m)
  {
    hide *;
    if negative {
      PointText("-", ip, fp);
      MagnitudeOf(ip, fp);
      assert "-" + ip + "." + fp == "-" + (ip + "." + fp);
      ParseMinus("-" + ip + "." + fp, ip + "." + fp, 100 * Value(ip) + Value(fp));
    } else {
      PointText("", ip, fp);
      assert "" + ip + "." + fp == ip + "." + fp;
      ParseBare(ip + "." + fp, ip, fp);
    }
  }

  /** The statement parser inverts the exporter's printer on every supported amount. */
  lemma ExportRoundTrip(amount: int)
    requires InRange(amount)
    ensures ParseStatementMoney(FormatMajorAmount(amount)) == Ok(amount)
  {
    hide Render, Value, PadLeft, ParseStatementMoney;
    var magnitude: nat := if amount < 0 then -amount else amount;
    MajorAndMinor(magnitude);
    PointTextParses(amount < 0, Render(magnitude / 100), PadLeft(Render(magnitude % 100), 2));
  }

  /** Removing the group mark from a grouped amount leaves its digits and its point. */
  lemma UngroupAmount(ip: string, fp: string, mark: char, point: char)
    requires ip != "" && AllDigits(ip) && AllDigits(fp) && |fp| == 2
    requires (mark == ',' && point == '.') || (mark == '.' && point == ',')
    ensures var s := Grouped(ip, mark) + [point] + fp;
            && Bare(s) && RemoveAll(s, mark) == ip + [point] + fp
            && LastIndex(s, point) == |s| - 3 && CountOf(s, point) == 1
            && (LastIndex(s, mark) < 0 ==> s == ip + [point] + fp)
  {
    hide RemoveAll, CountOf, LastIndex, Value;
    GroupedKeepsDigits(ip, mark);
    GroupedText(ip, mark);
    var g := Grouped(ip, mark);
    AroundPoint(g, ip, fp, mark, point);
  }

  lemma AroundPoint(g: string, ip: string, fp: string, mark: char, point: char)
    requires g != "" && GroupText(g, mark) && IsDigit(g[0]) && AllDigits(fp) && |fp| == 2
    requires (mark == ',' && point == '.') || (mark == '.' && point == ',')
    requires RemoveAll(g, mark) == ip
    ensures var s := g + [point] + fp;
            && Bare(s) && RemoveAll(s, mark) == ip + [point] + fp
            && LastIndex(s, point) == |s| - 3 && CountOf(s, point) == 1
            && (LastIndex(s, mark) < 0 ==> s == ip + [point] + fp)
  {
    hide RemoveAll, CountOf, Value;
    var s := g + [point] + fp;
    assert Free(g, point) && Free(fp, point);
    SingleMark(g, point, fp);
    assert RemoveAll(s, mark) == ip + [point] + fp by {
      RemoveAllJoin(g + [point], fp, mark);
      RemoveAllJoin(g, [point], mark);
      RemoveAllFree(fp, mark);
      RemoveAllFree([point], mark);
    }
    BareGrouped(g, mark, point, fp);
    if LastIndex(s, mark) < 0 {
      RemoveAllFree(s, mark);
    }
  }

  lemma BareGrouped(g: string, mark: char, point: char, fp: string)
    requires g != "" && GroupText(g, mark) && IsDigit(g[0]) && AllDigits(fp) && |fp| == 2
    requires (mark == ',' && point == '.') || (mark == '.' && point == ',')
    ensures Bare(g + [point] + fp)
  {
    var s := g + [point] + fp;
    assert s[0] == g[0] && s[|s| - 1] == fp[1];
  }

  /** Comma groups with a decimal point: what a share text or an English statement prints. */
  lemma CommaGroupedParses(ip: string, fp: string)
    requires ip != "" && AllDigits(ip) && AllDigits(fp) && |fp| == 2
    requires 100 * Value(ip) + Value(fp) <= MAX_MONEY_MINOR
    ensures ParseStatementMoney(Grouped(ip, ',') + "." + fp) == Ok(100 * Value(ip) + Value(fp))
  {
    hide Value, Grouped, RemoveAll, CountOf, ParseStatementMoney, ParseMagnitude;
    UngroupAmount(ip, fp, ',', '.');
    assert LastIndex(Grouped(ip, ',') + "." + fp, '.') >= 0;
    ParseBare(Grouped(ip, ',') + "." + fp, ip, fp);
  }

  lemma CommaToPoint(ip: string, fp: string)
    requires AllDigits(ip) && AllDigits(fp)
    ensures ReplaceFirst(ip + "," + fp, ',', '.') == ip + "." + fp
  {
    hide CountOf, LastIndex, FirstIndex;
    SingleMark(ip, ',', fp);
  }

  /** Dot groups with a decimal comma: the continental writing. */
  lemma DotGroupedParses(ip: string, fp: string)
    requires ip != "" && AllDigits(ip) && AllDigits(fp) && |fp| == 2
    requires 100 * Value(ip) + Value(fp) <= MAX_MONEY_MINOR
    ensures ParseStatementMoney(Grouped(ip, '.') + "," + fp) == Ok(100 * Value(ip) + Value(fp))
  {
    hide Grouped, RemoveAll, CountOf, Value, ReplaceFirst, ParseStatementMoney;
    UngroupAmount(ip, fp, '.', ',');
    CommaToPoint(ip, fp);
    ParseBare(Grouped(ip, '.') + "," + fp, ip, fp);
  }

  /** Both decimal conventions write the same amount, and both read back to it. */
  lemma ConventionsAgree(magnitude: nat)
    requires magnitude <= MAX_MONEY_MINOR
    ensures var ip, fp := Render(magnitude / 100), PadLeft(Render(magnitude % 100), 2);
            && ParseStatementMoney(Grouped(ip, '.') + "," + fp) == Ok(magnitude)
            && ParseStatementMoney(Grouped(ip, ',') + "." + fp) == Ok(magnitude)
  {
    MajorAndMinor(magnitude);
    var ip, fp := Render(magnitude / 100), PadLeft(Render(magnitude % 100), 2);
    DotGroupedParses(ip, fp);
    CommaGroupedParses(ip, fp);
  }

  /** Comma groups without decimals end in three digits, so the comma is no decimal mark. */
  lemma WholeGroupedParses(ip: string)
    requires ip != "" && AllDigits(ip) && 100 * Value(ip) <= MAX_MONEY_MINOR
    ensures ParseStatementMoney(Grouped(ip, ',')) == Ok(100 * Value(ip))
  {
    hide RemoveAll, CountOf, Value, ParseMagnitude, NormalizeSeparators, Unwrap;
    WholeGroupedNormal(ip);
    BareText(Grouped(ip, ','));
    CountFree(ip, '.');
    WholeMagnitudeOf(ip);
  }

  lemma WholeGroupedNormal(ip: string)
    requires ip != "" && AllDigits(ip)
    ensures Bare(Grouped(ip, ',')) && NormalizeSeparators(Grouped(ip, ',')) == ip
  {
    hide RemoveAll, Grouped, LastIndex, CountOf;
    var g := Grouped(ip, ',');
    GroupedText(ip, ',');
    GroupedKeepsDigits(ip, ',');
    GroupedTail(ip, ',');
    assert LastIndex(g, '.') == -1;
  }

  lemma ShareDigitsParse(ip: string, fp: string, withDecimals: bool)
    requires ip != "" && AllDigits(ip) && AllDigits(fp) && |fp| == 2
    requires 100 * Value(ip) + Value(fp) <= MAX_MONEY_MINOR
    ensures ParseStatementMoney(Grouped(ip, ',') + if withDecimals then "." + fp else "")
            == Ok(100 * Value(ip) + if withDecimals then Value(fp) else 0)
  {
    hide *;
    if withDecimals {
      CommaGroupedParses(ip, fp);
      assert Grouped(ip, ',') + ("." + fp) == Grouped(ip, ',') + "." + fp;
    } else {
      WholeGroupedParses(ip);
      assert Grouped(ip, ',') + "" == Grouped(ip, ',');
    }
  }

  /** The digits of a share text read back to the amount, with or without decimals. */
  lemma ShareRoundTrip(magnitude: nat)
    requires magnitude <= MAX_MONEY_MINOR
    ensures ParseStatementMoney(ShareDigits(magnitude)) == Ok(magnitude)
  {
    hide Render, Value, PadLeft, Grouped, ParseStatementMoney;
    MajorAndMinor(magnitude);
    RenderRoundTrip(magnitude / 100);
    ShareDigitsParse(Render(magnitude / 100), PadLeft(Render(magnitude % 100), 2), magnitude % 100 != 0);
  }

  /** Every accepted text denotes a supported amount. */
  lemma ParsedInRange(raw: string)
    ensures var r := ParseStatementMoney(raw); r.Ok? ==> InRange(r.value)
  {
    hide Unwrap, NormalizeSeparators, CountOf, ParseMagnitude;
    var plain := NormalizeSeparators(Unwrap(raw).1);
    MagnitudeInRange(if plain != "" && plain[0] == '-' then plain[1..] else plain);
  }

  lemma MagnitudeInRange(s: string)
    ensures var r := ParseMagnitude(s); r.Ok? ==> 0 <= r.value <= MAX_MONEY_MINOR
  {
    hide Value, FirstIndex;
  }

  // ---- the texts themselves ----

  /** The whole part of a printed amount: its digits, no zero in front of others. */
  predicate IsWhole(ip: string, n: nat) {
    ip != "" && AllDigits(ip) && Value(ip) == n && (|ip| > 1 ==> ip[0] != '0')
  }

  lemma RenderIsWhole(n: nat)
    ensures IsWhole(Render(n), n)
  {
    RenderRoundTrip(n);
    if n == 0 { assert Render(0) == "0"; }
  }

  function Magnitude(amount: int): nat {
    if amount < 0 then -amount else amount
  }

  /** The whole part and the two decimals of a magnitude. */
  predicate IsSplit(ip: string, fp: string, magnitude: nat) {
    && IsWhole(ip, magnitude / 100)
    && |fp| == 2 && AllDigits(fp) && Value(fp) == magnitude % 100
  }

  lemma PrintedSplit(magnitude: nat)
    ensures IsSplit(Render(magnitude / 100), PadLeft(Render(magnitude % 100), 2), magnitude)
  {
    RenderIsWhole(magnitude / 100);
    TwoDigits(magnitude % 100);
  }

  /** An exported amount has a minus sign exactly when it is negative, and always two decimals. */
  lemma ExportText(amount: int)
    ensures exists ip, fp | IsSplit(ip, fp, Magnitude(amount)) ::
              FormatMajorAmount(amount) == (if amount < 0 then "-" else "") + ip + "." + fp
  {
    PrintedSplit(Magnitude(amount));
    hide Render, IsSplit, PadLeft;
  }

  /** A shared amount shows decimals, then always two, exactly when it has any. */
  lemma ShareText(magnitude: nat)
    ensures exists ip, fp | IsSplit(ip, fp, magnitude) ::
              ShareDigits(magnitude) == Grouped(ip, ',') + (if magnitude % 100 != 0 then "." + fp else "")
  {
    PrintedSplit(magnitude);
    hide Render, IsSplit, PadLeft, Grouped;
  }

  // ---- every accepted writing ----

  /** What one or two decimals stand for. */
  function Cents(fp: string): nat
    requires AllDigits(fp)
  {
    if |fp| == 1 then 10 * Value(fp) else Value(fp)
  }

  /** Digits, or digits, a point and up to two digits, for an amount in range. */
  predicate Writes(s: string, ip: string, fp: string, amount: int) {
    && (s == ip + "." + fp || (s == ip && fp == ""))
    && ip != "" && AllDigits(ip) && AllDigits(fp) && |fp| <= 2
    && amount == 100 * Value(ip) + Cents(fp) && amount <= 9_000_000_000_000_000
  }

  /** The magnitude parser accepts exactly those texts. */
  lemma MagnitudeMeans(s: string, amount: int)
    ensures ParseMagnitude(s) == Ok(amount) <==> exists ip, fp :: Writes(s, ip, fp, amount)
  {
    assert Value("") == 0;
    hide Value;
    var dot := FirstIndex(s, '.');
    var ip, fp := if dot >= 0 then s[..dot] else s, if dot >= 0 then s[dot + 1..] else "";
    assert dot >= 0 ==> s == ip + "." + fp;
    if ParseMagnitude(s) == Ok(amount) {
      assert Writes(s, ip, fp, amount);
    }
    forall x, y | Writes(s, x, y, amount) ensures ParseMagnitude(s) == Ok(amount) {
      OneSplit(s, x, y);
      assert x == ip && y == fp;
    }
  }

  lemma OneSplit(s: string, ip: string, fp: string)
    requires s == ip + "." + fp || (s == ip && fp == "")
    requires AllDigits(ip) && AllDigits(fp)
    ensures FirstIndex(s, '.') == if s == ip then -1 else |ip|
    ensures s != ip ==> s[..|ip|] == ip && s[|ip| + 1..] == fp
  {
    hide FirstIndex;
    if s != ip {
      SingleMark(ip, '.', fp);
    }
  }

  lemma ShortMagnitude(ip: string, fp: string)
    requires ip != "" && AllDigits(ip) && AllDigits(fp) && 1 <= |fp| <= 2
    requires 100 * Value(ip) + Cents(fp) <= MAX_MONEY_MINOR
    ensures ParseMagnitude(ip + "." + fp) == Ok(100 * Value(ip) + Cents(fp))
  {
    hide ParseMagnitude, Value, Cents;
    assert Writes(ip + "." + fp, ip, fp, 100 * Value(ip) + Cents(fp));
    MagnitudeMeans(ip + "." + fp, 100 * Value(ip) + Cents(fp));
  }

  /** Text that starts and ends with a digit and holds nothing but digits and separators. */
  predicate IsNumeral(s: string) {
    && s != "" && IsDigit(s[0]) && IsDigit(s[|s| - 1])
    && forall i | 0 <= i < |s| :: IsDigit(s[i]) || s[i] == '.' || s[i] == ','
  }

  /** The symbols a statement may put in front of an amount. */
  predicate IsCurrencySign(c: char) {
    c as int in {0x24, 0xA3, 0x20AC, 0x20B9}
  }

  /**
   * What may be around a numeral: parentheses make it negative; a plus sign and
   * a currency sign change nothing; blanks never count.
   */
  lemma UnwrapMeans(s: string, sign: char)
    requires IsNumeral(s) && IsCurrencySign(sign)
    ensures Unwrap(s) == (false, s) && Unwrap("-" + s) == (false, "-" + s)
    ensures Unwrap("+" + s) == (false, s) && Unwrap([sign] + s) == (false, s)
    ensures Unwrap("(" + s + ")") == (true, s) && Unwrap("(" + [sign] + s + ")") == (true, s)
  {
    hide Unwrap, StripSymbols, IsSpace;
    NumeralEnds(s, sign);
    BareText(s);
    BareText("-" + s);
    Plussed(s);
    Signed(s, sign);
    Parenthesised(s, s);
    assert ([sign] + s)[|s|] == s[|s| - 1];
    Parenthesised([sign] + s, s);
    assert "(" + ([sign] + s) + ")" == "(" + [sign] + s + ")";
  }

  lemma NumeralEnds(s: string, sign: char)
    requires IsNumeral(s) && IsCurrencySign(sign)
    ensures IsMoneySymbol(sign) && !IsSpace(sign) && sign !in {'+', '-', '(', ')'}
    ensures !IsSpace(s[0]) && !IsSpace(s[|s| - 1]) && s[0] !in {'+', '-', '('}
    ensures Bare(s) && Bare("-" + s)
  {
    assert sign == '$' || sign == '\U{00A3}' || sign == '\U{20AC}' || sign == '\U{20B9}';
    assert ("-" + s)[|s|] == s[|s| - 1];
  }

  lemma {:induction false} StripJoin(a: string, b: string)
    ensures StripSymbols(a + b) == StripSymbols(a) + StripSymbols(b)
  {
    hide IsMoneySymbol;
    if a == "" {
      assert a + b == b;
    } else {
      StripJoin(a[1..], b);
      assert (a + b)[1..] == a[1..] + b && (a + b)[0] == a[0];
    }
  }

  /** Blanks and currency signs are dropped wherever they stand; every other character is kept. */
  lemma StripMeans(a: string, c: char, b: string)
    ensures StripSymbols(a + [c] + b)
            == StripSymbols(a) + (if c as int in {9, 32, 0x24, 0xA3, 0x20AC, 0x20B9} then "" else [c]) + StripSymbols(b)
  {
    StripJoin(a + [c], b);
    StripJoin(a, [c]);
    assert StripSymbols([c]) == if IsMoneySymbol(c) then "" else [c];
    assert IsMoneySymbol(c) <==> c as int in {9, 32, 0x24, 0xA3, 0x20AC, 0x20B9};
  }

  lemma BlanksDoNotCount(raw: string)
    ensures ParseStatementMoney(Trim(raw)) == ParseStatementMoney(raw)
  {
    TrimTwice(raw);
    hide Trim, NormalizeSeparators, ParseSigned, StripSymbols;
  }

  lemma NothingToTrim(s: string)
    requires s != "" && !IsSpace(s[0]) && !IsSpace(s[|s| - 1])
    ensures Trim(s) == s
  {
  }

  lemma Plussed(s: string)
    requires IsNumeral(s)
    ensures Unwrap("+" + s) == (false, s)
  {
    NothingToTrim("+" + s);
    assert ("+" + s)[1..] == s;
    StripSymbolsNothing(s);
    hide Trim;
  }

  /** A currency sign in front is dropped. */
  lemma Signed(s: string, sign: char)
    requires IsNumeral(s) && IsCurrencySign(sign)
    ensures Unwrap([sign] + s) == (false, s) && StripSymbols([sign] + s) == s && StripSymbols(s) == s
  {
    NumeralEnds(s, sign);
    var raw := [sign] + s;
    assert raw[|raw| - 1] == s[|s| - 1] && raw[1..] == s;
    NothingToTrim(raw);
    StripSymbolsNothing(s);
    assert raw[0] == sign;
    assert StripSymbols(raw) == "" + StripSymbols(s) == s;
    hide Trim, IsSpace, IsNumeral, StripSymbols, IsMoneySymbol;
  }

  lemma Parenthesised(inner: string, s: string)
    requires inner != "" && !IsSpace(inner[0]) && !IsSpace(inner[|inner| - 1]) && inner[0] != '+'
    requires StripSymbols(inner) == s
    ensures Unwrap("(" + inner + ")") == (true, s)
  {
    var raw := "(" + inner + ")";
    NothingToTrim(raw);
    NothingToTrim(inner);
    assert raw[1..|raw| - 1] == inner;
    hide Trim, StripSymbols;
  }

  /** Without groups, a comma before one or two digits is the decimal point. */
  lemma DecimalComma(ip: string, fp: string)
    requires ip != "" && AllDigits(ip) && AllDigits(fp) && 1 <= |fp| <= 2
    ensures NormalizeSeparators(ip + "," + fp) == ip + "." + fp == NormalizeSeparators(ip + "." + fp)
    ensures CountOf(ip + "." + fp, '.') == 1 && IsNumeral(ip + "," + fp) && IsNumeral(ip + "." + fp)
  {
    hide CountOf, LastIndex, FirstIndex, Value;
    SingleMark(ip, ',', fp);
    SingleMark(ip, '.', fp);
    CommaToPoint(ip, fp);
    var s, t := ip + "," + fp, ip + "." + fp;
    assert LastIndex(s, '.') == -1 by { assert Free(s, '.'); }
    assert LastIndex(t, ',') == -1 by { assert Free(t, ','); }
    assert s[|s| - 1] == fp[|fp| - 1] == t[|t| - 1] && s[0] == ip[0] == t[0];
  }

  /**
   * One or two decimals after a point or a comma, with or without a plus sign,
   * a currency sign, a minus sign or accounting parentheses: every writing of
   * an amount reads as that amount.
   */
  lemma WritingsParse(ip: string, fp: string, comma: bool, sign: char)
    requires ip != "" && AllDigits(ip) && AllDigits(fp) && 1 <= |fp| <= 2 && IsCurrencySign(sign)
    requires 100 * Value(ip) + Cents(fp) <= MAX_MONEY_MINOR
    ensures var s, m := ip + (if comma then "," else ".") + fp, 100 * Value(ip) + Cents(fp);
            && ParseStatementMoney(s) == Ok(m) && ParseStatementMoney("+" + s) == Ok(m)
            && ParseStatementMoney([sign] + s) == Ok(m)
            && ParseStatementMoney("(" + s + ")") == Ok(-m) && ParseStatementMoney("(" + [sign] + s + ")") == Ok(-m)
  {
    hide Unwrap, NormalizeSeparators, ParseMagnitude, CountOf, Value, Cents, IsNumeral;
    DecimalComma(ip, fp);
    ShortMagnitude(ip, fp);
    var s := ip + (if comma then "," else ".") + fp;
    assert comma ==> s == ip + "," + fp;
    assert !comma ==> s == ip + "." + fp;
    UnwrapMeans(s, sign);
    assert (ip + "." + fp)[0] == ip[0] != '-';
  }

  lemma {:induction false} RemoveKeepsDigits(s: string)
    requires forall i | 0 <= i < |s| :: IsDigit(s[i]) || s[i] == ','
    ensures AllDigits(RemoveAll(s, ','))
    ensures (exists i | 0 <= i < |s| :: IsDigit(s[i])) ==> RemoveAll(s, ',') != ""
  {
    if s != "" {
      RemoveKeepsDigits(s[1..]);
      if s[0] == ',' {
        assert forall i | 0 < i < |s| :: s[i] == s[1..][i - 1];
      }
    }
  }

  /** Commas that cannot be the decimal point, because there are several or because not one or two digits follow. */
  lemma CommasAreMarks(s: string)
    requires IsNumeral(s) && Free(s, '.')
    requires CountOf(s, ',') != 1 || !(1 <= |s| - LastIndex(s, ',') - 1 <= 2)
    requires AllDigits(RemoveAll(s, ',')) ==> 100 * Value(RemoveAll(s, ',')) <= MAX_MONEY_MINOR
    ensures AllDigits(RemoveAll(s, ',')) && ParseStatementMoney(s) == Ok(100 * Value(RemoveAll(s, ',')))
  {
    hide RemoveAll, CountOf, Unwrap, ParseMagnitude, Value, NormalizeSeparators, LastIndex;
    RemoveKeepsDigits(s);
    MarksRemoved(s);
    PlainNumeral(s);
    var digits := RemoveAll(s, ',');
    assert IsDigit(s[0]) && IsDigit(digits[0]);
    CountFree(digits, '.');
    WholeMagnitudeOf(digits);
  }

  lemma MarksRemoved(s: string)
    requires Free(s, '.') && (CountOf(s, ',') != 1 || !(1 <= |s| - LastIndex(s, ',') - 1 <= 2))
    ensures NormalizeSeparators(s) == RemoveAll(s, ',')
  {
    hide RemoveAll, CountOf, LastIndex;
    if LastIndex(s, ',') < 0 {
      RemoveAllFree(s, ',');
    }
    assert LastIndex(s, '.') == -1;
  }

  lemma PlainNumeral(s: string)
    requires IsNumeral(s)
    ensures Unwrap(s) == (false, s)
  {
    BareText(s);
  }
}
