/**
 * Text as it is compared: blanks around it, letter case, words. What each
 * transformation of a text means is said in characters.
 */
module Texts {
  import opened Decimals

  // ---- letter case ----

  function LowerChar(c: char): char {
    if 'A' <= c <= 'Z' then c + ('a' - 'A') else c
  }

  function Lower(s: string): string {
    seq(|s|, i requires 0 <= i < |s| => LowerChar(s[i]))
  }

  /** The capital and the small form of one ASCII letter. */
  predicate IsCapitalOf(capital: char, small: char) {
    65 <= capital as int <= 90 && small as int == capital as int + 32
  }

  predicate SameLetter(a: char, b: char) {
    a == b || IsCapitalOf(a, b) || IsCapitalOf(b, a)
  }

  /** Equality up to letter case, character by character. */
  predicate SameText(a: string, b: string) {
    |a| == |b| && forall i | 0 <= i < |a| :: SameLetter(a[i], b[i])
  }

  predicate ReadsAt(text: string, i: nat, part: string) {
    i + |part| <= |text| && SameText(text[i..i + |part|], part)
  }

  /** Some stretch of the text reads like `part`, up to letter case. */
  predicate Mentions(text: string, part: string) {
    exists i :: 0 <= i <= |text| && ReadsAt(text, i, part)
  }

  predicate Occurs(part: string, whole: string) {
    exists i | 0 <= i <= |whole| :: part <= whole[i..]
  }

  lemma LowerCharMeans(a: char, b: char)
    ensures LowerChar(a) == LowerChar(b) <==> SameLetter(a, b)
  {
  }

  /** Two texts have one lower-case form exactly when they are the same text up to case. */
  lemma LowerMeans(a: string, b: string)
    ensures Lower(a) == Lower(b) <==> SameText(a, b)
  {
    hide LowerChar, SameLetter;
    forall x, y { LowerCharMeans(x, y); }
    if SameText(a, b) {
      assert forall i | 0 <= i < |a| :: Lower(a)[i] == Lower(b)[i];
    } else if Lower(a) == Lower(b) {
      assert |a| == |Lower(a)| == |b|;
      assert forall i | 0 <= i < |a| :: LowerChar(a[i]) == Lower(a)[i] == Lower(b)[i] == LowerChar(b[i]);
    }
  }

  /** A lower-case search is a search up to case. */
  lemma OccursMeans(part: string, whole: string)
    ensures Occurs(Lower(part), Lower(whole)) <==> Mentions(whole, part)
  {
    hide LowerChar, SameLetter, SameText;
    if Occurs(Lower(part), Lower(whole)) {
      var i :| 0 <= i <= |whole| && Lower(part) <= Lower(whole)[i..];
      LowerPart(part, whole, i);
    }
    if Mentions(whole, part) {
      var i :| 0 <= i <= |whole| && ReadsAt(whole, i, part);
      LowerPart(part, whole, i);
      assert Lower(part) <= Lower(whole)[i..];
    }
  }

  lemma LowerPart(part: string, whole: string, i: nat)
    requires i <= |whole|
    ensures Lower(part) <= Lower(whole)[i..]
            <==> ReadsAt(whole, i, part)
  {
    hide LowerChar, SameText;
    if i + |part| <= |whole| {
      var piece := whole[i..i + |part|];
      LowerMeans(piece, part);
      assert Lower(piece) == Lower(whole)[i..i + |part|];
      assert Lower(whole)[i..][..|part|] == Lower(whole)[i..i + |part|];
    }
  }

  // ---- blanks ----

  /** The code points with the property White_Space. */
  lemma BlanksAre(c: char)
    ensures IsSpace(c) <==>
            c as int in {9, 10, 11, 12, 13, 32, 0x85, 0xA0, 0x1680, 0x2000, 0x2001, 0x2002, 0x2003, 0x2004, 0x2005,
                         0x2006, 0x2007, 0x2008, 0x2009, 0x200A, 0x2028, 0x2029, 0x202F, 0x205F, 0x3000}
  {
  }

  predicate All(outer: char -> bool, s: string) {
    forall i | 0 <= i < |s| :: outer(s[i])
  }

  /** Nothing, or something whose ends are not of the outer kind. */
  predicate Tight(outer: char -> bool, s: string) {
    s != "" ==> !outer(s[0]) && !outer(s[|s| - 1])
  }

  /** `core` is `s` without the outer characters at its ends. */
  predicate IsCore(outer: char -> bool, core: string, s: string) {
    exists a, b | 0 <= a <= b <= |s| ::
      core == s[a..b] && All(outer, s[..a]) && All(outer, s[b..]) && Tight(outer, core)
  }

  lemma CoreAfter(outer: char -> bool, x: char, core: string, s: string)
    requires outer(x) && IsCore(outer, core, s)
    ensures IsCore(outer, core, [x] + s)
  {
    var a, b :| 0 <= a <= b <= |s| && core == s[a..b] && All(outer, s[..a]) && All(outer, s[b..]) && Tight(outer, core);
    var t := [x] + s;
    assert t[a + 1..b + 1] == core && t[..a + 1] == [x] + s[..a] && t[b + 1..] == s[b..];
  }

  lemma CoreBefore(outer: char -> bool, x: char, core: string, s: string)
    requires outer(x) && IsCore(outer, core, s)
    ensures IsCore(outer, core, s + [x])
  {
    var a, b :| 0 <= a <= b <= |s| && core == s[a..b] && All(outer, s[..a]) && All(outer, s[b..]) && Tight(outer, core);
    var t := s + [x];
    assert t[a..b] == core && t[..a] == s[..a] && t[b..] == s[b..] + [x];
  }

  lemma {:induction false} TrimLeftMeans(s: string)
    ensures var a := |s| - |TrimLeft(s)|;
            && 0 <= a && TrimLeft(s) == s[a..] && All(IsSpace, s[..a])
            && (TrimLeft(s) != "" ==> !IsSpace(TrimLeft(s)[0]))
    decreases |s|
  {
    hide IsSpace;
    if s != "" && IsSpace(s[0]) {
      TrimLeftMeans(s[1..]);
      var a := |s| - |TrimLeft(s)|;
      assert s[..a] == [s[0]] + s[1..][..a - 1];
    }
  }

  lemma {:induction false} TrimRightMeans(s: string)
    ensures var b := |TrimRight(s)|;
            && b <= |s| && TrimRight(s) == s[..b] && All(IsSpace, s[b..])
            && (TrimRight(s) != "" ==> !IsSpace(s[b - 1]))
    decreases |s|
  {
    hide IsSpace;
    if s != "" && IsSpace(s[|s| - 1]) {
      TrimRightMeans(s[..|s| - 1]);
      var b := |TrimRight(s)|;
      assert s[b..] == s[..|s| - 1][b..] + [s[|s| - 1]];
    }
  }

  /** Trimming takes the blanks off both ends, and nothing else: there is one such text. */
  lemma TrimMeans(s: string, core: string)
    ensures IsCore(IsSpace, core, s) <==> core == Trim(s)
  {
    hide IsSpace;
    TrimLeftMeans(s);
    var left := TrimLeft(s);
    TrimRightMeans(left);
    var a, b := |s| - |left|, |s| - |left| + |TrimRight(left)|;
    assert Trim(s) == s[a..b] && s[b..] == left[b - a..];
    assert IsCore(IsSpace, Trim(s), s);
    if IsCore(IsSpace, core, s) {
      OneCore(IsSpace, s, core, Trim(s));
    }
  }

  lemma TrimEmpty(s: string)
    ensures Trim(s) == "" <==> All(IsSpace, s)
  {
    TrimMeans(s, Trim(s));
    TrimMeans(s, "");
    hide IsSpace, Trim;
    if All(IsSpace, s) {
      assert "" == s[0..0] && s[0..] == s && s[..0] == "";
    }
  }

  lemma TrimTwice(s: string)
    ensures Trim(Trim(s)) == Trim(s)
  {
    TrimMeans(s, Trim(s));
    TrimMeans(Trim(s), Trim(s));
    hide IsSpace, Trim;
    var core := Trim(s);
    assert core == core[0..|core|] && core[..0] == "" && core[|core|..] == "";
  }

  lemma OneCore(outer: char -> bool, s: string, x: string, y: string)
    requires IsCore(outer, x, s) && IsCore(outer, y, s)
    ensures x == y
  {
    var a, b :| 0 <= a <= b <= |s| && x == s[a..b] && All(outer, s[..a]) && All(outer, s[b..]) && Tight(outer, x);
    var c, d :| 0 <= c <= d <= |s| && y == s[c..d] && All(outer, s[..c]) && All(outer, s[d..]) && Tight(outer, y);
    CoreInside(outer, s, a, b, c, d);
    CoreInside(outer, s, c, d, a, b);
  }

  /** What lies between outer characters contains every tight stretch. */
  lemma CoreInside(outer: char -> bool, s: string, a: nat, b: nat, c: nat, d: nat)
    requires a <= b <= |s| && c <= d <= |s|
    requires Tight(outer, s[a..b]) && All(outer, s[..c]) && All(outer, s[d..])
    ensures a < b ==> c <= a && b <= d
  {
    if a < b {
      assert s[a..b][0] == s[a] && s[a..b][b - a - 1] == s[b - 1];
    }
  }

  // ---- words ----

  predicate BlankFree(s: string) {
    forall i | 0 <= i < |s| :: !IsSpace(s[i])
  }

  /** The characters before the first blank. */
  function FirstWord(s: string): string {
    if s == "" || IsSpace(s[0]) then "" else [s[0]] + FirstWord(s[1..])
  }

  lemma {:induction false} FirstWordMeans(s: string)
    ensures var w := FirstWord(s);
            w <= s && BlankFree(w) && (|w| < |s| ==> IsSpace(s[|w|])) && (w == "" <==> s == "" || IsSpace(s[0]))
  {
    hide IsSpace;
    if s != "" && !IsSpace(s[0]) {
      FirstWordMeans(s[1..]);
    }
  }

  /** `strings.Fields`: the stretches between blanks. */
  function Fields(s: string): seq<string> {
    if s == "" then []
    else if IsSpace(s[0]) then Fields(s[1..])
    else
      var w := FirstWord(s);
      FirstWordMeans(s);
      [w] + Fields(s[|w|..])
  }

  /** `strings.Join` with single blanks. */
  function Join(words: seq<string>): string {
    if words == [] then ""
    else if |words| == 1 then words[0]
    else words[0] + " " + Join(words[1..])
  }

  /** `NormalizeRuleText` */
  function Normalized(s: string): string {
    Lower(Join(Fields(s)))
  }

  predicate AreWords(words: seq<string>) {
    forall i | 0 <= i < |words| :: words[i] != "" && BlankFree(words[i])
  }

  /** The same words in the same order, up to letter case. */
  predicate SameWords(a: seq<string>, b: seq<string>) {
    |a| == |b| && forall i | 0 <= i < |a| :: SameText(a[i], b[i])
  }

  lemma {:induction false} FieldsAreWords(s: string)
    ensures AreWords(Fields(s))
    decreases |s|
  {
    hide IsSpace;
    if s != "" {
      FirstWordMeans(s);
      if IsSpace(s[0]) {
        FieldsAreWords(s[1..]);
      } else {
        FieldsAreWords(s[|FirstWord(s)|..]);
      }
    }
  }

  lemma {:induction false} FirstWordOf(w: string, rest: string)
    requires BlankFree(w) && (rest != "" ==> IsSpace(rest[0]))
    ensures FirstWord(w + rest) == w
  {
    hide IsSpace;
    if w == "" {
      assert w + rest == rest;
    } else {
      FirstWordOf(w[1..], rest);
      assert (w + rest)[1..] == w[1..] + rest;
    }
  }

  /** Joined words come apart again. */
  lemma {:induction false} FieldsOfJoin(words: seq<string>)
    requires AreWords(words)
    ensures Fields(Join(words)) == words
  {
    hide BlankFree;
    if words != [] {
      var w, rest := words[0], if |words| == 1 then "" else " " + Join(words[1..]);
      FirstWordOf(w, rest);
      FirstWordMeans(w + rest);
      assert Join(words) == w + rest;
      assert (w + rest)[|w|..] == rest;
      assert Fields(w + rest) == [w] + Fields(rest);
      FieldsOfJoin(words[1..]);
      if |words| > 1 {
        assert rest[1..] == Join(words[1..]);
      }
    }
  }

  function LowerWords(words: seq<string>): seq<string> {
    seq(|words|, i requires 0 <= i < |words| => Lower(words[i]))
  }

  lemma LowerAppend(a: string, b: string)
    ensures Lower(a + b) == Lower(a) + Lower(b)
  {
  }

  lemma {:induction false} LowerJoin(words: seq<string>)
    ensures Lower(Join(words)) == Join(LowerWords(words))
  {
    if |words| == 1 {
      assert LowerWords(words) == [Lower(words[0])];
    } else if words != [] {
      hide Lower;
      LowerJoin(words[1..]);
      LowerAppend(words[0] + " ", Join(words[1..]));
      LowerAppend(words[0], " ");
      LowerBlank();
      assert LowerWords(words)[1..] == LowerWords(words[1..]);
    }
  }

  lemma LowerBlank()
    ensures Lower(" ") == " "
  {
  }

  lemma LowerKeepsWords(words: seq<string>)
    requires AreWords(words)
    ensures AreWords(LowerWords(words))
  {
    forall c: char { LowerKeepsBlanks(c); }
    hide IsSpace, LowerChar;
  }

  lemma LowerKeepsBlanks(c: char)
    ensures IsSpace(LowerChar(c)) <==> IsSpace(c)
  {
  }

  lemma NormalizedFields(s: string)
    ensures Fields(Normalized(s)) == LowerWords(Fields(s))
  {
    hide Lower, Fields, Join;
    FieldsAreWords(s);
    LowerJoin(Fields(s));
    LowerKeepsWords(Fields(s));
    FieldsOfJoin(LowerWords(Fields(s)));
  }

  lemma SameNormalized(a: string, b: string)
    requires LowerWords(Fields(a)) == LowerWords(Fields(b))
    ensures Normalized(a) == Normalized(b)
  {
    hide Fields, Join, Lower, LowerWords;
    LowerJoin(Fields(a));
    LowerJoin(Fields(b));
  }

  /** Two texts are normalised alike exactly when they consist of the same words up to case. */
  lemma NormalizedMeans(a: string, b: string)
    ensures Normalized(a) == Normalized(b) <==> SameWords(Fields(a), Fields(b))
  {
    hide Fields, Join, Lower, SameText, Normalized;
    NormalizedFields(a);
    NormalizedFields(b);
    var x, y := Fields(a), Fields(b);
    if Normalized(a) == Normalized(b) {
      assert |x| == |LowerWords(x)| == |LowerWords(y)| == |y|;
      forall i | 0 <= i < |x| ensures SameText(x[i], y[i]) {
        assert Lower(x[i]) == LowerWords(x)[i] == LowerWords(y)[i] == Lower(y[i]);
        LowerMeans(x[i], y[i]);
      }
    } else if SameWords(x, y) {
      forall i | 0 <= i < |x| { LowerMeans(x[i], y[i]); }
      assert LowerWords(x) == LowerWords(y);
      SameNormalized(a, b);
    }
  }
}
