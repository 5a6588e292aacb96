/**
 Cross-references between canteen entities (a user's or product's allergens,
 a dish's products, a menu's breakfast and lunch dishes) are stored as text:
 the ids joined by ','. This module models the two directions of that
 encoding: the form `save` methods that serialise a selection, and the
 `MenuForm` constructor that parses it back with split / strip / isdigit / int.
 */
module IdList {

  /** Python's `str.isspace`: the characters `str.strip()` removes. */
  predicate IsSpace(c: char) {
    || c == ' '
    || '\t' <= c <= '\r'
    || '\U{1C}' <= c <= '\U{1F}'
    || c == '\U{85}' || c == '\U{A0}' || c == '\U{1680}'
    || '\U{2000}' <= c <= '\U{200A}'
    || c == '\U{2028}' || c == '\U{2029}' || c == '\U{202F}' || c == '\U{205F}' || c == '\U{3000}'
  }

  predicate IsDigit(c: char) {
    '0' <= c <= '9'
  }

  /** `s.isdigit()`: non-empty and every character a decimal digit. */
  predicate AllDigits(s: string) {
    |s| > 0 && forall i :: 0 <= i < |s| ==> IsDigit(s[i])
  }

  function DigitValue(c: char): (d: nat)
    requires IsDigit(c)
    ensures d < 10
  {
    (c as int) - ('0' as int)
  }

  function DigitChar(d: nat): (c: char)
    requires d < 10
    ensures IsDigit(c) && DigitValue(c) == d
  {
    (('0' as int) + d) as char
  }

  /** `int(s)` for a string of decimal digits (leading zeros allowed). */
  function DecimalValue(s: string): nat
    requires forall i :: 0 <= i < |s| ==> IsDigit(s[i])
  {
    if |s| == 0 then 0
    else DecimalValue(s[..|s| - 1]) * 10 + DigitValue(s[|s| - 1])
  }

  /** `str(n)` for a non-negative integer: its decimal digits, no sign, no leading zero. */
  function DecimalString(n: nat): (s: string)
    ensures AllDigits(s)
    ensures |s| > 1 ==> s[0] != '0'
    decreases n
  {
    if n < 10 then [DigitChar(n)] else DecimalString(n / 10) + [DigitChar(n % 10)]
  }

  /** `str` and `int` are inverse on non-negative integers. */
  lemma {:induction false} DecimalRoundTrip(n: nat)
    ensures DecimalValue(DecimalString(n)) == n
    decreases n
  {
    var s := DecimalString(n);
    if n < 10 {
      assert s[..|s| - 1] == [];
    } else {
      DecimalRoundTrip(n / 10);
      assert s[..|s| - 1] == DecimalString(n / 10);
    }
  }

  /** `s.split(sep)` with an explicit separator: always at least one part. */
  function Split(s: string, sep: char): (parts: seq<string>)
    ensures |parts| >= 1
    decreases |s|
  {
    if |s| == 0 then [""]
    else
      var rest := Split(s[1..], sep);
      if s[0] == sep then [""] + rest
      else [[s[0]] + rest[0]] + rest[1..]
  }

  /** The parts of `split` hold no separator, and joining them gives the text back. */
  lemma {:induction false} SplitParts(s: string, sep: char)
    ensures forall i :: 0 <= i < |Split(s, sep)| ==> sep !in Split(s, sep)[i]
    ensures Join(Split(s, sep), sep) == s
    decreases |s|
  {
    if |s| > 0 {
      var c, t := s[0], s[1..];
      assert s == [c] + t;
      SplitParts(t, sep);
      SplitCons(c, t, sep);
      if c == sep {
        JoinCons("", Split(t, sep), sep);
      } else {
        SplitPartsAtChar(c, t, sep);
      }
    }
  }

  /** The inductive step of `SplitParts` for a first character that is not the separator. */
  lemma SplitPartsAtChar(c: char, t: string, sep: char)
    requires c != sep
    requires forall i :: 0 <= i < |Split(t, sep)| ==> sep !in Split(t, sep)[i]
    requires Join(Split(t, sep), sep) == t
    ensures forall i :: 0 <= i < |Split([c] + t, sep)| ==> sep !in Split([c] + t, sep)[i]
    ensures Join(Split([c] + t, sep), sep) == [c] + t
  {
    SplitCons(c, t, sep);
    var rest := Split(t, sep);
    var parts := [[c] + rest[0]] + rest[1..];
    assert forall i :: 1 <= i < |parts| ==> parts[i] == rest[i];
    JoinExtendFirst(c, rest, sep);
  }

  /** Putting `c` in front of the first part puts it in front of the joined text. */
  lemma JoinExtendFirst(c: char, parts: seq<string>, sep: char)
    requires |parts| >= 1
    ensures Join([[c] + parts[0]] + parts[1..], sep) == [c] + Join(parts, sep)
  {
    if |parts| > 1 {
      JoinCons([c] + parts[0], parts[1..], sep);
      JoinCons(parts[0], parts[1..], sep);
      assert [parts[0]] + parts[1..] == parts;
    }
  }

  lemma JoinCons(p: string, ps: seq<string>, sep: char)
    requires |ps| >= 1
    ensures Join([p] + ps, sep) == p + [sep] + Join(ps, sep)
  {
    assert ([p] + ps)[1..] == ps;
  }

  /** `sep.join(parts)`: the empty list joins to the empty string. */
  function Join(parts: seq<string>, sep: char): string
    decreases |parts|
  {
    if |parts| == 0 then ""
    else if |parts| == 1 then parts[0]
    else parts[0] + [sep] + Join(parts[1..], sep)
  }

  /** A part that contains no separator survives `split` whole, followed by what comes after it. */
  lemma {:induction false} SplitAfterPart(w: string, rest: string, sep: char)
    requires sep !in w
    ensures Split(w + [sep] + rest, sep) == [w] + Split(rest, sep)
    decreases |w|
  {
    if |w| == 0 {
      assert w + [sep] + rest == [sep] + rest;
      assert ([sep] + rest)[1..] == rest;
    } else {
      var s := w + [sep] + rest;
      assert s[0] == w[0] && s[0] != sep;
      assert s[1..] == w[1..] + [sep] + rest;
      SplitAfterPart(w[1..], rest, sep);
      var tail := Split(s[1..], sep);
      assert tail[0] == w[1..] && tail[1..] == Split(rest, sep);
      assert [w[0]] + w[1..] == w;
    }
  }

  lemma {:induction false} SplitWhole(w: string, sep: char)
    requires sep !in w
    ensures Split(w, sep) == [w]
    decreases |w|
  {
    if |w| > 0 {
      SplitWhole(w[1..], sep);
      assert [w[0]] + w[1..] == w;
    }
  }

  /** `split` undoes `join` when no part contains the separator. */
  lemma {:induction false} SplitJoin(parts: seq<string>, sep: char)
    requires |parts| >= 1
    requires forall i :: 0 <= i < |parts| ==> sep !in parts[i]
    ensures Split(Join(parts, sep), sep) == parts
    decreases |parts|
  {
    if |parts| == 1 {
      SplitWhole(parts[0], sep);
    } else {
      SplitJoin(parts[1..], sep);
      SplitAfterPart(parts[0], Join(parts[1..], sep), sep);
      assert [parts[0]] + parts[1..] == parts;
    }
  }

  function StripLeft(s: string): (t: string)
    ensures |t| <= |s|
    decreases |s|
  {
    if |s| > 0 && IsSpace(s[0]) then StripLeft(s[1..]) else s
  }

  /** `lstrip()` removes a whitespace prefix and stops at the first other character. */
  lemma {:induction false} StripLeftCuts(s: string)
    ensures var t := StripLeft(s);
            && t == s[|s| - |t|..]
            && (forall i :: 0 <= i < |s| - |t| ==> IsSpace(s[i]))
            && (|t| > 0 ==> !IsSpace(t[0]))
    decreases |s|
  {
    if |s| > 0 && IsSpace(s[0]) {
      StripLeftCuts(s[1..]);
      var t := StripLeft(s);
      assert forall i :: 1 <= i < |s| - |t| ==> s[i] == s[1..][i - 1];
    }
  }

  function StripRight(s: string): (t: string)
    ensures |t| <= |s|
    decreases |s|
  {
    if |s| > 0 && IsSpace(s[|s| - 1]) then StripRight(s[..|s| - 1]) else s
  }

  /** `rstrip()` removes a whitespace suffix and stops at the last other character. */
  lemma {:induction false} StripRightCuts(s: string)
    ensures var t := StripRight(s);
            && t == s[..|t|]
            && (forall i :: |t| <= i < |s| ==> IsSpace(s[i]))
            && (|t| > 0 ==> !IsSpace(t[|t| - 1]))
    decreases |s|
  {
    if |s| > 0 && IsSpace(s[|s| - 1]) {
      StripRightCuts(s[..|s| - 1]);
    }
  }

  /** `s.strip()`: the longest infix with no whitespace at either end; only whitespace is cut. */
  function Strip(s: string): (t: string)
    ensures |t| <= |s|
    ensures |t| > 0 ==> !IsSpace(t[0]) && !IsSpace(t[|t| - 1])
    ensures (forall i :: 0 <= i < |s| ==> !IsSpace(s[i])) ==> t == s
  {
    StripLeftCuts(s);
    StripRightCuts(StripLeft(s));
    var l := StripLeft(s);
    var t := StripRight(l);
    assert |t| > 0 ==> t[0] == l[0];
    t
  }

  /**
   `strip()` cuts whitespace from the two ends only: the result is the infix
   of `s` starting at `k`, and everything before and after it is whitespace.
   */
  lemma StripCutsOnlyEnds(s: string)
    ensures var t := Strip(s);
            var k := |s| - |StripLeft(s)|;
            && 0 <= k <= |s| - |t| && t == s[k..k + |t|]
            && (forall i :: 0 <= i < k ==> IsSpace(s[i]))
            && (forall i :: k + |t| <= i < |s| ==> IsSpace(s[i]))
  {
    var l := StripLeft(s);
    var t := StripRight(l);
    var k := |s| - |l|;
    StripLeftCuts(s);
    StripRightCuts(l);
    InfixOfSuffix(s, l, t, k);
  }

  /** A prefix `t` of the suffix `l == s[k..]` is the infix `s[k..k + |t|]`, and what follows it in `l` follows it in `s`. */
  lemma InfixOfSuffix(s: string, l: string, t: string, k: nat)
    requires k <= |s| && l == s[k..] && |t| <= |l| && t == l[..|t|]
    requires forall i :: |t| <= i < |l| ==> IsSpace(l[i])
    ensures t == s[k..k + |t|]
    ensures forall i :: k + |t| <= i < |s| ==> IsSpace(s[i])
  {
    forall i | k + |t| <= i < |s|
      ensures IsSpace(s[i])
    {
      assert s[i] == l[i - k];
    }
  }

  /** The comprehension's filter: the token, once stripped, is all digits. */
  predicate IsIdToken(tok: string) {
    AllDigits(Strip(tok))
  }

  function TokenValue(tok: string): nat
    requires IsIdToken(tok)
  {
    DecimalValue(Strip(tok))
  }

  /** `[int(x.strip()) for x in toks if x.strip().isdigit()]` */
  function ParseTokens(toks: seq<string>): (ids: seq<nat>)
    ensures |ids| <= |toks|
    decreases |toks|
  {
    if |toks| == 0 then []
    else if IsIdToken(toks[0]) then [TokenValue(toks[0])] + ParseTokens(toks[1..])
    else ParseTokens(toks[1..])
  }

  /** When every token is numeric, each yields one id, in order. */
  lemma {:induction false} ParseTokensAllValid(toks: seq<string>)
    requires forall i :: 0 <= i < |toks| ==> IsIdToken(toks[i])
    ensures |ParseTokens(toks)| == |toks|
    ensures forall i :: 0 <= i < |toks| ==> ParseTokens(toks)[i] == TokenValue(toks[i])
    decreases |toks|
  {
    if |toks| > 0 {
      ParseTokensAllValid(toks[1..]);
    }
  }

  /** When no token is numeric, nothing is kept. */
  lemma {:induction false} ParseTokensNoneValid(toks: seq<string>)
    requires forall i :: 0 <= i < |toks| ==> !IsIdToken(toks[i])
    ensures ParseTokens(toks) == []
    decreases |toks|
  {
    if |toks| > 0 {
      ParseTokensNoneValid(toks[1..]);
    }
  }

  /** The comprehension is a filter: it maps a concatenation of token lists to the concatenation of their ids. */
  lemma {:induction false} ParseTokensAppend(a: seq<string>, b: seq<string>)
    ensures ParseTokens(a + b) == ParseTokens(a) + ParseTokens(b)
    decreases |a|
  {
    if |a| == 0 {
      assert a + b == b;
    } else {
      var x, r := a[0], a[1..];
      assert a == [x] + r;
      assert a + b == [x] + (r + b);
      ParseTokensAppend(r, b);
      ParseTokensFirst(x, r + b);
      ParseTokensFirst(x, r);
    }
  }

  lemma ParseTokensFirst(tok: string, rest: seq<string>)
    ensures ParseTokens([tok] + rest) == ParseTokens([tok]) + ParseTokens(rest)
  {
    assert ([tok] + rest)[0] == tok;
    assert ([tok] + rest)[1..] == rest;
    assert [tok][1..] == [];
  }

  /** One token yields its id when it is all digits once stripped, and nothing otherwise. */
  lemma ParseTokensSingle(tok: string)
    ensures ParseTokens([tok]) == if IsIdToken(tok) then [TokenValue(tok)] else []
  {
    assert [tok][1..] == [];
  }

  /** Parse a stored id list, as `MenuForm.__init__` does for each meal slot. */
  function Parse(text: string): (ids: seq<nat>)
    ensures |ids| <= |Split(text, ',')|
    ensures |text| == 0 ==> ids == []
  {
    ParseTokens(Split(text, ','))
  }

  /** Splitting at one separator splits the two sides independently. */
  lemma {:induction false} SplitConcat(a: string, b: string, sep: char)
    ensures Split(a + [sep] + b, sep) == Split(a, sep) + Split(b, sep)
    decreases |a|
  {
    if |a| == 0 {
      assert a + [sep] + b == [sep] + b;
      SplitCons(sep, b, sep);
    } else {
      var c, t := a[0], a[1..];
      var u := t + [sep] + b;
      SplitConcat(t, b, sep);
      assert a == [c] + t;
      assert a + [sep] + b == [c] + u;
      if c == sep {
        SplitSepAppend(t, b, u, sep);
      } else {
        SplitConsAppend(c, t, b, u, sep);
      }
    }
  }

  /** One step of `split`: the first character either ends the first part or joins it. */
  lemma SplitCons(c: char, t: string, sep: char)
    ensures Split([c] + t, sep)
         == if c == sep then [""] + Split(t, sep) else [[c] + Split(t, sep)[0]] + Split(t, sep)[1..]
  {
    assert ([c] + t)[0] == c;
    assert ([c] + t)[1..] == t;
  }

  /** The inductive step of `SplitConcat` for a first character that is the separator. */
  lemma SplitSepAppend(t: string, b: string, u: string, sep: char)
    requires Split(u, sep) == Split(t, sep) + Split(b, sep)
    ensures Split([sep] + u, sep) == Split([sep] + t, sep) + Split(b, sep)
  {
    SplitCons(sep, u, sep);
    SplitCons(sep, t, sep);
    assert [""] + (Split(t, sep) + Split(b, sep)) == ([""] + Split(t, sep)) + Split(b, sep);
  }

  /** The inductive step of `SplitConcat` for a first character that is not the separator. */
  lemma SplitConsAppend(c: char, t: string, b: string, u: string, sep: char)
    requires c != sep
    requires Split(u, sep) == Split(t, sep) + Split(b, sep)
    ensures Split([c] + u, sep) == Split([c] + t, sep) + Split(b, sep)
  {
    var tail := Split(t, sep);
    var right := Split(b, sep);
    var head := [c] + tail[0];
    SplitCons(c, u, sep);
    assert Split([c] + u, sep) == [[c] + (tail + right)[0]] + (tail + right)[1..];
    assert (tail + right)[0] == tail[0];
    SplitCons(c, t, sep);
    assert Split([c] + t, sep) == [head] + tail[1..];
    ConsAfterFirst(head, tail, right);
  }

  /** Replacing the first element of `xs + ys` by `h`, when `xs` is non-empty. */
  lemma ConsAfterFirst<T>(h: T, xs: seq<T>, ys: seq<T>)
    requires |xs| >= 1
    ensures [h] + (xs + ys)[1..] == ([h] + xs[1..]) + ys
  {
    assert (xs + ys)[1..] == xs[1..] + ys;
  }

  /** Parsing is compositional at a comma: the ids of the left part, then those of the right. */
  lemma ParseConcat(a: string, b: string)
    ensures Parse(a + [','] + b) == Parse(a) + Parse(b)
  {
    SplitConcat(a, b, ',');
    ParseTokensAppend(Split(a, ','), Split(b, ','));
  }

  /** Text without a comma is one token: it parses to its id when all digits once stripped, else to nothing. */
  lemma ParseOneToken(tok: string)
    requires ',' !in tok
    ensures Parse(tok) == if IsIdToken(tok) then [TokenValue(tok)] else []
  {
    SplitWhole(tok, ',');
    ParseTokensSingle(tok);
  }

  function DecimalStrings(ids: seq<nat>): (toks: seq<string>)
    ensures |toks| == |ids|
    ensures forall i :: 0 <= i < |ids| ==> toks[i] == DecimalString(ids[i])
    decreases |ids|
  {
    if |ids| == 0 then [] else [DecimalString(ids[0])] + DecimalStrings(ids[1..])
  }

  /** `','.join(str(x.id) for x in selected)`: the ids in decimal, comma-separated, no spaces. */
  function Serialise(ids: seq<nat>): (text: string)
    ensures |text| == 0 <==> |ids| == 0
    ensures forall i :: 0 <= i < |text| ==> text[i] == ',' || IsDigit(text[i])
    ensures |ids| > 0 ==> Split(text, ',') == DecimalStrings(ids)
  {
    var toks := DecimalStrings(ids);
    DigitTokensJoin(toks);
    if |ids| > 0 then SplitJoin(toks, ','); Join(toks, ',') else Join(toks, ',')
  }

  /** Joining digit strings yields only digits and commas; non-empty tokens give non-empty text. */
  lemma {:induction false} DigitTokensJoin(toks: seq<string>)
    requires forall i :: 0 <= i < |toks| ==> AllDigits(toks[i])
    ensures forall i :: 0 <= i < |Join(toks, ',')| ==> Join(toks, ',')[i] == ',' || IsDigit(Join(toks, ',')[i])
    ensures |Join(toks, ',')| == 0 <==> |toks| == 0
    decreases |toks|
  {
    if |toks| > 1 {
      DigitTokensJoin(toks[1..]);
    }
  }

  /** A decimal string is its own strip and parses back to its number. */
  lemma DecimalTokenParses(n: nat)
    ensures IsIdToken(DecimalString(n)) && TokenValue(DecimalString(n)) == n
  {
    var s := DecimalString(n);
    assert forall i :: 0 <= i < |s| ==> !IsSpace(s[i]);
    DecimalRoundTrip(n);
  }

  lemma ParseDecimalStrings(ids: seq<nat>)
    ensures ParseTokens(DecimalStrings(ids)) == ids
  {
    var toks := DecimalStrings(ids);
    forall i | 0 <= i < |toks|
      ensures IsIdToken(toks[i]) && TokenValue(toks[i]) == ids[i]
    {
      DecimalTokenParses(ids[i]);
    }
    ParseTokensAllValid(toks);
  }

  /** Round trip: parsing the serialisation of any id list gives that list back. */
  lemma RoundTrip(ids: seq<nat>)
    ensures Parse(Serialise(ids)) == ids
  {
    var text := Serialise(ids);
    if |ids| == 0 {
      assert text == "";
      assert Split(text, ',') == [""];
      assert !IsIdToken("");
    } else {
      assert Split(text, ',') == DecimalStrings(ids);
      ParseDecimalStrings(ids);
    }
  }

  lemma DigitNotSpace(c: char)
    requires IsDigit(c)
    ensures !IsSpace(c)
  {
  }

  lemma SingleDigitToken(c: char)
    requires IsDigit(c)
    ensures IsIdToken([c]) && TokenValue([c]) == DigitValue(c)
  {
    DigitNotSpace(c);
    assert forall i :: 0 <= i < |[c]| ==> !IsSpace([c][i]);
    assert Strip([c]) == [c];
    assert AllDigits([c]);
    assert [c][..0] == [];
    assert DecimalValue([c]) == DecimalValue([c][..0]) * 10 + DigitValue(c);
  }

  lemma LeadingSpaceIgnored(c: char, t: string)
    requires IsSpace(c)
    ensures Strip([c] + t) == Strip(t)
  {
    assert ([c] + t)[1..] == t;
  }

  lemma ParseTokensCons(tok: string, rest: seq<string>)
    ensures ParseTokens([tok] + rest)
         == (if IsIdToken(tok) then [TokenValue(tok)] else []) + ParseTokens(rest)
  {
    assert ([tok] + rest)[1..] == rest;
  }

  lemma SpacedDigit(c: char)
    requires IsDigit(c)
    ensures IsIdToken([' ', c]) && TokenValue([' ', c]) == DigitValue(c)
    ensures IsIdToken([' ', ' ', c]) && TokenValue([' ', ' ', c]) == DigitValue(c)
  {
    SingleDigitToken(c);
    LeadingSpaceIgnored(' ', [c]);
    assert [' '] + [c] == [' ', c];
    LeadingSpaceIgnored(' ', [' ', c]);
    assert [' '] + [' ', c] == [' ', ' ', c];
  }

  lemma JoinTwo(x: string, y: string, sep: char)
    ensures Join([x, y], sep) == x + [sep] + y
  {
    assert [x, y][1..] == [y];
  }

  lemma JoinThree(x: string, y: string, z: string, sep: char)
    ensures Join([x, y, z], sep) == x + [sep] + y + [sep] + z
  {
    assert [x, y, z][1..] == [y, z];
    JoinTwo(y, z, sep);
  }

  lemma SplitSpaced(a: char, b: char, c: char)
    requires IsDigit(a) && IsDigit(b) && IsDigit(c)
    ensures Split([a, ',', ' ', b, ',', ' ', ' ', c], ',') == [[a], [' ', b], [' ', ' ', c]]
  {
    JoinThree([a], [' ', b], [' ', ' ', c], ',');
    assert [a] + [','] + [' ', b] + [','] + [' ', ' ', c] == [a, ',', ' ', b, ',', ' ', ' ', c];
    SplitJoin([[a], [' ', b], [' ', ' ', c]], ',');
  }

  lemma SpacedTokens(a: char, b: char, c: char)
    requires IsDigit(a) && IsDigit(b) && IsDigit(c)
    ensures ParseTokens([[a], [' ', b], [' ', ' ', c]]) == [DigitValue(a), DigitValue(b), DigitValue(c)]
  {
    var ta, tb, tc := [a], [' ', b], [' ', ' ', c];
    SingleDigitToken(a);
    ParseTokensSingle(ta);
    SpacedDigit(b);
    ParseTokensSingle(tb);
    SpacedDigit(c);
    ParseTokensSingle(tc);
    ParseTokensAppend([ta], [tb]);
    assert [ta] + [tb] == [ta, tb];
    ParseTokensAppend([ta, tb], [tc]);
    assert [ta, tb] + [tc] == [ta, tb, tc];
  }

  /** Whitespace around a token is ignored: "a, b,  c" parses to the three digits. */
  lemma ParseTrimsSpaces(a: char, b: char, c: char)
    requires IsDigit(a) && IsDigit(b) && IsDigit(c)
    ensures Parse([a, ',', ' ', b, ',', ' ', ' ', c]) == [DigitValue(a), DigitValue(b), DigitValue(c)]
  {
    SplitSpaced(a, b, c);
    SpacedTokens(a, b, c);
  }

  lemma SplitTrailing(x: char, d: char)
    requires x != ',' && d != ','
    ensures Split([x, ',', d, ','], ',') == [[x], [d], []]
  {
    JoinThree([x], [d], [], ',');
    assert [x] + [','] + [d] + [','] + [] == [x, ',', d, ','];
    SplitJoin([[x], [d], []], ',');
  }

  lemma LetterNotToken(x: char)
    requires !IsDigit(x) && !IsSpace(x)
    ensures !IsIdToken([x])
  {
    assert forall i :: 0 <= i < |[x]| ==> !IsSpace([x][i]);
    assert Strip([x]) == [x];
  }

  lemma LetterDigitEmptyTokens(x: char, d: char)
    requires !IsDigit(x) && !IsSpace(x)
    requires IsDigit(d)
    ensures ParseTokens([[x], [d], []]) == [DigitValue(d)]
  {
    var tx, td, te: string := [x], [d], [];
    LetterNotToken(x);
    SingleDigitToken(d);
    assert !IsIdToken(te);
    ParseTokensCons(te, []);
    assert [te] + [] == [te];
    ParseTokensCons(td, [te]);
    assert [td] + [te] == [td, te];
    ParseTokensCons(tx, [td, te]);
    assert [tx] + [td, te] == [tx, td, te];
  }

  /** Empty and non-numeric tokens are dropped: "x,d," parses to the one digit. */
  lemma ParseDropsNonDigits(x: char, d: char)
    requires !IsDigit(x) && !IsSpace(x) && x != ','
    requires IsDigit(d)
    ensures Parse([x, ',', d, ',']) == [DigitValue(d)]
  {
    SplitTrailing(x, d);
    LetterDigitEmptyTokens(x, d);
  }

  lemma SplitPair(d: char, e: char)
    requires IsDigit(d) && IsDigit(e)
    ensures Split(['-', d, ',', e], ',') == [['-', d], [e]]
  {
    JoinTwo(['-', d], [e], ',');
    assert ['-', d] + [','] + [e] == ['-', d, ',', e];
    SplitJoin([['-', d], [e]], ',');
  }

  lemma NegativeNotToken(d: char)
    requires IsDigit(d)
    ensures !IsIdToken(['-', d])
  {
    var tn := ['-', d];
    DigitNotSpace(d);
    assert forall i :: 0 <= i < |tn| ==> !IsSpace(tn[i]);
    assert Strip(tn) == tn;
    assert !IsDigit(tn[0]);
  }

  lemma NegativeTokens(d: char, e: char)
    requires IsDigit(d) && IsDigit(e)
    ensures ParseTokens([['-', d], [e]]) == [DigitValue(e)]
  {
    var tn, te := ['-', d], [e];
    NegativeNotToken(d);
    SingleDigitToken(e);
    ParseTokensCons(te, []);
    assert [te] + [] == [te];
    ParseTokensCons(tn, [te]);
    assert [tn] + [te] == [tn, te];
  }

  /** A negative number is not a digit token, so it is dropped too: "-d,e" parses to e. */
  lemma ParseDropsNegative(d: char, e: char)
    requires IsDigit(d) && IsDigit(e)
    ensures Parse(['-', d, ',', e]) == [DigitValue(e)]
  {
    SplitPair(d, e);
    NegativeTokens(d, e);
  }
}
