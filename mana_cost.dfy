/** `ManaCostInfo` of `tcg/lib/types/color.py`: the `(value colours)` token,
    its parse by `REGEX_PATTERN.match` and its re-encoding by `__repr__`. */
module ManaCosts {
  import opened Wrappers
  import opened Colors
  import opened ColorTable


  /** A parsed cost: the value text and the colour set. */
  datatype ManaCost = ManaCost(value: string, color: Color)

  /** `[\dX]`: the characters of a cost value (ASCII digits and `X`). */
  predicate ValueChar(ch: char) {
    '0' <= ch <= '9' || ch == 'X'
  }

  /** `[DAOPL]`, built from `shortcut_keys` (see `LetterCharIsShortcutKey`). */
  predicate LetterChar(ch: char) {
    ch == 'D' || ch == 'A' || ch == 'O' || ch == 'P' || ch == 'L'
  }

  /** The character class holds exactly the characters of `shortcut_keys`. */
  lemma LetterCharIsShortcutKey(ch: char)
    ensures LetterChar(ch) <==> ch in ShortcutKeys
  {
  }

  /** The length of the longest prefix of `s` made of value characters. */
  function ValueRun(s: string): (n: nat)
    ensures n <= |s|
    ensures forall i | 0 <= i < n :: ValueChar(s[i])
    ensures n < |s| ==> !ValueChar(s[n])
  {
    if s == [] || !ValueChar(s[0]) then 0 else 1 + ValueRun(s[1..])
  }

  /** The length of the longest prefix of `s` made of colour letters. */
  function LetterRun(s: string): (n: nat)
    ensures n <= |s|
    ensures forall i | 0 <= i < n :: LetterChar(s[i])
    ensures n < |s| ==> !LetterChar(s[n])
  {
    if s == [] || !LetterChar(s[0]) then 0 else 1 + LetterRun(s[1..])
  }

  /** `REGEX_PATTERN.match`, anchored at the start only: the value group and
      the colour group. The two character classes are disjoint and exclude
      `)`, so the greedy match is the maximal run of each. */
  function TokenMatch(s: string): Option<(string, string)> {
    if s == [] || s[0] != '(' then None
    else
      var n := ValueRun(s[1..]);
      var rest := s[1 + n..];
      var m := LetterRun(rest);
      if n == 0 || m == 0 || m == |rest| || rest[m] != ')' then None
      else Some((s[1..1 + n], rest[..m]))
  }

  /** `ManaCostInfo.from_string`: the match's groups, the colour group read
      by `Color.from_string`. No match leaves `None`, whose `groupdict`
      raises. */
  function Parse(s: string): Result<ManaCost> {
    match TokenMatch(s)
    case None => Failure(NoMatch(s))
    case Some((v, l)) =>
      var c :- ColorOf(l);
      Success(ManaCost(v, c))
  }

  /** The length of the text that `REGEX_PATTERN` matches at the start of a
      string it parses, up to and including the closing `)`. */
  function MatchLength(s: string): (n: nat)
    requires Parse(s).Success?
    ensures 4 <= n <= |s| && s[n - 1] == ')'
  {
    var v := ValueRun(s[1..]);
    2 + v + LetterRun(s[1 + v..])
  }

  predicate ValueText(v: string) {
    v != [] && forall i | 0 <= i < |v| :: ValueChar(v[i])
  }

  predicate LettersText(l: string) {
    l != [] && forall i | 0 <= i < |l| :: LetterChar(l[i])
  }

  lemma {:induction false} ValueRunStops(v: string, rest: string)
    requires forall i | 0 <= i < |v| :: ValueChar(v[i])
    requires rest != [] && !ValueChar(rest[0])
    ensures ValueRun(v + rest) == |v|
    decreases |v|
  {
    if v != [] {
      assert (v + rest)[1..] == v[1..] + rest;
      ValueRunStops(v[1..], rest);
    } else {
      assert v + rest == rest;
    }
  }

  lemma {:induction false} LetterRunStops(l: string, rest: string)
    requires forall i | 0 <= i < |l| :: LetterChar(l[i])
    requires rest != [] && !LetterChar(rest[0])
    ensures LetterRun(l + rest) == |l|
    decreases |l|
  {
    if l != [] {
      assert (l + rest)[1..] == l[1..] + rest;
      LetterRunStops(l[1..], rest);
    } else {
      assert l + rest == rest;
    }
  }

  lemma LettersValid(l: string)
    requires forall i | 0 <= i < |l| :: LetterChar(l[i])
    ensures Valid(l)
  {
  }

  /** Completeness: any token `(value letters)` followed by any text parses to
      the value and the set of the letters, duplicates and trailing text
      ignored. */
  lemma ParseToken(v: string, l: string, t: string)
    requires ValueText(v) && LettersText(l)
    ensures Parse("(" + v + l + ")" + t) == Success(ManaCost(v, MaskOf(l)))
    ensures MatchLength("(" + v + l + ")" + t) == |v| + |l| + 2
  {
    var s := "(" + v + l + ")" + t;
    assert TokenMatch(s) == Some((v, l)) by {
      TokenRuns(v, l, t);
    }
    LettersMask(l);
    TokenRuns(v, l, t);
  }

  /** A colour group of the pattern is read as the set of its letters. */
  lemma LettersMask(l: string)
    requires forall i | 0 <= i < |l| :: LetterChar(l[i])
    ensures ColorOf(l) == Success(MaskOf(l))
  {
    LettersValid(l);
    ColorOfIsMask(l);
  }

  /** Where the runs of a token stop. */
  lemma TokenRuns(v: string, l: string, t: string)
    requires ValueText(v) && LettersText(l)
    ensures var s := "(" + v + l + ")" + t;
      && s != [] && s[0] == '(' && ValueRun(s[1..]) == |v| && s[1..1 + |v|] == v
      && LetterRun(s[1 + |v|..]) == |l| && |l| < |s[1 + |v|..]|
      && s[1 + |v|..][|l|] == ')' && s[1 + |v|..][..|l|] == l
  {
    var s := "(" + v + l + ")" + t;
    assert s[1..] == v + (l + ")" + t);
    ValueRunStops(v, l + ")" + t);
    var rest := s[1 + |v|..];
    assert rest == l + (")" + t);
    LetterRunStops(l, ")" + t);
    assert rest[..|l|] == l;
    assert s[1..1 + |v|] == v;
  }

  /** Soundness: whatever parses is such a token. */
  lemma ParseSound(s: string)
    requires Parse(s).Success?
    ensures var m := Parse(s).value;
      ValueText(m.value)
      && exists l, t :: LettersText(l) && s == "(" + m.value + l + ")" + t && m.color == MaskOf(l)
  {
    assert TokenMatch(s).Some?;
    var v, l := TokenMatch(s).value.0, TokenMatch(s).value.1;
    var n := ValueRun(s[1..]);
    var rest := s[1 + n..];
    var k := LetterRun(rest);
    var t := rest[k + 1..];
    assert ValueText(v) && LettersText(l) && s == "(" + v + l + ")" + t by {
      MatchedParts(s);
      TokenPieces(s, n, k);
    }
    assert Parse(s).value == ManaCost(v, MaskOf(l)) by {
      LettersMask(l);
    }
  }

  /** The groups of a match, as runs of the text. */
  lemma MatchedParts(s: string)
    requires TokenMatch(s).Some?
    ensures var n := ValueRun(s[1..]);
      var rest := s[1 + n..];
      var k := LetterRun(rest);
      && 0 < n && 0 < k < |rest| && rest[k] == ')' && s[0] == '('
      && ValueText(s[1..1 + n]) && LettersText(rest[..k])
      && TokenMatch(s).value == (s[1..1 + n], rest[..k])
  {
    var n := ValueRun(s[1..]);
    var rest := s[1 + n..];
    assert ValueText(s[1..1 + n]) by {
      assert s[1..1 + n] == s[1..][..n];
      ValuePrefix(s[1..]);
    }
    LetterPrefix(rest);
  }

  lemma ValuePrefix(x: string)
    requires ValueRun(x) > 0
    ensures ValueText(x[..ValueRun(x)])
  {
  }

  lemma LetterPrefix(x: string)
    requires LetterRun(x) > 0
    ensures LettersText(x[..LetterRun(x)])
  {
  }

  /** A text cut after `(`, a run of `n` characters and a run of `k` more,
      where a `)` follows. */
  lemma TokenPieces(s: string, n: nat, k: nat)
    requires 1 + n + k < |s| && s[0] == '(' && s[1 + n + k] == ')'
    ensures var rest := s[1 + n..];
      s == "(" + s[1..1 + n] + rest[..k] + ")" + rest[k + 1..]
  {
    var rest := s[1 + n..];
    assert rest == rest[..k] + [rest[k]] + rest[k + 1..];
    assert s == [s[0]] + s[1..1 + n] + rest;
  }

  /** A parsed cost always has at least one colour: the pattern needs a letter. */
  lemma ParseNonEmpty(s: string)
    requires Parse(s).Success?
    ensures Parse(s).value.color != Empty
  {
    assert TokenMatch(s).Some?;
    var l := TokenMatch(s).value.1;
    MatchedParts(s);
    LettersMask(l);
    MaskOfLetters(l);
  }

  /** Some colour is set as soon as there is a letter. */
  lemma MaskOfLetters(l: string)
    requires l != [] && LetterChar(l[0])
    ensures MaskOf(l) != Empty
  {
    assert l[0] in l;
    assert l[0] in "DAOPL";
  }

  /** A string the pattern does not match is exactly what fails: the letters
      matched are always shortcuts, so `from_string` of the colour group never
      raises. */
  lemma ParseFailure(s: string)
    ensures Parse(s).Failure? ==> Parse(s) == Failure(NoMatch(s))
  {
    if TokenMatch(s).Some? {
      MatchedParts(s);
      LettersMask(TokenMatch(s).value.1);
    }
  }

  /** Duplicate colour letters are accepted: `(2DD)` is value 2, divine. */
  lemma ParseDuplicate()
    ensures Parse("(2DD)") == Success(ManaCost("2", Flag(Divine)))
  {
    ParseToken("2", "DD", "");
    assert "(" + "2" + "DD" + ")" + "" == "(2DD)";
  }

  /** `ManaCostInfo.__repr__`. */
  function Repr(m: ManaCost): Result<string> {
    var s :- AsOrderedString(m.color);
    Success("(" + m.value + s + ")")
  }

  /** Round trip: a cost with a value and a non-empty colour set re-encodes to
      a string that parses back to it. */
  lemma ReprRoundTrip(m: ManaCost)
    requires ValueText(m.value) && m.color != Empty
    ensures Repr(m).Success? && Parse(Repr(m).value) == Success(m)
  {
    OrderedStringRoundTrip(m.color);
    var s := AsOrderedString(m.color).value;
    ColorOfIsMask(s);
    assert LettersText(s) by {
      forall i | 0 <= i < |s| ensures LetterChar(s[i]) {
        ShortcutsByHue(Divine, s[i]);
      }
    }
    ParseToken(m.value, s, "");
    assert "(" + m.value + s + ")" + "" == Repr(m).value;
  }

  /** Whatever parses is re-encoded canonically and parses back the same. */
  lemma ParseReprParse(s: string)
    requires Parse(s).Success?
    ensures Repr(Parse(s).value).Success?
    ensures Parse(Repr(Parse(s).value).value) == Parse(s)
  {
    ParseSound(s);
    var m := Parse(s).value;
    var l, t :| LettersText(l) && s == "(" + m.value + l + ")" + t && m.color == MaskOf(l);
    assert l[0] in l && l[0] in ShortcutKeys;
    assert Has(m.color, Divine) || Has(m.color, Arcane) || Has(m.color, Occult)
        || Has(m.color, Primal) || Has(m.color, Alchemy);
    ReprRoundTrip(m);
  }
}
