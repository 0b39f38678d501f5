/** `PipelineData`, the dict a pipeline stage receives and returns. The
    values it holds are strings read from the card sheet, the booleans and
    numbers of the sheet's other columns, the lists and `None` that the
    enrichment stages add, and the `ManaCostInfo` object of a parsed cost. */
module Records {
  import opened Wrappers
  import opened ManaCosts
  import Strings

  datatype Value =
    | Str(s: string)
    | Bool(b: bool)
    | Int(i: int)
    | Nothing                      // Python's None
    | List(items: seq<Value>)
    | Info(cost: ManaCost)         // a ManaCostInfo object

  type Fields = map<string, Value>

  /** A list of strings as the list value the dict stores. */
  function NameValues(names: seq<string>): (r: seq<Value>)
    ensures |r| == |names| && forall i | 0 <= i < |names| :: r[i] == Str(names[i])
  {
    seq(|names|, i requires 0 <= i < |names| => Str(names[i]))
  }

  /** `str(n)` for any int. */
  function IntText(i: int): string {
    if i < 0 then "-" + Strings.NatToString(-i) else Strings.NatToString(i)
  }

  /** `str(v)`, which is also what `format` and f-strings insert for these
      values; a `ManaCostInfo` has no `__str__`, so its `__repr__` is used. */
  function Text(v: Value): Result<string> {
    match v
    case Str(s) => Success(s)
    case List(items) =>
      var parts :- ReprAll(items);
      Success("[" + Strings.Join(parts, ", ") + "]")
    case _ => Repr(v)
  }

  /** `repr(v)`, as a list prints its items. */
  function Repr(v: Value): Result<string> {
    match v
    case Str(s) => Success(StrRepr(s))
    case Bool(b) => Success(if b then "True" else "False")
    case Int(i) => Success(IntText(i))
    case Nothing => Success("None")
    case List(items) =>
      var parts :- ReprAll(items);
      Success("[" + Strings.Join(parts, ", ") + "]")
    case Info(m) => ManaCosts.Repr(m)
  }

  function ReprAll(items: seq<Value>): (r: Result<seq<string>>)
    ensures r.Success? ==> |r.value| == |items|
  {
    if items == [] then Success([])
    else
      var first :- Repr(items[0]);
      var rest :- ReprAll(items[1..]);
      Success([first] + rest)
  }

  // ---------------------------------------------------------------------
  // repr of a str

  /** The quote `repr` puts around a string: a double quote when the string
      holds a single quote and no double quote, a single quote otherwise. */
  function QuoteFor(s: string): char {
    if '\'' in s && '"' !in s then '"' else '\''
  }

  /** The characters up to U+00FF that `str.isprintable` rejects: the C0
      controls, DEL, the C1 controls, the no-break space and the soft
      hyphen. */
  predicate Unprintable(c: char) {
    c < ' ' || ('\U{7f}' <= c <= '\U{a0}') || c == '\U{ad}'
  }

  /** A lower-case hexadecimal digit. */
  function HexDigit(d: nat): char
    requires d < 16
  {
    "0123456789abcdef"[d]
  }

  /** How `repr` writes one character inside quotes `q`. */
  function EscapeChar(q: char, c: char): string {
    if c == q || c == '\\' then ['\\', c]
    else if c == '\t' then "\\t"
    else if c == '\n' then "\\n"
    else if c == '\r' then "\\r"
    else if Unprintable(c) then ['\\', 'x', HexDigit(c as int / 16), HexDigit(c as int % 16)]
    else [c]
  }

  /** The characters of `s`, each as `repr` writes it inside quotes `q`. */
  function Escape(q: char, s: string): string {
    if s == [] then [] else EscapeChar(q, s[0]) + Escape(q, s[1..])
  }

  /** `repr(s)` for a str. */
  function StrRepr(s: string): string {
    var q := QuoteFor(s);
    [q] + Escape(q, s) + [q]
  }

  /** The value of a lower-case hexadecimal digit. */
  function HexValue(c: char): (r: Option<nat>)
    ensures r.Some? ==> r.value < 16
  {
    if '0' <= c <= '9' then Some(c as int - '0' as int)
    else if 'a' <= c <= 'f' then Some(c as int - 'a' as int + 10)
    else None
  }

  /** The text a string literal's body stands for, reading the escapes that
      `repr` writes: an independent reading of `Escape`. */
  function Unescape(t: string): Option<string> {
    if t == [] then Some([])
    else if t[0] != '\\' then
      var rest :- Unescape(t[1..]);
      Some([t[0]] + rest)
    else if |t| < 2 then None
    else if t[1] == 'x' then
      if |t| < 4 then None
      else
        var hi :- HexValue(t[2]);
        var lo :- HexValue(t[3]);
        var rest :- Unescape(t[4..]);
        Some([(hi * 16 + lo) as char] + rest)
    else
      var c := if t[1] == 't' then '\t' else if t[1] == 'n' then '\n' else if t[1] == 'r' then '\r' else t[1];
      var rest :- Unescape(t[2..]);
      Some([c] + rest)
  }

  lemma HexDigitValue(d: nat)
    requires d < 16
    ensures HexValue(HexDigit(d)) == Some(d)
  {
  }

  /** Reading one written character back gives the character, and the
      reading goes on after it. */
  lemma UnescapeChar(q: char, c: char, rest: string)
    requires q == '\'' || q == '"'
    ensures Unescape(EscapeChar(q, c) + rest)
         == match Unescape(rest) case None => None case Some(x) => Some([c] + x)
  {
    var t := EscapeChar(q, c) + rest;
    if c == q || c == '\\' {
      assert t[2..] == rest;
    } else if c == '\t' || c == '\n' || c == '\r' {
      assert t[2..] == rest;
    } else if Unprintable(c) {
      var hi, lo := c as int / 16, c as int % 16;
      HexDigitValue(hi);
      HexDigitValue(lo);
      assert t[2] == HexDigit(hi) && t[3] == HexDigit(lo) && t[4..] == rest;
      assert (hi * 16 + lo) as char == c;
    } else {
      assert t[1..] == rest;
    }
  }

  /** `Unescape` reads back what `Escape` writes. */
  lemma {:induction false} EscapeRoundTrip(q: char, s: string)
    requires q == '\'' || q == '"'
    ensures Unescape(Escape(q, s)) == Some(s)
  {
    if s != [] {
      EscapeRoundTrip(q, s[1..]);
      UnescapeChar(q, s[0], Escape(q, s[1..]));
      assert [s[0]] + s[1..] == s;
    }
  }

  /** `repr` of a string is a literal for it: a quote, the escaped
      characters, which read back to the string, and the same quote; the
      quote is double exactly when the string holds `'` and no `"`. */
  lemma StrReprRoundTrip(s: string)
    ensures var r := StrRepr(s);
      && 2 <= |r| && r[0] == r[|r| - 1] == QuoteFor(s)
      && (QuoteFor(s) == '"' <==> '\'' in s && '"' !in s)
      && Unescape(r[1..|r| - 1]) == Some(s)
  {
    var q := QuoteFor(s);
    EscapeRoundTrip(q, s);
    assert StrRepr(s)[1..|StrRepr(s)| - 1] == Escape(q, s);
  }

  /** A character `repr` writes as itself. */
  predicate PlainChar(c: char) {
    ' ' <= c < '\U{7f}' && c != '\\' && c != '\''
  }

  /** A string of printable ASCII characters without `'` and backslash is
      written as itself between single quotes. */
  lemma {:induction false} EscapePlain(s: string)
    requires forall i | 0 <= i < |s| :: PlainChar(s[i])
    ensures Escape('\'', s) == s
  {
    if s != [] {
      EscapePlain(s[1..]);
    }
  }

  lemma StrReprPlain(s: string)
    requires forall i | 0 <= i < |s| :: PlainChar(s[i])
    ensures StrRepr(s) == "'" + s + "'"
  {
    EscapePlain(s);
  }

  /** `repr("it's")` switches to double quotes. */
  lemma StrReprQuoteSwitch()
    ensures StrRepr("it's") == "\"it's\""
  {
    assert '\'' in "it's" && '"' !in "it's";
    assert Escape('"', "it's") == "it's";
  }

  /** `repr("a\\b")` doubles the backslash and `repr("a\nb")` writes the
      newline as an escape. */
  lemma StrReprEscapes()
    ensures StrRepr("a\\b") == "'a\\\\b'"
    ensures StrRepr("a\nb") == "'a\\nb'"
  {
    assert Escape('\'', "a\\b") == "a\\\\b";
    assert Escape('\'', "a\nb") == "a\\nb";
  }

  /** Python truthiness: empty strings and lists, `False`, `0` and `None` are
      false; any object without `__bool__` or `__len__` is true. */
  predicate Truthy(v: Value) {
    match v
    case Str(s) => s != []
    case Bool(b) => b
    case Int(i) => i != 0
    case Nothing => false
    case List(items) => items != []
    case Info(_) => true
  }

  /** The context that `format(**data)` and `format_map(data)` read: the text
      of each value. A value without a text cannot be inserted. */
  function Rendered(f: Fields): (r: map<string, string>)
    ensures forall k :: k in r <==> k in f && Text(f[k]).Success?
    ensures forall k | k in r :: Success(r[k]) == Text(f[k])
  {
    map k | k in f && Text(f[k]).Success? :: Text(f[k]).value
  }

  /** Every string value renders as itself. */
  lemma RenderedStrings(f: Fields, k: string)
    requires k in f && f[k].Str?
    ensures k in Rendered(f) && Rendered(f)[k] == f[k].s
  {
  }

  /** `{f"{prefix}{k}": v for k, v in data.items()}`. */
  function Prefix<V>(p: string, m: map<string, V>): map<string, V> {
    PrefixCancels(p);
    map k | k in m :: p + k := m[k]
  }

  /** Distinct keys stay distinct under the same prefix. */
  lemma PrefixCancels(p: string)
    ensures forall a: string, b: string {:trigger p + a, p + b} :: p + a == p + b ==> a == b
  {
    forall a: string, b: string | p + a == p + b ensures a == b {
      assert (p + a)[|p|..] == a && (p + b)[|p|..] == b;
    }
  }

  /** A key without the prefix is not in the prefixed dict. */
  lemma PrefixAvoids<V>(p: string, m: map<string, V>, k: string)
    requires !(p <= k)
    ensures k !in Prefix(p, m)
  {
  }

  /** An entry of `m` is found under its prefixed key. */
  lemma PrefixAt<V>(p: string, m: map<string, V>, k: string)
    requires k in m
    ensures p + k in Prefix(p, m) && Prefix(p, m)[p + k] == m[k]
  {
    PrefixCancels(p);
  }

  /** Prefixing commutes with adding an entry. */
  lemma PrefixUpdate<V>(p: string, m: map<string, V>, k: string, v: V)
    ensures Prefix(p, m[k := v]) == Prefix(p, m)[p + k := v]
  {
    PrefixCancels(p);
    var a, b := Prefix(p, m[k := v]), Prefix(p, m)[p + k := v];
    forall j | j in a ensures j in b && a[j] == b[j] {
      var i :| i in m[k := v] && j == p + i;
    }
    forall j | j in b ensures j in a {
      if j != p + k {
        var i :| i in m && j == p + i;
      }
    }
  }

  /** The prefix goes on every key and on nothing else, each value stays with
      its key, and no two keys collide, so the number of entries is kept. */
  lemma PrefixSpec<V>(p: string, m: map<string, V>)
    ensures forall k :: k in m <==> p + k in Prefix(p, m)
    ensures forall k | k in Prefix(p, m) :: p <= k && k[|p|..] in m
    ensures forall k | k in m :: Prefix(p, m)[p + k] == m[k]
    ensures |Prefix(p, m)| == |m|
  {
    var r := Prefix(p, m);
    forall k | k in r ensures p <= k && k[|p|..] in m {
      var j :| j in m && k == p + j;
      assert k[|p|..] == j;
    }
    forall k | k in m ensures r[p + k] == m[k] {
      assert (p + k)[|p|..] == k;
    }
    var add := (k: string) => p + k;
    assert r.Keys == set k | k in m.Keys :: add(k);
    SetOfInjective(m.Keys, add, p);
  }

  /** Putting the same prefix in front of distinct keys keeps them distinct. */
  lemma {:induction false} SetOfInjective(ks: set<string>, add: string -> string, p: string)
    requires forall k :: add(k) == p + k
    ensures |set k | k in ks :: add(k)| == |ks|
    decreases |ks|
  {
    if ks != {} {
      var k0 :| k0 in ks;
      var rest := ks - {k0};
      SetOfInjective(rest, add, p);
      var img := set k | k in ks :: add(k);
      var imgRest := set k | k in rest :: add(k);
      assert img == imgRest + {add(k0)};
      PrefixCancels(p);
      assert add(k0) !in imgRest;
    }
  }

  /** A pipeline dict. Most stages assign its entries in place; the prefix
      stage and the mana-cost enrichment build a new one. */
  class Record {
    var fields: Fields

    constructor (f: Fields)
      ensures fields == f
    {
      fields := f;
    }
  }
}
