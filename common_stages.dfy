/** The stages that `tcg/lib/services/pipeline.py` and `tcg/endtoend.py`
    define with the same code: `RegexReplacePipeline` (with a literal pattern
    and a literal replacement, or with the `l(...)l` list pattern and its
    function), `FormatPipeline` and `PipelineHelpers.prefix`; and `re.sub`
    itself, for the fixed patterns the stages use. */
module CommonStages {
  import opened Wrappers
  import opened Records
  import opened Pipelines
  import Strings
  import Template

  // ---------------------------------------------------------------------
  // re.sub for a pattern that never matches the empty string

  /** A match at the start of the text: its length and its groups. */
  datatype Found<G> = Found(length: nat, groups: G)

  /** `find` only reports non-empty matches that fit in the text. */
  ghost predicate Finder<G>(find: string -> Option<Found<G>>) {
    forall s: string :: find(s).Some? ==> 0 < find(s).value.length <= |s|
  }

  /** `pattern.sub(repl, s)`: at each position the pattern is tried; a match
      is replaced by `repl` of its groups and the scan resumes after it,
      otherwise the character is copied. The first `repl` that raises makes
      the whole call raise. */
  function Sub<G>(s: string, find: string -> Option<Found<G>>, repl: G -> Result<string>): Result<string>
    requires Finder(find)
    decreases |s|
  {
    if s == [] then Success([])
    else if find(s).Some? then
      var f := find(s).value;
      var r :- repl(f.groups);
      var rest :- Sub(s[f.length..], find, repl);
      Success(r + rest)
    else
      var rest :- Sub(s[1..], find, repl);
      Success([s[0]] + rest)
  }

  /** A text in which the pattern matches nowhere comes back unchanged. */
  lemma {:induction false} SubNoMatch<G>(s: string, find: string -> Option<Found<G>>, repl: G -> Result<string>)
    requires Finder(find)
    requires forall k | 0 <= k < |s| :: find(s[k..]).None?
    ensures Sub(s, find, repl) == Success(s)
    decreases |s|
  {
    if s != [] {
      assert s[0..] == s;
      forall k | 0 <= k < |s[1..]| ensures find(s[1..][k..]).None? {
        assert s[1..][k..] == s[k + 1..];
      }
      SubNoMatch(s[1..], find, repl);
      assert [s[0]] + s[1..] == s;
    }
  }

  /** Splitting the text after a stretch `a` in which nothing starts a match
      (and which no match can reach out of): the unmatched stretch is copied
      and the scan goes on with the rest. */
  lemma {:induction false} SubCopies<G>(a: string, b: string, find: string -> Option<Found<G>>,
                                        repl: G -> Result<string>)
    requires Finder(find)
    requires forall k | 0 <= k < |a| :: find(a[k..] + b).None?
    ensures Sub(a + b, find, repl)
         == (match Sub(b, find, repl) case Success(t) => Success(a + t) case Failure(e) => Failure(e))
    decreases |a|
  {
    if a != [] {
      assert (a + b)[1..] == a[1..] + b;
      assert a[0..] + b == a + b;
      forall k | 0 <= k < |a[1..]| ensures find(a[1..][k..] + b).None? {
        assert a[1..][k..] == a[k + 1..];
      }
      SubCopies(a[1..], b, find, repl);
      match Sub(b, find, repl)
      case Success(t) => assert [a[0]] + (a[1..] + t) == a + t;
      case Failure(_) =>
    } else {
      assert a + b == b;
      match Sub(b, find, repl)
      case Success(t) => assert a + t == t;
      case Failure(_) =>
    }
  }

  /** A match of length `|a|` at the start: its replacement, then the scan
      of the rest. */
  lemma SubFirstMatch<G>(a: string, b: string, g: G, find: string -> Option<Found<G>>,
                         repl: G -> Result<string>)
    requires Finder(find)
    requires a != [] && find(a + b) == Some(Found(|a|, g))
    ensures Sub(a + b, find, repl)
         == (match repl(g)
             case Failure(e) => Failure(e)
             case Success(r) =>
               match Sub(b, find, repl) case Success(t) => Success(r + t) case Failure(e) => Failure(e))
  {
    assert (a + b)[|a|..] == b;
  }

  /** A replacement that accepts whatever the pattern can match makes the
      substitution succeed on every text. */
  lemma {:induction false} SubTotal<G>(s: string, find: string -> Option<Found<G>>, repl: G -> Result<string>)
    requires Finder(find)
    requires forall t: string :: find(t).Some? ==> repl(find(t).value.groups).Success?
    ensures Sub(s, find, repl).Success?
    decreases |s|
  {
    if s != [] {
      if find(s).Some? {
        SubTotal(s[find(s).value.length..], find, repl);
      } else {
        SubTotal(s[1..], find, repl);
      }
    }
  }

  // ---------------------------------------------------------------------
  // Assigning one text field in place

  /** `data[field] = f(data[field])`: a missing field raises `KeyError`, a
      value that is not a string raises `TypeError`, and an exception in `f`
      leaves the dict as it was. */
  function UpdateText(m: Fields, field: string, f: string -> Result<string>): (t: Track)
    ensures t.Same()
  {
    if field !in m then Track(m, None, Some(MissingKey(field)))
    else if !m[field].Str? then Track(m, None, Some(WrongType(field)))
    else
      match f(m[field].s)
      case Success(v) => Track(m[field := Str(v)], None, None)
      case Failure(e) => Track(m, None, Some(e))
  }

  /** The update succeeds exactly when the field holds a string that `f`
      accepts, and then only that field changes, to `f`'s result; on failure
      the dict is unchanged. */
  lemma UpdateTextSpec(m: Fields, field: string, f: string -> Result<string>)
    ensures UpdateText(m, field, f).error.None?
        <==> field in m && m[field].Str? && f(m[field].s).Success?
    ensures var t := UpdateText(m, field, f);
      t.error.None? ==>
        t.input.Keys == m.Keys && t.input[field] == Str(f(m[field].s).value)
        && forall k | k in m && k != field :: t.input[k] == m[k]
    ensures UpdateText(m, field, f).error.Some? ==> UpdateText(m, field, f).input == m
  {
  }

  /** The method the stages use to assign a text field of the record. */
  method UpdateTextInPlace(r: Record, field: string, f: string -> Result<string>) returns (err: Option<Error>)
    modifies r
    ensures r.fields == UpdateText(old(r.fields), field, f).input
    ensures err == UpdateText(old(r.fields), field, f).error
  {
    if field !in r.fields {
      return Some(MissingKey(field));
    }
    var v := r.fields[field];
    if !v.Str? {
      return Some(WrongType(field));
    }
    var res := f(v.s);
    if res.Failure? {
      return Some(res.error);
    }
    r.fields := r.fields[field := Str(res.value)];
    return None;
  }

  // ---------------------------------------------------------------------
  // RegexReplacePipeline with a literal pattern

  /** `for field in self.fields: data[field] = self.pattern.sub(self.repl, data[field])`
      for `re.compile(re.escape(pattern))`; an exception on a later field
      leaves the earlier fields replaced. */
  function ReplaceFields(m: Fields, fields: seq<string>, pat: string, repl: string): (t: Track)
    ensures t.Same()
    decreases |fields|
  {
    if fields == [] then Idle(m)
    else
      var t := ReplaceFields(m, fields[..|fields| - 1], pat, repl);
      if t.error.Some? then t
      else UpdateText(t.input, fields[|fields| - 1], s => Success(Strings.ReplaceAll(s, pat, repl)))
  }

  /** `RegexReplacePipeline(pattern, repl, fields)` called on the record. */
  method ReplaceFieldsInPlace(r: Record, fields: seq<string>, pat: string, repl: string)
    returns (err: Option<Error>)
    modifies r
    ensures r.fields == ReplaceFields(old(r.fields), fields, pat, repl).input
    ensures err == ReplaceFields(old(r.fields), fields, pat, repl).error
  {
    for i := 0 to |fields|
      invariant ReplaceFields(old(r.fields), fields[..i], pat, repl) == Idle(r.fields)
    {
      assert fields[..i + 1][..i] == fields[..i];
      err := UpdateTextInPlace(r, fields[i], s => Success(Strings.ReplaceAll(s, pat, repl)));
      if err.Some? {
        ReplaceFieldsStops(old(r.fields), fields, i + 1, pat, repl);
        return;
      }
    }
    assert fields[..|fields|] == fields;
    return None;
  }

  /** Once a field raises, the later fields are not reached. */
  lemma {:induction false} ReplaceFieldsStops(m: Fields, fields: seq<string>, i: nat, pat: string, repl: string)
    requires i <= |fields| && ReplaceFields(m, fields[..i], pat, repl).error.Some?
    ensures ReplaceFields(m, fields, pat, repl) == ReplaceFields(m, fields[..i], pat, repl)
    decreases |fields| - i
  {
    if i < |fields| {
      assert fields[..i + 1][..i] == fields[..i];
      ReplaceFieldsStops(m, fields, i + 1, pat, repl);
    } else {
      assert fields[..i] == fields;
    }
  }

  /** The default field list, `["card__text"]`. */
  const TextField: seq<string> := ["card__text"]

  /** A replacement on distinct string fields succeeds, replaces every
      occurrence in each listed field and leaves every other field as it was. */
  lemma {:induction false} ReplaceFieldsSpec(m: Fields, fields: seq<string>, pat: string, repl: string)
    requires forall i, j | 0 <= i < j < |fields| :: fields[i] != fields[j]
    requires forall i | 0 <= i < |fields| :: fields[i] in m && m[fields[i]].Str?
    ensures var t := ReplaceFields(m, fields, pat, repl);
      t.error.None? && t.input.Keys == m.Keys
      && (forall k | k in m && k !in fields :: t.input[k] == m[k])
      && (forall k | k in fields :: t.input[k] == Str(Strings.ReplaceAll(m[k].s, pat, repl)))
    decreases |fields|
  {
    if fields != [] {
      var init, last := fields[..|fields| - 1], fields[|fields| - 1];
      ReplaceFieldsSpec(m, init, pat, repl);
      var t := ReplaceFields(m, init, pat, repl);
      assert last !in init;
      UpdateTextSpec(t.input, last, s => Success(Strings.ReplaceAll(s, pat, repl)));
      forall k | k in fields ensures k == last || k in init {
        var i :| 0 <= i < |fields| && fields[i] == k;
        if i < |fields| - 1 { assert init[i] == k; }
      }
    }
  }

  /** A missing or non-string field raises, with the earlier fields replaced. */
  lemma ReplaceFieldsFails(m: Fields, field: string, pat: string, repl: string)
    requires field !in m || !m[field].Str?
    ensures ReplaceFields(m, [field], pat, repl)
         == Track(m, None, Some(if field !in m then MissingKey(field) else WrongType(field)))
  {
    assert [field][..0] == [];
  }

  /** `RegexReplacePipeline("", "")` changes nothing on a record whose text
      is a string (and raises on one without it). */
  lemma ReplaceNothing(m: Fields)
    requires "card__text" in m && m["card__text"].Str?
    ensures ReplaceFields(m, TextField, "", "") == Idle(m)
  {
    Strings.ReplaceAllSelf(m["card__text"].s, "");
    assert TextField[..0] == [];
    assert m["card__text" := Str(m["card__text"].s)] == m;
  }

  // ---------------------------------------------------------------------
  // The `l(...)l` list rewrite

  /** `str.isspace`, which is also what `\s` and `str.strip()` use. */
  predicate IsSpace(ch: char) {
    ('\t' <= ch <= '\r') || ('\U{1c}' <= ch <= ' ') || ch == '\U{85}' || ch == '\U{a0}'
    || ch == '\U{1680}' || ('\U{2000}' <= ch <= '\U{200a}') || ch == '\U{2028}' || ch == '\U{2029}'
    || ch == '\U{202f}' || ch == '\U{205f}' || ch == '\U{3000}'
  }

  lemma LowerNotSpace(ch: char)
    requires 'a' <= ch <= 'z'
    ensures !IsSpace(ch)
  {
  }

  /** `s.strip()`. */
  function Strip(s: string): (r: string)
    ensures r == [] || (!IsSpace(r[0]) && !IsSpace(r[|r| - 1]))
    ensures |r| <= |s|
  {
    if s == [] then []
    else if IsSpace(s[0]) then Strip(s[1..])
    else if IsSpace(s[|s| - 1]) then Strip(s[..|s| - 1])
    else s
  }

  /** The length of the text up to the first newline (`.` does not match `\n`). */
  function LineLength(s: string): (n: nat)
    ensures n <= |s| && '\n' !in s[..n]
    ensures n < |s| ==> s[n] == '\n'
  {
    if s == [] || s[0] == '\n' then 0
    else
      var n := 1 + LineLength(s[1..]);
      assert s[..n] == [s[0]] + s[1..][..n - 1];
      n
  }

  /** The last position where `)l` starts in `t`, which is where the greedy
      `.*` backs off to. */
  function LastClose(t: string): (r: Option<nat>)
    ensures r.Some? ==> CloseAt(t, r.value)
    ensures forall j: nat | CloseAt(t, j) :: r.Some? && j <= r.value
  {
    if |t| < 2 then None
    else if CloseAt(t, |t| - 2) then Some(|t| - 2)
    else
      var r := LastClose(t[..|t| - 1]);
      assert forall j: nat | j + 2 <= |t| - 1 :: CloseAt(t[..|t| - 1], j) == CloseAt(t, j);
      r
  }

  /** `)l` starts at position `j` of `t`. */
  predicate CloseAt(t: string, j: nat) {
    j + 2 <= |t| && t[j] == ')' && t[j + 1] == 'l'
  }

  /** `re.compile("l\((?P<args>.*)\)l").match` at the start of `s`. */
  function ListFind(s: string): (r: Option<Found<string>>)
    ensures r.Some? ==> 0 < r.value.length <= |s|
  {
    if |s| >= 2 && s[0] == 'l' && s[1] == '(' then
      var line := s[2..2 + LineLength(s[2..])];
      match LastClose(line)
      case Some(j) => Some(Found(j + 4, line[..j]))
      case None => None
    else None
  }

  lemma ListFinder()
    ensures Finder(ListFind)
  {
  }

  function ListItem(piece: string): string {
    "<li>" + Strip(piece) + "</li>"
  }

  function ListItems(pieces: seq<string>): (r: seq<string>)
    ensures |r| == |pieces|
    ensures forall i | 0 <= i < |pieces| :: r[i] == ListItem(pieces[i])
  {
    if pieces == [] then [] else [ListItem(pieces[0])] + ListItems(pieces[1..])
  }

  /** The replacement function of the list rewrite. */
  function ListHtml(args: string): string {
    "<ul class='list'>" + Strings.Concat(ListItems(Strings.SplitOn(args, ","))) + "</ul>"
  }

  function ListRewrite(s: string): Result<string> {
    ListFinder();
    Sub(s, ListFind, args => Success(ListHtml(args)))
  }

  /** `l(items)l` alone on a line becomes the list of the comma-separated
      items, each stripped, in order; the greedy group runs to the last `)l`
      of the line. */
  lemma ListFindSpec(args: string, rest: string)
    requires '\n' !in args
    requires rest == [] || rest[0] == '\n'
    ensures ListFind("l(" + args + ")l" + rest) == Some(Found(|args| + 4, args))
  {
    var s := "l(" + args + ")l" + rest;
    assert s[2..] == args + ")l" + rest;
    var n := |args| + 2;
    LineLengthStops(args + ")l", rest);
    var line := s[2..2 + n];
    assert line == args + ")l";
    assert CloseAt(line, |args|);
    assert line[..|args|] == args;
  }

  lemma {:induction false} LineLengthStops(a: string, rest: string)
    requires '\n' !in a && (rest == [] || rest[0] == '\n')
    ensures LineLength(a + rest) == |a|
    decreases |a|
  {
    if a != [] {
      assert (a + rest)[1..] == a[1..] + rest;
      assert a[0] in a;
      LineLengthStops(a[1..], rest);
    } else {
      assert a + rest == rest;
    }
  }

  /** The list rewrite of the text field, in place. */
  method ListRewriteInPlace(r: Record) returns (err: Option<Error>)
    modifies r
    ensures r.fields == UpdateText(old(r.fields), "card__text", ListRewrite).input
    ensures err == UpdateText(old(r.fields), "card__text", ListRewrite).error
  {
    err := UpdateTextInPlace(r, "card__text", ListRewrite);
  }

  // ---------------------------------------------------------------------
  // FormatPipeline and the prefix stage

  /** `data["card__text"] = data["card__text"].format(**data)`: a text that is
      not a string has no `format` method. */
  function FormatWith(m: Fields): string -> Result<string> {
    s => Template.Format(s, Rendered(m))
  }

  function FormatStage(m: Fields): (t: Track)
    ensures t.Same()
  {
    UpdateText(m, "card__text", FormatWith(m))
  }

  /** A text without braces is left as it is; a single `{key}` field is
      replaced by the text of that entry, or raises `KeyError`. */
  lemma FormatStageSpec(m: Fields, a: string, k: string, b: string)
    requires "card__text" in m && m["card__text"] == Str(a + "{" + k + "}" + b)
    requires Template.BraceFree(a) && Template.BraceFree(b) && Template.FieldName(k)
    ensures var t := FormatStage(m);
      if k in m && Text(m[k]).Success?
      then t == Idle(m["card__text" := Str(a + Text(m[k]).value + b)])
      else t == Track(m, None, Some(MissingKey(k)))
  {
    Template.FormatOneField(a, k, b, Rendered(m));
  }

  method FormatInPlace(r: Record) returns (err: Option<Error>)
    modifies r
    ensures r.fields == FormatStage(old(r.fields)).input
    ensures err == FormatStage(old(r.fields)).error
  {
    err := UpdateTextInPlace(r, "card__text", FormatWith(r.fields));
  }

  /** `lambda card: PipelineHelpers.prefix(p, card)`: a new dict, the
      argument untouched. */
  function PrefixStage(p: string, m: Fields): (t: Track)
    ensures t.input == m && !t.Same() && t.error.None?
  {
    Track(m, Some(Prefix(p, m)), None)
  }

  lemma PrefixStageSpec(p: string, m: Fields)
    ensures forall k :: k in m <==> p + k in PrefixStage(p, m).Output()
    ensures forall k | k in m :: PrefixStage(p, m).Output()[p + k] == m[k]
    ensures |PrefixStage(p, m).Output()| == |m|
  {
    PrefixSpec(p, m);
  }

  method PrefixRecord(p: string, r: Record) returns (out: Record)
    ensures fresh(out)
    ensures out.fields == PrefixStage(p, r.fields).Output()
  {
    out := new Record(Prefix(p, r.fields));
  }
}
