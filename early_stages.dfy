/** The stages of `tcg/endtoend.py`, the earlier generation of the pipeline,
    that it does not share with the current one: its mana-token pattern and
    `mana_information`, the mana-cost enrichment and replacement built on
    them, and the keyword replacement with the `k[r].name(args)` syntax. */
module EarlyStages {
  import opened Wrappers
  import opened Records
  import opened Keywords
  import opened KeywordMacros
  import opened Pipelines
  import opened CommonStages
  import Strings

  // ---------------------------------------------------------------------
  // MANA_PATTERN and mana_information

  /** `MANA_NAMES`: the colour letters and their names. */
  const ManaNames: map<char, string> :=
    map['D' := "divine", 'A' := "arcane", 'O' := "occult", 'P' := "primal", 'L' := "alchemy"]

  /** A key of `MANA_NAMES` (see `ManaLetterIsName`). */
  predicate ManaLetter(ch: char) {
    ch == 'D' || ch == 'A' || ch == 'O' || ch == 'P' || ch == 'L'
  }

  lemma ManaLetterIsName(ch: char)
    ensures ManaLetter(ch) <==> ch in ManaNames
  {
  }

  /** `[\d]`, taken as the ASCII digits. */
  predicate Digit(ch: char) {
    '0' <= ch <= '9'
  }

  /** The groups of a `MANA_PATTERN` match; `second` is the empty string when
      the optional letter is absent. */
  datatype ManaMatch = ManaMatch(value: string, first: char, second: string)

  /** What the pattern accepts: one or two digits, a colour letter and at
      most one more colour letter (possibly the same one). */
  predicate Token(g: ManaMatch) {
    1 <= |g.value| <= 2 && (forall i | 0 <= i < |g.value| :: Digit(g.value[i]))
    && g.first in ManaNames
    && |g.second| <= 1 && (forall i | 0 <= i < |g.second| :: g.second[i] in ManaNames)
  }

  /** The spelling of a token. */
  function TokenText(g: ManaMatch): string {
    "(" + g.value + [g.first] + g.second + ")"
  }

  /** `MANA_PATTERN.match(s)`. `\d{1,2}` takes a second digit whenever there
      is one (a shorter run would leave a digit where a letter must be), and
      the optional letter is taken when `)` follows it; backtracking finds
      no other match. */
  function ManaScan(s: string): (r: Option<Found<ManaMatch>>)
    ensures r.Some? ==> 0 < r.value.length <= |s|
  {
    if |s| < 4 || s[0] != '(' || !Digit(s[1]) then None
    else
      var n := if Digit(s[2]) then 2 else 1;
      if !ManaLetter(s[1 + n]) then None
      else if 3 + n < |s| && ManaLetter(s[2 + n]) && s[3 + n] == ')' then
        Some(Found(4 + n, ManaMatch(s[1..1 + n], s[1 + n], [s[2 + n]])))
      else if 2 + n < |s| && s[2 + n] == ')' then
        Some(Found(3 + n, ManaMatch(s[1..1 + n], s[1 + n], [])))
      else None
  }

  lemma ManaFinder()
    ensures Finder(ManaScan)
  {
  }

  /** A colour letter is no digit and no `)`. */
  lemma LetterKind(ch: char)
    requires ch in ManaNames
    ensures !Digit(ch) && ch != ')'
  {
  }

  /** Every token at the start of a text is matched in full, with its groups
      as written. */
  lemma ManaScanToken(g: ManaMatch, rest: string)
    requires Token(g)
    ensures ManaScan(TokenText(g) + rest) == Some(Found(|TokenText(g)|, g))
  {
    var s := TokenText(g) + rest;
    var n := |g.value|;
    LetterKind(g.first);
    ManaLetterIsName(g.first);
    assert s == "(" + g.value + ([g.first] + g.second + ")" + rest);
    assert s[1..1 + n] == g.value;
    assert s[1] == g.value[0];
    assert s[1 + n] == g.first;
    if n == 1 {
      assert s[2] == g.first;
    } else {
      assert s[2] == g.value[1];
    }
    if g.second == [] {
      assert s[2 + n] == ')';
    } else {
      LetterKind(g.second[0]);
      ManaLetterIsName(g.second[0]);
      assert s[2 + n] == g.second[0] && s[3 + n] == ')';
      assert [s[2 + n]] == g.second;
    }
  }

  /** Conversely, whatever the pattern matches is a token, spelled by the
      matched text. */
  lemma ManaScanSound(s: string)
    ensures var r := ManaScan(s);
      r.Some? ==> Token(r.value.groups) && r.value.length == |TokenText(r.value.groups)|
                  && s[..r.value.length] == TokenText(r.value.groups)
  {
    if ManaScan(s).Some? {
      var f := ManaScan(s).value;
      var g := f.groups;
      var n := if Digit(s[2]) then 2 else 1;
      ManaLetterIsName(g.first);
      if g.second != [] {
        ManaLetterIsName(g.second[0]);
      }
      assert g.value == s[1..1 + n];
      assert s[..f.length] == [s[0]] + s[1..1 + n] + [s[1 + n]] + g.second + [s[f.length - 1]];
    }
  }

  /** `MANA_NAMES.get(key)` for a group's text. */
  function NameOf(key: string): Option<string> {
    if |key| == 1 && key[0] in ManaNames then Some(ManaNames[key[0]]) else None
  }

  /** The dict `mana_information` returns; `second` is `None` when the
      second letter is absent. */
  datatype ManaInformation =
    ManaInformation(value: string, first: string, second: Option<string>, namelist: seq<string>, names: string)

  /** `mana_information(match)`. A first name missing from `MANA_NAMES`
      would put `None` into the name list, which `" ".join` rejects
      with `TypeError`. */
  function Information(g: ManaMatch): Result<ManaInformation> {
    var second := NameOf(g.second);
    match NameOf([g.first])
    case None => Failure(WrongType("namelist"))
    case Some(first) =>
      var namelist := [first] + (if second.Some? then [second.value] else []);
      Success(ManaInformation(g.value, first, second, namelist, Strings.Join(namelist, " ")))
  }

  /** The names of a token's letters, in the order they are written. */
  function LetterNames(g: ManaMatch): (r: seq<string>)
    requires Token(g)
  {
    var letters := [g.first] + g.second;
    seq(|letters|, i requires 0 <= i < |letters| => ManaNames[letters[i]])
  }

  /** For a token, the information succeeds: the value as written, the names
      of the letters in input order (one or two of them), and those names
      joined by spaces. */
  lemma InformationSpec(g: ManaMatch)
    requires Token(g)
    ensures Information(g).Success?
    ensures var info := Information(g).value;
      info.value == g.value && info.first == ManaNames[g.first]
      && info.second == (if g.second == [] then None else Some(ManaNames[g.second[0]]))
      && info.namelist == LetterNames(g) && |info.namelist| == 1 + |g.second|
      && info.names == Strings.Join(LetterNames(g), " ")
  {
    var letters := [g.first] + g.second;
    assert [g.first][0] == g.first;
    if g.second == [] {
      assert letters == [g.first];
    } else {
      assert letters == [g.first, g.second[0]];
    }
  }

  /** No canonical order: `(2AD)` and `(2DA)` give their names in the order
      written. */
  lemma InputOrder()
    ensures Information(ManaMatch("2", 'A', "D")).value.names == "arcane divine"
    ensures Information(ManaMatch("2", 'D', "A")).value.names == "divine arcane"
  {
    assert NameOf("D") == Some("divine") && NameOf("A") == Some("arcane");
    JoinTwo("arcane", "divine");
    JoinTwo("divine", "arcane");
  }

  lemma JoinTwo(a: string, b: string)
    ensures Strings.Join([a, b], " ") == a + " " + b
  {
    assert [a, b][1..] == [b];
  }

  // ---------------------------------------------------------------------
  // ManaCostEnrichmentPipeline

  /** The information as dict entries, before the `cost__` prefix. */
  function InformationFields(info: ManaInformation): Fields {
    map["value" := Str(info.value), "first" := Str(info.first),
        "second" := (match info.second case Some(n) => Str(n) case None => Nothing),
        "namelist" := List(NameValues(info.namelist)), "names" := Str(info.names)]
  }

  /** The keys the enrichment adds or overwrites. */
  const EarlyKeys: set<string> := {"cost__value", "cost__first", "cost__second", "cost__namelist", "cost__names"}

  /** The enrichment writes neither the card text nor the card cost. */
  lemma EarlyKeysAvoid()
    ensures "card__text" !in EarlyKeys && "card__cost" !in EarlyKeys
  {
    assert "card__text"[1] == 'a' && "card__cost"[1] == 'a';
    assert "cost__value"[1] == 'o' && "cost__first"[1] == 'o' && "cost__second"[1] == 'o';
    assert "cost__namelist"[1] == 'o' && "cost__names"[1] == 'o';
  }

  /** `ManaCostEnrichmentPipeline.__call__`: a new dict, the argument merged
      with the prefixed information. A missing cost raises `KeyError`, a
      cost that is not a string `TypeError`, and a cost that does not start
      with a token leaves `match` as `None`, whose `groupdict` raises. */
  function ManaEnrich(m: Fields): Track {
    if "card__cost" !in m then Track(m, None, Some(MissingKey("card__cost")))
    else if !m["card__cost"].Str? then Track(m, None, Some(WrongType("card__cost")))
    else
      match ManaScan(m["card__cost"].s)
      case None => Track(m, None, Some(NoMatch(m["card__cost"].s)))
      case Some(f) =>
        match Information(f.groups)
        case Failure(e) => Track(m, None, Some(e))
        case Success(info) => Track(m, Some(m + Prefix("cost__", InformationFields(info))), None)
  }

  /** The enrichment fails exactly when the cost is missing, not a string or
      does not start with a token, and then the dict is returned as it was;
      the argument is never changed. */
  lemma ManaEnrichSpec(m: Fields)
    ensures ManaEnrich(m).input == m
    ensures ManaEnrich(m).error.None?
        <==> "card__cost" in m && m["card__cost"].Str? && ManaScan(m["card__cost"].s).Some?
    ensures ManaEnrich(m).error.Some? ==> ManaEnrich(m).Same()
  {
    if "card__cost" in m && m["card__cost"].Str? && ManaScan(m["card__cost"].s).Some? {
      ManaScanSound(m["card__cost"].s);
      InformationSpec(ManaScan(m["card__cost"].s).value.groups);
    }
  }

  /** The prefixed information: the five entries under their `cost__` keys. */
  lemma InformationPrefixed(info: ManaInformation)
    ensures var second := match info.second case Some(n) => Str(n) case None => Nothing;
      Prefix("cost__", InformationFields(info))
      == map["cost__value" := Str(info.value), "cost__first" := Str(info.first), "cost__second" := second,
             "cost__namelist" := List(NameValues(info.namelist)), "cost__names" := Str(info.names)]
  {
    var second := match info.second case Some(n) => Str(n) case None => Nothing;
    var p := "cost__";
    var e: Fields := map[];
    var m1 := e["value" := Str(info.value)];
    var m2 := m1["first" := Str(info.first)];
    var m3 := m2["second" := second];
    var m4 := m3["namelist" := List(NameValues(info.namelist))];
    var m5 := m4["names" := Str(info.names)];
    assert InformationFields(info) == m5;
    assert Prefix(p, e) == map[];
    PrefixUpdate(p, e, "value", Str(info.value));
    PrefixUpdate(p, m1, "first", Str(info.first));
    PrefixUpdate(p, m2, "second", second);
    PrefixUpdate(p, m3, "namelist", List(NameValues(info.namelist)));
    PrefixUpdate(p, m4, "names", Str(info.names));
    PrefixedKeys();
  }

  lemma PrefixedKeys()
    ensures "cost__" + "value" == "cost__value" && "cost__" + "first" == "cost__first"
    ensures "cost__" + "second" == "cost__second" && "cost__" + "namelist" == "cost__namelist"
    ensures "cost__" + "names" == "cost__names"
  {
  }

  /** A cost starting with a token: a new dict with every old entry but the
      five `cost__` ones, which hold the value, the two names (`None` for a
      missing second), the name list in input order and the names joined by
      spaces. */
  lemma ManaEnrichSuccess(m: Fields, g: ManaMatch, rest: string)
    requires Token(g) && "card__cost" in m && m["card__cost"] == Str(TokenText(g) + rest)
    ensures var t := ManaEnrich(m);
      t.error.None? && !t.Same() && t.input == m
      && t.Output().Keys == m.Keys + EarlyKeys
      && (forall k | k in m && k !in EarlyKeys :: t.Output()[k] == m[k])
      && t.Output()["cost__value"] == Str(g.value)
      && t.Output()["cost__first"] == Str(ManaNames[g.first])
      && t.Output()["cost__second"] == (if g.second == [] then Nothing else Str(ManaNames[g.second[0]]))
      && t.Output()["cost__namelist"] == List(NameValues(LetterNames(g)))
      && t.Output()["cost__names"] == Str(Strings.Join(LetterNames(g), " "))
  {
    ManaScanToken(g, rest);
    InformationSpec(g);
    var info := Information(g).value;
    InformationPrefixed(info);
    var second := match info.second case Some(n) => Str(n) case None => Nothing;
    MergeFive(m, Str(info.value), Str(info.first), second, List(NameValues(info.namelist)), Str(info.names));
  }

  /** The five entries merged into a dict. */
  lemma MergeFive(m: Fields, a: Value, b: Value, c: Value, d: Value, e: Value)
    ensures var o := m + map["cost__value" := a, "cost__first" := b, "cost__second" := c,
                             "cost__namelist" := d, "cost__names" := e];
      o.Keys == m.Keys + EarlyKeys && (forall k | k in m && k !in EarlyKeys :: o[k] == m[k])
      && o["cost__value"] == a && o["cost__first"] == b && o["cost__second"] == c
      && o["cost__namelist"] == d && o["cost__names"] == e
  {
  }

  /** Whatever happens, the dict returned has no keys but the old ones and
      the five entries, and every other entry is copied. */
  lemma ManaEnrichFrame(m: Fields)
    ensures var o := ManaEnrich(m).Output();
      o.Keys <= m.Keys + EarlyKeys && forall k | k in m && k !in EarlyKeys :: k in o && o[k] == m[k]
  {
    ManaEnrichSpec(m);
    if ManaEnrich(m).error.None? {
      var g := ManaScan(m["card__cost"].s).value.groups;
      ManaScanSound(m["card__cost"].s);
      InformationSpec(g);
      InformationPrefixed(Information(g).value);
    }
  }

  // ---------------------------------------------------------------------
  // ManaCostReplacePipeline

  /** The span `_repl` writes for a token. */
  function ManaSpan(names: string, value: string): string {
    "<span class='mana " + names + "'>" + value + "</span>"
  }

  /** `_repl`: the span of the token's information. */
  function ManaToken(g: ManaMatch): Result<string> {
    match Information(g)
    case Failure(e) => Failure(e)
    case Success(info) => Success(ManaSpan(info.names, info.value))
  }

  /** Every match is a token, whose information exists. */
  lemma TokensAccepted()
    ensures forall t: string :: ManaScan(t).Some? ==> ManaToken(ManaScan(t).value.groups).Success?
  {
    forall t: string | ManaScan(t).Some? ensures ManaToken(ManaScan(t).value.groups).Success? {
      ManaScanSound(t);
      InformationSpec(ManaScan(t).value.groups);
    }
  }

  /** `MANA_PATTERN.sub(_repl, s)`, which never raises. */
  function ManaText(s: string): (r: Result<string>)
    ensures r.Success?
  {
    ManaFinder();
    TokensAccepted();
    SubTotal(s, ManaScan, ManaToken);
    Sub(s, ManaScan, ManaToken)
  }

  /** A token at the start becomes the span of its names, in input order,
      around its value, and the scan goes on after it. */
  lemma ManaTextToken(g: ManaMatch, rest: string)
    requires Token(g)
    ensures ManaText(rest).Success?
    ensures ManaText(TokenText(g) + rest)
         == Success(ManaSpan(Strings.Join(LetterNames(g), " "), g.value) + ManaText(rest).value)
  {
    ManaFinder();
    ManaScanToken(g, rest);
    InformationSpec(g);
    SubFirstMatch(TokenText(g), rest, g, ManaScan, ManaToken);
  }

  /** A text without `(` has no token and comes back unchanged. */
  lemma ManaTextPlain(s: string)
    requires '(' !in s
    ensures ManaText(s) == Success(s)
  {
    ManaFinder();
    forall k | 0 <= k < |s| ensures ManaScan(s[k..]).None? {
      assert s[k..][0] == s[k];
    }
    SubNoMatch(s, ManaScan, ManaToken);
  }

  /** `ManaCostReplacePipeline.__call__`: the text, then the cost, each
      assigned in place; a cost that is missing or not a string raises after
      the text was assigned. */
  function ManaReplace(m: Fields): (t: Track)
    ensures t.Same()
  {
    var t := UpdateText(m, "card__text", ManaText);
    if t.error.Some? then t else UpdateText(t.input, "card__cost", ManaText)
  }

  /** Both fields have every token rewritten and nothing else changes; a
      missing or non-string text leaves the dict alone, a missing or
      non-string cost leaves the rewritten text behind. */
  lemma ManaReplaceSpec(m: Fields)
    ensures var t := ManaReplace(m);
      if "card__text" !in m || !m["card__text"].Str? then t.error.Some? && t.input == m
      else
        var m1 := m["card__text" := Str(ManaText(m["card__text"].s).value)];
        if "card__cost" !in m || !m["card__cost"].Str? then t.error.Some? && t.input == m1
        else
          t.error.None? && t.input.Keys == m.Keys
          && t.input["card__text"] == Str(ManaText(m["card__text"].s).value)
          && t.input["card__cost"] == Str(ManaText(m["card__cost"].s).value)
          && forall k | k in m && k != "card__text" && k != "card__cost" :: t.input[k] == m[k]
  {
  }

  // ---------------------------------------------------------------------
  // KeywordReplacePipeline

  predicate Lower(ch: char) {
    'a' <= ch <= 'z'
  }

  /** The length of the longest prefix of lower-case letters. */
  function LowerRun(s: string): (n: nat)
    ensures n <= |s|
  {
    if s == [] || !Lower(s[0]) then 0 else 1 + LowerRun(s[1..])
  }

  /** The run is all lower-case letters and stops at the first other
      character. */
  lemma {:induction false} LowerRunSpec(s: string)
    ensures forall i | 0 <= i < LowerRun(s) :: Lower(s[i])
    ensures LowerRun(s) < |s| ==> !Lower(s[LowerRun(s)])
    decreases |s|
  {
    if s != [] && Lower(s[0]) {
      LowerRunSpec(s[1..]);
    }
  }

  /** The length of the longest prefix without `)`. */
  function OpenRun(s: string): (n: nat)
    ensures n <= |s|
  {
    if s == [] || s[0] == ')' then 0 else 1 + OpenRun(s[1..])
  }

  /** The run holds no `)` and stops at the first one. */
  lemma {:induction false} OpenRunSpec(s: string)
    ensures forall i | 0 <= i < OpenRun(s) :: s[i] != ')'
    ensures OpenRun(s) < |s| ==> s[OpenRun(s)] == ')'
    decreases |s|
  {
    if s != [] && s[0] != ')' {
      OpenRunSpec(s[1..]);
    }
  }

  /** What follows the `.` of a call: the extent up to and including the
      closing `)`, the name and the arguments. */
  datatype CallBody = CallBody(end: nat, name: string, args: string)

  /** `(?P<name>[a-z]+)\((?P<args>[^\)]*)\)` at the start of `t`: the name is
      the run of lower-case letters, and the arguments run to the first
      `)`. */
  function Body(t: string): (r: Option<CallBody>)
    ensures r.Some? ==> 0 < r.value.end <= |t|
  {
    var n := LowerRun(t);
    if n == 0 || n == |t| || t[n] != '(' then None
    else
      var a := OpenRun(t[n + 1..]);
      if n + 1 + a == |t| then None
      else Some(CallBody(n + a + 2, t[..n], t[n + 1..n + 1 + a]))
  }

  /** `k(?P<reminder>r?)\.` and then the body, at the start of `s`. The `r`
      is the reminder flag only when a `.` follows it. */
  function KeywordFind(s: string): (r: Option<Found<KeywordCall>>)
    ensures r.Some? ==> 0 < r.value.length <= |s|
  {
    if |s| < 2 || s[0] != 'k' then None
    else
      var reminder := s[1] == 'r';
      var start := if reminder then 3 else 2;
      if start > |s| || s[start - 1] != '.' then None
      else
        match Body(s[start..])
        case None => None
        case Some(b) => Some(Found(start + b.end, KeywordCall(reminder, b.name, b.args)))
  }

  lemma KeywordFinder()
    ensures Finder(KeywordFind)
  {
  }

  /** The opening of a call, up to and including the `.`. */
  function CallHead(reminder: bool): string {
    if reminder then "kr." else "k."
  }

  /** The spelling of a keyword call. */
  function CallText(c: KeywordCall): string {
    CallHead(c.reminder) + BodyText(c.name, c.args)
  }

  function BodyText(name: string, args: string): string {
    name + "(" + args + ")"
  }

  /** What the pattern can match: a non-empty lower-case name and arguments
      without `)`. */
  predicate CallShape(c: KeywordCall) {
    BodyShape(c.name, c.args)
  }

  predicate BodyShape(name: string, args: string) {
    name != [] && (forall i | 0 <= i < |name| :: Lower(name[i]))
    && forall i | 0 <= i < |args| :: args[i] != ')'
  }

  lemma {:induction false} LowerRunStops(name: string, rest: string)
    requires forall i | 0 <= i < |name| :: Lower(name[i])
    requires rest != [] && !Lower(rest[0])
    ensures LowerRun(name + rest) == |name|
    decreases |name|
  {
    if name != [] {
      assert (name + rest)[1..] == name[1..] + rest;
      LowerRunStops(name[1..], rest);
    } else {
      assert name + rest == rest;
    }
  }

  lemma {:induction false} OpenRunStops(args: string, rest: string)
    requires forall i | 0 <= i < |args| :: args[i] != ')'
    requires rest != [] && rest[0] == ')'
    ensures OpenRun(args + rest) == |args|
    decreases |args|
  {
    if args != [] {
      assert (args + rest)[1..] == args[1..] + rest;
      OpenRunStops(args[1..], rest);
    } else {
      assert args + rest == rest;
    }
  }

  lemma BodySpec(name: string, args: string, rest: string)
    requires BodyShape(name, args)
    ensures Body(BodyText(name, args) + rest) == Some(CallBody(|name| + |args| + 2, name, args))
  {
    var t := BodyText(name, args) + rest;
    var u := args + (")" + rest);
    BodyAt(name, args, rest);
    LowerRunStops(name, "(" + u);
    OpenRunStops(args, ")" + rest);
  }

  /** The pieces of the spelling of a body. */
  lemma BodyAt(name: string, args: string, rest: string)
    ensures var t, u := BodyText(name, args) + rest, args + (")" + rest);
      t == name + ("(" + u) && t[|name|] == '(' && t[..|name|] == name && t[|name| + 1..] == u
      && t[|name| + 1..|name| + 1 + |args|] == args
  {
    var t, u := BodyText(name, args) + rest, args + (")" + rest);
    assert t == name + ("(" + u);
    assert t[|name| + 1..] == u;
    assert t[|name| + 1..|name| + 1 + |args|] == u[..|args|];
  }

  lemma BodySound(t: string)
    ensures var r := Body(t);
      r.Some? ==> BodyShape(r.value.name, r.value.args) && r.value.end == |BodyText(r.value.name, r.value.args)|
                  && t[..r.value.end] == BodyText(r.value.name, r.value.args)
  {
    if Body(t).Some? {
      var b := Body(t).value;
      var n := |b.name|;
      LowerRunSpec(t);
      OpenRunSpec(t[n + 1..]);
      assert forall i | 0 <= i < |b.args| :: b.args[i] == t[n + 1..][i];
      SliceFour(t, n, |b.args|);
    }
  }

  /** A prefix cut into one piece, a character, a piece and a character. */
  lemma SliceFour(t: string, n: nat, a: nat)
    requires n + a + 2 <= |t|
    ensures t[..n + a + 2] == t[..n] + [t[n]] + t[n + 1..n + 1 + a] + [t[n + 1 + a]]
  {
  }

  /** A match after the head is a match of the body. */
  lemma HeadFound(reminder: bool, t: string)
    requires KeywordFind(CallHead(reminder) + t).Some?
    ensures Body(t).Some?
    ensures KeywordFind(CallHead(reminder) + t)
         == Some(Found(|CallHead(reminder)| + Body(t).value.end, KeywordCall(reminder, Body(t).value.name, Body(t).value.args)))
  {
    var s := CallHead(reminder) + t;
    assert s[|CallHead(reminder)|..] == t;
  }

  /** A well-formed call is matched in full, with its flag, name and
      arguments as written. */
  lemma KeywordFindSpec(c: KeywordCall, rest: string)
    requires CallShape(c)
    ensures KeywordFind(CallText(c) + rest) == Some(Found(|CallText(c)|, c))
  {
    BodySpec(c.name, c.args, rest);
    CallFound(c, rest);
  }

  /** The call is found as soon as its body is. */
  lemma CallFound(c: KeywordCall, rest: string)
    requires Body(BodyText(c.name, c.args) + rest) == Some(CallBody(|c.name| + |c.args| + 2, c.name, c.args))
    ensures KeywordFind(CallText(c) + rest) == Some(Found(|CallText(c)|, c))
  {
    var t := BodyText(c.name, c.args) + rest;
    var s := CallText(c) + rest;
    CallTextSplit(c, rest);
    if c.reminder {
      assert s == "kr." + t;
      assert s[0] == 'k' && s[1] == 'r' && s[2] == '.' && s[3..] == t;
    } else {
      assert s == "k." + t;
      assert s[0] == 'k' && s[1] == '.' && s[2..] == t;
    }
  }

  lemma CallTextSplit(c: KeywordCall, rest: string)
    ensures CallText(c) + rest == CallHead(c.reminder) + (BodyText(c.name, c.args) + rest)
    ensures |CallText(c)| == |CallHead(c.reminder)| + |c.name| + |c.args| + 2
  {
  }

  /** Conversely, whatever the pattern matches is a well-formed call,
      spelled by the matched text. */
  lemma KeywordFindSound(s: string)
    ensures var r := KeywordFind(s);
      r.Some? ==> CallShape(r.value.groups) && r.value.length == |CallText(r.value.groups)|
                  && s[..r.value.length] == CallText(r.value.groups)
  {
    if KeywordFind(s).Some? {
      var c := KeywordFind(s).value.groups;
      var h := CallHead(c.reminder);
      HeadOf(s);
      var t := s[|h|..];
      HeadFound(c.reminder, t);
      BodySound(t);
      var b := Body(t).value;
      assert s[..|h| + b.end] == h + t[..b.end];
    }
  }

  /** A match starts with the head its flag names. */
  lemma HeadOf(s: string)
    requires KeywordFind(s).Some?
    ensures var h := CallHead(KeywordFind(s).value.groups.reminder);
      |h| <= |s| && s == h + s[|h|..]
  {
    var h := CallHead(KeywordFind(s).value.groups.reminder);
    assert s[..|h|] == h;
  }

  function KeywordText(defs: map<string, KeywordDefinition>, m: Fields): string -> Result<string> {
    KeywordFinder();
    s => Sub(s, KeywordFind, KeywordRepl(defs, m))
  }

  /** `KeywordReplacePipeline(defs).__call__`. */
  function KeywordReplace(defs: map<string, KeywordDefinition>, m: Fields): (t: Track)
    ensures t.Same()
  {
    UpdateText(m, "card__text", KeywordText(defs, m))
  }

  /** A call at the start of the text is replaced by its expansion, exactly
      as in the current generation, and the scan goes on after its `)`; an
      expansion that raises makes the stage raise and leave the record
      alone. */
  lemma KeywordReplaceSpec(defs: map<string, KeywordDefinition>, m: Fields, c: KeywordCall, rest: string)
    requires CallShape(c)
    requires "card__text" in m && m["card__text"] == Str(CallText(c) + rest)
    ensures var t := KeywordReplace(defs, m);
      match Expand(defs, c.reminder, c.name, c.args, m)
      case Failure(e) => t == Track(m, None, Some(e))
      case Success(x) =>
        match KeywordText(defs, m)(rest)
        case Failure(e) => t == Track(m, None, Some(e))
        case Success(y) => t == Idle(m["card__text" := Str(x + y)])
  {
    KeywordFinder();
    KeywordFindSpec(c, rest);
    SubFirstMatch(CallText(c), rest, c, KeywordFind, KeywordRepl(defs, m));
  }

  // ---------------------------------------------------------------------
  // The stages on records

  /** `ManaCostEnrichmentPipeline()(data)`: a new record on success; the
      argument itself, unchanged, when it raises. */
  method ManaEnrichRecord(r: Record) returns (out: Record, err: Option<Error>)
    ensures var t := ManaEnrich(r.fields);
      out.fields == t.Output() && err == t.error
      && (t.Same() ==> out == r) && (!t.Same() ==> fresh(out))
  {
    out := r;
    if "card__cost" !in r.fields {
      return r, Some(MissingKey("card__cost"));
    }
    var cost := r.fields["card__cost"];
    if !cost.Str? {
      return r, Some(WrongType("card__cost"));
    }
    var found := ManaScan(cost.s);
    if found.None? {
      return r, Some(NoMatch(cost.s));
    }
    ManaScanSound(cost.s);
    InformationSpec(found.value.groups);
    var info := Information(found.value.groups).value;
    out := new Record(r.fields + Prefix("cost__", InformationFields(info)));
    err := None;
  }

  /** `ManaCostReplacePipeline()(data)`: two assignments in place. */
  method ManaReplaceInPlace(r: Record) returns (err: Option<Error>)
    modifies r
    ensures r.fields == ManaReplace(old(r.fields)).input
    ensures err == ManaReplace(old(r.fields)).error
  {
    err := UpdateTextInPlace(r, "card__text", ManaText);
    if err.None? {
      err := UpdateTextInPlace(r, "card__cost", ManaText);
    }
  }

  method KeywordReplaceInPlace(defs: map<string, KeywordDefinition>, r: Record) returns (err: Option<Error>)
    modifies r
    ensures r.fields == KeywordReplace(defs, old(r.fields)).input
    ensures err == KeywordReplace(defs, old(r.fields)).error
  {
    err := UpdateTextInPlace(r, "card__text", KeywordText(defs, r.fields));
  }
}
