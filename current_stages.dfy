/** The stages of `tcg/lib/services/pipeline.py` that the earlier generation
    does not share: the mana-cost enrichment, the typeline enrichment, the
    keyword replacement with its own pattern, the automatic reminder and the
    mana-token replacement; and `CardPipeline`, the nesting of all stages,
    with its runner over records. */
module CurrentStages {
  import opened Wrappers
  import opened Colors
  import opened ColorTable
  import opened ManaCosts
  import opened ManaHtml
  import opened Records
  import opened Keywords
  import opened KeywordMacros
  import opened Pipelines
  import opened CommonStages
  import Strings

  // ---------------------------------------------------------------------
  // ManaCostEnrichmentPipeline

  /** The six entries of the enrichment `data | {...}`, each evaluated in the
      order of the dict display. */
  function Enrichment(info: ManaCost, floatText: real -> string): Result<Fields> {
    var element :- Element(info, floatText);
    var channel :- ChannelElement(info, floatText);
    var names :- AsNameList(info.color);
    var first :- ColorFirst(info);
    var gradient :- Gradient(info, floatText);
    Success(EnrichmentMap(element, channel, info, names, first, gradient))
  }

  /** The keys the enrichment adds or overwrites. */
  const EnrichedKeys: set<string> :=
    {"card__cost", "card__channel_cost", "cost__info", "cost__colors", "cost__first_color", "cost__gradient"}

  /** `ManaCostEnrichmentPipeline.__call__`: the cost is parsed, and a new
      dict with the six entries merged in is returned; the argument is left
      as it was. */
  function ManaEnrich(m: Fields, floatText: real -> string): Track {
    if "card__cost" !in m then Track(m, None, Some(MissingKey("card__cost")))
    else if !m["card__cost"].Str? then Track(m, None, Some(WrongType("card__cost")))
    else
      match Parse(m["card__cost"].s)
      case Failure(e) => Track(m, None, Some(e))
      case Success(info) =>
        match Enrichment(info, floatText)
        case Failure(e) => Track(m, None, Some(e))
        case Success(extra) => Track(m, Some(m + extra), None)
  }

  /** The enrichment fails exactly when the cost is missing, not a string or
      not a cost token, and then the dict is returned as it was; the
      argument is never changed. */
  lemma ManaEnrichSpec(m: Fields, floatText: real -> string)
    ensures ManaEnrich(m, floatText).input == m
    ensures ManaEnrich(m, floatText).error.None?
        <==> "card__cost" in m && m["card__cost"].Str? && Parse(m["card__cost"].s).Success?
    ensures ManaEnrich(m, floatText).error.Some? ==> ManaEnrich(m, floatText).Same()
  {
    if "card__cost" in m && m["card__cost"].Str? && Parse(m["card__cost"].s).Success? {
      ParseNonEmpty(m["card__cost"].s);
      EnrichmentSpec(Parse(m["card__cost"].s).value, floatText);
    } else if "card__cost" in m && m["card__cost"].Str? {
      ParseFailure(m["card__cost"].s);
    }
  }

  /** The name of the colour of a shortcut letter. */
  function NameOfLetter(ch: char): string
    requires ch in Shortcuts
  {
    ShortcutsByHue(Divine, ch);
    ShortcutsByHue(Arcane, ch);
    ShortcutsByHue(Occult, ch);
    ShortcutsByHue(Primal, ch);
    ShortcutsByHue(Alchemy, ch);
    Colors.Names[Shortcuts[ch]]
  }

  /** A cost token always has colours, so every entry of the enrichment
      exists: the result is a new dict, the argument merged with the six
      entries (described by `EnrichmentSpec`), so it has the old keys and
      the six new ones and every other entry is copied. */
  lemma ManaEnrichSuccess(m: Fields, floatText: real -> string, info: ManaCost)
    requires "card__cost" in m && m["card__cost"].Str? && Parse(m["card__cost"].s) == Success(info)
    ensures info.color != Empty && Enrichment(info, floatText).Success?
    ensures var t := ManaEnrich(m, floatText);
      t.error.None? && !t.Same() && t.input == m
      && t.Output() == m + Enrichment(info, floatText).value
      && t.Output().Keys == m.Keys + EnrichedKeys
      && forall k | k in m && k !in EnrichedKeys :: t.Output()[k] == m[k]
  {
    ParseNonEmpty(m["card__cost"].s);
    EnrichmentSpec(info, floatText);
  }

  /** Whatever happens, the dict returned has no keys but the old ones and
      the six entries, and every other entry is copied. */
  lemma ManaEnrichFrame(m: Fields, floatText: real -> string)
    ensures var o := ManaEnrich(m, floatText).Output();
      o.Keys <= m.Keys + EnrichedKeys && forall k | k in m && k !in EnrichedKeys :: k in o && o[k] == m[k]
  {
    ManaEnrichSpec(m, floatText);
    if ManaEnrich(m, floatText).error.None? {
      ManaEnrichSuccess(m, floatText, Parse(m["card__cost"].s).value);
    }
  }

  /** The six entries for a cost with colours. */
  lemma EnrichmentSpec(info: ManaCost, floatText: real -> string)
    requires info.color != Empty
    ensures AsOrderedString(info.color).Success? && Gradient(info, floatText).Success?
    ensures var s := AsOrderedString(info.color).value;
      s != [] && Valid(s) && |s| == Count(info.color)
    ensures var e, s := Enrichment(info, floatText), AsOrderedString(info.color).value;
      var g := Gradient(info, floatText).value;
      e.Success? && e.value.Keys == EnrichedKeys
      && e.value["cost__info"] == Info(info)
      && e.value["card__cost"] == Str(Badge(g, info.value))
      && e.value["card__channel_cost"] == Str(Badge(g, "1"))
      && e.value["cost__gradient"] == Str(g)
      && e.value["cost__first_color"] == Str(HexOfLetter(s[0]))
      && e.value["cost__colors"] == List(NameValues(seq(|s|, i requires 0 <= i < |s| => NameOfLetter(s[i]))))
  {
    assert Gradient(info, floatText).Success? by {
      GradientStops(info, floatText);
    }
    var g := Gradient(info, floatText).value;
    OrderedEnumMatchesString(info.color);
    var s := AsOrderedString(info.color).value;
    var ns := AsNameList(info.color).value;
    assert ns == seq(|s|, i requires 0 <= i < |s| => NameOfLetter(s[i]));
    assert s != [] && ColorFirst(info) == Success(HexOfLetter(s[0])) by {
      ColorFirstIsFirstLetter(info, floatText);
    }
    EnrichmentOf(info, floatText, g, ns, HexOfLetter(s[0]));
    EnrichmentEntries(Badge(g, info.value), Badge(g, "1"), info, ns, HexOfLetter(s[0]), g);
  }

  /** The dict display of the enrichment. */
  function EnrichmentMap(element: string, channel: string, info: ManaCost, names: seq<string>,
                         first: string, gradient: string): Fields {
    map["card__cost" := Str(element), "card__channel_cost" := Str(channel),
        "cost__info" := Info(info), "cost__colors" := List(NameValues(names)),
        "cost__first_color" := Str(first), "cost__gradient" := Str(gradient)]
  }

  /** The enrichment once its five steps have succeeded. */
  lemma EnrichmentOf(info: ManaCost, floatText: real -> string, g: string, names: seq<string>, first: string)
    requires Gradient(info, floatText) == Success(g)
    requires AsNameList(info.color) == Success(names) && ColorFirst(info) == Success(first)
    ensures Enrichment(info, floatText)
         == Success(EnrichmentMap(Badge(g, info.value), Badge(g, "1"), info, names, first, g))
  {
  }

  lemma EnrichmentEntries(element: string, channel: string, info: ManaCost, names: seq<string>,
                          first: string, gradient: string)
    ensures var e := EnrichmentMap(element, channel, info, names, first, gradient);
      && e.Keys == EnrichedKeys
      && e["card__cost"] == Str(element) && e["card__channel_cost"] == Str(channel)
      && e["cost__info"] == Info(info) && e["cost__colors"] == List(NameValues(names))
      && e["cost__first_color"] == Str(first) && e["cost__gradient"] == Str(gradient)
  {
  }

  // ---------------------------------------------------------------------
  // TypelineEnrichmentPipeline

  /** `DISPLAY_MAP`. The two non-ASCII entries are the UTF-8 bytes of
      U+26A1 and U+1F451 read as Windows-1252, character for character as the
      source file holds them. */
  const DisplayMap: map<string, string> := map[
    "quick" := "\U{e2}\U{161}\U{a1}Quick",
    "leader" := "\U{f0}\U{178}\U{2018}\U{2018}Leader",
    "creature" := "Creature",
    "magic" := "Magic",
    "item" := "Item",
    "attachment" := "Attachment"]

  /** `[x for x in [card_quick, card_leader, card_type] if x]`, where the
      first two are `"quick"`/`"leader"` when their columns are truthy and
      `""` otherwise. */
  function TypeList(ty: Value, quick: Value, leader: Value): seq<Value> {
    (if Truthy(quick) then [Str("quick")] else [])
    + (if Truthy(leader) then [Str("leader")] else [])
    + (if Truthy(ty) then [ty] else [])
  }

  /** The strings of a list of values, if all of them are strings (what
      `" ".join` accepts). */
  function Strs(vs: seq<Value>): (r: Option<seq<string>>)
    ensures r.Some? <==> forall i | 0 <= i < |vs| :: vs[i].Str?
    ensures r.Some? ==> |r.value| == |vs| && forall i | 0 <= i < |vs| :: vs[i] == Str(r.value[i])
  {
    if vs == [] then Some([])
    else if !vs[0].Str? then None
    else match Strs(vs[1..]) case None => None case Some(rest) => Some([vs[0].s] + rest)
  }

  /** `[DISPLAY_MAP[n] for n in names]`: the first unknown name raises. */
  function Displays(names: seq<string>): (r: Result<seq<string>>)
    ensures r.Success? <==> forall i | 0 <= i < |names| :: names[i] in DisplayMap
    ensures r.Success? ==> |r.value| == |names| && forall i | 0 <= i < |names| :: r.value[i] == DisplayMap[names[i]]
    ensures r.Failure? ==> exists i | 0 <= i < |names| :: names[i] !in DisplayMap && r.error == MissingKey(names[i])
  {
    if names == [] then Success([])
    else if names[0] !in DisplayMap then Failure(MissingKey(names[0]))
    else
      match Displays(names[1..])
      case Failure(e) => assert names[1..][0] == names[1]; Failure(e)
      case Success(rest) => Success([DisplayMap[names[0]]] + rest)
  }

  /** `TypelineEnrichmentPipeline.__call__`: three lookups, then three
      assignments, each of which may raise after the earlier ones took
      effect. */
  function Typeline(m: Fields): (t: Track)
    ensures t.Same()
  {
    if "card__type" !in m then Track(m, None, Some(MissingKey("card__type")))
    else if "card__quick" !in m then Track(m, None, Some(MissingKey("card__quick")))
    else if "card__leader" !in m then Track(m, None, Some(MissingKey("card__leader")))
    else
      var list := TypeList(m["card__type"], m["card__quick"], m["card__leader"]);
      var m1 := m["card__typelist" := List(list)];
      match Strs(list)
      case None => Track(m1, None, Some(WrongType("card__typelist")))
      case Some(names) =>
        var m2 := m1["card__typenames" := Str(Strings.Join(names, " "))];
        match Displays(names)
        case Failure(e) => Track(m2, None, Some(e))
        case Success(ds) => Idle(m2["card__typeline" := Str(Strings.Join(ds, " "))])
  }

  /** The type names, in the order quick, leader, card type, each present
      when its column is truthy. */
  function TypeNames(ty: string, quick: Value, leader: Value): seq<string> {
    (if Truthy(quick) then ["quick"] else []) + (if Truthy(leader) then ["leader"] else [])
    + (if ty != [] then [ty] else [])
  }

  /** The keys the typeline enrichment assigns. */
  const TypelineKeys: set<string> := {"card__typelist", "card__typenames", "card__typeline"}

  /** With a string card type that is empty or a known name, the stage
      stores the type list, the names joined by spaces and their display
      forms joined by spaces, and keeps every other entry. */
  lemma TypelineSpec(m: Fields, ty: string)
    requires "card__type" in m && m["card__type"] == Str(ty)
    requires "card__quick" in m && "card__leader" in m
    requires ty == [] || ty in DisplayMap
    ensures Displays(TypeNames(ty, m["card__quick"], m["card__leader"])).Success?
    ensures var t := Typeline(m);
      var names := TypeNames(ty, m["card__quick"], m["card__leader"]);
      t.error.None? && t.input.Keys == m.Keys + TypelineKeys
      && (forall k | k in m && k !in TypelineKeys :: t.input[k] == m[k])
      && t.input["card__typelist"] == List(NameValues(names))
      && t.input["card__typenames"] == Str(Strings.Join(names, " "))
      && t.input["card__typeline"] == Str(Strings.Join(Displays(names).value, " "))
  {
    var q, l := m["card__quick"], m["card__leader"];
    var list := TypeList(m["card__type"], q, l);
    var names := TypeNames(ty, q, l);
    TypeListNames(ty, q, l);
    assert Strs(list).Some? && Strs(list).value == names;
    TypeNamesKnown(ty, q, l);
    var m2 := m["card__typelist" := List(list)]["card__typenames" := Str(Strings.Join(names, " "))];
    var out := m2["card__typeline" := Str(Strings.Join(Displays(names).value, " "))];
    assert Typeline(m) == Idle(out);
    assert out.Keys == m.Keys + TypelineKeys;
  }

  /** Whether or not it raises, the stage adds no keys but its three and
      changes no other entry. */
  lemma TypelineFrame(m: Fields)
    ensures var o := Typeline(m).Output();
      o.Keys <= m.Keys + TypelineKeys && forall k | k in m && k !in TypelineKeys :: k in o && o[k] == m[k]
  {
  }

  lemma TypeNamesKnown(ty: string, quick: Value, leader: Value)
    requires ty == [] || ty in DisplayMap
    ensures Displays(TypeNames(ty, quick, leader)).Success?
  {
    var names := TypeNames(ty, quick, leader);
    assert "quick" in DisplayMap && "leader" in DisplayMap;
    forall i | 0 <= i < |names| ensures names[i] in DisplayMap {
    }
  }

  /** The stored list holds exactly the type names. */
  lemma TypeListNames(ty: string, quick: Value, leader: Value)
    ensures TypeList(Str(ty), quick, leader) == NameValues(TypeNames(ty, quick, leader))
  {
  }

  /** An unknown card type raises `KeyError` after the type list and the
      type names have been stored; a card type that is truthy but not a
      string raises `TypeError` in the join, after the type list alone. */
  lemma TypelineFailures(m: Fields)
    requires "card__type" in m && "card__quick" in m && "card__leader" in m
    requires Truthy(m["card__type"]) && !(m["card__type"].Str? && m["card__type"].s in DisplayMap)
    ensures var t := Typeline(m);
      var list := TypeList(m["card__type"], m["card__quick"], m["card__leader"]);
      if m["card__type"].Str?
      then t.error == Some(MissingKey(m["card__type"].s)) && t.input.Keys == m.Keys + {"card__typelist", "card__typenames"}
           && t.input["card__typelist"] == List(list)
      else t == Track(m["card__typelist" := List(list)], None, Some(WrongType("card__typelist")))
  {
    var ty, q, l := m["card__type"], m["card__quick"], m["card__leader"];
    var list := TypeList(ty, q, l);
    assert list[|list| - 1] == ty;
    if ty.Str? {
      var names := TypeNames(ty.s, q, l);
      assert list == NameValues(names);
      assert Strs(list).Some? && Strs(list).value == names;
      assert names[|names| - 1] == ty.s;
      if Displays(names).Failure? {
        var i :| 0 <= i < |names| && names[i] !in DisplayMap && Displays(names).error == MissingKey(names[i]);
        assert names[i] == ty.s;
      }
    }
  }

  /** A quick creature that is no leader: `⚡Quick Creature`, as the
      display map spells it. */
  lemma TypelineExample(m: Fields)
    requires "card__type" in m && m["card__type"] == Str("creature")
    requires "card__quick" in m && m["card__quick"] == Bool(true)
    requires "card__leader" in m && m["card__leader"] == Bool(false)
    ensures Typeline(m).error.None?
    ensures Typeline(m).input["card__typenames"] == Str("quick creature")
    ensures Typeline(m).input["card__typeline"] == Str("\U{e2}\U{161}\U{a1}Quick Creature")
  {
    TypelineSpec(m, "creature");
    var names := TypeNames("creature", Bool(true), Bool(false));
    assert names == ["quick", "creature"];
    var ds := seq(|names|, i requires 0 <= i < |names| => DisplayMap[names[i]]);
    assert ds == ["\U{e2}\U{161}\U{a1}Quick", "Creature"];
  }

  // ---------------------------------------------------------------------
  // KeywordReplacePipeline

  /** The index of the first `/`, if any. */
  function SlashIndex(t: string): (r: Option<nat>)
    ensures r.Some? ==> r.value < |t| && t[r.value] == '/' && forall i | 0 <= i < r.value :: t[i] != '/'
    ensures r.None? ==> forall i | 0 <= i < |t| :: t[i] != '/'
  {
    if t == [] then None
    else if t[0] == '/' then Some(0)
    else match SlashIndex(t[1..]) case None => None case Some(j) => Some(j + 1)
  }

  /** The length of the longest prefix without whitespace. */
  function NameLength(b: string): (n: nat)
    ensures n <= |b|
    ensures forall i | 0 <= i < n :: !IsSpace(b[i])
    ensures n < |b| ==> IsSpace(b[n])
  {
    if b == [] || IsSpace(b[0]) then 0 else 1 + NameLength(b[1..])
  }

  /** What follows `(k.` or `(kr.`: the extent up to the closing `/)`,
      the name and the arguments. */
  datatype CallBody = CallBody(end: nat, name: string, args: string)

  /** `(?P<name>[^\s\/]+)\s?(?P<args>[^\/]*)\/\)` at the start of `t`.
      Neither group may hold a `/`, so a match ends at the first `/`, which
      must be followed by `)`. The name is the whitespace-free run before
      it; one whitespace character after the name is dropped and the rest is
      the arguments. */
  function Body(t: string): (r: Option<CallBody>)
    ensures r.Some? ==> 0 < r.value.end && r.value.end + 2 <= |t|
    ensures r.Some? ==> t[r.value.end] == '/' && t[r.value.end + 1] == ')'
  {
    match SlashIndex(t)
    case None => None
    case Some(j) =>
      if j == 0 || j + 1 == |t| || t[j + 1] != ')' || IsSpace(t[0]) then None
      else
        var body := t[..j];
        var n := NameLength(body);
        Some(CallBody(j, body[..n], if n < |body| then body[n + 1..] else []))
  }

  /** `\(k(?P<reminder>r?)\.` and then the body, matched at the start of `s`.
      The `r` is taken as the reminder flag only when a `.` follows it. */
  function KeywordFind(s: string): (r: Option<Found<KeywordCall>>)
    ensures r.Some? ==> 2 <= r.value.length <= |s|
    ensures r.Some? ==> s[0] == '(' && s[1] == 'k' && s[r.value.length - 2] == '/' && s[r.value.length - 1] == ')'
  {
    if |s| < 3 || s[0] != '(' || s[1] != 'k' then None
    else
      var reminder := |s| > 3 && s[2] == 'r' && s[3] == '.';
      if !reminder && s[2] != '.' then None
      else
        var start := if reminder then 4 else 3;
        var t := s[start..];
        var body := Body(t);
        if body.None? then None
        else
          var b := body.value;
          assert t[b.end] == s[start + b.end] && t[b.end + 1] == s[start + b.end + 1];
          Some(Found(start + b.end + 2, KeywordCall(reminder, b.name, b.args)))
  }

  lemma KeywordFinder()
    ensures Finder(KeywordFind)
  {
  }

  /** The spelling of a keyword call with arguments. */
  function CallText(c: KeywordCall): string {
    CallHead(c.reminder) + c.name + " " + c.args + "/)"
  }

  /** The spelling used for a call without arguments. */
  function BareCallText(reminder: bool, name: string): string {
    CallHead(reminder) + name + "/)"
  }

  /** A valid keyword name: non-empty, no whitespace, no `/`. */
  predicate KeywordName(name: string) {
    name != [] && forall i | 0 <= i < |name| :: !IsSpace(name[i]) && name[i] != '/'
  }

  /** The catalog's names are lower-case words, which are valid names. */
  lemma LowerName(name: string)
    requires name != [] && forall i | 0 <= i < |name| :: 'a' <= name[i] <= 'z'
    ensures KeywordName(name)
  {
    forall i | 0 <= i < |name| ensures !IsSpace(name[i]) {
      LowerNotSpace(name[i]);
    }
  }

  lemma {:induction false} SlashIndexOf(a: string, b: string)
    requires forall i | 0 <= i < |a| :: a[i] != '/'
    ensures SlashIndex(a + "/" + b) == Some(|a|)
    decreases |a|
  {
    if a != [] {
      assert (a + "/" + b)[1..] == a[1..] + "/" + b;
      SlashIndexOf(a[1..], b);
    } else {
      assert a + "/" + b == "/" + b;
    }
  }

  lemma {:induction false} NameLengthStops(name: string, rest: string)
    requires forall i | 0 <= i < |name| :: !IsSpace(name[i])
    requires rest == [] || IsSpace(rest[0])
    ensures NameLength(name + rest) == |name|
    decreases |name|
  {
    if name != [] {
      assert (name + rest)[1..] == name[1..] + rest;
      NameLengthStops(name[1..], rest);
    } else {
      assert name + rest == rest;
    }
  }

  /** The opening of a call, up to and including the `.`. */
  function CallHead(reminder: bool): string {
    if reminder then "(kr." else "(k."
  }

  lemma BodySpec(name: string, args: string, rest: string)
    requires KeywordName(name) && forall i | 0 <= i < |args| :: args[i] != '/'
    ensures Body(name + " " + args + "/)" + rest) == Some(CallBody(|name| + 1 + |args|, name, args))
  {
    var body := name + " " + args;
    var t := name + " " + args + "/)" + rest;
    assert t == body + "/" + (")" + rest);
    CallBodyNoSlash(name, args);
    SlashIndexOf(body, ")" + rest);
    assert t[..|body|] == body && t[0] == name[0];
    assert body == name + (" " + args);
    NameLengthStops(name, " " + args);
    assert IsSpace(' ');
    assert body[..|name|] == name && body[|name| + 1..] == args;
  }

  lemma CallBodyNoSlash(name: string, args: string)
    requires KeywordName(name) && forall i | 0 <= i < |args| :: args[i] != '/'
    ensures forall i | 0 <= i < |name + " " + args| :: (name + " " + args)[i] != '/'
  {
    var body := name + " " + args;
    forall i | 0 <= i < |body| ensures body[i] != '/' {
      if i < |name| { assert body[i] == name[i]; }
      else if i > |name| { assert body[i] == args[i - |name| - 1]; }
    }
  }

  lemma BareBodySpec(name: string, rest: string)
    requires KeywordName(name)
    ensures Body(name + "/)" + rest) == Some(CallBody(|name|, name, []))
  {
    var t := name + "/)" + rest;
    assert t == name + "/" + (")" + rest);
    SlashIndexOf(name, ")" + rest);
    assert t[..|name|] == name && t[0] == name[0];
    NameLengthStops(name, []);
    assert name + [] == name;
  }

  /** The head is recognised and the body is matched after it. */
  lemma HeadSome(reminder: bool, t: string, b: CallBody)
    requires Body(t) == Some(b)
    ensures KeywordFind(CallHead(reminder) + t)
         == Some(Found(|CallHead(reminder)| + b.end + 2, KeywordCall(reminder, b.name, b.args)))
  {
    var s := CallHead(reminder) + t;
    if reminder {
      assert s == "(kr." + t;
      assert s[0] == '(' && s[1] == 'k' && s[2] == 'r' && s[3] == '.' && s[4..] == t;
    } else {
      assert s == "(k." + t;
      assert s[0] == '(' && s[1] == 'k' && s[2] == '.' && s[3..] == t;
    }
  }

  /** A well-formed call is matched in full, with its flag, its name and its
      arguments as written. */
  lemma KeywordFindSpec(c: KeywordCall, rest: string)
    requires KeywordName(c.name) && forall i | 0 <= i < |c.args| :: c.args[i] != '/'
    ensures KeywordFind(CallText(c) + rest) == Some(Found(|CallText(c)|, c))
  {
    var t := c.name + " " + c.args + "/)" + rest;
    var h := CallHead(c.reminder);
    var n := |c.name| + 1 + |c.args|;
    assert CallText(c) + rest == h + t && |CallText(c)| == |h| + n + 2 by {
      CallTextSplit(c, rest);
    }
    BodySpec(c.name, c.args, rest);
    HeadSome(c.reminder, t, CallBody(n, c.name, c.args));
  }

  lemma CallTextSplit(c: KeywordCall, rest: string)
    ensures CallText(c) + rest == CallHead(c.reminder) + (c.name + " " + c.args + "/)" + rest)
    ensures |CallText(c)| == |CallHead(c.reminder)| + |c.name| + 1 + |c.args| + 2
  {
  }

  /** A call without arguments has the empty argument string. */
  lemma KeywordFindBare(reminder: bool, name: string, rest: string)
    requires KeywordName(name)
    ensures KeywordFind(BareCallText(reminder, name) + rest)
         == Some(Found(|BareCallText(reminder, name)|, KeywordCall(reminder, name, [])))
  {
    var t := name + "/)" + rest;
    var h := CallHead(reminder);
    assert BareCallText(reminder, name) + rest == h + t && |BareCallText(reminder, name)| == |h| + |name| + 2 by {
      BareCallTextSplit(reminder, name, rest);
    }
    BareBodySpec(name, rest);
    HeadSome(reminder, t, CallBody(|name|, name, []));
  }

  lemma BareCallTextSplit(reminder: bool, name: string, rest: string)
    ensures BareCallText(reminder, name) + rest == CallHead(reminder) + (name + "/)" + rest)
    ensures |BareCallText(reminder, name)| == |CallHead(reminder)| + |name| + 2
  {
  }

  /** Conversely, every match is a call as the pattern describes it: the
      head its flag names, a valid name, then either `/)` at once (and no
      arguments) or one whitespace character, arguments free of `/`, and
      `/)`. */
  lemma KeywordFindSound(s: string)
    ensures var r := KeywordFind(s);
      r.Some? ==>
        var c := r.value.groups;
        var n := r.value.length;
        var h := CallHead(c.reminder) + c.name;
        var tail := c.args + "/)";
        && KeywordName(c.name) && (forall i | 0 <= i < |c.args| :: c.args[i] != '/')
        && |h| + |tail| <= n <= |s|
        && s[..|h|] == h && s[n - |tail|..n] == tail
        && ((n == |h| + |tail| && c.args == []) || (n == |h| + 1 + |tail| && IsSpace(s[|h|])))
  {
    if KeywordFind(s).Some? {
      HeadThenBody(s);
      var hd := CallHead(KeywordFind(s).value.groups.reminder);
      var t := s[|hd|..];
      BodySound(t);
      PrefixCall(hd, t, Body(t).value);
    }
  }

  /** A match is the head its flag names followed by a body. */
  lemma HeadThenBody(s: string)
    requires KeywordFind(s).Some?
    ensures var c := KeywordFind(s).value.groups;
      var hd := CallHead(c.reminder);
      && |hd| <= |s| && s == hd + s[|hd|..] && Body(s[|hd|..]).Some?
      && var b := Body(s[|hd|..]).value;
         KeywordFind(s).value == Found(|hd| + b.end + 2, KeywordCall(c.reminder, b.name, b.args))
  {
    var reminder := |s| > 3 && s[2] == 'r' && s[3] == '.';
    var hd := CallHead(reminder);
    if reminder { assert s[..4] == "(kr."; } else { assert s[..3] == "(k."; }
    assert s == s[..|hd|] + s[|hd|..];
  }

  /** The shape of a body carries over to the text with the head in front. */
  lemma PrefixCall(hd: string, t: string, b: CallBody)
    requires Body(t) == Some(b)
    ensures var s := hd + t;
      var h := hd + b.name;
      var tail := b.args + "/)";
      var n := |hd| + b.end + 2;
      && |h| + |tail| <= n <= |s|
      && s[..|h|] == h && s[n - |tail|..n] == tail
      && ((n == |h| + |tail| && b.args == []) || (n == |h| + 1 + |tail| && IsSpace(s[|h|])))
  {
    BodySound(t);
    var s := hd + t;
    assert s[..|hd| + |b.name|] == hd + t[..|b.name|];
    assert s[|hd| + b.end - |b.args|..|hd| + b.end + 2] == t[b.end - |b.args|..b.end + 2];
    assert t[b.end - |b.args|..b.end + 2] == t[b.end - |b.args|..b.end] + t[b.end..b.end + 2];
    assert t[b.end..b.end + 2] == "/)";
    if b.end != |b.name| + |b.args| {
      assert s[|hd| + |b.name|] == t[|b.name|];
    }
  }

  /** The body found is a valid name, optionally one whitespace character
      and arguments free of `/`, ending where `/)` begins. */
  lemma BodySound(t: string)
    requires Body(t).Some?
    ensures var b := Body(t).value;
      && KeywordName(b.name) && (forall i | 0 <= i < |b.args| :: b.args[i] != '/')
      && |b.name| + |b.args| <= b.end
      && t[..|b.name|] == b.name && t[b.end - |b.args|..b.end] == b.args
      && ((b.end == |b.name| + |b.args| && b.args == [])
          || (b.end == |b.name| + 1 + |b.args| && IsSpace(t[|b.name|])))
  {
    var j := SlashIndex(t).value;
    var body := t[..j];
    var n := NameLength(body);
    assert n > 0 by {
      assert body[0] == t[0];
    }
    assert t[..n] == body[..n];
    if n < |body| {
      assert t[n] == body[n];
      assert t[n + 1..j] == body[n + 1..];
    }
  }

  function KeywordText(defs: map<string, KeywordDefinition>, m: Fields): string -> Result<string> {
    KeywordFinder();
    s => Sub(s, KeywordFind, KeywordRepl(defs, m))
  }

  /** `KeywordReplacePipeline(defs).__call__`. */
  function KeywordReplace(defs: map<string, KeywordDefinition>, m: Fields): (t: Track)
    ensures t.Same()
  {
    UpdateText(m, "card__text", KeywordText(defs, m))
  }

  /** A call at the start of the text is replaced by its expansion, and the
      scan goes on after its `/)`; an expansion that raises makes the stage
      raise and leave the record alone. */
  lemma KeywordReplaceSpec(defs: map<string, KeywordDefinition>, m: Fields, c: KeywordCall, rest: string)
    requires KeywordName(c.name) && forall i | 0 <= i < |c.args| :: c.args[i] != '/'
    requires "card__text" in m && m["card__text"] == Str(CallText(c) + rest)
    ensures var t := KeywordReplace(defs, m);
      match Expand(defs, c.reminder, c.name, c.args, m)
      case Failure(e) => t == Track(m, None, Some(e))
      case Success(x) =>
        match KeywordText(defs, m)(rest)
        case Failure(e) => t == Track(m, None, Some(e))
        case Success(y) => t == Idle(m["card__text" := Str(x + y)])
  {
    KeywordFinder();
    KeywordFindSpec(c, rest);
    SubFirstMatch(CallText(c), rest, c, KeywordFind, KeywordRepl(defs, m));
  }

  // ---------------------------------------------------------------------
  // AutoReminderPipeline

  const ChannelReminder: string := "r(This channels tapped.)r|"

  /** `AutoReminderPipeline.__call__`: a cost of more than one colour puts
      the channel reminder in front of the text (through an f-string, so any
      value's text will do). */
  function AutoReminder(m: Fields): (t: Track)
    ensures t.Same()
  {
    if "cost__info" !in m then Track(m, None, Some(MissingKey("cost__info")))
    else if !m["cost__info"].Info? then Track(m, None, Some(WrongType("cost__info")))
    else if Count(m["cost__info"].cost.color) <= 1 then Idle(m)
    else if "card__text" !in m then Track(m, None, Some(MissingKey("card__text")))
    else
      match Text(m["card__text"])
      case Failure(e) => Track(m, None, Some(e))
      case Success(text) => Idle(m["card__text" := Str(ChannelReminder + text)])
  }

  /** For a parsed cost and a string text, the reminder is added exactly
      when the cost has two or more colours, and nothing else changes. */
  lemma AutoReminderSpec(m: Fields, info: ManaCost, text: string)
    requires "cost__info" in m && m["cost__info"] == Info(info)
    requires "card__text" in m && m["card__text"] == Str(text)
    ensures AutoReminder(m).error.None?
    ensures AutoReminder(m).input.Keys == m.Keys
    ensures forall k | k in m && k != "card__text" :: AutoReminder(m).input[k] == m[k]
    ensures AutoReminder(m).input["card__text"] == Str(text) <==> Count(info.color) <= 1
    ensures Count(info.color) > 1 ==> AutoReminder(m).input["card__text"] == Str(ChannelReminder + text)
  {
    if Count(info.color) > 1 {
      assert |ChannelReminder + text| > |text|;
    }
  }

  // ---------------------------------------------------------------------
  // ManaCostReplacePipeline

  /** `ManaCostInfo.REGEX_PATTERN` tried at the start of `s`. */
  function ManaFind(s: string): (r: Option<Found<ManaCost>>)
    ensures r.Some? ==> 0 < r.value.length <= |s|
  {
    if Parse(s).Success? then Some(Found(MatchLength(s), Parse(s).value)) else None
  }

  lemma ManaFinder()
    ensures Finder(ManaFind)
  {
  }

  /** `_repl`: the badge of the matched cost. */
  function ManaRepl(floatText: real -> string): ManaCost -> Result<string> {
    info => Element(info, floatText)
  }

  function ManaText(floatText: real -> string): string -> Result<string> {
    ManaFinder();
    s => Sub(s, ManaFind, ManaRepl(floatText))
  }

  /** `ManaCostReplacePipeline.__call__`: every cost token in the text
      becomes its badge. */
  function ManaReplace(m: Fields, floatText: real -> string): (t: Track)
    ensures t.Same()
  {
    UpdateText(m, "card__text", ManaText(floatText))
  }

  /** A token at the start of the text becomes the badge of its value and
      colours, which always exists since a token has a colour. */
  lemma ManaTokenSpec(v: string, l: string, rest: string, floatText: real -> string)
    requires ValueText(v) && LettersText(l)
    ensures Element(ManaCost(v, MaskOf(l)), floatText).Success?
    ensures ManaText(floatText)("(" + v + l + ")" + rest)
         == match ManaText(floatText)(rest)
            case Failure(e) => Failure(e)
            case Success(y) => Success(Element(ManaCost(v, MaskOf(l)), floatText).value + y)
  {
    var tok := "(" + v + l + ")";
    var g := ManaCost(v, MaskOf(l));
    ManaFindToken(v, l, rest);
    ChannelIsElementOfOne(g, floatText);
    ManaFinder();
    assert ManaText(floatText)(tok + rest) == Sub(tok + rest, ManaFind, ManaRepl(floatText));
    assert ManaText(floatText)(rest) == Sub(rest, ManaFind, ManaRepl(floatText));
    assert ManaRepl(floatText)(g) == Element(g, floatText);
    SubFirstMatch(tok, rest, g, ManaFind, ManaRepl(floatText));
  }

  lemma ManaFindToken(v: string, l: string, rest: string)
    requires ValueText(v) && LettersText(l)
    ensures ManaFind("(" + v + l + ")" + rest) == Some(Found(|v| + |l| + 2, ManaCost(v, MaskOf(l))))
    ensures MaskOf(l) != Empty
  {
    ParseToken(v, l, rest);
    ParseNonEmpty("(" + v + l + ")" + rest);
  }

  // ---------------------------------------------------------------------
  // The stages on records

  /** `ManaCostEnrichmentPipeline()(data)`: a new record on success, the
      argument itself (unchanged) when it raises. */
  method ManaEnrichRecord(r: Record, floatText: real -> string) returns (out: Record, err: Option<Error>)
    ensures var t := ManaEnrich(r.fields, floatText);
      out.fields == t.Output() && err == t.error
      && (t.Same() ==> out == r) && (!t.Same() ==> fresh(out))
  {
    out := r;
    if "card__cost" !in r.fields {
      return r, Some(MissingKey("card__cost"));
    }
    var cost := r.fields["card__cost"];
    if !cost.Str? {
      return r, Some(WrongType("card__cost"));
    }
    var info := Parse(cost.s);
    if info.Failure? {
      return r, Some(info.error);
    }
    var extra := Enrichment(info.value, floatText);
    if extra.Failure? {
      return r, Some(extra.error);
    }
    out := new Record(r.fields + extra.value);
    err := None;
  }

  /** `TypelineEnrichmentPipeline()(data)`, one assignment at a time. */
  method TypelineInPlace(r: Record) returns (err: Option<Error>)
    modifies r
    ensures r.fields == Typeline(old(r.fields)).input
    ensures err == Typeline(old(r.fields)).error
  {
    if "card__type" !in r.fields {
      return Some(MissingKey("card__type"));
    }
    var cardType := r.fields["card__type"];
    if "card__quick" !in r.fields {
      return Some(MissingKey("card__quick"));
    }
    var quick := r.fields["card__quick"];
    if "card__leader" !in r.fields {
      return Some(MissingKey("card__leader"));
    }
    var leader := r.fields["card__leader"];
    var list := TypeList(cardType, quick, leader);
    r.fields := r.fields["card__typelist" := List(list)];
    var names := Strs(list);
    if names.None? {
      return Some(WrongType("card__typelist"));
    }
    r.fields := r.fields["card__typenames" := Str(Strings.Join(names.value, " "))];
    var displays := Displays(names.value);
    if displays.Failure? {
      return Some(displays.error);
    }
    r.fields := r.fields["card__typeline" := Str(Strings.Join(displays.value, " "))];
    return None;
  }

  method KeywordReplaceInPlace(defs: map<string, KeywordDefinition>, r: Record) returns (err: Option<Error>)
    modifies r
    ensures r.fields == KeywordReplace(defs, old(r.fields)).input
    ensures err == KeywordReplace(defs, old(r.fields)).error
  {
    err := UpdateTextInPlace(r, "card__text", KeywordText(defs, r.fields));
  }

  method AutoReminderInPlace(r: Record) returns (err: Option<Error>)
    modifies r
    ensures r.fields == AutoReminder(old(r.fields)).input
    ensures err == AutoReminder(old(r.fields)).error
  {
    if "cost__info" !in r.fields {
      return Some(MissingKey("cost__info"));
    }
    var info := r.fields["cost__info"];
    if !info.Info? {
      return Some(WrongType("cost__info"));
    }
    if Count(info.cost.color) > 1 {
      if "card__text" !in r.fields {
        return Some(MissingKey("card__text"));
      }
      var text := Text(r.fields["card__text"]);
      if text.Failure? {
        return Some(text.error);
      }
      r.fields := r.fields["card__text" := Str(ChannelReminder + text.value)];
    }
    return None;
  }

  method ManaReplaceInPlace(r: Record, floatText: real -> string) returns (err: Option<Error>)
    modifies r
    ensures r.fields == ManaReplace(old(r.fields), floatText).input
    ensures err == ManaReplace(old(r.fields), floatText).error
  {
    err := UpdateTextInPlace(r, "card__text", ManaText(floatText));
  }
}
