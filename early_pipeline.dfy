/** The pipeline of `tcg/endtoend.py`: its primitive stages as one
    datatype, their calls on records, `ConcatPipeline`'s loop, and the
    nesting `enrich_pipeline` < `to_pseudo_pipeline` < `to_html_pipeline` <
    `to_formatted_pipeline`. */
module EarlyPipeline {
  import opened Wrappers
  import opened Records
  import opened Keywords
  import opened KeywordMacros
  import opened Pipelines
  import opened CommonStages
  import opened EarlyStages
  import Strings

  /** The primitive stages of this generation, named after their classes. */
  datatype Prim =
    | PrefixHelper(p: string)                                   // lambda card: PipelineHelpers.prefix(p, card)
    | ManaCostEnrichment
    | KeywordReplacement(defs: map<string, KeywordDefinition>)
    | RegexReplace(pat: string, repl: string, fields: seq<string>)
    | ListRegexReplace                                          // the `l(...)l` pattern with its function
    | ManaCostReplacement
    | Formatting

  /** The call of one primitive stage on a dict. */
  function Step(p: Prim, m: Fields): Track {
    match p
    case PrefixHelper(q) => PrefixStage(q, m)
    case ManaCostEnrichment => ManaEnrich(m)
    case KeywordReplacement(defs) => KeywordReplace(defs, m)
    case RegexReplace(pat, repl, fields) => ReplaceFields(m, fields, pat, repl)
    case ListRegexReplace => UpdateText(m, "card__text", ListRewrite)
    case ManaCostReplacement => ManaReplace(m)
    case Formatting => FormatStage(m)
  }

  function Meaning(): (Prim, Fields) -> Track {
    (p: Prim, m: Fields) => Step(p, m)
  }

  /** One primitive stage called on a record: the record as the stage
      leaves it, the record the stage returns and the exception. */
  method StepInPlace(p: Prim, r: Record) returns (out: Record, err: Option<Error>)
    modifies r
    ensures var t := Step(p, old(r.fields));
      r.fields == t.input && out.fields == t.Output() && err == t.error
      && (t.Same() ==> out == r) && (!t.Same() ==> fresh(out))
  {
    out := r;
    match p
    case PrefixHelper(q) =>
      out := PrefixRecord(q, r);
      err := None;
    case ManaCostEnrichment =>
      out, err := ManaEnrichRecord(r);
    case KeywordReplacement(defs) =>
      err := KeywordReplaceInPlace(defs, r);
    case RegexReplace(pat, repl, fields) =>
      err := ReplaceFieldsInPlace(r, fields, pat, repl);
    case ListRegexReplace =>
      err := ListRewriteInPlace(r);
    case ManaCostReplacement =>
      err := ManaReplaceInPlace(r);
    case Formatting =>
      err := FormatInPlace(r);
  }

  /** `stage(data)` for a primitive or a `ConcatPipeline`: the loop
      `result = pipeline(result)`, stopped by the first exception. */
  method Apply(st: Stage<Prim>, r: Record) returns (out: Record, err: Option<Error>)
    modifies r
    ensures var t := Run(st, old(r.fields), Meaning());
      r.fields == t.input && out.fields == t.Output() && err == t.error
      && (t.Same() ==> out == r) && (!t.Same() ==> fresh(out))
    decreases st
  {
    match st
    case Step(p) =>
      out, err := StepInPlace(p, r);
    case Concat(sts) =>
      var prim := Meaning();
      ghost var m := r.fields;
      out, err := r, None;
      for i := 0 to |sts|
        invariant var t := Chain(sts[..i], m, prim);
          r.fields == t.input && out.fields == t.Output() && t.error.None?
          && (t.Same() ==> out == r) && (!t.Same() ==> fresh(out))
        invariant err.None?
      {
        ghost var t := Chain(sts[..i], m, prim);
        ChainPrefixStep(sts, i, m, prim);
        SeqThrough(t, Run(sts[i], t.Output(), prim));
        var next, e := Apply(sts[i], out);
        out := next;
        if e.Some? {
          ChainErrorStops(sts, i + 1, m, prim);
          return out, e;
        }
      }
      assert sts[..|sts|] == sts;
  }

  // ---------------------------------------------------------------------
  // The nested pipelines

  /** The stages of `enrich_pipeline`: the `card__` prefix, then the mana
      cost. */
  const EnrichStages: seq<Prim> := [PrefixHelper("card__"), ManaCostEnrichment]

  const EnrichPipeline: Stage<Prim> := Concat(StepsOf(EnrichStages))

  /** `to_pseudo_pipeline`: the enrichment, then keyword expansion. */
  function PseudoPipeline(defs: seq<KeywordDefinition>): Stage<Prim> {
    Concat([EnrichPipeline, Stage<Prim>.Step(KeywordReplacement(ByName(defs)))])
  }

  /** The rewrites `to_html_pipeline` runs after `to_pseudo_pipeline`: the
      bracket pairs, each side on its own, the list, the empty rewrite, the
      line breaks and last the mana tokens. */
  const HtmlRewrites: seq<Prim> := [
    RegexReplace("<<", "<span class='ability-activation-cost'>", TextField),
    RegexReplace(">>", "</span>", TextField),
    RegexReplace("[[", "<span class='ability-trigger'>", TextField),
    RegexReplace("]]", "</span>", TextField),
    RegexReplace("r(", ReminderOpen, TextField),
    RegexReplace(")r", ")</span>", TextField),
    RegexReplace("k(", KeywordOpen, TextField),
    RegexReplace(")k", ")</span>", TextField),
    ListRegexReplace,
    RegexReplace("", "", TextField),
    RegexReplace("|", "<br>", TextField),
    ManaCostReplacement]

  /** The reminder's opening tag keeps the `(`; the keyword's does not. */
  const ReminderOpen: string := "<span class=" + "'reminder-text'>("
  const KeywordOpen: string := "<span class=" + "'keyword-name'>"

  function HtmlPipeline(defs: seq<KeywordDefinition>): Stage<Prim> {
    Concat([PseudoPipeline(defs)] + StepsOf(HtmlRewrites))
  }

  /** The stages after `to_html_pipeline`: `~` becomes the card-name field,
      then the text is formatted with the record. */
  const FormattedStages: seq<Prim> := [RegexReplace("~", "{card__name}", TextField), Formatting]

  /** `to_formatted_pipeline`. */
  function FormattedPipeline(defs: seq<KeywordDefinition>): Stage<Prim> {
    Concat([HtmlPipeline(defs)] + StepsOf(FormattedStages))
  }

  /** All primitive stages, in the order they run. */
  function AllStages(defs: seq<KeywordDefinition>): seq<Prim> {
    EnrichStages + [KeywordReplacement(ByName(defs))] + HtmlRewrites + FormattedStages
  }

  /** `to_pseudo_pipeline` is its three primitive stages one after the other. */
  lemma PseudoFlat(defs: seq<KeywordDefinition>, m: Fields)
    ensures Run(PseudoPipeline(defs), m, Meaning())
         == Steps(EnrichStages + [KeywordReplacement(ByName(defs))], m, Meaning())
  {
    var kw := KeywordReplacement(ByName(defs));
    PseudoPrimitives(defs);
    ChainIsSteps(PseudoPipeline(defs).stages, m, Meaning());
  }

  lemma PseudoPrimitives(defs: seq<KeywordDefinition>)
    ensures Primitives(PseudoPipeline(defs).stages) == EnrichStages + [KeywordReplacement(ByName(defs))]
  {
    var kw := KeywordReplacement(ByName(defs));
    assert PseudoPipeline(defs).stages == [Concat(StepsOf(EnrichStages))] + StepsOf([kw]);
    NestedPrimitives(StepsOf(EnrichStages), [kw]);
    PrimitivesOfSteps(EnrichStages);
  }

  /** However the four pipelines nest, `to_formatted_pipeline` is its
      primitive stages run one after the other. */
  lemma FormattedFlat(defs: seq<KeywordDefinition>, m: Fields)
    ensures Run(FormattedPipeline(defs), m, Meaning()) == Steps(AllStages(defs), m, Meaning())
  {
    var pseudo := PseudoPipeline(defs);
    PseudoPrimitives(defs);
    NestedPrimitives(pseudo.stages, HtmlRewrites);
    NestedPrimitives(HtmlPipeline(defs).stages, FormattedStages);
    ChainIsSteps(FormattedPipeline(defs).stages, m, Meaning());
  }

  /** The order of the stages: the prefix, the mana cost, keyword expansion,
      the twelve rewrites with the mana tokens last, then `~` and the format. */
  lemma StageOrder(defs: seq<KeywordDefinition>)
    ensures |AllStages(defs)| == 17
    ensures AllStages(defs)[0] == PrefixHelper("card__") && AllStages(defs)[1] == ManaCostEnrichment
    ensures AllStages(defs)[2] == KeywordReplacement(ByName(defs))
    ensures forall i | 3 <= i < 15 :: AllStages(defs)[i].RegexReplace? || AllStages(defs)[i].ListRegexReplace?
                                     || AllStages(defs)[i].ManaCostReplacement?
    ensures AllStages(defs)[14] == ManaCostReplacement
    ensures AllStages(defs)[15] == RegexReplace("~", "{card__name}", TextField)
    ensures AllStages(defs)[16] == Formatting
  {
  }

  /** The caller's dict is never changed: the first stage builds a new dict
      with the prefix, and every later stage works on it. */
  lemma KeepsInput(defs: seq<KeywordDefinition>, m: Fields)
    ensures Run(FormattedPipeline(defs), m, Meaning()).input == m
    ensures !Run(FormattedPipeline(defs), m, Meaning()).Same()
  {
    var prim := Meaning();
    MeaningOfPrefix("card__", m);
    FreshFirstNested(PrefixHelper("card__"), [ManaCostEnrichment],
                     [Stage<Prim>.Step(KeywordReplacement(ByName(defs)))], m, prim);
    assert [PrefixHelper("card__")] + [ManaCostEnrichment] == EnrichStages;
    var pseudo := PseudoPipeline(defs);
    assert pseudo.stages == [EnrichPipeline] + [Stage<Prim>.Step(KeywordReplacement(ByName(defs)))];
    FreshFirst(pseudo, StepsOf(HtmlRewrites), m, prim);
    FreshFirst(HtmlPipeline(defs), StepsOf(FormattedStages), m, prim);
  }

  lemma MeaningOfPrefix(q: string, m: Fields)
    ensures Meaning()(PrefixHelper(q), m) == PrefixStage(q, m)
  {
  }

  lemma MeaningOfManaEnrich(m: Fields)
    ensures Meaning()(ManaCostEnrichment, m) == ManaEnrich(m)
  {
  }

  lemma MeaningOfKeywords(o: Fields)
    ensures Meaning()(KeywordReplacement(ByName(Catalog)), o) == KeywordReplace(ByName(Catalog), o)
  {
  }

  // ---------------------------------------------------------------------
  // kr.complicated in this generation

  /** After the `card__` prefix, the text and the cost are found under
      their new keys. */
  lemma CardPrefix(m: Fields)
    requires "text" in m && "cost" in m
    ensures var p := Prefix("card__", m);
      "card__text" in p && p["card__text"] == m["text"] && "card__cost" in p && p["card__cost"] == m["cost"]
  {
    PrefixAt("card__", m, "text");
    PrefixAt("card__", m, "cost");
    assert "card__" + "text" == "card__text" && "card__" + "cost" == "card__cost";
  }

  /** The enrichment of a card whose cost starts with a token: the text
      comes through and `cost__names` holds the names of the token's
      letters. */
  lemma EnrichCard(m: Fields, g: ManaMatch, rest: string)
    requires Token(g) && "text" in m && "cost" in m && m["cost"] == Str(TokenText(g) + rest)
    ensures var t := Steps(EnrichStages, m, Meaning());
      t.error.None? && "card__text" in t.Output() && t.Output()["card__text"] == m["text"]
      && "cost__names" in t.Output() && t.Output()["cost__names"] == Str(Strings.Join(LetterNames(g), " "))
  {
    var prim := Meaning();
    var p := Prefix("card__", m);
    CardPrefix(m);
    MeaningOfPrefix("card__", m);
    MeaningOfManaEnrich(p);
    ManaEnrichSuccess(p, g, rest);
    EarlyKeysAvoid();
    StepsHead(PrefixHelper("card__"), [ManaCostEnrichment], m, prim);
    assert [PrefixHelper("card__")] + [ManaCostEnrichment] == EnrichStages;
    assert [ManaCostEnrichment][..0] == [];
  }

  /** The name of `complicated` is a lower-case word. */
  lemma ComplicatedShape(args: string)
    requires ')' !in args
    ensures CallShape(KeywordCall(true, "complicated", args))
  {
  }

  /** A text without `k` holds no keyword call and is kept. */
  lemma NoCalls(defs: map<string, KeywordDefinition>, o: Fields, s: string)
    requires 'k' !in s
    ensures KeywordText(defs, o)(s) == Success(s)
  {
    KeywordFinder();
    forall k | 0 <= k < |s| ensures KeywordFind(s[k..]).None? {
      assert s[k..][0] == s[k];
    }
    SubNoMatch(s, KeywordFind, KeywordRepl(defs, o));
  }

  /** Unlike the current generation, this one can expand
      `kr.complicated(args)`: by the time keywords are expanded the
      enrichment has stored `cost__names`, the names of the cost's letters
      in input order, and the reminder shows them. */
  lemma EarlyComplicatedExpands(m: Fields, args: string, g: ManaMatch, crest: string, rest: string)
    requires ')' !in args && 'k' !in rest && Token(g)
    requires "text" in m && m["text"] == Str(CallText(KeywordCall(true, "complicated", args)) + rest)
    requires "cost" in m && m["cost"] == Str(TokenText(g) + crest)
    ensures var t := Run(PseudoPipeline(Catalog), m, Meaning());
      t.error.None? && "card__text" in t.Output()
      && t.Output()["card__text"]
         == Str("k(Complicated " + ArgPieces(args)[0] + ")k r(" + Strings.Join(LetterNames(g), " ") + " ~)r" + rest)
  {
    var prim := Meaning();
    var kw := KeywordReplacement(ByName(Catalog));
    var c := KeywordCall(true, "complicated", args);
    PseudoFlat(Catalog, m);
    EnrichCard(m, g, crest);
    var o := Steps(EnrichStages, m, prim).Output();
    RenderedStrings(o, "cost__names");
    ComplicatedShape(args);
    KeywordReplaceSpec(ByName(Catalog), o, c, rest);
    ComplicatedExpansion(args, o);
    NoCalls(ByName(Catalog), o, rest);
    MeaningOfKeywords(o);
    StepsAppend(EnrichStages, [kw], m, prim);
    assert [kw][..0] == [];
  }

  // ---------------------------------------------------------------------
  // The keyword spans

  /** The opening rewrite drops the `(` of `k(`, but `)k` becomes `)</span>`,
      so a keyword's display text is followed by a stray `)`. */
  lemma KeywordSpanKeepsParen(d: string)
    requires '(' !in d && ')' !in d
    ensures Strings.ReplaceAll(Strings.ReplaceAll("k(" + d + ")k", "k(", KeywordOpen), ")k", ")</span>")
         == KeywordOpen + d + ")</span>"
  {
    assert "k(" + d + ")k" == "k(" + (d + ")k");
    Strings.ReplacePrefix("k(", d + ")k", KeywordOpen);
    Strings.ReplaceKeepSecond(d, ")k", "k(", KeywordOpen);
    Strings.ReplaceKeepSecond(")k", [], "k(", KeywordOpen);
    assert ")k" + [] == ")k";
    Strings.ReplaceAllEmpty("k(", KeywordOpen);
    assert d + ")k" + [] == d + ")k";
    var x := KeywordOpen + d;
    assert KeywordOpen + (d + ")k") == x + ")k";
    assert ')' !in KeywordOpen by {
      assert ')' !in "<span class=" && ')' !in "'keyword-name'>";
    }
    Strings.ReplaceKeep(x, ")k", ")k", ")</span>");
    Strings.ReplacePrefix(")k", [], ")</span>");
    assert ")k" + [] == ")k";
    Strings.ReplaceAllEmpty(")k", ")</span>");
    assert x + (")</span>" + []) == KeywordOpen + d + ")</span>";
  }
}
