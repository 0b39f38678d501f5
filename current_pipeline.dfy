/** `CardPipeline` of `tcg/lib/services/pipeline.py`: the primitive stages
    as one datatype, their calls on records, `ConcatPipeline`'s loop,
    `run_multiple`, and the nesting of the four sub-pipelines. */
module CurrentPipeline {
  import opened Wrappers
  import opened Records
  import opened Keywords
  import opened Pipelines
  import opened CommonStages
  import opened CurrentStages
  import opened KeywordMacros
  import Strings

  /** The primitive stages of `CardPipeline`, named after their classes. */
  datatype Prim =
    | PrefixHelper(p: string)                                   // lambda card: PipelineHelpers.prefix(p, card)
    | ManaCostEnrichment
    | TypelineEnrichment
    | KeywordReplacement(defs: map<string, KeywordDefinition>)
    | AutoReminding
    | RegexReplace(pat: string, repl: string, fields: seq<string>)
    | ListRegexReplace                                          // the `l(...)l` pattern with its function
    | ManaCostReplacement
    | Formatting

  /** The call of one primitive stage on a dict. */
  function Step(p: Prim, m: Fields, floatText: real -> string): Track {
    match p
    case PrefixHelper(q) => PrefixStage(q, m)
    case ManaCostEnrichment => ManaEnrich(m, floatText)
    case TypelineEnrichment => Typeline(m)
    case KeywordReplacement(defs) => KeywordReplace(defs, m)
    case AutoReminding => AutoReminder(m)
    case RegexReplace(pat, repl, fields) => ReplaceFields(m, fields, pat, repl)
    case ListRegexReplace => UpdateText(m, "card__text", ListRewrite)
    case ManaCostReplacement => ManaReplace(m, floatText)
    case Formatting => FormatStage(m)
  }

  function Meaning(floatText: real -> string): (Prim, Fields) -> Track {
    (p: Prim, m: Fields) => Step(p, m, floatText)
  }

  lemma MeaningIsStep(p: Prim, m: Fields, floatText: real -> string)
    ensures Meaning(floatText)(p, m) == Step(p, m, floatText)
  {
  }

  /** One primitive stage called on a record: the record as the stage
      leaves it, the record the stage returns and the exception. */
  method StepInPlace(p: Prim, r: Record, floatText: real -> string) returns (out: Record, err: Option<Error>)
    modifies r
    ensures var t := Step(p, old(r.fields), floatText);
      r.fields == t.input && out.fields == t.Output() && err == t.error
      && (t.Same() ==> out == r) && (!t.Same() ==> fresh(out))
  {
    out := r;
    match p
    case PrefixHelper(q) =>
      out := PrefixRecord(q, r);
      err := None;
    case ManaCostEnrichment =>
      out, err := ManaEnrichRecord(r, floatText);
    case TypelineEnrichment =>
      err := TypelineInPlace(r);
    case KeywordReplacement(defs) =>
      err := KeywordReplaceInPlace(defs, r);
    case AutoReminding =>
      err := AutoReminderInPlace(r);
    case RegexReplace(pat, repl, fields) =>
      err := ReplaceFieldsInPlace(r, fields, pat, repl);
    case ListRegexReplace =>
      err := ListRewriteInPlace(r);
    case ManaCostReplacement =>
      err := ManaReplaceInPlace(r, floatText);
    case Formatting =>
      err := FormatInPlace(r);
  }

  /** `stage(data)` for a primitive or a `ConcatPipeline`: the loop
      `result = pipeline(result)`, stopped by the first exception. */
  method Apply(st: Stage<Prim>, r: Record, floatText: real -> string) returns (out: Record, err: Option<Error>)
    modifies r
    ensures var t := Run(st, old(r.fields), Meaning(floatText));
      r.fields == t.input && out.fields == t.Output() && err == t.error
      && (t.Same() ==> out == r) && (!t.Same() ==> fresh(out))
    decreases st
  {
    match st
    case Step(p) =>
      out, err := StepInPlace(p, r, floatText);
    case Concat(sts) =>
      var prim := Meaning(floatText);
      ghost var m := r.fields;
      out, err := r, None;
      for i := 0 to |sts|
        invariant var t := Chain(sts[..i], m, prim);
          r.fields == t.input && out.fields == t.Output() && t.error.None?
          && (t.Same() ==> out == r) && (!t.Same() ==> fresh(out))
        invariant err.None?
      {
        ghost var t := Chain(sts[..i], m, prim);
        ChainPrefixStep(sts, i, m, prim);
        SeqThrough(t, Run(sts[i], t.Output(), prim));
        var next, e := Apply(sts[i], out, floatText);
        out := next;
        if e.Some? {
          ChainErrorStops(sts, i + 1, m, prim);
          return out, e;
        }
      }
      assert sts[..|sts|] == sts;
  }

  /** The fields of each record in a list. */
  function FieldsOf(rs: seq<Record>): (r: seq<Fields>)
    reads rs
    ensures |r| == |rs| && forall i | 0 <= i < |rs| :: r[i] == rs[i].fields
  {
    if rs == [] then [] else [rs[0].fields] + FieldsOf(rs[1..])
  }

  /** The call of the stage on each dict of a list, each on its own. */
  function Tracks(st: Stage<Prim>, ms: seq<Fields>, floatText: real -> string): (r: seq<Track>)
    ensures |r| == |ms| && forall k | 0 <= k < |ms| :: r[k] == Run(st, ms[k], Meaning(floatText))
  {
    seq(|ms|, k requires 0 <= k < |ms| => Run(st, ms[k], Meaning(floatText)))
  }

  /** `[self(data) for data in datas]` on values: the list of results, or
      the exception of the first record that raises. */
  function RunAll(st: Stage<Prim>, ms: seq<Fields>, floatText: real -> string): Result<seq<Fields>> {
    Collect(Tracks(st, ms, floatText))
  }

  /** The batch succeeds exactly when every record does, and then the
      results are the records' results in order; otherwise the error is that
      of the first record that fails. */
  lemma RunAllSpec(st: Stage<Prim>, ms: seq<Fields>, floatText: real -> string)
    ensures RunAll(st, ms, floatText).Success?
        <==> forall i | 0 <= i < |ms| :: Run(st, ms[i], Meaning(floatText)).error.None?
    ensures RunAll(st, ms, floatText).Success? ==>
      |RunAll(st, ms, floatText).value| == |ms|
      && forall i | 0 <= i < |ms| :: RunAll(st, ms, floatText).value[i] == Run(st, ms[i], Meaning(floatText)).Output()
    ensures RunAll(st, ms, floatText).Failure? ==>
      exists i | 0 <= i < |ms| ::
        (forall j | 0 <= j < i :: Run(st, ms[j], Meaning(floatText)).error.None?)
        && Run(st, ms[i], Meaning(floatText)).error == Some(RunAll(st, ms, floatText).error)
  {
    var ts := Tracks(st, ms, floatText);
    if Collect(ts).Failure? {
      CollectFirstError(ts);
      var i :| 0 <= i < |ts| && (forall j | 0 <= j < i :: ts[j].error.None?)
        && ts[i].error == Some(Collect(ts).error);
      assert forall j | 0 <= j < i :: Run(st, ms[j], Meaning(floatText)).error.None?;
    }
  }

  /** `self(data)` on the `i`-th record of a list of distinct records:
      the call of `Apply`, which leaves every other record alone. */
  method ApplyAt(st: Stage<Prim>, rs: seq<Record>, i: nat, floatText: real -> string, ghost t: Track)
    returns (out: Record, err: Option<Error>)
    requires i < |rs| && forall a, b | 0 <= a < b < |rs| :: rs[a] != rs[b]
    requires t == Run(st, rs[i].fields, Meaning(floatText))
    modifies rs[i]
    ensures rs[i].fields == t.input && out.fields == t.Output() && err == t.error
    ensures t.Same() ==> out == rs[i]
    ensures !t.Same() ==> fresh(out)
    ensures forall j | 0 <= j < |rs| && j != i :: rs[j].fields == old(rs[j].fields)
  {
    out, err := Apply(st, rs[i], floatText);
    assert forall j | 0 <= j < |rs| && j != i :: rs[j] != rs[i];
  }

  /** Every record before the `k`-th went through without an exception, so
      the loop of `run_multiple` reaches the `k`-th. */
  predicate Reached(ts: seq<Track>, k: nat)
    requires k <= |ts|
  {
    forall j | 0 <= j < k :: ts[j].error.None?
  }

  /** `AbstractPipeline.run_multiple`: the stage on each record in turn.
      Each record the loop reaches is left as its stage left it (the
      failing one included), and the records after a failure keep their
      fields. */
  method RunMultiple(st: Stage<Prim>, rs: seq<Record>, floatText: real -> string)
    returns (outs: seq<Record>, err: Option<Error>)
    requires forall i, j | 0 <= i < j < |rs| :: rs[i] != rs[j]
    modifies rs
    ensures err.None? <==> RunAll(st, old(FieldsOf(rs)), floatText).Success?
    ensures err.None? ==> FieldsOf(outs) == RunAll(st, old(FieldsOf(rs)), floatText).value
    ensures err.Some? ==> err == Some(RunAll(st, old(FieldsOf(rs)), floatText).error)
    ensures var ts := Tracks(st, old(FieldsOf(rs)), floatText);
      forall k | 0 <= k < |rs| ::
        rs[k].fields == if Reached(ts, k) then ts[k].input else old(rs[k].fields)
  {
    ghost var ms := FieldsOf(rs);
    ghost var ts := Tracks(st, ms, floatText);
    outs := [];
    for i := 0 to |rs|
      invariant forall j | i <= j < |rs| :: rs[j].fields == ms[j]
      invariant forall j | 0 <= j < i :: rs[j].fields == ts[j].input
      invariant |outs| == i
      invariant forall k | 0 <= k < i ::
        && (outs[k] == rs[k] || fresh(outs[k]))
        && ts[k].error.None? && outs[k].fields == ts[k].Output()
    {
      var out, e := ApplyAt(st, rs, i, floatText, ts[i]);
      if e.Some? {
        CollectStops(ts, i);
        StopsAt(ts, i);
        return outs, e;
      }
      outs := outs + [out];
    }
    CollectAll(ts, FieldsOf(outs));
    StopsAt(ts, |rs|);
    err := None;
  }

  /** The loop reaches every record up to the first that fails and none
      after it. */
  lemma StopsAt(ts: seq<Track>, i: nat)
    requires i <= |ts| && forall k | 0 <= k < i :: ts[k].error.None?
    requires i < |ts| ==> ts[i].error.Some?
    ensures forall k | 0 <= k <= |ts| :: Reached(ts, k) <==> k <= i
  {
  }

  // ---------------------------------------------------------------------
  // CardPipeline

  /** `enrich_pipeline`: the `card__` prefix, the mana-cost and the typeline
      enrichments. */
  const EnrichStages: seq<Prim> := [PrefixHelper("card__"), ManaCostEnrichment, TypelineEnrichment]

  /** `to_pseudo_pipeline`: keyword expansion, then the automatic reminder. */
  function PseudoStages(defs: seq<KeywordDefinition>): seq<Prim> {
    [KeywordReplacement(ByName(defs)), AutoReminding]
  }

  /** The opening tag of an activation cost. */
  const ActivationOpen: string := ActivationTag + ">"
  const ActivationTag: string := "<span class=" + "'ability-activation" + "-cost'"

  /** `to_html_pipeline`: the literal rewrites of the text, the list rewrite,
      the empty rewrite, the line breaks, and last the mana tokens. */
  const HtmlStages: seq<Prim> := [
    RegexReplace("<<", ActivationOpen, TextField),
    RegexReplace(">>", "</span>", TextField),
    RegexReplace("[[", "<span class='ability-trigger'>", TextField),
    RegexReplace("]]", "</span>", TextField),
    RegexReplace("r(", "<span class='keyword-reminder'>(", TextField),
    RegexReplace(")r", ")</span>", TextField),
    RegexReplace("k(", "<span class='keyword-display'>", TextField),
    RegexReplace(")k", "</span>", TextField),
    ListRegexReplace,
    RegexReplace("", "", TextField),
    RegexReplace("|", "<br>", TextField),
    ManaCostReplacement]

  /** `to_formatted_pipeline`: `~` becomes the card-name field, then the
      text is formatted with the record. */
  const FormattedStages: seq<Prim> := [RegexReplace("~", "{card__name}", TextField), Formatting]

  /** `CardPipeline(keyword_definitions=defs).pipeline`. */
  function CardPipeline(defs: seq<KeywordDefinition>): Stage<Prim> {
    Concat([Concat(StepsOf(EnrichStages)), Concat(StepsOf(PseudoStages(defs))),
            Concat(StepsOf(HtmlStages)), Concat(StepsOf(FormattedStages))])
  }

  /** All primitive stages of `CardPipeline`, in the order they run. */
  function CardStages(defs: seq<KeywordDefinition>): seq<Prim> {
    EnrichStages + PseudoStages(defs) + HtmlStages + FormattedStages
  }

  /** However the sub-pipelines nest, `CardPipeline` is its primitive stages
      run one after the other. */
  lemma CardPipelineFlat(defs: seq<KeywordDefinition>, m: Fields, floatText: real -> string)
    ensures Run(CardPipeline(defs), m, Meaning(floatText)) == Steps(CardStages(defs), m, Meaning(floatText))
  {
    FourGroups(EnrichStages, PseudoStages(defs), HtmlStages, FormattedStages, m, Meaning(floatText));
  }

  /** The order of the stages: enrichment first; keyword expansion and the
      reminder before every bracket rewrite; the mana tokens last of the
      HTML stage; `~` and the format after all of them. */
  lemma CardStageOrder(defs: seq<KeywordDefinition>)
    ensures |CardStages(defs)| == 19
    ensures CardStages(defs)[..3] == EnrichStages
    ensures CardStages(defs)[3] == KeywordReplacement(ByName(defs)) && CardStages(defs)[4] == AutoReminding
    ensures forall i | 5 <= i < 17 :: CardStages(defs)[i].RegexReplace? || CardStages(defs)[i].ListRegexReplace?
                                     || CardStages(defs)[i].ManaCostReplacement?
    ensures CardStages(defs)[16] == ManaCostReplacement
    ensures CardStages(defs)[17] == RegexReplace("~", "{card__name}", TextField)
    ensures CardStages(defs)[18] == Formatting
  {
  }

  /** The caller's dict is never changed: the first stage builds a new dict
      with the prefix, and every later stage works on it. */
  lemma CardPipelineKeepsInput(defs: seq<KeywordDefinition>, m: Fields, floatText: real -> string)
    ensures Run(CardPipeline(defs), m, Meaning(floatText)).input == m
    ensures !Run(CardPipeline(defs), m, Meaning(floatText)).Same()
  {
    var rest := [Concat(StepsOf(PseudoStages(defs))), Concat(StepsOf(HtmlStages)), Concat(StepsOf(FormattedStages))];
    assert EnrichStages == [PrefixHelper("card__")] + EnrichStages[1..];
    assert CardPipeline(defs).stages == [Concat(StepsOf(EnrichStages))] + rest;
    FreshFirstNested(PrefixHelper("card__"), EnrichStages[1..], rest, m, Meaning(floatText));

  }

  /** The enrichment group never produces `cost__names`: the prefix puts
      `card__` on every key, and the two enrichments add only their own
      keys. The card text is the `text` column, untouched. */
  lemma EnrichFrame(m: Fields, floatText: real -> string)
    ensures var o := Steps(EnrichStages, m, Meaning(floatText)).Output();
      "cost__names" !in o && ("text" in m ==> "card__text" in o && o["card__text"] == m["text"])
  {
    var prim := Meaning(floatText);
    var p := Prefix("card__", m);
    CardPrefix(m);
    ManaEnrichFrame(p, floatText);
    var u := ManaEnrich(p, floatText).Output();
    TypelineFrame(u);
    MeaningOfPrefix("card__", m, floatText);
    MeaningOfManaEnrich(p, floatText);
    MeaningOfTypeline(u, floatText);
    ThreeSteps(PrefixHelper("card__"), ManaCostEnrichment, TypelineEnrichment, m, prim);
    assert EnrichStages == [PrefixHelper("card__"), ManaCostEnrichment, TypelineEnrichment];
    KeysAvoid();
  }

  /** After the `card__` prefix no key is `cost__names`, and `card__text`
      holds the `text` column. */
  lemma CardPrefix(m: Fields)
    ensures var p := Prefix("card__", m);
      "cost__names" !in p && ("text" in m ==> "card__text" in p && p["card__text"] == m["text"])
  {
    assert "card__"[1] != "cost__names"[1];
    PrefixAvoids("card__", m, "cost__names");
    if "text" in m {
      PrefixAt("card__", m, "text");
      assert "card__" + "text" == "card__text";
    }
  }

  lemma MeaningOfPrefix(q: string, m: Fields, floatText: real -> string)
    ensures Meaning(floatText)(PrefixHelper(q), m) == PrefixStage(q, m)
  {
  }

  lemma MeaningOfManaEnrich(m: Fields, floatText: real -> string)
    ensures Meaning(floatText)(ManaCostEnrichment, m) == ManaEnrich(m, floatText)
  {
  }

  lemma MeaningOfTypeline(m: Fields, floatText: real -> string)
    ensures Meaning(floatText)(TypelineEnrichment, m) == Typeline(m)
  {
  }

  lemma MeaningOfKeywords(o: Fields, floatText: real -> string)
    ensures Meaning(floatText)(KeywordReplacement(ByName(Catalog)), o) == KeywordReplace(ByName(Catalog), o)
  {
  }

  /** Neither enrichment writes `cost__names` or the card text. */
  lemma KeysAvoid()
    ensures "cost__names" !in EnrichedKeys && "card__text" !in EnrichedKeys
    ensures "cost__names" !in TypelineKeys && "card__text" !in TypelineKeys
  {
    assert |"cost__names"| == 11 && |"card__text"| == 10;
    assert "card__text"[6] == 't' && "card__cost"[6] == 'c' && "cost__info"[0] == 'c';
  }

  /** The keyword stage on a record without `cost__names` whose text
      starts with a `kr.complicated` call raises `KeyError`. */
  lemma ComplicatedStageFails(o: Fields, args: string, rest: string)
    requires forall i | 0 <= i < |args| :: args[i] != '/'
    requires "cost__names" !in o
    requires "card__text" in o && o["card__text"] == Str(CallText(KeywordCall(true, "complicated", args)) + rest)
    ensures KeywordReplace(ByName(Catalog), o).error == Some(MissingKey("cost__names"))
  {
    var c := KeywordCall(true, "complicated", args);
    LowerName("complicated");
    KeywordReplaceSpec(ByName(Catalog), o, c, rest);
    ComplicatedExpansion(args, o);
  }

  lemma KeywordStageRaises(m: Fields, args: string, rest: string, floatText: real -> string)
    requires forall i | 0 <= i < |args| :: args[i] != '/'
    requires "text" in m && m["text"] == Str(CallText(KeywordCall(true, "complicated", args)) + rest)
    ensures var o := Steps(EnrichStages, m, Meaning(floatText)).Output();
      Meaning(floatText)(KeywordReplacement(ByName(Catalog)), o).error == Some(MissingKey("cost__names"))
  {
    EnrichFrame(m, floatText);
    var o := Steps(EnrichStages, m, Meaning(floatText)).Output();
    ComplicatedStageFails(o, args, rest);
    MeaningOfKeywords(o, floatText);
  }

  /** `(kr.complicated ...)` cannot be expanded by this generation: once the
      enrichment has succeeded, the keyword stage raises `KeyError` for
      `cost__names`, and so does the whole pipeline. */
  lemma CurrentComplicatedFails(m: Fields, args: string, rest: string, floatText: real -> string)
    requires forall i | 0 <= i < |args| :: args[i] != '/'
    requires "text" in m && m["text"] == Str(CallText(KeywordCall(true, "complicated", args)) + rest)
    requires Steps(EnrichStages, m, Meaning(floatText)).error.None?
    ensures Run(CardPipeline(Catalog), m, Meaning(floatText)).error == Some(MissingKey("cost__names"))
  {
    KeywordStageRaises(m, args, rest, floatText);
    KeywordStageDecides(Catalog, m, Meaning(floatText));
  }

  /** When the enrichment runs through and the keyword stage raises, the
      card pipeline raises that exception. */
  lemma KeywordStageDecides(defs: seq<KeywordDefinition>, m: Fields, prim: (Prim, Fields) -> Track)
    requires Steps(EnrichStages, m, prim).error.None?
    requires prim(KeywordReplacement(ByName(defs)), Steps(EnrichStages, m, prim).Output()).error.Some?
    ensures Run(CardPipeline(defs), m, prim).error
         == prim(KeywordReplacement(ByName(defs)), Steps(EnrichStages, m, prim).Output()).error
  {
    var kw := KeywordReplacement(ByName(defs));
    assert PseudoStages(defs) == [kw] + [AutoReminding];
    FourGroupsRaise(EnrichStages, kw, [AutoReminding], HtmlStages, FormattedStages, m, prim);
  }

  lemma ActivationSplit()
    ensures '>' !in ActivationTag
  {
    assert '>' !in "<span class=" && '>' !in "'ability-activation" && '>' !in "-cost'";
  }

  /** The `blocker` reminder starts with `<<tap>>`, which the first two HTML
      rewrites turn into an activation-cost span; the rest of the reminder
      has no angle brackets and is kept. */
  lemma BlockerTapSpan()
    ensures |Blocker.reminder| >= 7
    ensures Strings.ReplaceAll(Strings.ReplaceAll(Blocker.reminder, "<<", ActivationOpen), ">>", "</span>")
         == ActivationOpen + "tap</span>" + Blocker.reminder[7..]
  {
    BlockerTailPlain();
    ActivationSplit();
    assert Blocker.reminder == "<<" + "tap" + ">>" + BlockerTail;
    assert Blocker.reminder[7..] == BlockerTail;
    assert ActivationOpen == ActivationTag + ">";
    Strings.WrapBrackets(ActivationTag, "tap", BlockerTail, "</span>");
    assert ActivationTag + ">" + "tap" + "</span>" + BlockerTail == ActivationOpen + "tap</span>" + BlockerTail;
  }
}
