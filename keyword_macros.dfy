/** The replacement function of `KeywordReplacePipeline`, whose body is the
    same in both pipeline generations: an unknown name becomes a marker, a
    known one becomes its display (and, with the `r` flag, its reminder)
    formatted against the record with the call's arguments on top. */
module KeywordMacros {
  import opened Wrappers
  import opened Records
  import opened Keywords
  import Strings
  import Template

  /** The name `arg<i>` of argument `i`. */
  function ArgName(i: nat): string {
    "arg" + Strings.NatToString(i)
  }

  lemma ArgNamesDistinct()
    ensures forall i: nat, j: nat {:trigger ArgName(i), ArgName(j)} :: ArgName(i) == ArgName(j) ==> i == j
  {
    forall i: nat, j: nat | ArgName(i) == ArgName(j) ensures i == j {
      assert ArgName(i)[3..] == Strings.NatToString(i);
      assert ArgName(j)[3..] == Strings.NatToString(j);
      Strings.NatToStringInjective(i, j);
    }
  }

  /** `groupdict["args"].split(", ")`. */
  function ArgPieces(args: string): (r: seq<string>)
    ensures |r| >= 1
  {
    Strings.SplitOn(args, ", ")
  }

  /** `{f"arg{i}": v for i, v in enumerate(groupdict["args"].split(", "))}`. */
  function ArgMap(args: string): (r: map<string, string>)
    ensures forall i | 0 <= i < |ArgPieces(args)| :: ArgName(i) in r && r[ArgName(i)] == ArgPieces(args)[i]
    ensures forall k | k in r :: exists i | 0 <= i < |ArgPieces(args)| :: k == ArgName(i)
  {
    var pieces := ArgPieces(args);
    ArgNamesDistinct();
    map i | 0 <= i < |pieces| :: ArgName(i) := pieces[i]
  }

  /** There is no argument beyond the last piece. */
  lemma ArgMapSpec(args: string)
    ensures forall i: nat | i >= |ArgPieces(args)| :: ArgName(i) !in ArgMap(args)
  {
    ArgNamesDistinct();
  }

  /** Empty arguments still give `arg0`, bound to the empty string. */
  lemma EmptyArgs()
    ensures ArgMap("") == map["arg0" := ""]
  {
    assert ArgPieces("") == [""];
    assert ArgName(0) == "arg0";
    ArgMapSpec("");
  }

  /** Arguments without `", "` give exactly `arg0`. */
  lemma OneArg(args: string)
    requires !Strings.Occurs(args, ", ")
    ensures ArgPieces(args) == [args]
    ensures ArgMap(args) == map["arg0" := args]
  {
    Strings.SplitFromAbsent(args, ", ", []);
    assert [] + args == args;
    assert ArgName(0) == "arg0";
    ArgMapSpec(args);
  }

  /** `f"k({definition.display})k" + (f" r({definition.reminder})r" if show_reminder else "")`. */
  function FormatString(d: KeywordDefinition, reminder: bool): string {
    "k(" + d.display + ")k" + (if reminder then " r(" + d.reminder + ")r" else "")
  }

  /** `{**data, **args}` as `format_map` reads it. */
  function Context(data: Fields, args: string): map<string, string> {
    Rendered(data) + ArgMap(args)
  }

  /** An argument hides a record field of the same name; every other name
      comes from the record. */
  lemma ContextPriority(data: Fields, args: string, k: string)
    ensures k in Context(data, args) <==> k in ArgMap(args) || k in Rendered(data)
    ensures k in ArgMap(args) ==> Context(data, args)[k] == ArgMap(args)[k]
    ensures k !in ArgMap(args) && k in Rendered(data) ==> Context(data, args)[k] == Rendered(data)[k]
  {
  }

  /** The groups of a keyword call: the `r` flag, the name and the
      argument text. */
  datatype KeywordCall = KeywordCall(reminder: bool, name: string, args: string)

  /** `_repl` for one call, in the context of the record being processed. */
  function KeywordRepl(defs: map<string, KeywordDefinition>, m: Fields): KeywordCall -> Result<string> {
    (c: KeywordCall) => Expand(defs, c.reminder, c.name, c.args, m)
  }

  /** `_repl` of a keyword call `k[r].name args`. */
  function Expand(defs: map<string, KeywordDefinition>, reminder: bool, name: string, args: string,
                  data: Fields): Result<string>
  {
    if name !in defs then Success("k(UNKNOWN_KEYWORD_" + name + ")k")
    else Template.Format(FormatString(defs[name], reminder), Context(data, args))
  }

  /** The text a reminder adds, or nothing. */
  function ReminderText(reminder: bool, text: string): string {
    if reminder then " r(" + text + ")r" else ""
  }

  /** An unknown name never raises: it becomes `k(UNKNOWN_KEYWORD_<name>)k`. */
  lemma UnknownKeyword(reminder: bool, name: string, args: string, data: Fields)
    requires name !in {"blocker", "tribute", "harvest", "first", "complicated"}
    ensures Expand(ByName(Catalog), reminder, name, args, data) == Success("k(UNKNOWN_KEYWORD_" + name + ")k")
  {
    CatalogByName();
  }

  /** A definition whose texts have no replacement field comes out verbatim. */
  lemma PlainExpansion(defs: map<string, KeywordDefinition>, d: KeywordDefinition, reminder: bool,
                       args: string, data: Fields)
    requires d.name in defs && defs[d.name] == d
    requires Template.BraceFree(d.display) && Template.BraceFree(d.reminder)
    ensures Expand(defs, reminder, d.name, args, data)
         == Success("k(" + d.display + ")k" + ReminderText(reminder, d.reminder))
  {
    Template.FormatPlain(FormatString(d, reminder), Context(data, args));
  }

  /** A display `lead{arg0}` gets the value of `arg0`; a reminder without
      fields comes out verbatim. */
  lemma FormatArgZero(d: KeywordDefinition, lead: string, reminder: bool, ctx: map<string, string>)
    requires d.display == lead + "{arg0}" && Template.BraceFree(lead) && Template.BraceFree(d.reminder)
    requires "arg0" in ctx
    ensures Template.Format(FormatString(d, reminder), ctx)
         == Success("k(" + lead + ctx["arg0"] + ")k" + ReminderText(reminder, d.reminder))
  {
    var tail := ")k" + ReminderText(reminder, d.reminder);
    assert FormatString(d, reminder) == "k(" + lead + "{" + "arg0" + "}" + tail;
    assert Template.FieldName("arg0") by { assert !('0' <= "arg0"[0] <= '9'); }
    Template.FormatOneField("k(" + lead, "arg0", tail, ctx);
    assert "k(" + lead + ctx["arg0"] + tail
        == "k(" + lead + ctx["arg0"] + ")k" + ReminderText(reminder, d.reminder);
  }

  /** A display `lead{arg0}` and a reminder `pre{k}post`: the value of `arg0`,
      then the value of `k`, which may be missing. */
  lemma FormatTwoFields(d: KeywordDefinition, lead: string, pre: string, k: string, post: string,
                        ctx: map<string, string>)
    requires d.display == lead + "{arg0}" && Template.BraceFree(lead)
    requires d.reminder == pre + "{" + k + "}" + post && Template.FieldName(k)
    requires Template.BraceFree(pre) && Template.BraceFree(post)
    requires "arg0" in ctx
    ensures Template.Format(FormatString(d, true), ctx)
         == if k in ctx
            then Success("k(" + lead + ctx["arg0"] + ")k r(" + pre + ctx[k] + post + ")r")
            else Failure(MissingKey(k))
  {
    var a := ")k r(" + pre;
    var b := post + ")r";
    assert FormatString(d, true) == "k(" + lead + "{" + "arg0" + "}" + (a + "{" + k + "}" + b);
    assert Template.FieldName("arg0") by { assert !('0' <= "arg0"[0] <= '9'); }
    Template.FormatFieldThen("k(" + lead, "arg0", a + "{" + k + "}" + b, ctx);
    Template.FormatOneField(a, k, b, ctx);
    if k in ctx {
      assert "k(" + lead + ctx["arg0"] + (a + ctx[k] + b)
          == "k(" + lead + ctx["arg0"] + ")k r(" + pre + ctx[k] + post + ")r";
    }
  }

  /** `arg0` is always bound, to the first piece of the arguments. */
  lemma ArgZeroBound(data: Fields, args: string)
    ensures "arg0" in Context(data, args) && Context(data, args)["arg0"] == ArgPieces(args)[0]
  {
    assert ArgName(0) == "arg0";
    ContextPriority(data, args, "arg0");
  }

  /** `blocker` has no placeholders: its display, and with `r` its reminder,
      come out verbatim. */
  lemma BlockerExpansion(reminder: bool, args: string, data: Fields)
    ensures Expand(ByName(Catalog), reminder, "blocker", args, data)
         == Success("k(" + Blocker.display + ")k" + ReminderText(reminder, Blocker.reminder))
  {
    CatalogLookup(Blocker, "blocker");
    BlockerPlain();
    PlainExpansion(ByName(Catalog), Blocker, reminder, args, data);
  }

  /** `tribute` and `harvest` insert only `arg0`, the first argument, which
      always exists; their reminders are verbatim. */
  lemma ArgZeroExpansion(d: KeywordDefinition, lead: string, reminder: bool, args: string, data: Fields)
    requires (d == Tribute && lead == "Tribute - ") || (d == Harvest && lead == "Harvest - ")
    ensures Expand(ByName(Catalog), reminder, d.name, args, data)
         == Success("k(" + lead + ArgPieces(args)[0] + ")k" + ReminderText(reminder, d.reminder))
  {
    CatalogLookup(d, d.name);
    if d == Tribute { TributePlain(); } else { HarvestPlain(); }
    ArgZeroBound(data, args);
    FormatArgZero(d, lead, reminder, Context(data, args));
  }

  /** The reminder of `first` needs `arg1`: with `r` and a single argument
      (and no record field `arg1`) the format step raises `KeyError`; with
      two arguments both are inserted. */
  lemma FirstExpansion(args: string, data: Fields)
    requires "arg1" !in data
    ensures var pieces := ArgPieces(args);
      Expand(ByName(Catalog), true, "first", args, data)
      == if |pieces| >= 2
         then Success("k(First " + pieces[0] + ")k r(" + "And the reminder uses the second " + pieces[1] + ")r")
         else Failure(MissingKey("arg1"))
  {
    CatalogLookup(First, "first");
    ArgZeroBound(data, args);
    ArgOneBound(data, args);
    FirstFormat(Context(data, args));
  }

  lemma FirstFormat(ctx: map<string, string>)
    requires "arg0" in ctx
    ensures Template.Format(FormatString(First, true), ctx)
         == if "arg1" in ctx
            then Success("k(First " + ctx["arg0"] + ")k r(" + "And the reminder uses the second " + ctx["arg1"] + ")r")
            else Failure(MissingKey("arg1"))
  {
    var pre := "And the reminder uses the second ";
    assert Template.BraceFree(pre);
    assert First.reminder == pre + "{" + "arg1" + "}" + "";
    assert Template.FieldName("arg1") by { assert !('0' <= "arg1"[0] <= '9'); }
    FormatTwoFields(First, "First ", pre, "arg1", "", ctx);
    if "arg1" in ctx {
      FirstText(ctx["arg0"], pre, ctx["arg1"]);
    }
  }

  lemma FirstText(a: string, pre: string, v: string)
    ensures "k(" + "First " + a + ")k r(" + pre + v + "" + ")r" == "k(First " + a + ")k r(" + pre + v + ")r"
  {
  }

  /** `arg1` is bound exactly when there are two arguments or more, unless
      the record has a field of that name. */
  lemma ArgOneBound(data: Fields, args: string)
    requires "arg1" !in data
    ensures "arg1" in Context(data, args) <==> |ArgPieces(args)| >= 2
    ensures |ArgPieces(args)| >= 2 ==> Context(data, args)["arg1"] == ArgPieces(args)[1]
  {
    assert ArgName(1) == "arg1";
    ContextPriority(data, args, "arg1");
    ArgMapSpec(args);
  }

  /** The reminder of `complicated` needs the record field `cost__names`,
      which no argument can provide. */
  lemma ComplicatedExpansion(args: string, data: Fields)
    ensures var pieces := ArgPieces(args);
      Expand(ByName(Catalog), true, "complicated", args, data)
      == if "cost__names" in Rendered(data)
         then Success("k(Complicated " + pieces[0] + ")k r(" + Rendered(data)["cost__names"] + " ~)r")
         else Failure(MissingKey("cost__names"))
  {
    CatalogLookup(Complicated, "complicated");
    ArgZeroBound(data, args);
    assert "cost__names"[0] == 'c';
    RecordOnly(data, args, "cost__names");
    ComplicatedFormat(Context(data, args));
  }

  lemma ComplicatedFormat(ctx: map<string, string>)
    requires "arg0" in ctx
    ensures Template.Format(FormatString(Complicated, true), ctx)
         == if "cost__names" in ctx
            then Success("k(Complicated " + ctx["arg0"] + ")k r(" + ctx["cost__names"] + " ~)r")
            else Failure(MissingKey("cost__names"))
  {
    assert Complicated.reminder == "" + "{" + "cost__names" + "}" + " ~";
    assert Template.FieldName("cost__names") by { assert !('0' <= "cost__names"[0] <= '9'); }
    FormatTwoFields(Complicated, "Complicated ", "", "cost__names", " ~", ctx);
    if "cost__names" in ctx {
      ComplicatedText(ctx["arg0"], ctx["cost__names"]);
    }
  }

  lemma ComplicatedText(a: string, v: string)
    ensures "k(" + "Complicated " + a + ")k r(" + "" + v + " ~" + ")r" == "k(Complicated " + a + ")k r(" + v + " ~)r"
  {
  }

  /** A name that does not start like `arg` can only come from the record. */
  lemma RecordOnly(data: Fields, args: string, k: string)
    requires k != [] && k[0] != 'a'
    ensures k in Context(data, args) <==> k in Rendered(data)
    ensures k in Rendered(data) ==> Context(data, args)[k] == Rendered(data)[k]
  {
    assert k !in ArgMap(args) by {
      forall i | 0 <= i < |ArgPieces(args)| ensures ArgName(i) != k {
        assert ArgName(i)[0] == 'a';
      }
    }
    ContextPriority(data, args, k);
  }

  /** The texts of the catalog without replacement fields, checked piece by
      piece. */
  lemma BlockerPlain()
    ensures Template.BraceFree(Blocker.display) && Template.BraceFree(Blocker.reminder)
  {
    assert Template.BraceFree("<<tap>> Change the ");
    assert Template.BraceFree("target of an enemy ");
    assert Template.BraceFree("attack from an ");
    assert Template.BraceFree("adjacent creature ");
    assert Template.BraceFree("or you to this ");
    assert Template.BraceFree("creature.");
  }

  lemma TributePlain()
    ensures Tribute.display == "Tribute - " + "{arg0}" && Template.BraceFree("Tribute - ")
    ensures Template.BraceFree(Tribute.reminder)
  {
    assert Template.BraceFree("To cast this spell ");
    assert Template.BraceFree("you must pay its ");
    assert Template.BraceFree("tribute cost in ");
    assert Template.BraceFree("addition to its ");
    assert Template.BraceFree("normal costs.");
  }

  lemma HarvestPlain()
    ensures Harvest.display == "Harvest - " + "{arg0}" && Template.BraceFree("Harvest - ")
    ensures Template.BraceFree(Harvest.reminder)
  {
    assert Template.BraceFree("Get this effect ");
    assert Template.BraceFree("when used as an ");
    assert Template.BraceFree("Ingredient.");
  }
}
