/** The pyparsing grammar of card text, read as a PEG over characters. Each
    rule either matches a prefix of its input, giving the text its parse
    action builds and the input left over, or does not match. `ATOM` is an
    ordered choice, `TEXT_LINE` a greedy repetition of atoms joined into one
    string, and `TEXT` the lines joined by `<br>`; `parse_text` keeps the
    joined tokens of the longest prefix that `TEXT` matches and
    `parse_cost` the dict built for a leading mana cost. */
module Grammar {
  import opened Wrappers
  import Replacer
  import Template

  /** The outcome of a rule. `NoParse` is pyparsing's `ParseException`, which
      an alternative or a repetition catches; `Raised` is any other exception
      of a parse action, which ends the whole parse. */
  datatype Parsed<T> = Ok(out: T, rest: string) | NoParse | Raised(error: Error)

  /** The parse actions the grammar file does not fix: the `MANA_CLASSES`
      lookup and the keyword expansion, called with the keyword's name, its
      `r` flag and its arguments (`None` when the call has none). */
  datatype Actions = Actions(
    manaClass: char -> string,
    expand: (string, bool, Option<seq<string>>) -> Result<string>)

  predicate IsDigit(c: char) { '0' <= c <= '9' }

  predicate IsLower(c: char) { 'a' <= c <= 'z' }

  /** `MANA_COLOR`: one of `D A O P L`. */
  predicate ManaColor(c: char) { c == 'D' || c == 'A' || c == 'O' || c == 'P' || c == 'L' }

  /** The characters of `WORD`: ASCII letters and digits, `.`, `'`, `"`, `:`
      and space. */
  predicate WordChar(c: char) {
    'a' <= c <= 'z' || 'A' <= c <= 'Z' || '0' <= c <= '9'
    || c == '.' || c == '\'' || c == '"' || c == ':' || c == ' '
  }

  /** The length of the longest prefix of `s` whose characters satisfy `p`. */
  function Run(s: string, p: char -> bool): (n: nat)
    ensures n <= |s|
    ensures forall i | 0 <= i < n :: p(s[i])
    ensures n < |s| ==> !p(s[n])
  {
    if s == [] || !p(s[0]) then 0 else 1 + Run(s[1..], p)
  }

  lemma RunStops(w: string, rest: string, p: char -> bool)
    requires forall i | 0 <= i < |w| :: p(w[i])
    requires rest == [] || !p(rest[0])
    ensures Run(w + rest, p) == |w|
  {
    assert forall i | 0 <= i < |w| :: (w + rest)[i] == w[i];
    assert rest != [] ==> (w + rest)[|w|] == rest[0];
  }

  const ActivationTemplate := "<span class='ability-activation-cost'>{text}</span>"
  const TriggerTemplate := "<span class='ability-trigger'>{text}</span>"

  /** `a | b`: the second alternative is tried only when the first does not match. */
  function Or<T>(a: Parsed<T>, b: Parsed<T>): Parsed<T> {
    if a.NoParse? then b else a
  }

  /** `MANA_COST`: `(`, `NUMBER`, one or more `MANA_COLOR`, `)`; the value
      and the colour letters as matched. */
  function ManaToken(s: string): (r: Parsed<(string, string)>)
    ensures r.Ok? ==> |r.rest| < |s|
  {
    if s == [] || s[0] != '(' then NoParse
    else
      var n := Run(s[1..], IsDigit);
      var t := s[1 + n..];
      var c := Run(t, ManaColor);
      if n == 0 || c == 0 || c == |t| || t[c] != ')' then NoParse
      else Ok((s[1..1 + n], t[..c]), t[c + 1..])
  }

  /** `MANA_COST_IN_TEXT`: the mana badge. */
  function ManaInText(act: Actions, s: string): (r: Parsed<string>)
    ensures r.Ok? ==> |r.rest| < |s|
  {
    match ManaToken(s)
    case Ok((value, colors), rest) => Ok(Replacer.ManaElement(act.manaClass, value, colors), rest)
    case NoParse => NoParse
    case Raised(e) => Raised(e)
  }

  /** `CARDNAME`: `~` becomes the `{name}` field. */
  function CardName(s: string): (r: Parsed<string>)
    ensures r.Ok? ==> |r.rest| < |s|
  {
    if s != [] && s[0] == '~' then Ok("{name}", s[1..]) else NoParse
  }

  /** `WORD`: the longest non-empty run of word characters, kept as it is. */
  function Word(s: string): (r: Parsed<string>)
    ensures r.Ok? ==> |r.rest| < |s|
  {
    var n := Run(s, WordChar);
    if n == 0 then NoParse else Ok(s[..n], s[n..])
  }

  /** `ACTIVATED` and `TRIGGERED`: a text line between two-character
      brackets, formatted into the ability's span. */
  function Enclosed(act: Actions, s: string, open: string, close: string, template: string): (r: Parsed<string>)
    requires open != []
    ensures r.Ok? ==> |r.rest| < |s|
    decreases |s|, 0
  {
    if !(open <= s) then NoParse
    else
      match TextLine(act, s[|open|..])
      case NoParse => NoParse
      case Raised(e) => Raised(e)
      case Ok(text, rest) =>
        if !(close <= rest) then NoParse
        else
          match Replacer.FormatReplace(template, map["text" := text])
          case Success(o) => Ok(o, rest[|close|..])
          case Failure(e) => Raised(e)
  }

  function Activated(act: Actions, s: string): (r: Parsed<string>)
    ensures r.Ok? ==> |r.rest| < |s|
    decreases |s|, 1
  {
    Enclosed(act, s, "<<", ">>", ActivationTemplate)
  }

  function Triggered(act: Actions, s: string): (r: Parsed<string>)
    ensures r.Ok? ==> |r.rest| < |s|
    decreases |s|, 1
  {
    Enclosed(act, s, "[[", "]]", TriggerTemplate)
  }

  /** `KEYWORD`: `>k`, an optional `r`, `.`, a lower-case name, then the
      optional argument list in parentheses, handed to the expansion. */
  function Keyword(act: Actions, s: string): (r: Parsed<string>)
    ensures r.Ok? ==> |r.rest| < |s|
    decreases |s|, 1
  {
    if !(">k" <= s) then NoParse
    else
      var reminder := ">kr" <= s;
      KeywordCall(act, reminder, s[if reminder then 3 else 2..])
  }

  /** What follows `>k` or `>kr`: `.`, the name, `(` and the arguments. */
  function KeywordCall(act: Actions, reminder: bool, t: string): (r: Parsed<string>)
    ensures r.Ok? ==> |r.rest| < |t|
    decreases |t|, 0
  {
    if !("." <= t) then NoParse
    else
      var n := Run(t[1..], IsLower);
      var u := t[1 + n..];
      if n == 0 || !("(" <= u) then NoParse
      else KeywordArgs(act, t[1..1 + n], reminder, u[1..])
  }

  /** The optional argument list of a keyword call, then its closing. */
  function KeywordArgs(act: Actions, name: string, reminder: bool, s: string): (r: Parsed<string>)
    ensures r.Ok? ==> |r.rest| < |s|
    decreases |s|, 5
  {
    match TextList(act, s)
    case Raised(e) => Raised(e)
    case NoParse => KeywordClose(act, name, reminder, None, s)
    case Ok(args, v) => KeywordClose(act, name, reminder, Some(args), v)
  }

  /** The closing parenthesis of a keyword call, then its expansion. */
  function KeywordClose(act: Actions, name: string, reminder: bool, args: Option<seq<string>>, s: string): (r: Parsed<string>)
    ensures r.Ok? ==> |r.rest| < |s|
  {
    if !(")" <= s) then NoParse
    else
      match act.expand(name, reminder, args)
      case Success(o) => Ok(o, s[1..])
      case Failure(e) => Raised(e)
  }

  /** `BULLET_LIST`: `>l(`, the optional argument list, `)`. */
  function BulletList(act: Actions, s: string): (r: Parsed<string>)
    ensures r.Ok? ==> |r.rest| < |s|
    decreases |s|, 0
  {
    if !(">l(" <= s) then NoParse
    else
      match TextList(act, s[3..])
      case Raised(e) => Raised(e)
      case NoParse => BulletClose(None, s[3..])
      case Ok(items, rest) => BulletClose(Some(items), rest)
  }

  /** The closing parenthesis of a list, then `ListReplacer`, which has no
      default for `args`: a list without items raises `TypeError`. */
  function BulletClose(args: Option<seq<string>>, s: string): (r: Parsed<string>)
    ensures r.Ok? ==> |r.rest| < |s|
  {
    if !(")" <= s) then NoParse
    else
      match args
      case None => Raised(WrongType("args"))
      case Some(items) => Ok(Replacer.ListReplace(items), s[1..])
  }

  /** `ATOM`, tried in the order the grammar lists its alternatives. */
  function Atom(act: Actions, s: string): (r: Parsed<string>)
    ensures r.Ok? ==> |r.rest| < |s|
    decreases |s|, 2
  {
    Or(BulletList(act, s),
    Or(Keyword(act, s),
    Or(ManaInText(act, s),
    Or(Activated(act, s),
    Or(Triggered(act, s),
    Or(CardName(s), Word(s)))))))
  }

  /** `TEXT_LINE`: one or more atoms, as many as match, joined. */
  function TextLine(act: Actions, s: string): (r: Parsed<string>)
    ensures r.Ok? ==> |r.rest| < |s|
    decreases |s|, 3
  {
    match Atom(act, s)
    case NoParse => NoParse
    case Raised(e) => Raised(e)
    case Ok(o, rest) =>
      match TextLine(act, rest)
      case NoParse => Ok(o, rest)
      case Raised(e) => Raised(e)
      case Ok(more, rest2) => Ok(o + more, rest2)
  }

  /** `TEXT_LIST`: text lines separated by commas, the commas dropped. */
  function TextList(act: Actions, s: string): (r: Parsed<seq<string>>)
    ensures r.Ok? ==> |r.rest| < |s|
    decreases |s|, 4
  {
    match TextLine(act, s)
    case NoParse => NoParse
    case Raised(e) => Raised(e)
    case Ok(o, rest) =>
      if !("," <= rest) then Ok([o], rest)
      else
        match TextList(act, rest[1..])
        case NoParse => Ok([o], rest)
        case Raised(e) => Raised(e)
        case Ok(os, rest2) => Ok([o] + os, rest2)
  }

  /** `ZeroOrMore(NEWLINE + TEXT_LINE)`: each `|` followed by a line becomes
      `<br>` and the line; a `|` without a line after it ends the repetition. */
  function MoreLines(act: Actions, s: string): (r: Parsed<string>)
    ensures !r.NoParse?
    ensures r.Ok? ==> |r.rest| <= |s|
    decreases |s|
  {
    if !("|" <= s) then Ok("", s)
    else
      match TextLine(act, s[1..])
      case NoParse => Ok("", s)
      case Raised(e) => Raised(e)
      case Ok(o, rest) =>
        match MoreLines(act, rest)
        case Ok(more, rest2) => Ok("<br>" + o + more, rest2)
        case Raised(e) => Raised(e)
        case NoParse => NoParse
  }

  /** `TEXT`: a line, then the further lines. */
  function Text(act: Actions, s: string): Parsed<string> {
    match TextLine(act, s)
    case NoParse => NoParse
    case Raised(e) => Raised(e)
    case Ok(o, rest) =>
      match MoreLines(act, rest)
      case Ok(more, rest2) => Ok(o + more, rest2)
      case Raised(e) => Raised(e)
      case NoParse => NoParse
  }

  /** `Parser.parse_text`: the joined tokens of `TEXT`; what follows the
      longest match is ignored, and no match at all is a `ParseException`. */
  function ParseText(act: Actions, s: string): Result<string> {
    match Text(act, s)
    case Ok(o, _) => Success(o)
    case NoParse => Failure(NoMatch(s))
    case Raised(e) => Failure(e)
  }

  /** `Parser.parse_cost(s)[0]`: the dict of `MANA_COST_IN_COST` for a cost
      at the start of `s`. */
  function ParseCost(manaClass: char -> string, s: string): Result<map<string, string>> {
    match ManaToken(s)
    case Ok((value, colors), _) => Success(Replacer.ManaDict(manaClass, value, colors))
    case _ => Failure(NoMatch(s))
  }

  // ---------------------------------------------------------------------
  // Properties of single rules

  /** Each alternative of `ATOM` can only match text starting with its own
      character: `>` (and then `l` or `k`), `(`, `<`, `[`, `~` or a word
      character. */
  lemma Leads(act: Actions, s: string)
    ensures (|s| < 2 || s[0] != '>' || s[1] != 'l') ==> BulletList(act, s).NoParse?
    ensures (|s| < 2 || s[0] != '>' || s[1] != 'k') ==> Keyword(act, s).NoParse?
    ensures (s == [] || s[0] != '(') ==> ManaInText(act, s).NoParse?
    ensures (s == [] || s[0] != '<') ==> Activated(act, s).NoParse?
    ensures (s == [] || s[0] != '[') ==> Triggered(act, s).NoParse?
    ensures (s == [] || s[0] != '~') ==> CardName(s).NoParse?
    ensures (s == [] || !WordChar(s[0])) ==> Word(s).NoParse?
  {
    if ">l(" <= s { assert s[0] == ">l("[0] && s[1] == ">l("[1]; }
    if ">k" <= s { assert s[0] == ">k"[0] && s[1] == ">k"[1]; }
    if "<<" <= s { assert s[0] == "<<"[0]; }
    if "[[" <= s { assert s[0] == "[["[0]; }
  }

  /** The alternatives of `ATOM` start with distinct characters, so at most one
      of them matches, and the atom is whichever does: the order of the
      choice never decides between two matches. */
  lemma AtomAlternative(act: Actions, s: string)
    ensures !BulletList(act, s).NoParse? ==> Atom(act, s) == BulletList(act, s)
    ensures !Keyword(act, s).NoParse? ==> Atom(act, s) == Keyword(act, s)
    ensures !ManaInText(act, s).NoParse? ==> Atom(act, s) == ManaInText(act, s)
    ensures !Activated(act, s).NoParse? ==> Atom(act, s) == Activated(act, s)
    ensures !Triggered(act, s).NoParse? ==> Atom(act, s) == Triggered(act, s)
    ensures !CardName(s).NoParse? ==> Atom(act, s) == CardName(s)
    ensures !Word(s).NoParse? ==> Atom(act, s) == Word(s)
  {
    Leads(act, s);
  }

  /** Text at which a line stops: the end, `|`, `,`, `)`, `]` or `>>`. */
  predicate LineEnd(s: string) {
    s == [] || s[0] == '|' || s[0] == ',' || s[0] == ')' || s[0] == ']'
    || (|s| >= 2 && s[0] == '>' && s[1] == '>')
  }

  /** No atom, and so no line, starts where a line stops. */
  lemma NoLineAtEnd(act: Actions, s: string)
    requires LineEnd(s)
    ensures Atom(act, s).NoParse? && TextLine(act, s).NoParse?
  {
    Leads(act, s);
  }

  /** `WORD` matches exactly when the text starts with a word character,
      takes the whole run of them, and so never takes any of
      `( ) < > [ ] ~ | ,`. */
  lemma WordSpec(s: string)
    ensures Word(s).Ok? <==> s != [] && WordChar(s[0])
    ensures Word(s).Ok? ==> s == Word(s).out + Word(s).rest
    ensures Word(s).Ok? ==> forall i | 0 <= i < |Word(s).out| :: WordChar(Word(s).out[i])
    ensures Word(s).Ok? ==> Word(s).rest == [] || !WordChar(Word(s).rest[0])
    ensures Word(s).Ok? ==> forall i | 0 <= i < |Word(s).out| :: Word(s).out[i] !in "()<>[]~|,"
  {
    if Word(s).Ok? {
      var n := Run(s, WordChar);
      assert s == s[..n] + s[n..];
      forall i | 0 <= i < n ensures s[i] !in "()<>[]~|," {
        assert WordChar(s[i]);
      }
    }
  }

  /** A cost token the grammar accepts: digits (no `X`) and colour letters,
      each at least one, repeats allowed. */
  predicate ManaShape(value: string, colors: string) {
    value != [] && colors != []
    && (forall i | 0 <= i < |value| :: IsDigit(value[i]))
    && (forall i | 0 <= i < |colors| :: ManaColor(colors[i]))
  }

  /** Every such token is matched, with its value and letters, and the text
      after it is left over. */
  lemma ManaTokenComplete(value: string, colors: string, rest: string)
    requires ManaShape(value, colors)
    ensures ManaToken("(" + value + colors + ")" + rest) == Ok((value, colors), rest)
  {
    var s := "(" + value + colors + ")" + rest;
    assert s[1..] == value + (colors + ")" + rest);
    RunStops(value, colors + ")" + rest, IsDigit);
    var t := s[1 + |value|..];
    assert t == colors + (")" + rest);
    RunStops(colors, ")" + rest, ManaColor);
    assert t[..|colors|] == colors && t[|colors|] == ')' && t[|colors| + 1..] == rest;
    assert s[1..1 + |value|] == value;
  }

  /** Whatever is matched is such a token followed by the text left over. */
  lemma ManaTokenSound(s: string)
    requires ManaToken(s).Ok?
    ensures ManaShape(ManaToken(s).out.0, ManaToken(s).out.1)
    ensures s == "(" + ManaToken(s).out.0 + ManaToken(s).out.1 + ")" + ManaToken(s).rest
  {
    var n := Run(s[1..], IsDigit);
    var t := s[1 + n..];
    var c := Run(t, ManaColor);
    var v := s[1..1 + n];
    assert ManaToken(s) == Ok((v, t[..c]), t[c + 1..]);
    assert forall i | 0 <= i < |v| :: IsDigit(v[i]) by {
      RunPrefix(s[1..], IsDigit);
      assert v == s[1..][..n];
    }
    assert s == "(" + v + t[..c] + ")" + t[c + 1..] by {
      RejoinToken(s, n, c);
    }
  }

  lemma RunPrefix(x: string, p: char -> bool)
    ensures forall i | 0 <= i < Run(x, p) :: p(x[..Run(x, p)][i])
  {
  }

  /** A text cut after `(`, a run of `n` characters and a run of `c` more,
      where a `)` follows. */
  lemma RejoinToken(s: string, n: nat, c: nat)
    requires 1 + n + c < |s| && s[0] == '(' && s[1 + n + c] == ')'
    ensures var t := s[1 + n..];
      s == "(" + s[1..1 + n] + t[..c] + ")" + t[c + 1..]
  {
    var t := s[1 + n..];
    assert t == t[..c] + [t[c]] + t[c + 1..];
    assert s == [s[0]] + s[1..1 + n] + t;
  }

  /** `X` is not a digit here, and repeated letters are kept. */
  lemma ManaTokenExamples()
    ensures ManaToken("(XD)").NoParse?
    ensures ManaToken("(2DD)") == Ok(("2", "DD"), "")
  {
    assert Run("(XD)"[1..], IsDigit) == 0 by { assert "(XD)"[1..][0] == 'X'; }
    assert ManaShape("2", "DD");
    ManaTokenComplete("2", "DD", "");
    assert "(" + "2" + "DD" + ")" + "" == "(2DD)";
  }

  /** `~` and `|` are the card-name field and a line break. */
  lemma CardNameAtom(act: Actions, rest: string)
    ensures Atom(act, "~" + rest) == Ok("{name}", rest)
  {
    Leads(act, "~" + rest);
    assert ("~" + rest)[1..] == rest;
  }

  /** The activation and trigger templates put the rendered line inside their span. */
  lemma AbilitySpans(text: string)
    ensures Replacer.FormatReplace(ActivationTemplate, map["text" := text])
         == Success("<span class='ability-activation-cost'>" + text + "</span>")
    ensures Replacer.FormatReplace(TriggerTemplate, map["text" := text])
         == Success("<span class='ability-trigger'>" + text + "</span>")
  {
    TemplatePieces();
    Replacer.FormatReplaceOne("<span class='ability-activation-cost'>", "text", "</span>", text);
    Replacer.FormatReplaceOne("<span class='ability-trigger'>", "text", "</span>", text);
  }

  lemma TemplatePieces()
    ensures Template.BraceFree("<span class='ability-activation-cost'>")
    ensures Template.BraceFree("<span class='ability-trigger'>")
    ensures Template.BraceFree("</span>")
    ensures Template.FieldName("text")
    ensures ActivationTemplate == "<span class='ability-activation-cost'>" + "{" + "text" + "}" + "</span>"
    ensures TriggerTemplate == "<span class='ability-trigger'>" + "{" + "text" + "}" + "</span>"
  {
    BraceFreePieces();
    assert !('0' <= "text"[0] <= '9');
  }

  lemma BraceFreePieces()
    ensures Template.BraceFree("<span class='ability-activation-cost'>")
    ensures Template.BraceFree("<span class='ability-trigger'>")
    ensures Template.BraceFree("</span>")
    ensures Template.BraceFree("text")
  {
    var a, t := "<span class='ability-activation-cost'>", "<span class='ability-trigger'>";
    assert forall i | 0 <= i < |a| :: a[i] != '{' && a[i] != '}';
    assert forall i | 0 <= i < |t| :: t[i] != '{' && t[i] != '}';
  }

  // ---------------------------------------------------------------------
  // Card text as a tree: what it is written as and what it renders to

  /** An atom of card text. */
  datatype Node =
    | ListNode(items: seq<Phrase>)
    | KeywordNode(reminder: bool, name: string, args: seq<Phrase>)
    | ManaNode(value: string, colors: string)
    | ActivatedNode(inner: Phrase)
    | TriggeredNode(inner: Phrase)
    | NameNode
    | WordNode(w: string)

  /** A text line: a sequence of atoms. */
  datatype Phrase = Phrase(atoms: seq<Node>)

  /** Trees the grammar can read back: non-empty lines and lists, names and
      values of the right characters, and never two words side by side
      (`WORD` would read them as one). */
  predicate WellFormedNode(a: Node)
    decreases a
  {
    match a
    case ListNode(items) => items != [] && WellFormedList(items)
    case KeywordNode(_, name, args) =>
      name != [] && (forall i | 0 <= i < |name| :: IsLower(name[i])) && WellFormedList(args)
    case ManaNode(value, colors) => ManaShape(value, colors)
    case ActivatedNode(l) => WellFormedPhrase(l)
    case TriggeredNode(l) => WellFormedPhrase(l)
    case NameNode => true
    case WordNode(w) => w != [] && forall i | 0 <= i < |w| :: WordChar(w[i])
  }

  predicate WellFormedPhrase(l: Phrase)
    decreases l
  {
    l.atoms != [] && WellFormedAtoms(l.atoms)
  }

  predicate WellFormedAtoms(atoms: seq<Node>)
    decreases atoms
  {
    atoms == []
    || (WellFormedNode(atoms[0]) && WellFormedAtoms(atoms[1..])
        && !(atoms[0].WordNode? && |atoms| > 1 && atoms[1].WordNode?))
  }

  predicate WellFormedList(ls: seq<Phrase>)
    decreases ls
  {
    ls == [] || (WellFormedPhrase(ls[0]) && WellFormedList(ls[1..]))
  }

  /** The card text a tree is written as. */
  function PrintNode(a: Node): string
    decreases a
  {
    match a
    case ListNode(items) => ">l(" + PrintList(items) + ")"
    case KeywordNode(reminder, name, args) =>
      (if reminder then ">kr." else ">k.") + name + "(" + PrintList(args) + ")"
    case ManaNode(value, colors) => "(" + value + colors + ")"
    case ActivatedNode(l) => "<<" + PrintPhrase(l) + ">>"
    case TriggeredNode(l) => "[[" + PrintPhrase(l) + "]]"
    case NameNode => "~"
    case WordNode(w) => w
  }

  function PrintPhrase(l: Phrase): string
    decreases l
  {
    PrintAtoms(l.atoms)
  }

  function PrintAtoms(atoms: seq<Node>): string
    decreases atoms
  {
    if atoms == [] then "" else PrintNode(atoms[0]) + PrintAtoms(atoms[1..])
  }

  function PrintList(ls: seq<Phrase>): string
    decreases ls
  {
    if ls == [] then ""
    else if |ls| == 1 then PrintPhrase(ls[0])
    else PrintPhrase(ls[0]) + "," + PrintList(ls[1..])
  }

  /** The HTML a tree stands for: each construct through its parse action,
      the inner parts first and from left to right, the first failing action
      deciding the error. */
  function RenderNode(act: Actions, a: Node): Result<string>
    decreases a
  {
    match a
    case ListNode(items) =>
      var os :- RenderList(act, items);
      Success(Replacer.ListReplace(os))
    case KeywordNode(reminder, name, args) =>
      var os :- RenderList(act, args);
      act.expand(name, reminder, if args == [] then None else Some(os))
    case ManaNode(value, colors) => Success(Replacer.ManaElement(act.manaClass, value, colors))
    case ActivatedNode(l) =>
      var t :- RenderPhrase(act, l);
      Replacer.FormatReplace(ActivationTemplate, map["text" := t])
    case TriggeredNode(l) =>
      var t :- RenderPhrase(act, l);
      Replacer.FormatReplace(TriggerTemplate, map["text" := t])
    case NameNode => Success("{name}")
    case WordNode(w) => Success(w)
  }

  function RenderPhrase(act: Actions, l: Phrase): Result<string>
    decreases l
  {
    RenderAtoms(act, l.atoms)
  }

  function RenderAtoms(act: Actions, atoms: seq<Node>): Result<string>
    decreases atoms
  {
    if atoms == [] then Success("")
    else
      var o :- RenderNode(act, atoms[0]);
      var more :- RenderAtoms(act, atoms[1..]);
      Success(o + more)
  }

  function RenderList(act: Actions, ls: seq<Phrase>): (r: Result<seq<string>>)
    ensures r.Success? ==> |r.value| == |ls|
    decreases ls
  {
    if ls == [] then Success([])
    else
      var o :- RenderPhrase(act, ls[0]);
      var os :- RenderList(act, ls[1..]);
      Success([o] + os)
  }

  /** A rendering as the outcome of a rule that stopped before `rest`. */
  function Lift<T>(r: Result<T>, rest: string): Parsed<T> {
    match r
    case Success(v) => Ok(v, rest)
    case Failure(e) => Raised(e)
  }

  /** What a printed atom starts with: never nothing, and a word character
      only for a word. */
  lemma PrintNodeStart(a: Node)
    requires WellFormedNode(a)
    ensures PrintNode(a) != []
    ensures !a.WordNode? ==> !WordChar(PrintNode(a)[0])
  {
    match a
    case KeywordNode(reminder, _, _) =>
      assert PrintNode(a)[0] == (if reminder then ">kr." else ">k.")[0];
    case WordNode(w) =>
    case _ =>
  }

  lemma PrintAtomsStart(atoms: seq<Node>, rest: string)
    requires atoms != [] && WellFormedAtoms(atoms) && !atoms[0].WordNode?
    ensures PrintAtoms(atoms) != []
    ensures (PrintAtoms(atoms) + rest)[0] == PrintNode(atoms[0])[0]
    ensures !WordChar((PrintAtoms(atoms) + rest)[0])
  {
    PrintNodeStart(atoms[0]);
  }

  // ---------------------------------------------------------------------
  // Round trip: the grammar reads a printed tree back as its rendering

  /** A printed atom is read back as its rendering, or raises what rendering
      it raises; a word must not be followed by a word character. */
  lemma {:induction false} NodeRoundTrip(act: Actions, a: Node, rest: string)
    requires WellFormedNode(a)
    requires a.WordNode? ==> rest == [] || !WordChar(rest[0])
    ensures Atom(act, PrintNode(a) + rest) == Lift(RenderNode(act, a), rest)
    decreases a, 0
  {
    match a
    case ListNode(items) => ListAtomTrip(act, items, rest);
    case KeywordNode(reminder, name, args) => KeywordAtomTrip(act, reminder, name, args, rest);
    case ManaNode(value, colors) => ManaAtomTrip(act, value, colors, rest);
    case ActivatedNode(l) => ActivatedAtomTrip(act, l, rest);
    case TriggeredNode(l) => TriggeredAtomTrip(act, l, rest);
    case NameNode => CardNameAtom(act, rest);
    case WordNode(w) => WordAtomTrip(act, w, rest);
  }

  lemma {:induction false} ListAtomTrip(act: Actions, items: seq<Phrase>, rest: string)
    requires items != [] && WellFormedList(items)
    ensures Atom(act, PrintNode(ListNode(items)) + rest) == Lift(RenderNode(act, ListNode(items)), rest)
    decreases items, 2
  {
    ListNodeTrip(act, items, rest);
    AtomAlternative(act, PrintNode(ListNode(items)) + rest);
  }

  lemma {:induction false} KeywordAtomTrip(act: Actions, reminder: bool, name: string, args: seq<Phrase>, rest: string)
    requires WellFormedNode(KeywordNode(reminder, name, args))
    ensures Atom(act, PrintNode(KeywordNode(reminder, name, args)) + rest)
         == Lift(RenderNode(act, KeywordNode(reminder, name, args)), rest)
    decreases args, 3
  {
    KeywordNodeTrip(act, reminder, name, args, rest);
    AtomAlternative(act, PrintNode(KeywordNode(reminder, name, args)) + rest);
  }

  lemma ManaAtomTrip(act: Actions, value: string, colors: string, rest: string)
    requires ManaShape(value, colors)
    ensures Atom(act, PrintNode(ManaNode(value, colors)) + rest) == Lift(RenderNode(act, ManaNode(value, colors)), rest)
  {
    var s := PrintNode(ManaNode(value, colors)) + rest;
    assert s == "(" + value + colors + ")" + rest;
    ManaTokenComplete(value, colors, rest);
    AtomAlternative(act, s);
  }

  lemma {:induction false} ActivatedAtomTrip(act: Actions, l: Phrase, rest: string)
    requires WellFormedPhrase(l)
    ensures Atom(act, PrintNode(ActivatedNode(l)) + rest) == Lift(RenderNode(act, ActivatedNode(l)), rest)
    decreases l, 2
  {
    var s := PrintNode(ActivatedNode(l)) + rest;
    assert s == "<<" + PrintPhrase(l) + ">>" + rest;
    EnclosedTrip(act, l, "<<", ">>", ActivationTemplate, rest);
    AtomAlternative(act, s);
  }

  lemma {:induction false} TriggeredAtomTrip(act: Actions, l: Phrase, rest: string)
    requires WellFormedPhrase(l)
    ensures Atom(act, PrintNode(TriggeredNode(l)) + rest) == Lift(RenderNode(act, TriggeredNode(l)), rest)
    decreases l, 2
  {
    var s := PrintNode(TriggeredNode(l)) + rest;
    assert s == "[[" + PrintPhrase(l) + "]]" + rest;
    EnclosedTrip(act, l, "[[", "]]", TriggerTemplate, rest);
    AtomAlternative(act, s);
  }

  lemma WordAtomTrip(act: Actions, w: string, rest: string)
    requires WellFormedNode(WordNode(w))
    requires rest == [] || !WordChar(rest[0])
    ensures Atom(act, PrintNode(WordNode(w)) + rest) == Lift(RenderNode(act, WordNode(w)), rest)
  {
    var s := w + rest;
    RunStops(w, rest, WordChar);
    assert s[..|w|] == w && s[|w|..] == rest;
    AtomAlternative(act, s);
  }

  lemma {:induction false} ListNodeTrip(act: Actions, items: seq<Phrase>, rest: string)
    requires items != [] && WellFormedList(items)
    ensures BulletList(act, PrintNode(ListNode(items)) + rest) == Lift(RenderNode(act, ListNode(items)), rest)
    decreases items, 1
  {
    var s := PrintNode(ListNode(items)) + rest;
    assert s == ">l(" + (PrintList(items) + (")" + rest));
    assert s[3..] == PrintList(items) + (")" + rest);
    ListRoundTrip(act, items, ")" + rest);
    assert (")" + rest)[1..] == rest;
  }

  lemma {:induction false} KeywordNodeTrip(act: Actions, reminder: bool, name: string, args: seq<Phrase>, rest: string)
    requires WellFormedNode(KeywordNode(reminder, name, args))
    ensures Keyword(act, PrintNode(KeywordNode(reminder, name, args)) + rest)
         == Lift(RenderNode(act, KeywordNode(reminder, name, args)), rest)
    decreases args, 2
  {
    var after := PrintList(args) + (")" + rest);
    assert PrintNode(KeywordNode(reminder, name, args)) + rest
        == (if reminder then ">kr" else ">k") + ("." + (name + ("(" + after)));
    KeywordHead(act, reminder, name, after);
    if args == [] {
      NoArgsTrip(act, reminder, name, rest);
    } else {
      ArgsTrip(act, reminder, name, args, rest);
    }
  }

  /** `>k.name()`: the expansion without arguments. */
  lemma NoArgsTrip(act: Actions, reminder: bool, name: string, rest: string)
    ensures KeywordArgs(act, name, reminder, PrintList([]) + (")" + rest))
         == Lift(RenderNode(act, KeywordNode(reminder, name, [])), rest)
  {
    var after := ")" + rest;
    assert PrintList([]) + after == after;
    NoLineAtEnd(act, after);
    assert after[1..] == rest;
  }

  /** `>k.name(args)`: the expansion of the rendered arguments. */
  lemma {:induction false} ArgsTrip(act: Actions, reminder: bool, name: string, args: seq<Phrase>, rest: string)
    requires args != [] && WellFormedList(args)
    ensures KeywordArgs(act, name, reminder, PrintList(args) + (")" + rest))
         == Lift(RenderNode(act, KeywordNode(reminder, name, args)), rest)
    decreases args, 1
  {
    ListRoundTrip(act, args, ")" + rest);
    assert (")" + rest)[1..] == rest;
  }

  /** The head of a call, `>k.name(` or `>kr.name(`, is read as the name and
      the flag. */
  lemma KeywordHead(act: Actions, reminder: bool, name: string, after: string)
    requires name != [] && forall i | 0 <= i < |name| :: IsLower(name[i])
    ensures Keyword(act, (if reminder then ">kr" else ">k") + ("." + (name + ("(" + after))))
         == KeywordArgs(act, name, reminder, after)
  {
    if reminder {
      ReminderHead(act, name, after);
    } else {
      PlainHead(act, name, after);
    }
  }

  lemma ReminderHead(act: Actions, name: string, after: string)
    requires name != [] && forall i | 0 <= i < |name| :: IsLower(name[i])
    ensures Keyword(act, ">kr" + ("." + (name + ("(" + after)))) == KeywordArgs(act, name, true, after)
  {
    var t := "." + (name + ("(" + after));
    var s := ">kr" + t;
    assert ">k" <= s && ">kr" <= s;
    assert s[3..] == t;
    CallAfterFlag(act, true, name, after);
  }

  lemma PlainHead(act: Actions, name: string, after: string)
    requires name != [] && forall i | 0 <= i < |name| :: IsLower(name[i])
    ensures Keyword(act, ">k" + ("." + (name + ("(" + after)))) == KeywordArgs(act, name, false, after)
  {
    var t := "." + (name + ("(" + after));
    var s := ">k" + t;
    assert ">k" <= s && s[2] == '.';
    assert s[2..] == t;
    CallAfterFlag(act, false, name, after);
  }

  lemma CallAfterFlag(act: Actions, reminder: bool, name: string, after: string)
    requires name != [] && forall i | 0 <= i < |name| :: IsLower(name[i])
    ensures KeywordCall(act, reminder, "." + (name + ("(" + after))) == KeywordArgs(act, name, reminder, after)
  {
    HeadRest(name, after);
  }

  /** After the dot: the name, then the text after its parenthesis. */
  lemma HeadRest(name: string, after: string)
    requires name != [] && forall i | 0 <= i < |name| :: IsLower(name[i])
    ensures var t := "." + (name + ("(" + after));
      "." <= t && Run(t[1..], IsLower) == |name| && "(" <= t[1 + |name|..]
      && t[1..1 + |name|] == name && t[1 + |name|..][1..] == after
  {
    var t := "." + (name + ("(" + after));
    assert t[1..] == name + ("(" + after);
    RunStops(name, "(" + after, IsLower);
    assert t[1 + |name|..] == "(" + after;
    assert t[1..1 + |name|] == name;
    assert ("(" + after)[1..] == after;
  }

  lemma {:induction false} EnclosedTrip(act: Actions, l: Phrase, open: string, close: string, template: string, rest: string)
    requires WellFormedPhrase(l) && open != [] && LineEnd(close + rest)
    ensures Enclosed(act, open + PrintPhrase(l) + close + rest, open, close, template)
         == match RenderPhrase(act, l)
            case Failure(e) => Raised(e)
            case Success(o) => Lift(Replacer.FormatReplace(template, map["text" := o]), rest)
    decreases l, 1
  {
    var s := open + PrintPhrase(l) + close + rest;
    assert s == open + (PrintPhrase(l) + (close + rest));
    assert open <= s && s[|open|..] == PrintPhrase(l) + (close + rest);
    PhraseRoundTrip(act, l, close + rest);
    EnclosedStep(act, s, open, close, template, RenderPhrase(act, l), rest);
  }

  /** `Enclosed` once the inner line has been read up to the closing text. */
  lemma EnclosedStep(act: Actions, s: string, open: string, close: string, template: string,
                     line: Result<string>, rest: string)
    requires open != [] && open <= s
    requires TextLine(act, s[|open|..]) == Lift(line, close + rest)
    ensures Enclosed(act, s, open, close, template)
         == if line.Failure? then Raised(line.error)
            else Lift(Replacer.FormatReplace(template, map["text" := line.value]), rest)
  {
    assert close <= close + rest;
    assert (close + rest)[|close|..] == rest;
  }

  /** A printed line is read back up to a place where lines stop. */
  lemma {:induction false} PhraseRoundTrip(act: Actions, l: Phrase, rest: string)
    requires WellFormedPhrase(l) && LineEnd(rest)
    ensures TextLine(act, PrintPhrase(l) + rest) == Lift(RenderPhrase(act, l), rest)
    decreases l, 0
  {
    AtomsRoundTrip(act, l.atoms, rest);
  }

  lemma {:induction false} AtomsRoundTrip(act: Actions, atoms: seq<Node>, rest: string)
    requires atoms != [] && WellFormedAtoms(atoms) && LineEnd(rest)
    ensures TextLine(act, PrintAtoms(atoms) + rest) == Lift(RenderAtoms(act, atoms), rest)
    decreases atoms, 2
  {
    if |atoms| == 1 {
      LastAtomTrip(act, atoms, rest);
    } else {
      MoreAtomsTrip(act, atoms, rest);
    }
  }

  /** The line's last atom. */
  lemma {:induction false} LastAtomTrip(act: Actions, atoms: seq<Node>, rest: string)
    requires |atoms| == 1 && WellFormedAtoms(atoms) && LineEnd(rest)
    ensures TextLine(act, PrintAtoms(atoms) + rest) == Lift(RenderAtoms(act, atoms), rest)
    decreases atoms, 1
  {
    var a := atoms[0];
    assert atoms[1..] == [];
    assert PrintAtoms(atoms) + rest == PrintNode(a) + rest;
    NodeRoundTrip(act, a, rest);
    NoLineAtEnd(act, rest);
    LineLast(act, PrintAtoms(atoms) + rest, RenderNode(act, a), rest);
    match RenderNode(act, a)
    case Success(o) => assert RenderAtoms(act, atoms) == Success(o + "") && o + "" == o;
    case Failure(_) =>
  }

  /** An atom followed by more of the line. */
  lemma {:induction false} MoreAtomsTrip(act: Actions, atoms: seq<Node>, rest: string)
    requires |atoms| > 1 && WellFormedAtoms(atoms) && LineEnd(rest)
    ensures TextLine(act, PrintAtoms(atoms) + rest) == Lift(RenderAtoms(act, atoms), rest)
    decreases atoms, 1
  {
    var a, tail := atoms[0], atoms[1..];
    var after := PrintAtoms(tail) + rest;
    assert PrintAtoms(atoms) + rest == PrintNode(a) + after;
    if a.WordNode? {
      PrintAtomsStart(tail, rest);
    }
    NodeRoundTrip(act, a, after);
    AtomsRoundTrip(act, tail, rest);
    LineStep(act, PrintAtoms(atoms) + rest, RenderNode(act, a), RenderAtoms(act, tail), after, rest);
  }

  /** `TEXT_LINE` after its last atom has been read. */
  lemma LineLast(act: Actions, s: string, first: Result<string>, rest: string)
    requires |rest| < |s|
    requires Atom(act, s) == Lift(first, rest)
    requires TextLine(act, rest).NoParse?
    ensures TextLine(act, s) == Lift(first, rest)
  {
  }

  /** `TEXT_LINE` after a first atom and a further line have been read. */
  lemma LineStep(act: Actions, s: string, first: Result<string>, more: Result<string>, after: string, rest: string)
    requires |after| < |s|
    requires Atom(act, s) == Lift(first, after)
    requires TextLine(act, after) == Lift(more, rest)
    ensures TextLine(act, s)
         == match first
            case Failure(e) => Raised(e)
            case Success(o) => Lift(match more case Success(m) => Success(o + m) case Failure(e) => Failure(e), rest)
  {
  }

  /** A printed argument list is read back up to its closing parenthesis. */
  lemma {:induction false} ListRoundTrip(act: Actions, ls: seq<Phrase>, rest: string)
    requires ls != [] && WellFormedList(ls) && ")" <= rest
    ensures TextList(act, PrintList(ls) + rest) == Lift(RenderList(act, ls), rest)
    decreases ls, 0
  {
    if |ls| == 1 {
      assert PrintList(ls) == PrintPhrase(ls[0]);
      assert rest[0] == ')' && !("," <= rest);
      assert ls[1..] == [];
      PhraseRoundTrip(act, ls[0], rest);
      match RenderPhrase(act, ls[0])
      case Success(o) => assert RenderList(act, ls) == Success([o] + []) && [o] + [] == [o];
      case Failure(_) =>
    } else {
      var after := PrintList(ls[1..]) + rest;
      assert PrintList(ls) + rest == PrintPhrase(ls[0]) + ("," + after);
      PhraseRoundTrip(act, ls[0], "," + after);
      assert ("," + after)[1..] == after;
      ListRoundTrip(act, ls[1..], rest);
    }
  }

  // ---------------------------------------------------------------------
  // Whole texts

  /** Card text: one or more lines. */
  predicate WellFormedText(t: seq<Phrase>) {
    t != [] && WellFormedList(t)
  }

  /** The lines written with `|` between them. */
  function PrintText(t: seq<Phrase>): string {
    if t == [] then "" else PrintPhrase(t[0]) + PrintMore(t[1..])
  }

  function PrintMore(ts: seq<Phrase>): string {
    if ts == [] then "" else "|" + PrintPhrase(ts[0]) + PrintMore(ts[1..])
  }

  /** The rendered lines with `<br>` between them. */
  function RenderText(act: Actions, t: seq<Phrase>): Result<string> {
    if t == [] then Success("")
    else
      var o :- RenderPhrase(act, t[0]);
      var more :- RenderMore(act, t[1..]);
      Success(o + more)
  }

  function RenderMore(act: Actions, ts: seq<Phrase>): Result<string> {
    if ts == [] then Success("")
    else
      var o :- RenderPhrase(act, ts[0]);
      var more :- RenderMore(act, ts[1..]);
      Success("<br>" + o + more)
  }

  /** Text at which `TEXT` stops: where a line stops, and if that is a `|`,
      no line follows it. */
  predicate TextEnd(s: string) {
    LineEnd(s) && (s != [] && s[0] == '|' ==> LineEnd(s[1..]))
  }

  lemma {:induction false} MoreRoundTrip(act: Actions, ts: seq<Phrase>, rest: string)
    requires WellFormedList(ts) && TextEnd(rest)
    ensures MoreLines(act, PrintMore(ts) + rest) == Lift(RenderMore(act, ts), rest)
    decreases ts, 1
  {
    if ts == [] {
      assert PrintMore(ts) + rest == rest;
      if "|" <= rest {
        NoLineAtEnd(act, rest[1..]);
      }
    } else {
      MoreConsTrip(act, ts, rest);
    }
  }

  lemma {:induction false} MoreConsTrip(act: Actions, ts: seq<Phrase>, rest: string)
    requires ts != [] && WellFormedList(ts) && TextEnd(rest)
    ensures MoreLines(act, PrintMore(ts) + rest) == Lift(RenderMore(act, ts), rest)
    decreases ts, 0
  {
    var after := PrintMore(ts[1..]) + rest;
    var u := PrintPhrase(ts[0]) + after;
    var s := PrintMore(ts) + rest;
    assert s == "|" + u by {
      RegroupFour("|", PrintPhrase(ts[0]), PrintMore(ts[1..]), rest);
    }
    assert "|" <= s && s[1..] == u && |after| < |s|;
    assert TextLine(act, s[1..]) == Lift(RenderPhrase(act, ts[0]), after) by {
      PhraseRoundTrip(act, ts[0], after);
    }
    assert MoreLines(act, after) == Lift(RenderMore(act, ts[1..]), rest) by {
      MoreRoundTrip(act, ts[1..], rest);
    }
    MoreStep(act, s, RenderPhrase(act, ts[0]), RenderMore(act, ts[1..]), after, rest);
  }

  lemma RegroupFour(a: string, b: string, c: string, d: string)
    ensures a + b + c + d == a + (b + (c + d))
  {
  }

  /** The repetition after one `|` and its line have been read. */
  lemma MoreStep(act: Actions, s: string, line: Result<string>, more: Result<string>, after: string, rest: string)
    requires "|" <= s && |after| < |s|
    requires TextLine(act, s[1..]) == Lift(line, after)
    requires MoreLines(act, after) == Lift(more, rest)
    ensures MoreLines(act, s)
         == match line
            case Failure(e) => Raised(e)
            case Success(o) => Lift(match more case Success(m) => Success("<br>" + o + m) case Failure(e) => Failure(e), rest)
  {
  }

  /** Round trip: printed card text is read back as its rendering, the
      lines joined by `<br>`; text after it where no further line starts,
      such as a trailing `|` or `||`, is left over. */
  lemma TextRoundTrip(act: Actions, t: seq<Phrase>, rest: string)
    requires WellFormedText(t) && TextEnd(rest)
    ensures Text(act, PrintText(t) + rest) == Lift(RenderText(act, t), rest)
  {
    var after := PrintMore(t[1..]) + rest;
    assert PrintText(t) + rest == PrintPhrase(t[0]) + after;
    PhraseRoundTrip(act, t[0], after);
    MoreRoundTrip(act, t[1..], rest);
  }

  /** `parse_text` of printed card text is its rendering, whatever follows
      where no further line starts. */
  lemma ParseTextRoundTrip(act: Actions, t: seq<Phrase>, rest: string)
    requires WellFormedText(t) && TextEnd(rest)
    ensures ParseText(act, PrintText(t) + rest) == RenderText(act, t)
  {
    TextRoundTrip(act, t, rest);
  }

  /** Text that starts where a line stops does not parse: the empty text,
      and text starting with `|`. */
  lemma ParseTextNoLine(act: Actions, s: string)
    requires LineEnd(s)
    ensures ParseText(act, s) == Failure(NoMatch(s))
  {
    NoLineAtEnd(act, s);
  }

  /** `parse_cost` of a cost token is the dict of its value and letters;
      anything that does not start with one fails. */
  lemma ParseCostSpec(manaClass: char -> string, s: string)
    ensures ParseCost(manaClass, s).Success? <==> ManaToken(s).Ok?
    ensures ManaToken(s).Ok? ==>
      ParseCost(manaClass, s) == Success(Replacer.ManaDict(manaClass, ManaToken(s).out.0, ManaToken(s).out.1))
  {
  }

  /** A `|` ends the line inside `<<...>>`, so the ability does not parse. */
  lemma AbilityStopsAtBar(act: Actions)
    ensures ParseText(act, "<<a|b>>") == Failure(NoMatch("<<a|b>>"))
  {
    assert WellFormedNode(WordNode("a"));
    BarInsideAbility(act, "a", "|b>>");
    assert "<<" + ("a" + "|b>>") == "<<a|b>>";
  }

  /** An ability opened before a word and a `|` is never closed, and the
      text does not parse. */
  lemma BarInsideAbility(act: Actions, w: string, rest: string)
    requires WellFormedNode(WordNode(w)) && rest != [] && rest[0] == '|'
    ensures ParseText(act, "<<" + (w + rest)) == Failure(NoMatch("<<" + (w + rest)))
  {
    var t := w + rest;
    var s := "<<" + t;
    assert TextLine(act, s[2..]) == Ok(w, rest) by {
      SinglePhrase(act, WordNode(w));
      PhraseRoundTrip(act, Phrase([WordNode(w)]), rest);
      assert s[2..] == t;
    }
    assert Activated(act, s).NoParse? by {
      assert "<<" <= s;
      assert rest[0] != ">>"[0];
    }
    assert Atom(act, s).NoParse? by {
      AtomAngle(act, s);
    }
    assert TextLine(act, s).NoParse?;
    assert Text(act, s).NoParse?;
  }

  /** An atom starting with `<` can only be an activated ability. */
  lemma AtomAngle(act: Actions, s: string)
    requires s != [] && s[0] == '<'
    ensures Atom(act, s) == Activated(act, s)
  {
    Leads(act, s);
  }

  /** What follows the last line is dropped: `a||b` keeps only `a`. */
  lemma TrailingBarsDropped(act: Actions)
    ensures ParseText(act, "a||b") == Success("a")
  {
    var a := Phrase([WordNode("a")]);
    assert WellFormedPhrase(a) && WellFormedText([a]);
    ParseTextRoundTrip(act, [a], "||b");
    assert PrintText([a]) == "a";
    assert RenderText(act, [a]) == Success("a");
    assert "a" + "||b" == "a||b";
  }

  /** A line of one atom. */
  lemma SinglePhrase(act: Actions, a: Node)
    requires WellFormedNode(a)
    ensures WellFormedPhrase(Phrase([a]))
    ensures PrintPhrase(Phrase([a])) == PrintNode(a)
    ensures RenderPhrase(act, Phrase([a])) == RenderNode(act, a)
  {
    var one := [a];
    assert one[0] == a && one[1..] == [];
    assert WellFormedAtoms(one[1..]);
    assert PrintAtoms(one) == PrintNode(a) + PrintAtoms([]);
    assert PrintNode(a) + "" == PrintNode(a);
    assert RenderAtoms(act, one[1..]) == Success("");
    match RenderNode(act, a)
    case Success(o) => assert o + "" == o;
    case Failure(_) =>
  }

  /** Two lines are written with a `|` and rendered with a `<br>` between them. */
  lemma TwoLines(act: Actions, l1: Phrase, l2: Phrase)
    requires WellFormedPhrase(l1) && WellFormedPhrase(l2)
    ensures WellFormedText([l1, l2])
    ensures PrintText([l1, l2]) == PrintPhrase(l1) + "|" + PrintPhrase(l2)
    ensures RenderPhrase(act, l1).Success? && RenderPhrase(act, l2).Success? ==>
      RenderText(act, [l1, l2]) == Success(RenderPhrase(act, l1).value + "<br>" + RenderPhrase(act, l2).value)
  {
    var t := [l1, l2];
    var u := t[1..];
    assert t[0] == l1 && u == [l2] && u[0] == l2 && u[1..] == [];
    assert WellFormedList(u[1..]);
    assert WellFormedList(u);
    assert PrintMore(u) == "|" + PrintPhrase(l2) + PrintMore([]);
    assert RenderMore(act, u[1..]) == Success("");
    if RenderPhrase(act, l1).Success? && RenderPhrase(act, l2).Success? {
      var o1, o2 := RenderPhrase(act, l1).value, RenderPhrase(act, l2).value;
      assert RenderMore(act, u) == Success("<br>" + o2 + "");
      assert "<br>" + o2 + "" == "<br>" + o2;
      assert RenderText(act, t) == Success(o1 + ("<br>" + o2));
      assert o1 + ("<br>" + o2) == o1 + "<br>" + o2;
    }
  }

}
