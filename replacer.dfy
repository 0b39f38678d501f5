/** The parse actions of the pyparsing grammar (`replacer.py`), as the string
    and dict builders they are. Each action is handed the named results of
    its match as keyword arguments. `MANA_CLASSES` is not part of this model:
    the letter-to-class-name table is a parameter `manaClass`. */
module Replacer {
  import opened Wrappers
  import Template
  import Strings

  /** `FormatReplacer(format_string)`: the fixed template formatted with the
      named results of the match. */
  function FormatReplace(template: string, tokens: map<string, string>): Result<string> {
    Template.Format(template, tokens)
  }

  /** A template with one field between brace-free text substitutes the
      token of that name, whatever its text (braces included). */
  lemma FormatReplaceOne(open: string, k: string, close: string, v: string)
    requires Template.BraceFree(open) && Template.BraceFree(close) && Template.FieldName(k)
    ensures FormatReplace(open + "{" + k + "}" + close, map[k := v]) == Success(open + v + close)
  {
    Template.FormatOneField(open, k, close, map[k := v]);
  }

  /** The class of each colour letter, in the order of the letters. */
  function ClassList(manaClass: char -> string, colors: string): (r: seq<string>)
    ensures |r| == |colors| && forall i | 0 <= i < |colors| :: r[i] == manaClass(colors[i])
  {
    seq(|colors|, i requires 0 <= i < |colors| => manaClass(colors[i]))
  }

  /** `" ".join(MANA_CLASSES[color] for color in colors)`. */
  function ColorClasses(manaClass: char -> string, colors: string): string {
    Strings.Join(ClassList(manaClass, colors), " ")
  }

  /** The badge `ManaCostReplacer()` returns. */
  function ManaElement(manaClass: char -> string, value: string, colors: string): string {
    var ccs := ColorClasses(manaClass, colors);
    "<span class='mana " + ccs + "'><div class='mana-background " + ccs
      + "'></div><span class='mana-value'>" + value + "</span></span>"
  }

  /** The dict `ManaCostReplacer(output_dict=True)` returns. */
  function ManaDict(manaClass: char -> string, value: string, colors: string): map<string, string> {
    map["value" := value, "color_classes" := ColorClasses(manaClass, colors),
        "element" := ManaElement(manaClass, value, colors)]
  }

  /** Class names without a space, so that the class string can be split. */
  predicate SpaceFree(manaClass: char -> string, colors: string) {
    forall i | 0 <= i < |colors| :: ' ' !in manaClass(colors[i])
  }

  /** The class string holds one class per colour letter, in the letters'
      order, repeated letters included: splitting it on spaces gives the
      classes back. */
  lemma ColorClassesSplit(manaClass: char -> string, colors: string)
    requires colors != [] && SpaceFree(manaClass, colors)
    ensures Strings.SplitOn(ColorClasses(manaClass, colors), " ")
         == seq(|colors|, i requires 0 <= i < |colors| => manaClass(colors[i]))
  {
    var cl := ClassList(manaClass, colors);
    Strings.SplitJoin(cl, " ");
    assert cl == seq(|colors|, i requires 0 <= i < |colors| => manaClass(colors[i]));
  }

  /** The dict form has exactly the three keys; its `element` is what the
      plain form returns and its `color_classes` is the class string that the
      element carries. */
  lemma ManaDictElement(manaClass: char -> string, value: string, colors: string)
    ensures ManaDict(manaClass, value, colors).Keys == {"value", "color_classes", "element"}
    ensures ManaDict(manaClass, value, colors)["element"] == ManaElement(manaClass, value, colors)
    ensures ManaDict(manaClass, value, colors)["value"] == value
    ensures ManaDict(manaClass, value, colors)["color_classes"] == ColorClasses(manaClass, colors)
  {
    var d := ManaDict(manaClass, value, colors);
    assert "value" != "color_classes" && "value" != "element" && "color_classes" != "element" by {
      assert "value"[0] == 'v' && "color_classes"[0] == 'c' && "element"[0] == 'e';
    }
  }

  /** Class names without a quote, so that the class string ends at the
      closing quote of the `class` attribute. */
  predicate QuoteFree(manaClass: char -> string, colors: string) {
    forall i | 0 <= i < |colors| :: '\'' !in manaClass(colors[i])
  }

  lemma {:induction false} JoinQuoteFree(xs: seq<string>)
    requires forall i | 0 <= i < |xs| :: '\'' !in xs[i]
    ensures '\'' !in Strings.Join(xs, " ")
    decreases |xs|
  {
    if |xs| > 1 {
      JoinQuoteFree(xs[1..]);
      assert Strings.Join(xs, " ") == xs[0] + " " + Strings.Join(xs[1..], " ");
    }
  }

  /** The badge determines its value and its class string: two costs with the
      same badge have the same value and the same classes. */
  lemma ManaElementInjective(manaClass: char -> string, v1: string, c1: string, v2: string, c2: string)
    requires QuoteFree(manaClass, c1) && QuoteFree(manaClass, c2)
    requires ManaElement(manaClass, v1, c1) == ManaElement(manaClass, v2, c2)
    ensures v1 == v2 && ColorClasses(manaClass, c1) == ColorClasses(manaClass, c2)
  {
    var a1, a2 := ColorClasses(manaClass, c1), ColorClasses(manaClass, c2);
    JoinQuoteFree(ClassList(manaClass, c1));
    JoinQuoteFree(ClassList(manaClass, c2));
    ElementSplit(a1, v1);
    ElementSplit(a2, v2);
    ClassesOfElement(a1, ElementTail(a1, v1), a2, ElementTail(a2, v2));
    ValueOfTail(a1, v1, v2);
  }

  /** Two badge heads with quote-free class strings agree on the class
      string and on what follows its closing quote. */
  lemma ClassesOfElement(a1: string, t1: string, a2: string, t2: string)
    requires '\'' !in a1 && '\'' !in a2
    requires "<span class='mana " + a1 + "'" + t1 == "<span class='mana " + a2 + "'" + t2
    ensures a1 == a2 && t1 == t2
  {
    var head := "<span class='mana ";
    assert (head + a1 + "'" + t1)[|head|..] == a1 + "'" + t1;
    assert (head + a2 + "'" + t2)[|head|..] == a2 + "'" + t2;
    Strings.CutAtFirst(a1, t1, a2, t2, '\'');
  }

  /** The tail after a given class string determines the value. */
  lemma ValueOfTail(ccs: string, v1: string, v2: string)
    requires ElementTail(ccs, v1) == ElementTail(ccs, v2)
    ensures v1 == v2
  {
    var mid := "><div class='mana-background " + ccs + "'></div><span class='mana-value'>";
    var e1, e2 := v1 + "</span></span>", v2 + "</span></span>";
    assert ElementTail(ccs, v1) == mid + e1 && ElementTail(ccs, v2) == mid + e2;
    assert e1 == (mid + e1)[|mid|..] && e2 == (mid + e2)[|mid|..];
    assert v1 == e1[..|v1|] && v2 == e2[..|v2|];
  }

  /** What follows the class string's closing quote in a badge. */
  function ElementTail(ccs: string, value: string): string {
    "><div class='mana-background " + ccs + "'></div><span class='mana-value'>" + value + "</span></span>"
  }

  lemma ElementSplit(ccs: string, value: string)
    ensures "<span class='mana " + ccs + "'><div class='mana-background " + ccs
      + "'></div><span class='mana-value'>" + value + "</span></span>"
      == "<span class='mana " + ccs + "'" + ElementTail(ccs, value)
  {
  }

  /** `"".join(f"<li>{item}</li>" for item in args)`. */
  function ListItems(args: seq<string>): string {
    if args == [] then "" else "<li>" + args[0] + "</li>" + ListItems(args[1..])
  }

  /** `ListReplacer()`: every argument as a list item, in order, unstripped. */
  function ListReplace(args: seq<string>): string {
    "<ul class='list'>" + ListItems(args) + "</ul>"
  }

  /** The items of a concatenation are the items of each part, in order. */
  lemma {:induction false} ListItemsAppend(a: seq<string>, b: seq<string>)
    ensures ListItems(a + b) == ListItems(a) + ListItems(b)
    decreases |a|
  {
    if a == [] {
      assert a + b == b;
    } else {
      assert (a + b)[0] == a[0] && (a + b)[1..] == a[1..] + b;
      ListItemsAppend(a[1..], b);
    }
  }

  /** A list of items without `<` can be read back from its HTML: two such
      lists render alike only when they are the same list. */
  lemma ListReplaceInjective(a: seq<string>, b: seq<string>)
    requires forall i | 0 <= i < |a| :: '<' !in a[i]
    requires forall i | 0 <= i < |b| :: '<' !in b[i]
    requires ListReplace(a) == ListReplace(b)
    ensures a == b
  {
    var open := "<ul class='list'>";
    assert (open + ListItems(a) + "</ul>")[|open|..] == ListItems(a) + "</ul>";
    assert (open + ListItems(b) + "</ul>")[|open|..] == ListItems(b) + "</ul>";
    assert ListItems(a) + "</ul>" == ListItems(b) + "</ul>";
    assert ListItems(a) == (ListItems(a) + "</ul>")[..|ListItems(a)|];
    ListItemsInjective(a, b);
  }

  lemma {:induction false} ListItemsInjective(a: seq<string>, b: seq<string>)
    requires forall i | 0 <= i < |a| :: '<' !in a[i]
    requires forall i | 0 <= i < |b| :: '<' !in b[i]
    requires ListItems(a) == ListItems(b)
    ensures a == b
    decreases |a|
  {
    if a == [] || b == [] {
      assert a == [] && b == [];
    } else {
      var ra, rb := "/li>" + ListItems(a[1..]), "/li>" + ListItems(b[1..]);
      assert ListItems(a) == "<li>" + (a[0] + "<" + ra);
      assert ListItems(b) == "<li>" + (b[0] + "<" + rb);
      assert a[0] + "<" + ra == ListItems(a)[4..];
      assert b[0] + "<" + rb == ListItems(b)[4..];
      Strings.CutAtFirst(a[0], ra, b[0], rb, '<');
      assert ListItems(a[1..]) == ra[4..] == rb[4..] == ListItems(b[1..]);
      ListItemsInjective(a[1..], b[1..]);
      assert a == [a[0]] + a[1..] && b == [b[0]] + b[1..];
    }
  }
}
