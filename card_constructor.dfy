/** `CardConstructor` (`card_constructor.py`): each sheet row becomes a card
    dict holding the row, the parsed cost under `cost_`-prefixed keys, and
    the card text parsed and then formatted with the row. The parser is a
    parameter; `Standard` is the one the grammar defines. Cells are
    strings. */
module CardConstructor {
  import opened Wrappers
  import Records
  import Template
  import Grammar
  import Replacer
  import Strings

  type Row = map<string, string>

  /** What `CardConstructor` uses of its parser. */
  datatype Parser = Parser(
    parseText: string -> Result<string>,
    parseCost: string -> Result<map<string, string>>)

  /** The grammar's `Parser`, for given parse actions. */
  function Standard(act: Grammar.Actions): Parser {
    Parser(s => Grammar.ParseText(act, s), s => Grammar.ParseCost(act.manaClass, s))
  }

  /** `_row_to_dict`: the cost is looked up and parsed first, then the text;
      the dict merge lets the `cost_` keys override the row and the text
      override both. `_prefix_dict` is the same comprehension as
      `Records.Prefix`. */
  function RowToDict(p: Parser, row: Row): Result<Row> {
    if "cost" !in row then Failure(MissingKey("cost"))
    else
      var parsed :- p.parseCost(row["cost"]);
      if "text" !in row then Failure(MissingKey("text"))
      else
        var text :- p.parseText(row["text"]);
        var formatted :- Template.Format(text, row);
        Success((row + Records.Prefix("cost_", parsed))["text" := formatted])
  }

  /** `construct_cards`: one dict per row, in order; the first row that
      fails ends the whole call. */
  function ConstructCards(p: Parser, cards: seq<Row>): (r: Result<seq<Row>>)
    ensures r.Success? <==> forall i | 0 <= i < |cards| :: RowToDict(p, cards[i]).Success?
    ensures r.Success? ==>
      |r.value| == |cards| && forall i | 0 <= i < |cards| :: r.value[i] == RowToDict(p, cards[i]).value
  {
    if cards == [] then Success([])
    else
      var first :- RowToDict(p, cards[0]);
      var rest :- ConstructCards(p, cards[1..]);
      assert forall i | 1 <= i < |cards| :: cards[i] == cards[1..][i - 1];
      Success([first] + rest)
  }

  /** The steps of `_row_to_dict` that must all succeed, in order. */
  predicate RowParses(p: Parser, row: Row) {
    "cost" in row && p.parseCost(row["cost"]).Success?
    && "text" in row && p.parseText(row["text"]).Success?
    && Template.Format(p.parseText(row["text"]).value, row).Success?
  }

  /** A card dict: its keys are the row's, the prefixed cost keys and
      `text`; `text` is the formatted text, each prefixed cost key holds the
      parsed entry, and every other key keeps the row's value. */
  lemma RowToDictSpec(p: Parser, row: Row)
    ensures RowToDict(p, row).Success? <==> RowParses(p, row)
    ensures RowParses(p, row) ==>
      var d := RowToDict(p, row).value;
      var cost := p.parseCost(row["cost"]).value;
      && d.Keys == row.Keys + (set k | k in cost :: "cost_" + k) + {"text"}
      && d["text"] == Template.Format(p.parseText(row["text"]).value, row).value
      && (forall k | k in cost && "cost_" + k != "text" :: d["cost_" + k] == cost[k])
      && (forall k | k in row && k != "text" && k !in Records.Prefix("cost_", cost) :: d[k] == row[k])
  {
    if RowParses(p, row) {
      var cost := p.parseCost(row["cost"]).value;
      var pc := Records.Prefix("cost_", cost);
      var f := Template.Format(p.parseText(row["text"]).value, row).value;
      assert RowToDict(p, row) == Success((row + pc)["text" := f]);
      PrefixedKeys(cost);
      MergedFields(row, pc, f);
      Records.PrefixSpec("cost_", cost);
    }
  }

  /** The keys of the prefixed cost dict. */
  lemma PrefixedKeys(cost: map<string, string>)
    ensures Records.Prefix("cost_", cost).Keys == set k | k in cost :: "cost_" + k
  {
    var pc := Records.Prefix("cost_", cost);
    Records.PrefixSpec("cost_", cost);
    forall j | j in pc ensures j in set k | k in cost :: "cost_" + k {
      assert j[|"cost_"|..] in cost && j == "cost_" + j[|"cost_"|..];
    }
  }

  /** The dict merge followed by the `text` update. */
  lemma MergedFields(row: Row, pc: Row, f: string)
    ensures ((row + pc)["text" := f]).Keys == row.Keys + pc.Keys + {"text"}
    ensures ((row + pc)["text" := f])["text"] == f
    ensures forall k | k in pc && k != "text" :: ((row + pc)["text" := f])[k] == pc[k]
    ensures forall k | k in row && k != "text" && k !in pc :: ((row + pc)["text" := f])[k] == row[k]
  {
  }

  /** The errors in the order `_row_to_dict` meets them. */
  lemma RowToDictErrors(p: Parser, row: Row)
    ensures "cost" !in row ==> RowToDict(p, row) == Failure(MissingKey("cost"))
    ensures "cost" in row && p.parseCost(row["cost"]).Failure? ==>
      RowToDict(p, row) == Failure(p.parseCost(row["cost"]).error)
    ensures "cost" in row && p.parseCost(row["cost"]).Success? && "text" !in row ==>
      RowToDict(p, row) == Failure(MissingKey("text"))
  {
  }

  /** When a row fails, the call fails with the error of the first row
      that does. */
  lemma {:induction false} ConstructCardsFirstError(p: Parser, cards: seq<Row>)
    requires ConstructCards(p, cards).Failure?
    ensures exists i | 0 <= i < |cards| ::
      (RowToDict(p, cards[i]).Failure?
       && (forall j | 0 <= j < i :: RowToDict(p, cards[j]).Success?)
       && ConstructCards(p, cards).error == RowToDict(p, cards[i]).error)
    decreases |cards|
  {
    if RowToDict(p, cards[0]).Failure? {
      assert RowToDict(p, cards[0]).Failure?;
    } else {
      var tail := cards[1..];
      ConstructCardsFirstError(p, tail);
      var i :| 0 <= i < |tail| && RowToDict(p, tail[i]).Failure?
        && (forall j | 0 <= j < i :: RowToDict(p, tail[j]).Success?)
        && ConstructCards(p, tail).error == RowToDict(p, tail[i]).error;
      assert cards[i + 1] == tail[i];
      forall j | 0 <= j < i + 1 ensures RowToDict(p, cards[j]).Success? {
        if j > 0 { assert cards[j] == tail[j - 1]; }
      }
    }
  }

  /** The row the module tries `_row_to_dict` on. */
  const ExampleRow: Row := map["name" := "A custom name", "text" := "~|other text",
                               "cost" := "(2AD)", "tags" := "Beast Human AnotherTag"]

  /** With the grammar's parser, `~` becomes the row's name, `|` a line
      break, the cost `(2AD)` is spread out under `cost_` keys with its
      classes in input order, and the other cells are kept. */
  lemma ExampleCard(act: Grammar.Actions)
    ensures var r := RowToDict(Standard(act), ExampleRow);
      && r.Success?
      && "text" in r.value && r.value["text"] == "A custom name<br>other text"
      && "cost_value" in r.value && r.value["cost_value"] == "2"
      && "cost_color_classes" in r.value
      && r.value["cost_color_classes"] == act.manaClass('A') + " " + act.manaClass('D')
      && "tags" in r.value && r.value["tags"] == "Beast Human AnotherTag"
  {
    var m := act.manaClass;
    var cost := Replacer.ManaDict(m, "2", "AD");
    var pc := Records.Prefix("cost_", cost);
    ExampleSteps(act);
    Replacer.ManaDictElement(m, "2", "AD");
    Records.PrefixAt("cost_", cost, "value");
    Records.PrefixAt("cost_", cost, "color_classes");
    Records.PrefixAvoids("cost_", cost, "tags");
    ExampleKeys();
    MergedLookup(ExampleRow, pc, "A custom name<br>other text", "cost_value");
    MergedLookup(ExampleRow, pc, "A custom name<br>other text", "cost_color_classes");
    MergedLookup(ExampleRow, pc, "A custom name<br>other text", "tags");
    ClassesOfTwo(m, 'A', 'D');
  }

  lemma ExampleKeys()
    ensures "cost_" + "value" == "cost_value" && "cost_" + "color_classes" == "cost_color_classes"
    ensures "cost_value" != "text" && "cost_color_classes" != "text" && "tags" != "text"
    ensures !("cost_" <= "tags") && "tags" in ExampleRow && ExampleRow["tags"] == "Beast Human AnotherTag"
  {
    assert "cost_value"[0] != "text"[0] && "cost_color_classes"[0] != "text"[0] && "tags"[1] != "text"[1];
    assert "tags"[0] != "cost_"[0];
  }

  /** A key of the merged dict other than `text`: the cost entry if there is
      one, and the row's otherwise. */
  lemma MergedLookup(row: Row, pc: Row, f: string, k: string)
    requires k != "text" && (k in pc || k in row)
    ensures k in (row + pc)["text" := f]
    ensures ((row + pc)["text" := f])[k] == if k in pc then pc[k] else row[k]
  {
  }

  /** `_row_to_dict` on the example row, step by step. */
  lemma ExampleSteps(act: Grammar.Actions)
    ensures RowToDict(Standard(act), ExampleRow)
         == Success((ExampleRow + Records.Prefix("cost_", Replacer.ManaDict(act.manaClass, "2", "AD")))
                      ["text" := "A custom name<br>other text"])
  {
    ExampleText(act);
    ExampleCells(ExampleRow);
    ExampleFormat(ExampleRow, "{name}<br>other text");
    ExampleCost(act.manaClass);
    RowSteps(Standard(act), ExampleRow, Replacer.ManaDict(act.manaClass, "2", "AD"),
             "{name}<br>other text", "A custom name<br>other text");
  }

  /** `_row_to_dict` when each of its steps succeeds. */
  lemma RowSteps(p: Parser, row: Row, cost: map<string, string>, text: string, formatted: string)
    requires "cost" in row && p.parseCost(row["cost"]) == Success(cost)
    requires "text" in row && p.parseText(row["text"]) == Success(text)
    requires Template.Format(text, row) == Success(formatted)
    ensures RowToDict(p, row) == Success((row + Records.Prefix("cost_", cost))["text" := formatted])
  {
  }

  lemma ExampleCells(row: Row)
    requires row == ExampleRow
    ensures "name" in row && row["name"] + "<br>other text" == "A custom name<br>other text"
    ensures "cost" in row && row["cost"] == "(2AD)"
    ensures "text" in row && row["text"] == "~|other text"
  {
  }

  lemma ExampleText(act: Grammar.Actions)
    ensures Grammar.ParseText(act, "~|other text") == Success("{name}<br>other text")
  {
    var w := "other text";
    assert forall i | 0 <= i < |w| :: Grammar.WordChar(w[i]);
    NameThenWord(act, w);
    assert "~|" + w == "~|other text";
    assert "{name}<br>" + w == "{name}<br>other text";
  }

  /** A name line and a word line. */
  lemma NameThenWord(act: Grammar.Actions, w: string)
    requires w != [] && forall i | 0 <= i < |w| :: Grammar.WordChar(w[i])
    ensures Grammar.ParseText(act, "~|" + w) == Success("{name}<br>" + w)
  {
    var l1, l2 := Grammar.Phrase([Grammar.NameNode]), Grammar.Phrase([Grammar.WordNode(w)]);
    Grammar.SinglePhrase(act, Grammar.NameNode);
    Grammar.SinglePhrase(act, Grammar.WordNode(w));
    Grammar.TwoLines(act, l1, l2);
    Grammar.ParseTextRoundTrip(act, [l1, l2], "");
    assert "~" + "|" == "~|" && "{name}" + "<br>" == "{name}<br>";
    assert "~" + "|" + w + "" == "~|" + w;
  }

  /** The parsed example text formatted with any row that has a name. */
  lemma ExampleFormat(row: Row, text: string)
    requires "name" in row && text == "{name}<br>other text"
    ensures Template.Format(text, row) == Success(row["name"] + "<br>other text")
  {
    var k, tail := "name", "<br>other text";
    assert Template.BraceFree(tail);
    assert Template.FieldName(k) by { assert !('0' <= k[0] <= '9'); }
    assert "{" + k + "}" + tail == text;
    Template.FormatField(k, tail, row);
    Template.FormatPlain(tail, row);
  }

  lemma ExampleCost(m: char -> string)
    ensures Grammar.ParseCost(m, "(2AD)") == Success(Replacer.ManaDict(m, "2", "AD"))
  {
    assert Grammar.ManaShape("2", "AD");
    Grammar.ManaTokenComplete("2", "AD", "");
    assert "(" + "2" + "AD" + ")" + "" == "(2AD)";
  }

  lemma ClassesOfTwo(m: char -> string, a: char, b: char)
    ensures Replacer.ColorClasses(m, [a, b]) == m(a) + " " + m(b)
  {
    var cl := Replacer.ClassList(m, [a, b]);
    assert cl == [m(a), m(b)];
    assert cl[1..] == [m(b)];
    assert Strings.Join(cl, " ") == cl[0] + " " + Strings.Join(cl[1..], " ");
  }
}
