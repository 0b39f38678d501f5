/** The keyword catalog of `tcg/lib/definitions/keywords.py` and the record
    type of `tcg/lib/types/keyword_definition.py`. */
module Keywords {
  import opened Wrappers

  /** `KeywordDefinition(name, display, reminder)`. */
  datatype KeywordDefinition = KeywordDefinition(name: string, display: string, reminder: string)

  // The longer texts are written as concatenations of short literals, so
  // that their characters can be inspected piece by piece.

  const Blocker: KeywordDefinition := KeywordDefinition(
    "blocker", "\U{1f6e1}\U{fe0f} Blocker", "<<tap>>" + BlockerTail)

  const BlockerTail: string := TailStart + TailEnd
  const TailStart: string := " Change the " + "target of an enemy " + "attack from an "
  const TailEnd: string := "adjacent creature " + "or you to this " + "creature."

  const Tribute: KeywordDefinition := KeywordDefinition(
    "tribute",
    "Tribute - " + "{arg0}",
    "To cast this spell " + "you must pay its " + "tribute cost in " + "addition to its " + "normal costs.")

  const Harvest: KeywordDefinition := KeywordDefinition(
    "harvest", "Harvest - " + "{arg0}", "Get this effect " + "when used as an " + "Ingredient.")

  const First: KeywordDefinition := KeywordDefinition(
    "first", "First " + "{arg0}", "And the reminder uses the second " + "{arg1}")

  const Complicated: KeywordDefinition := KeywordDefinition(
    "complicated", "Complicated " + "{arg0}", "{" + "cost__names" + "}" + " ~")

  /** `KEYWORDS`. */
  const Catalog: seq<KeywordDefinition> := [Blocker, Tribute, Harvest, First, Complicated]

  /** `{definition.name: definition for definition in keyword_definitions}`:
      a later definition of the same name replaces an earlier one. */
  function ByName(defs: seq<KeywordDefinition>): map<string, KeywordDefinition>
    decreases |defs|
  {
    if defs == [] then map[]
    else ByName(defs[..|defs| - 1])[defs[|defs| - 1].name := defs[|defs| - 1]]
  }

  predicate DistinctNames(defs: seq<KeywordDefinition>) {
    forall i, j | 0 <= i < j < |defs| :: defs[i].name != defs[j].name
  }

  /** The names of the definitions, in order. */
  function Names(defs: seq<KeywordDefinition>): (r: seq<string>)
    ensures |r| == |defs| && forall i | 0 <= i < |defs| :: r[i] == defs[i].name
  {
    if defs == [] then [] else Names(defs[..|defs| - 1]) + [defs[|defs| - 1].name]
  }

  /** The last definition named `n`. */
  function LastNamed(defs: seq<KeywordDefinition>, n: string): Option<KeywordDefinition>
    decreases |defs|
  {
    if defs == [] then None
    else if defs[|defs| - 1].name == n then Some(defs[|defs| - 1])
    else LastNamed(defs[..|defs| - 1], n)
  }

  /** The dict has exactly the definitions' names as keys and maps each name
      to the last definition carrying it. */
  lemma {:induction false} ByNameSpec(defs: seq<KeywordDefinition>, n: string)
    ensures n in ByName(defs) <==> n in Names(defs)
    ensures n in ByName(defs) ==> Some(ByName(defs)[n]) == LastNamed(defs, n)
    decreases |defs|
  {
    if defs != [] {
      ByNameSpec(defs[..|defs| - 1], n);
      assert Names(defs) == Names(defs[..|defs| - 1]) + [defs[|defs| - 1].name];
    }
  }

  /** With distinct names every definition is found under its own name and
      the dict has one entry per definition. */
  lemma {:induction false} ByNameDistinct(defs: seq<KeywordDefinition>)
    requires DistinctNames(defs)
    ensures |ByName(defs)| == |defs|
    ensures forall i | 0 <= i < |defs| :: defs[i].name in ByName(defs) && ByName(defs)[defs[i].name] == defs[i]
    decreases |defs|
  {
    if defs != [] {
      var init, last := defs[..|defs| - 1], defs[|defs| - 1];
      assert DistinctNames(init);
      ByNameDistinct(init);
      ByNameSpec(init, last.name);
      assert last.name !in Names(init);
    }
  }

  /** The five names are distinct, so the catalog dict has five entries, one
      per definition. */
  lemma CatalogByName()
    ensures DistinctNames(Catalog)
    ensures |ByName(Catalog)| == 5
    ensures ByName(Catalog)
         == map["blocker" := Blocker, "tribute" := Tribute, "harvest" := Harvest,
                "first" := First, "complicated" := Complicated]
  {
    assert DistinctNames(Catalog) by {
      assert Blocker.name[0] == 'b' && Tribute.name[0] == 't' && Harvest.name[0] == 'h';
      assert First.name[0] == 'f' && Complicated.name[0] == 'c';
    }
    ByNameDistinct(Catalog);
    var c1, c2, c3, c4 := [Blocker], [Blocker, Tribute], [Blocker, Tribute, Harvest],
      [Blocker, Tribute, Harvest, First];
    assert c1[..0] == [] && c2[..1] == c1 && c3[..2] == c2 && c4[..3] == c3 && Catalog[..4] == c4;
    assert ByName(c1) == map["blocker" := Blocker];
    assert ByName(c2) == map["blocker" := Blocker, "tribute" := Tribute];
    assert ByName(c3) == map["blocker" := Blocker, "tribute" := Tribute, "harvest" := Harvest];
    assert ByName(c4)
        == map["blocker" := Blocker, "tribute" := Tribute, "harvest" := Harvest, "first" := First];
  }

  /** Every catalog entry is found under its own name, and no other name is
      found. */
  lemma CatalogLookup(d: KeywordDefinition, n: string)
    requires d in Catalog
    ensures d.name in ByName(Catalog) && ByName(Catalog)[d.name] == d
    ensures n in ByName(Catalog) <==> n in Names(Catalog)
  {
    CatalogByName();
    ByNameDistinct(Catalog);
    ByNameSpec(Catalog, n);
  }

  /** The `blocker` reminder opens with `<<tap>>` and has no other angle
      bracket. */
  lemma BlockerTailPlain()
    ensures '<' !in BlockerTail && '>' !in BlockerTail
  {
    TailStartPlain();
    TailEndPlain();
  }

  lemma TailStartPlain()
    ensures '<' !in TailStart && '>' !in TailStart
  {
    assert '<' !in " Change the " && '>' !in " Change the ";
    assert '<' !in "target of an enemy " && '>' !in "target of an enemy ";
    assert '<' !in "attack from an " && '>' !in "attack from an ";
  }

  lemma TailEndPlain()
    ensures '<' !in TailEnd && '>' !in TailEnd
  {
    assert '<' !in "adjacent creature " && '>' !in "adjacent creature ";
    assert '<' !in "or you to this " && '>' !in "or you to this ";
    assert '<' !in "creature." && '>' !in "creature.";
  }
}
