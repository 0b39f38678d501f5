/** `sorted_colors`, the hand-written table of canonical letter orders in
    `tcg/lib/types/color.py`, the two dicts built from it by comprehension and
    the `as_ordered_string`, `as_ordered_enum` and `as_name_list` lookups. */
module ColorTable {
  import opened Wrappers
  import opened Colors

  /** Mono. */
  const Mono: seq<string> := ["D", "A", "O", "P", "L"]
  /** Dual - Ally. */
  const Ally: seq<string> := ["DA", "AO", "OP", "PL", "LD"]
  /** Dual - Enemy. */
  const Enemy: seq<string> := ["DO", "AP", "OL", "PD", "LA"]
  /** Triple - Arc. */
  const Arc: seq<string> := ["DAO", "AOP", "OPL", "PLD", "LDA"]
  /** Triple - Wedge. */
  const Wedge: seq<string> := ["DAP", "AOL", "OPD", "PLA", "LDO"]
  /** Quadruple. */
  const Quad: seq<string> := ["DAOP", "AOPL", "OPLD", "PLDA", "LDAO"]
  /** Five. */
  const Five: seq<string> := ["DAOPL"]

  /** `sorted_colors`, in the source's order and grouping. */
  const SortedColors: seq<string> := Mono + Ally + Enemy + Arc + Wedge + Quad + Five

  /** No letter occurs twice. */
  predicate NoRepeat(s: string) {
    forall i, j | 0 <= i < j < |s| :: s[i] != s[j]
  }

  /** The colours that the strings of a table spell. */
  function MaskSet(strs: seq<string>): set<Color> {
    set s | s in strs :: MaskOf(s)
  }

  /** Different strings of the table spell different colours. */
  predicate Injective(strs: seq<string>) {
    forall s, t | s in strs && t in strs && MaskOf(s) == MaskOf(t) :: s == t
  }

  /** A table entry: shortcut letters only, none repeated, so one letter per
      hue of the colour it spells. */
  predicate Entry(s: string) {
    Valid(s) && NoRepeat(s) && |s| == Count(MaskOf(s))
  }

  predicate Entries(strs: seq<string>) {
    forall s | s in strs :: Entry(s)
  }

  /** A table of entries spelling exactly the colours `cs`, each once. */
  predicate Spells(strs: seq<string>, cs: set<Color>) {
    Entries(strs) && Injective(strs) && MaskSet(strs) == cs
  }

  /** Every string of a five-entry group is one of its five entries. */
  lemma GroupMembers(g: seq<string>)
    ensures |g| == 5 ==> forall s | s in g :: s == g[0] || s == g[1] || s == g[2] || s == g[3] || s == g[4]
  {
    if |g| == 5 {
      forall s | s in g ensures s == g[0] || s == g[1] || s == g[2] || s == g[3] || s == g[4] {
        var i :| 0 <= i < 5 && g[i] == s;
      }
    }
  }

  /** A group of five entries spelling five different colours. The facts
      come in as an implication, so that each stays a single fact where the
      lemma is used. */
  lemma Group5(g: seq<string>)
    ensures |g| == 5 && Entry(g[0]) && Entry(g[1]) && Entry(g[2]) && Entry(g[3]) && Entry(g[4])
         && MaskOf(g[0]) != MaskOf(g[1]) && MaskOf(g[0]) != MaskOf(g[2]) && MaskOf(g[0]) != MaskOf(g[3])
         && MaskOf(g[0]) != MaskOf(g[4]) && MaskOf(g[1]) != MaskOf(g[2]) && MaskOf(g[1]) != MaskOf(g[3])
         && MaskOf(g[1]) != MaskOf(g[4]) && MaskOf(g[2]) != MaskOf(g[3]) && MaskOf(g[2]) != MaskOf(g[4])
         && MaskOf(g[3]) != MaskOf(g[4])
         ==> Spells(g, {MaskOf(g[0]), MaskOf(g[1]), MaskOf(g[2]), MaskOf(g[3]), MaskOf(g[4])})
  {
    GroupMembers(g);
    if |g| == 5 {
      assert g[0] in g && g[1] in g && g[2] in g && g[3] in g && g[4] in g;
      GroupInjective(g);
      GroupMasks(g);
    }
  }

  lemma GroupInjective(g: seq<string>)
    requires |g| == 5 && forall s | s in g :: s == g[0] || s == g[1] || s == g[2] || s == g[3] || s == g[4]
    ensures MaskOf(g[0]) != MaskOf(g[1]) && MaskOf(g[0]) != MaskOf(g[2]) && MaskOf(g[0]) != MaskOf(g[3])
         && MaskOf(g[0]) != MaskOf(g[4]) && MaskOf(g[1]) != MaskOf(g[2]) && MaskOf(g[1]) != MaskOf(g[3])
         && MaskOf(g[1]) != MaskOf(g[4]) && MaskOf(g[2]) != MaskOf(g[3]) && MaskOf(g[2]) != MaskOf(g[4])
         && MaskOf(g[3]) != MaskOf(g[4])
         ==> Injective(g)
  {
  }

  lemma GroupMasks(g: seq<string>)
    requires |g| == 5 && forall s | s in g :: s == g[0] || s == g[1] || s == g[2] || s == g[3] || s == g[4]
    ensures MaskSet(g) == {MaskOf(g[0]), MaskOf(g[1]), MaskOf(g[2]), MaskOf(g[3]), MaskOf(g[4])}
  {
    assert g[0] in g && g[1] in g && g[2] in g && g[3] in g && g[4] in g;
  }

  lemma Group1(g: seq<string>)
    ensures |g| == 1 && Entry(g[0]) ==> Spells(g, {MaskOf(g[0])})
  {
    if |g| == 1 {
      assert forall s | s in g :: s == g[0];
      assert g[0] in g;
    }
  }

  const MonoColors: set<Color> := {MaskOf("D"), MaskOf("A"), MaskOf("O"), MaskOf("P"), MaskOf("L")}
  const AllyColors: set<Color> := {MaskOf("DA"), MaskOf("AO"), MaskOf("OP"), MaskOf("PL"), MaskOf("LD")}
  const EnemyColors: set<Color> := {MaskOf("DO"), MaskOf("AP"), MaskOf("OL"), MaskOf("PD"), MaskOf("LA")}
  const ArcColors: set<Color> := {MaskOf("DAO"), MaskOf("AOP"), MaskOf("OPL"), MaskOf("PLD"), MaskOf("LDA")}
  const WedgeColors: set<Color> := {MaskOf("DAP"), MaskOf("AOL"), MaskOf("OPD"), MaskOf("PLA"), MaskOf("LDO")}
  const QuadColors: set<Color> := {MaskOf("DAOP"), MaskOf("AOPL"), MaskOf("OPLD"), MaskOf("PLDA"), MaskOf("LDAO")}
  const FiveColors: set<Color> := {MaskOf("DAOPL")}

  lemma MonoSpells()
    ensures Spells(Mono, MonoColors)
  {
    assert Entry("D");
    assert Entry("A");
    assert Entry("O");
    assert Entry("P");
    assert Entry("L");
    Group5(Mono);
  }

  lemma AllySpells()
    ensures Spells(Ally, AllyColors)
  {
    assert Entry("DA");
    assert Entry("AO");
    assert Entry("OP");
    assert Entry("PL");
    assert Entry("LD");
    Group5(Ally);
  }

  lemma EnemySpells()
    ensures Spells(Enemy, EnemyColors)
  {
    assert Entry("DO");
    assert Entry("AP");
    assert Entry("OL");
    assert Entry("PD");
    assert Entry("LA");
    Group5(Enemy);
  }

  lemma ArcSpells()
    ensures Spells(Arc, ArcColors)
  {
    assert Entry("DAO");
    assert Entry("AOP");
    assert Entry("OPL");
    assert Entry("PLD");
    assert Entry("LDA");
    Group5(Arc);
  }

  lemma WedgeSpells()
    ensures Spells(Wedge, WedgeColors)
  {
    assert Entry("DAP");
    assert Entry("AOL");
    assert Entry("OPD");
    assert Entry("PLA");
    assert Entry("LDO");
    Group5(Wedge);
  }

  lemma QuadSpells()
    ensures Spells(Quad, QuadColors)
  {
    assert Entry("DAOP");
    assert Entry("AOPL");
    assert Entry("OPLD");
    assert Entry("PLDA");
    assert Entry("LDAO");
    Group5(Quad);
  }

  lemma FiveSpells()
    ensures Spells(Five, FiveColors)
  {
    assert Entry("DAOPL");
    Group1(Five);
  }

  /** Two tables spelling disjoint colours concatenate to one. */
  lemma SpellsAppend(a: seq<string>, b: seq<string>, ca: set<Color>, cb: set<Color>)
    requires Spells(a, ca) && Spells(b, cb) && ca !! cb
    ensures Spells(a + b, ca + cb)
  {
    assert forall s | s in a :: MaskOf(s) in ca;
    assert forall s | s in b :: MaskOf(s) in cb;
  }

  /** Seven groups spelling pairwise disjoint colours form one table. */
  lemma Combine(g1: seq<string>, g2: seq<string>, g3: seq<string>, g4: seq<string>,
                g5: seq<string>, g6: seq<string>, g7: seq<string>,
                c1: set<Color>, c2: set<Color>, c3: set<Color>, c4: set<Color>, c5: set<Color>, c6: set<Color>, c7: set<Color>)
    ensures Spells(g1, c1) && Spells(g2, c2) && Spells(g3, c3) && Spells(g4, c4)
         && Spells(g5, c5) && Spells(g6, c6) && Spells(g7, c7)
         && c1 !! c2 && c1 !! c3 && c1 !! c4 && c1 !! c5 && c1 !! c6 && c1 !! c7
         && c2 !! c3 && c2 !! c4 && c2 !! c5 && c2 !! c6 && c2 !! c7
         && c3 !! c4 && c3 !! c5 && c3 !! c6 && c3 !! c7
         && c4 !! c5 && c4 !! c6 && c4 !! c7
         && c5 !! c6 && c5 !! c7 && c6 !! c7
         ==> Spells(g1 + g2 + g3 + g4 + g5 + g6 + g7, c1 + c2 + c3 + c4 + c5 + c6 + c7)
  {
    if Spells(g1, c1) && Spells(g2, c2) && Spells(g3, c3) && Spells(g4, c4)
       && Spells(g5, c5) && Spells(g6, c6) && Spells(g7, c7)
       && c1 !! c2 && c1 !! c3 && c1 !! c4 && c1 !! c5 && c1 !! c6 && c1 !! c7
       && c2 !! c3 && c2 !! c4 && c2 !! c5 && c2 !! c6 && c2 !! c7
       && c3 !! c4 && c3 !! c5 && c3 !! c6 && c3 !! c7
       && c4 !! c5 && c4 !! c6 && c4 !! c7
       && c5 !! c6 && c5 !! c7 && c6 !! c7 {
      SpellsAppend(g1, g2, c1, c2);
      SpellsAppend(g1 + g2, g3, c1 + c2, c3);
      SpellsAppend(g1 + g2 + g3, g4, c1 + c2 + c3, c4);
      SpellsAppend(g1 + g2 + g3 + g4, g5, c1 + c2 + c3 + c4, c5);
      SpellsAppend(g1 + g2 + g3 + g4 + g5, g6, c1 + c2 + c3 + c4 + c5, c6);
      SpellsAppend(g1 + g2 + g3 + g4 + g5 + g6, g7, c1 + c2 + c3 + c4 + c5 + c6, c7);
    }
  }

  /** The colour sets of the seven groups are pairwise disjoint. */
  lemma MonoDisjoint()
    ensures MonoColors !! AllyColors && MonoColors !! EnemyColors && MonoColors !! ArcColors && MonoColors !! WedgeColors && MonoColors !! QuadColors && MonoColors !! FiveColors
  {
  }

  lemma AllyDisjoint()
    ensures AllyColors !! EnemyColors && AllyColors !! ArcColors && AllyColors !! WedgeColors && AllyColors !! QuadColors && AllyColors !! FiveColors
  {
  }

  lemma EnemyDisjoint()
    ensures EnemyColors !! ArcColors && EnemyColors !! WedgeColors && EnemyColors !! QuadColors && EnemyColors !! FiveColors
  {
  }

  lemma ArcDisjoint()
    ensures ArcColors !! WedgeColors && ArcColors !! QuadColors && ArcColors !! FiveColors
  {
  }

  lemma WedgeDisjoint()
    ensures WedgeColors !! QuadColors && WedgeColors !! FiveColors
  {
  }

  lemma QuadDisjoint()
    ensures QuadColors !! FiveColors
  {
  }

  /** The colours of all groups together. */
  const GroupColors: set<Color> := MonoColors + AllyColors + EnemyColors + ArcColors + WedgeColors + QuadColors + FiveColors

  /** `sorted_colors` spells every colour of the groups exactly once, with
      entries that have no repeated letter. */
  lemma SortedColorsSpells()
    ensures Spells(SortedColors, GroupColors)
  {
    MonoSpells(); AllySpells(); EnemySpells(); ArcSpells(); WedgeSpells(); QuadSpells(); FiveSpells();
    MonoDisjoint(); AllyDisjoint(); EnemyDisjoint(); ArcDisjoint(); WedgeDisjoint(); QuadDisjoint();
    Combine(Mono, Ally, Enemy, Arc, Wedge, Quad, Five,
            MonoColors, AllyColors, EnemyColors, ArcColors,
            WedgeColors, QuadColors, FiveColors);
  }

  /** Every non-empty colour set is spelled by the group of its size. */
  lemma CoverSmall(c: Color)
    ensures Count(c) == 1 ==> c in MonoColors
    ensures Count(c) == 2 ==> c in AllyColors || c in EnemyColors
  {
  }

  lemma CoverLarge(c: Color)
    ensures Count(c) == 3 ==> c in ArcColors || c in WedgeColors
    ensures Count(c) == 4 ==> c in QuadColors
    ensures Count(c) == 5 ==> c in FiveColors
  {
  }

  /** The table's colours are exactly the non-empty sets. */
  lemma GroupColorsNonEmpty(c: Color)
    ensures c in GroupColors <==> c != Empty
  {
    CoverSmall(c);
    CoverLarge(c);
  }

  /** `sorted_colors` has 31 entries and gives each non-empty colour set one
      string, which has no repeated letter. */
  lemma SortedColorsTable()
    ensures |SortedColors| == 31
    ensures Entries(SortedColors) && Injective(SortedColors)
    ensures forall c :: c in MaskSet(SortedColors) <==> c != Empty
  {
    SortedColorsSpells();
    forall c ensures c in MaskSet(SortedColors) <==> c != Empty {
      GroupColorsNonEmpty(c);
    }
  }

  /** A dict comprehension `{from_string(s): f(s) for s in strs}`: built left
      to right, a later key overwriting an earlier one. */
  function BuildTable<V>(strs: seq<string>, f: string -> Result<V>): Result<map<Color, V>> {
    if strs == [] then Success(map[])
    else
      var m :- BuildTable(strs[..|strs| - 1], f);
      var k :- ColorOf(strs[|strs| - 1]);
      var v :- f(strs[|strs| - 1]);
      Success(m[k := v])
  }

  /** The last string of `strs` that spells `c`: the one whose value the
      comprehension keeps for key `c`. */
  function Spelling(strs: seq<string>, c: Color): string {
    if strs == [] then []
    else if MaskOf(strs[|strs| - 1]) == c then strs[|strs| - 1]
    else Spelling(strs[..|strs| - 1], c)
  }

  lemma {:induction false} SpellingSpec(strs: seq<string>, c: Color)
    ensures c in MaskSet(strs) ==> Spelling(strs, c) in strs && MaskOf(Spelling(strs, c)) == c
  {
    if strs != [] && c in MaskSet(strs) {
      var init, last := strs[..|strs| - 1], strs[|strs| - 1];
      assert strs == init + [last];
      if MaskOf(last) != c {
        var s :| s in strs && MaskOf(s) == c;
        assert s in init;
        SpellingSpec(init, c);
      }
    }
  }

  /** In a table without two strings for one colour, each string is the
      spelling of its own colour. */
  lemma SpellingInjective(strs: seq<string>, s: string)
    ensures Injective(strs) && s in strs ==> Spelling(strs, MaskOf(s)) == s
  {
    SpellingSpec(strs, MaskOf(s));
  }

  /** Every string is made of shortcut letters. */
  predicate AllValid(strs: seq<string>) {
    forall s | s in strs :: Valid(s)
  }

  /** `f` yields a value for every string of shortcut letters. */
  ghost predicate Total<V>(f: string -> Result<V>) {
    forall s | Valid(s) :: f(s).Success?
  }

  /** On strings of shortcut letters the comprehension succeeds, its keys
      are the colours the strings spell, and each key holds the value of the
      last string spelling it. */
  lemma {:induction false} BuildTableSpec<V>(strs: seq<string>, f: string -> Result<V>)
    ensures AllValid(strs) && Total(f) ==>
      BuildTable(strs, f).Success? && BuildTable(strs, f).value.Keys == MaskSet(strs)
      && forall c | c in MaskSet(strs) :: Success(BuildTable(strs, f).value[c]) == f(Spelling(strs, c))
    decreases |strs|
  {
    if strs != [] && AllValid(strs) && Total(f) {
      var init, last := strs[..|strs| - 1], strs[|strs| - 1];
      assert strs == init + [last];
      assert forall s | s in init :: s in strs;
      assert last in strs;
      BuildTableSpec(init, f);
      var m := BuildTable(init, f).value;
      ColorOfIsMask(last);
      var v := f(last).value;
      assert BuildTable(strs, f) == Success(m[MaskOf(last) := v]);
      assert MaskSet(strs) == MaskSet(init) + {MaskOf(last)};
    }
  }

  /** The value the `ordering_string` comprehension stores: the string itself. */
  function Verbatim(s: string): Result<string> {
    Success(s)
  }

  /** `Color.ordering_string`. */
  function OrderingString(): Result<map<Color, string>> {
    BuildTable(SortedColors, Verbatim)
  }

  /** The single-letter flags of a string: `tuple(from_string(c) for c in s)`. */
  function EnumsOf(s: string): Result<seq<Color>> {
    if s == [] then Success([])
    else
      var e :- ColorOf([s[0]]);
      var rest :- EnumsOf(s[1..]);
      Success([e] + rest)
  }

  /** On shortcut letters the flags are the letters' shortcuts, in order. */
  lemma {:induction false} EnumsOfValid(s: string)
    requires Valid(s)
    ensures EnumsOf(s).Success? && |EnumsOf(s).value| == |s|
    ensures forall i | 0 <= i < |s| :: EnumsOf(s).value[i] == Shortcuts[s[i]]
  {
    if s != [] {
      assert [s[0]][..0] == [];
      assert ColorOf([s[0]]) == Success(Union(Empty, Shortcuts[s[0]]));
      Extensional(Union(Empty, Shortcuts[s[0]]), Shortcuts[s[0]]);
      EnumsOfValid(s[1..]);
      var rest := EnumsOf(s[1..]).value;
      assert EnumsOf(s) == Success([Shortcuts[s[0]]] + rest);
      forall i | 0 < i < |s| ensures ([Shortcuts[s[0]]] + rest)[i] == Shortcuts[s[i]] {
        assert s[1..][i - 1] == s[i];
      }
    }
  }

  lemma EnumsOfTotal()
    ensures Total(EnumsOf)
  {
    forall s | Valid(s) ensures EnumsOf(s).Success? {
      EnumsOfValid(s);
    }
  }

  /** `Color.ordering_enums`. */
  function OrderingEnums(): Result<map<Color, seq<Color>>> {
    BuildTable(SortedColors, EnumsOf)
  }

  /** The canonical string of a non-empty colour set. */
  function Canonical(c: Color): string {
    Spelling(SortedColors, c)
  }

  /** The canonical string of a non-empty set is a table entry for it. */
  lemma CanonicalSpec(c: Color)
    ensures c != Empty ==> Canonical(c) in SortedColors && MaskOf(Canonical(c)) == c
    ensures c != Empty ==> Entry(Canonical(c))
  {
    SortedColorsTable();
    SpellingSpec(SortedColors, c);
  }

  /** Every table string is made of shortcut letters. */
  lemma SortedColorsValid()
    ensures AllValid(SortedColors)
  {
    SortedColorsTable();
  }

  /** Both ordering dicts have one key per non-empty colour set; under it
      they hold the canonical string and the flags of its letters. */
  lemma OrderingTables()
    ensures OrderingString().Success? && OrderingEnums().Success?
    ensures forall c :: c in OrderingString().value <==> c != Empty
    ensures forall c :: c in OrderingEnums().value <==> c != Empty
    ensures forall c | c != Empty ::
              OrderingString().value[c] == Canonical(c)
              && Success(OrderingEnums().value[c]) == EnumsOf(Canonical(c))
  {
    SortedColorsTable();
    SortedColorsValid();
    EnumsOfTotal();
    assert Total(Verbatim);
    BuildTableSpec(SortedColors, Verbatim);
    BuildTableSpec(SortedColors, EnumsOf);
  }

  /** `Color.as_ordered_string`; `Color(0)` is not a key and raises `KeyError`. */
  function AsOrderedString(c: Color): Result<string> {
    var m :- OrderingString();
    if c in m then Success(m[c]) else Failure(MissingKey("Color(0)"))
  }

  /** `Color.as_ordered_enum`. */
  function AsOrderedEnum(c: Color): Result<seq<Color>> {
    var m :- OrderingEnums();
    if c in m then Success(m[c]) else Failure(MissingKey("Color(0)"))
  }

  /** `[m[x] for x in xs]`. */
  function LookupAll<V>(m: map<Color, V>, xs: seq<Color>): Result<seq<V>> {
    if xs == [] then Success([])
    else if xs[0] !in m then Failure(MissingKey("Color"))
    else
      var rest :- LookupAll(m, xs[1..]);
      Success([m[xs[0]]] + rest)
  }

  /** The lookup succeeds exactly when every key is present, and then keeps
      order and length. */
  lemma {:induction false} LookupAllSpec<V>(m: map<Color, V>, xs: seq<Color>)
    ensures LookupAll(m, xs).Success? <==> forall i | 0 <= i < |xs| :: xs[i] in m
    ensures LookupAll(m, xs).Success? ==>
      |LookupAll(m, xs).value| == |xs|
      && forall i | 0 <= i < |xs| :: LookupAll(m, xs).value[i] == m[xs[i]]
  {
    if xs != [] {
      LookupAllSpec(m, xs[1..]);
      assert forall i | 0 < i < |xs| :: xs[1..][i - 1] == xs[i];
    }
  }

  /** `Color.as_name_list`. */
  function AsNameList(c: Color): Result<seq<string>> {
    var es :- AsOrderedEnum(c);
    LookupAll(Names, es)
  }

  /** The canonical string of a colour exists exactly for the non-empty sets,
      spells that set (round trip through `from_string`), is one of the
      table's strings, has no repeated letter and has one letter per hue. */
  lemma OrderedStringRoundTrip(c: Color)
    ensures AsOrderedString(c).Success? <==> c != Empty
    ensures c != Empty ==>
      var s := AsOrderedString(c).value;
      s == Canonical(c) && s in SortedColors
      && ColorOf(s) == Success(c) && NoRepeat(s) && |s| == Count(c)
  {
    OrderingTables();
    CanonicalSpec(c);
    if c != Empty {
      ColorOfIsMask(Canonical(c));
    }
  }

  /** No string of the table is overwritten: each is the canonical string
      of the colour it spells. */
  lemma SortedColorsCanonical(s: string)
    requires s in SortedColors
    ensures AsOrderedString(MaskOf(s)) == Success(s)
  {
    SortedColorsTable();
    SpellingInjective(SortedColors, s);
    assert MaskOf(s) in MaskSet(SortedColors);
    OrderingTables();
  }

  /** `as_ordered_enum` follows `as_ordered_string` letter by letter with
      single-hue flags, and `as_name_list` maps it through `names` in order. */
  lemma OrderedEnumMatchesString(c: Color)
    requires c != Empty
    ensures AsOrderedString(c).Success? && Valid(AsOrderedString(c).value)
    ensures AsOrderedEnum(c).Success? && AsNameList(c).Success?
    ensures var s, es, ns := AsOrderedString(c).value, AsOrderedEnum(c).value, AsNameList(c).value;
      |es| == |s| == |ns| == Count(c)
      && (forall i | 0 <= i < |s| :: es[i] == Shortcuts[s[i]] && ns[i] == Names[es[i]])
  {
    OrderingTables();
    OrderedStringRoundTrip(c);
    var s := AsOrderedString(c).value;
    ColorOfIsMask(s);
    EnumsOfValid(s);
    var es := EnumsOf(s).value;
    assert AsOrderedEnum(c) == Success(es);
    forall i | 0 <= i < |es| ensures es[i] in Names {
      assert s[i] in Shortcuts;
    }
    LookupAllSpec(Names, es);
  }
}
