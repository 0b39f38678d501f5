/** The colour flag set of `tcg/lib/types/color.py`: five hues, one flag bit
    each, the letter shortcuts that name them and `Color.from_string`, which
    takes the union of the flags of a string's letters. */
module Colors {
  import opened Wrappers

  /** The five colours, in declaration (and bit) order. */
  datatype Hue = Divine | Arcane | Occult | Primal | Alchemy

  /** A `Color` flag value, one flag bit per hue. */
  datatype Color = Color(divine: bool, arcane: bool, occult: bool, primal: bool, alchemy: bool)

  /** `Color(0)`, the empty set. */
  const Empty: Color := Color(false, false, false, false, false)

  predicate Has(c: Color, h: Hue) {
    match h
    case Divine => c.divine
    case Arcane => c.arcane
    case Occult => c.occult
    case Primal => c.primal
    case Alchemy => c.alchemy
  }

  /** Two flag values are equal exactly when they hold the same hues. */
  lemma Extensional(a: Color, b: Color)
    requires forall h :: Has(a, h) <==> Has(b, h)
    ensures a == b
  {
    assert Has(a, Divine) == Has(b, Divine) && Has(a, Arcane) == Has(b, Arcane);
    assert Has(a, Occult) == Has(b, Occult) && Has(a, Primal) == Has(b, Primal);
    assert Has(a, Alchemy) == Has(b, Alchemy);
  }

  /** The single-hue member `Color.DIVINE` etc. */
  function Flag(h: Hue): (c: Color)
    ensures forall g :: Has(c, g) <==> g == h
  {
    match h
    case Divine => Empty.(divine := true)
    case Arcane => Empty.(arcane := true)
    case Occult => Empty.(occult := true)
    case Primal => Empty.(primal := true)
    case Alchemy => Empty.(alchemy := true)
  }

  /** `a | b`. */
  function Union(a: Color, b: Color): (c: Color)
    ensures forall h :: Has(c, h) <==> Has(a, h) || Has(b, h)
  {
    Color(a.divine || b.divine, a.arcane || b.arcane, a.occult || b.occult,
          a.primal || b.primal, a.alchemy || b.alchemy)
  }

  /** `enum.auto()` numbers the members 1, 2, 4, 8, 16: the integer value of
      a flag set is the sum of its members' bits. */
  function Value(c: Color): (v: nat)
    ensures v < 32
  {
    (if c.divine then 1 else 0) + (if c.arcane then 2 else 0) + (if c.occult then 4 else 0)
    + (if c.primal then 8 else 0) + (if c.alchemy then 16 else 0)
  }

  /** The bit encoding: each hue has its own power of two, different sets have
      different values, and only the empty set is 0. */
  lemma ValueEncoding(a: Color, b: Color)
    ensures Value(Flag(Divine)) == 1 && Value(Flag(Arcane)) == 2 && Value(Flag(Occult)) == 4
    ensures Value(Flag(Primal)) == 8 && Value(Flag(Alchemy)) == 16
    ensures Value(a) == Value(b) <==> a == b
    ensures Value(a) == 0 <==> a == Empty
  {
  }

  function Letter(h: Hue): char {
    match h
    case Divine => 'D'
    case Arcane => 'A'
    case Occult => 'O'
    case Primal => 'P'
    case Alchemy => 'L'
  }

  /** `len(hexcodes)` for a set: the number of hues it contains. */
  function Count(c: Color): nat {
    (if c.divine then 1 else 0) + (if c.arcane then 1 else 0) + (if c.occult then 1 else 0)
    + (if c.primal then 1 else 0) + (if c.alchemy then 1 else 0)
  }

  /** `Color.shortcuts`: letter to single-hue flag. */
  const Shortcuts: map<char, Color> :=
    map['D' := Flag(Divine), 'A' := Flag(Arcane), 'O' := Flag(Occult), 'P' := Flag(Primal),
        'L' := Flag(Alchemy)]

  /** `Color.shortcut_keys`, the keys in insertion order. */
  const ShortcutKeys: string := "DAOPL"

  /** `Color.names`. */
  const Names: map<Color, string> :=
    map[Flag(Divine) := "divine", Flag(Arcane) := "arcane", Flag(Occult) := "occult",
        Flag(Primal) := "primal", Flag(Alchemy) := "alchemy"]

  /** `ManaCostHTMLExtension.COLOR_VALUES`. */
  const HexValues: map<Color, string> :=
    map[Flag(Divine) := "#f5de0c", Flag(Arcane) := "#3232e4", Flag(Occult) := "#2e2e2e",
        Flag(Primal) := "#f56600", Flag(Alchemy) := "#9e2e9e"]

  /** The shortcut table agrees with the hues: each hue's letter maps to its
      flag, the only keys are the five letters of `shortcut_keys`, and every
      single-hue flag has a name and a hex code. */
  lemma ShortcutsByHue(h: Hue, ch: char)
    ensures Letter(h) in Shortcuts && Shortcuts[Letter(h)] == Flag(h)
    ensures ch in Shortcuts <==> ch in ShortcutKeys
    ensures Flag(h) in Names && Flag(h) in HexValues
  {
  }

  /** Every character of `s` is a shortcut letter. */
  predicate Valid(s: string) {
    forall i | 0 <= i < |s| :: s[i] in Shortcuts
  }

  /** `Color.from_string`: the union of the flags of the letters, scanning left
      to right; the first letter that is not a shortcut raises `KeyError`. */
  function ColorOf(s: string): Result<Color> {
    if s == [] then Success(Empty)
    else
      var c :- ColorOf(s[..|s| - 1]);
      var ch := s[|s| - 1];
      if ch in Shortcuts then Success(Union(c, Shortcuts[ch])) else Failure(MissingKey([ch]))
  }

  /** The flag set whose hues are exactly the letters occurring in `s`. */
  function MaskOf(s: string): (c: Color)
    ensures forall h :: Has(c, h) <==> Letter(h) in s
  {
    Color('D' in s, 'A' in s, 'O' in s, 'P' in s, 'L' in s)
  }

  /** `from_string` succeeds exactly on strings of shortcut letters, and then
      the result is the set of hues whose letters occur in the string. */
  lemma {:induction false} ColorOfIsMask(s: string)
    ensures ColorOf(s).Success? <==> Valid(s)
    ensures Valid(s) ==> ColorOf(s) == Success(MaskOf(s))
  {
    if s != [] {
      var init, last := s[..|s| - 1], s[|s| - 1];
      ColorOfIsMask(init);
      assert s == init + [last];
      assert Valid(s) <==> Valid(init) && last in Shortcuts;
      if Valid(s) {
        forall h ensures Has(MaskOf(s), h) <==> Has(Union(MaskOf(init), Shortcuts[last]), h) {
          assert Letter(h) in s <==> Letter(h) in init || Letter(h) == last;
        }
        Extensional(MaskOf(s), Union(MaskOf(init), Shortcuts[last]));
      }
    }
  }

  /** The first invalid letter decides the error: a failing prefix makes the
      whole string fail the same way. */
  lemma {:induction false} ColorOfPrefixFailure(s: string, i: nat)
    requires i <= |s| && ColorOf(s[..i]).Failure?
    ensures ColorOf(s) == ColorOf(s[..i])
    decreases |s| - i
  {
    if i < |s| {
      var t := s[..i + 1];
      assert t[..|t| - 1] == s[..i];
      ColorOfPrefixFailure(s, i + 1);
    } else {
      assert s[..i] == s;
    }
  }

  /** `Color.from_string` as the loop of the source: `result |= shortcuts[char]`. */
  method FromString(s: string) returns (r: Result<Color>)
    ensures r == ColorOf(s)
  {
    var result := Empty;
    for i := 0 to |s|
      invariant ColorOf(s[..i]) == Success(result)
    {
      var ch := s[i];
      assert s[..i + 1][..i] == s[..i];
      if ch !in Shortcuts {
        ColorOfPrefixFailure(s, i + 1);
        return Failure(MissingKey([ch]));
      }
      result := Union(result, Shortcuts[ch]);
    }
    assert s[..|s|] == s;
    return Success(result);
  }

  /** Only the set of letters matters: strings with the same letters give the
      same colour, so any permutation and any repetition of letters is harmless. */
  lemma SameLetters(s: string, t: string)
    requires forall ch :: ch in s <==> ch in t
    ensures ColorOf(s).Success? <==> ColorOf(t).Success?
    ensures ColorOf(s).Success? ==> ColorOf(t) == ColorOf(s)
  {
    ColorOfIsMask(s);
    ColorOfIsMask(t);
    assert Valid(s) <==> Valid(t) by {
      if Valid(s) {
        forall i | 0 <= i < |t| ensures t[i] in Shortcuts {
          assert t[i] in s;
        }
      }
      if Valid(t) {
        forall i | 0 <= i < |s| ensures s[i] in Shortcuts {
          assert s[i] in t;
        }
      }
    }
    Extensional(MaskOf(s), MaskOf(t));
  }

  lemma ColorOfPermutation(s: string, t: string)
    requires multiset(s) == multiset(t)
    ensures ColorOf(s).Success? <==> ColorOf(t).Success?
    ensures ColorOf(s).Success? ==> ColorOf(t) == ColorOf(s)
  {
    forall ch ensures ch in s <==> ch in t {
      assert ch in s <==> ch in multiset(s);
      assert ch in t <==> ch in multiset(t);
    }
    SameLetters(s, t);
  }

  lemma ColorOfRepeat(s: string, i: nat)
    requires i < |s|
    ensures ColorOf(s + [s[i]]) == ColorOf(s)
  {
    var t := s + [s[i]];
    assert s[i] in s;
    SameLetters(s, t);
    ColorOfIsMask(t);
    assert Valid(t) ==> Valid(s);
    if ColorOf(t).Failure? {
      assert t[..|t| - 1] == s;
    }
  }

  /** The union of two strings' letters is the union of their flags. */
  lemma ColorOfUnion(s: string, t: string)
    requires ColorOf(s).Success? && ColorOf(t).Success?
    ensures ColorOf(s + t) == Success(Union(ColorOf(s).value, ColorOf(t).value))
  {
    ColorOfIsMask(s);
    ColorOfIsMask(t);
    ColorOfIsMask(s + t);
    assert Valid(s + t) by {
      forall i | 0 <= i < |s + t| ensures (s + t)[i] in Shortcuts {
        if i >= |s| { assert (s + t)[i] == t[i - |s|]; }
      }
    }
    Extensional(MaskOf(s + t), Union(MaskOf(s), MaskOf(t)));
  }
}
