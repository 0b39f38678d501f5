/** `ManaCostHTMLExtension` of `tcg/lib/types/color.py`: the hard-stop CSS
    gradient of a cost's colours and the two badge strings built around it. */
module ManaHtml {
  import opened Wrappers
  import opened Colors
  import opened ColorTable
  import opened ManaCosts
  import Strings

  /** An entry of `break_percents`: the end points are the ints `0` and `100`,
      the inner boundaries are floats. */
  datatype Percent = Whole(w: nat) | Fraction(f: real)

  function Amount(p: Percent): real {
    match p
    case Whole(w) => w as real
    case Fraction(f) => f
  }

  /** `f"{percent}"`: an int prints in decimal; the text of a float is the
      parameter `floatText`. */
  function PercentText(p: Percent, floatText: real -> string): string {
    match p
    case Whole(w) => Strings.NatToString(w)
    case Fraction(f) => floatText(f)
  }

  /** `range(num_colors - 1)` is empty for zero colours as for one. */
  function Max1(n: nat): nat {
    if n == 0 then 1 else n
  }

  /** `100 * fraction` for `fraction = k / n`. */
  function Boundary(n: nat, k: nat): real
    requires n > 0
  {
    100.0 * (k as real / n as real)
  }

  /** Entry `i` of `break_percents` for `n` colours, in closed form: 0 first,
      100 last, and for each inner boundary k the pair 100k/n - 1, 100k/n + 1
      (`bleed / 2` is 1). */
  function StopPercent(n: nat, i: nat): Percent
    requires i < 2 * Max1(n)
  {
    if i == 0 then Whole(0)
    else if i == 2 * Max1(n) - 1 then Whole(100)
    else
      var k := (i + 1) / 2;
      Fraction(Boundary(n, k) + (if i % 2 == 1 then -1.0 else 1.0))
  }

  function StopPercents(n: nat): (p: seq<Percent>)
    ensures |p| == 2 * Max1(n)
  {
    seq(2 * Max1(n), i requires 0 <= i < 2 * Max1(n) => StopPercent(n, i))
  }

  /** `break_percents` as the loop of `gradient` builds it. */
  method BreakPercents(numColors: nat) returns (p: seq<Percent>)
    ensures p == StopPercents(numColors)
  {
    var bleed := 2.0;
    p := [Whole(0)];
    var parts := if numColors == 0 then 0 else numColors - 1;
    for n := 0 to parts
      invariant |p| == 1 + 2 * n
      invariant forall i | 0 <= i < |p| :: p[i] == StopPercent(numColors, i)
    {
      var part := n + 1;
      var fraction := part as real / numColors as real;
      p := p + [Fraction((100.0 * fraction) - bleed / 2.0)];
      p := p + [Fraction((100.0 * fraction) + bleed / 2.0)];
    }
    p := p + [Whole(100)];
  }

  /** There are `2n` stops; the first is at 0, the last at 100, and the inner
      boundary `k` sits 1 below and 1 above `100k/n`. */
  lemma StopLayout(n: nat, k: nat)
    requires n > 0
    ensures |StopPercents(n)| == 2 * n
    ensures StopPercents(n)[0] == Whole(0) && StopPercents(n)[2 * n - 1] == Whole(100)
    ensures 1 <= k < n ==>
      StopPercents(n)[2 * k - 1] == Fraction(Boundary(n, k) - 1.0)
      && StopPercents(n)[2 * k] == Fraction(Boundary(n, k) + 1.0)
  {
    if 1 <= k < n {
      assert (2 * k - 1 + 1) / 2 == k && (2 * k + 1) / 2 == k;
      assert (2 * k - 1) % 2 == 1 && (2 * k) % 2 == 0;
    }
  }

  predicate NonDecreasing(p: seq<Percent>) {
    forall i | 0 < i < |p| :: Amount(p[i - 1]) <= Amount(p[i])
  }

  /** Consecutive boundaries are `100/n` apart. */
  lemma ScaleStep(n: nat, k: nat)
    requires n > 0
    ensures Boundary(n, k + 1) == Boundary(n, k) + 100.0 / n as real
    ensures Boundary(n, 0) == 0.0 && Boundary(n, n) == 100.0
  {
  }

  /** A full step `100/n` is at least the bleed 2 exactly up to 50 colours. */
  lemma StepWidth(n: nat)
    requires n > 0
    ensures 100.0 / n as real >= 2.0 <==> n <= 50
  {
    var q := 100.0 / n as real;
    assert q * n as real == 100.0;
  }

  /** One step of the order: stop `i` is not below stop `i - 1` when n <= 50. */
  lemma StopStep(n: nat, i: nat)
    requires 0 < n <= 50 && 0 < i < 2 * n
    ensures Amount(StopPercents(n)[i - 1]) <= Amount(StopPercents(n)[i])
  {
    var p := StopPercents(n);
    StepWidth(n);
    if i % 2 == 0 {
      StopLayout(n, i / 2);
    } else if i == 1 {
      if n > 1 {
        StopLayout(n, 1);
        ScaleStep(n, 0);
      }
    } else {
      var k := (i - 1) / 2;
      StopLayout(n, k);
      ScaleStep(n, k);
      if i == 2 * n - 1 {
        assert k + 1 == n;
      } else {
        StopLayout(n, k + 1);
      }
    }
  }

  /** The stops never decrease exactly when n <= 50, so for every colour set
      (at most 5 colours); from 51 colours on, the bleed makes them overlap. */
  lemma StopsNonDecreasing(n: nat)
    ensures NonDecreasing(StopPercents(n)) <==> n <= 50
  {
    if n == 0 {
    } else if n <= 50 {
      forall i | 0 < i < |StopPercents(n)|
        ensures Amount(StopPercents(n)[i - 1]) <= Amount(StopPercents(n)[i])
      {
        StopStep(n, i);
      }
    } else {
      StepWidth(n);
      StopLayout(n, 1);
      StopLayout(n, 2);
      ScaleStep(n, 1);
      assert Amount(StopPercents(n)[2]) > Amount(StopPercents(n)[3]);
    }
  }

  /** `[h, h] for h in hexcodes`, chained. */
  function Doubled(xs: seq<string>): (r: seq<string>)
    ensures |r| == 2 * |xs|
    ensures forall i | 0 <= i < |r| :: r[i] == xs[i / 2]
  {
    if xs == [] then [] else [xs[0], xs[0]] + Doubled(xs[1..])
  }

  function StopText(hexcode: string, p: Percent, floatText: real -> string): string {
    hexcode + " " + PercentText(p, floatText) + "%"
  }

  /** `[f"{hexcode} {percent}%" for (percent, hexcode) in zip(...)]`; `zip`
      stops at the shorter input. */
  function ZipStops(ps: seq<Percent>, hs: seq<string>, floatText: real -> string): (r: seq<string>)
    ensures |r| == if |ps| < |hs| then |ps| else |hs|
    ensures forall i | 0 <= i < |r| :: r[i] == StopText(hs[i], ps[i], floatText)
  {
    if ps == [] || hs == [] then []
    else [StopText(hs[0], ps[0], floatText)] + ZipStops(ps[1..], hs[1..], floatText)
  }

  /** `break_colors` of `gradient`. */
  function StopTexts(info: ManaCost, floatText: real -> string): Result<seq<string>> {
    var enums :- AsOrderedEnum(info.color);
    var hexcodes :- LookupAll(HexValues, enums);
    Success(ZipStops(StopPercents(|hexcodes|), Doubled(hexcodes), floatText))
  }

  /** `ManaCostHTMLExtension.gradient`. */
  function Gradient(info: ManaCost, floatText: real -> string): Result<string> {
    var stops :- StopTexts(info, floatText);
    Success("linear-gradient(to right, " + Strings.Join(stops, ", ") + ")")
  }

  /** The hex code of a colour letter. */
  function HexOfLetter(ch: char): string
    requires ch in Shortcuts
  {
    ShortcutsByHue(Divine, ch);
    HexValues[Shortcuts[ch]]
  }

  /** The gradient of a non-empty set has `2n` stops for its `n` colours:
      stop `i` carries the hex code of canonical letter `i / 2`, so each code
      appears twice in a row in canonical order, at percent `i` of the closed
      form. The empty set has no gradient. */
  lemma GradientStops(info: ManaCost, floatText: real -> string)
    ensures StopTexts(info, floatText).Success? <==> info.color != Empty
    ensures info.color != Empty ==>
      AsOrderedString(info.color).Success? && Valid(AsOrderedString(info.color).value)
    ensures info.color != Empty ==>
      var s, stops := AsOrderedString(info.color).value, StopTexts(info, floatText).value;
      |stops| == 2 * Count(info.color) == 2 * |s|
      && forall i | 0 <= i < |stops| ::
           stops[i] == StopText(HexOfLetter(s[i / 2]), StopPercents(|s|)[i], floatText)
  {
    OrderingTables();
    if info.color != Empty {
      OrderedEnumMatchesString(info.color);
      var s := AsOrderedString(info.color).value;
      var es := AsOrderedEnum(info.color).value;
      forall i | 0 <= i < |es| ensures es[i] in HexValues {
        assert s[i] in Shortcuts;
        ShortcutsByHue(Divine, s[i]);
      }
      LookupAllSpec(HexValues, es);
    }
  }

  /** `ManaCostHTMLExtension.color_first`: `as_ordered_enum[0]` looked up in
      `COLOR_VALUES`. */
  function ColorFirst(info: ManaCost): Result<string> {
    var enums :- AsOrderedEnum(info.color);
    if enums == [] then Failure(BadFormat("index"))
    else if enums[0] !in HexValues then Failure(MissingKey("Color"))
    else Success(HexValues[enums[0]])
  }

  /** `color_first` is the hex code of the first canonical letter, and the
      first stop of the gradient carries it. */
  lemma ColorFirstIsFirstLetter(info: ManaCost, floatText: real -> string)
    requires info.color != Empty
    ensures AsOrderedString(info.color).Success?
    ensures var s := AsOrderedString(info.color).value;
      s != [] && Valid(s) && ColorFirst(info) == Success(HexOfLetter(s[0]))
    ensures StopTexts(info, floatText).Success?
      && StopTexts(info, floatText).value[0] == StopText(ColorFirst(info).value, Whole(0), floatText)
  {
    OrderedEnumMatchesString(info.color);
    GradientStops(info, floatText);
    var s := AsOrderedString(info.color).value;
    assert s[0] in Shortcuts;
    ShortcutsByHue(Divine, s[0]);
    StopLayout(|s|, 0);
  }

  /** The badge around a gradient and an inner value. */
  function Badge(gradient: string, value: string): string {
    "<span class='mana' style='background: " + gradient + "'><span class='mana-value'>"
    + value + "</span></span>"
  }

  /** `ManaCostHTMLExtension.element`. */
  function Element(info: ManaCost, floatText: real -> string): Result<string> {
    var g :- Gradient(info, floatText);
    Success(Badge(g, info.value))
  }

  /** `ManaCostHTMLExtension.channel_element`. */
  function ChannelElement(info: ManaCost, floatText: real -> string): Result<string> {
    var g :- Gradient(info, floatText);
    Success(Badge(g, "1"))
  }

  /** The two badges differ only in the inner value: the channel badge is the
      badge of the same colours with value "1". Both exist exactly for a
      non-empty colour set. */
  lemma ChannelIsElementOfOne(info: ManaCost, floatText: real -> string)
    ensures ChannelElement(info, floatText) == Element(ManaCost("1", info.color), floatText)
    ensures Element(info, floatText).Success? <==> info.color != Empty
  {
    GradientOfColor(info, "1", floatText);
    assert Element(info, floatText).Success? <==> StopTexts(info, floatText).Success?;
    GradientStops(info, floatText);
  }

  /** The gradient depends on the colours only. */
  lemma GradientOfColor(info: ManaCost, v: string, floatText: real -> string)
    ensures Gradient(ManaCost(v, info.color), floatText) == Gradient(info, floatText)
  {
    assert StopTexts(ManaCost(v, info.color), floatText) == StopTexts(info, floatText);
  }
}
