/** The string operations the Python code takes from its standard library:
    `re.sub` with an escaped (literal) pattern, `str.split`, `str.join` and
    the decimal rendering of a non-negative int. */
module Strings {

  /** `p` occurs somewhere in `s`. */
  ghost predicate Occurs(s: string, p: string) {
    exists k :: 0 <= k <= |s| && p <= s[k..]
  }

  /** `re.sub(re.escape(pat), repl, s)`: every non-overlapping occurrence of
      `pat`, found scanning left to right, is replaced by `repl`. An empty
      pattern matches at every position, before each character and at the end. */
  function ReplaceAll(s: string, pat: string, repl: string): string {
    if pat == [] then InsertEverywhere(s, repl) else ReplaceScan(s, pat, repl)
  }

  function InsertEverywhere(s: string, repl: string): string {
    if s == [] then repl else repl + [s[0]] + InsertEverywhere(s[1..], repl)
  }

  function ReplaceScan(s: string, pat: string, repl: string): string
    requires pat != []
    decreases |s|
  {
    if pat <= s then repl + ReplaceScan(s[|pat|..], pat, repl)
    else if s == [] then []
    else [s[0]] + ReplaceScan(s[1..], pat, repl)
  }

  /** `s.split(sep)` for a non-empty separator (Python refuses an empty one). */
  function SplitOn(s: string, sep: string): (r: seq<string>)
    requires sep != []
    ensures |r| >= 1
  {
    SplitFrom(s, sep, [])
  }

  /** Splitting `s` while `cur` holds the piece collected so far. */
  function SplitFrom(s: string, sep: string, cur: string): (r: seq<string>)
    requires sep != []
    ensures |r| >= 1
    decreases |s|
  {
    if sep <= s then [cur] + SplitFrom(s[|sep|..], sep, [])
    else if s == [] then [cur]
    else SplitFrom(s[1..], sep, cur + [s[0]])
  }

  /** `sep.join(xs)`. */
  function Join(xs: seq<string>, sep: string): string {
    if |xs| == 0 then []
    else if |xs| == 1 then xs[0]
    else xs[0] + sep + Join(xs[1..], sep)
  }

  /** `"".join(xs)`. */
  function Concat(xs: seq<string>): string {
    if xs == [] then [] else xs[0] + Concat(xs[1..])
  }

  function DigitChar(d: nat): char
    requires d < 10
  {
    "0123456789"[d]
  }

  /** `str(n)` for a non-negative int. */
  function NatToString(n: nat): (r: string)
    ensures |r| >= 1
    ensures (|r| == 1) == (n < 10)
  {
    if n < 10 then [DigitChar(n)] else NatToString(n / 10) + [DigitChar(n % 10)]
  }

  /** Decimal rendering is injective, so `"arg" + str(i)` names distinct slots. */
  lemma {:induction false} NatToStringInjective(a: nat, b: nat)
    requires NatToString(a) == NatToString(b)
    ensures a == b
  {
    var sa, sb := NatToString(a), NatToString(b);
    if a >= 10 && b >= 10 {
      assert sa[..|sa| - 1] == NatToString(a / 10);
      assert sb[..|sb| - 1] == NatToString(b / 10);
      NatToStringInjective(a / 10, b / 10);
      assert DigitChar(a % 10) == sa[|sa| - 1] == sb[|sb| - 1] == DigitChar(b % 10);
    } else {
      assert sa[0] == sb[0];
    }
  }

  /** Scanning with the pattern as its own replacement gives the input back. */
  lemma {:induction false} ReplaceScanSelf(s: string, p: string)
    requires p != []
    ensures ReplaceScan(s, p, p) == s
    decreases |s|
  {
    if p <= s {
      ReplaceScanSelf(s[|p|..], p);
      assert s == p + s[|p|..];
    } else if s != [] {
      ReplaceScanSelf(s[1..], p);
      assert s == [s[0]] + s[1..];
    }
  }

  lemma {:induction false} InsertNothing(s: string)
    ensures InsertEverywhere(s, []) == s
  {
    if s != [] {
      InsertNothing(s[1..]);
      assert s == [s[0]] + s[1..];
    }
  }

  /** Replacing a pattern by itself changes nothing; in particular
      `re.sub("", "", s) == s`. */
  lemma ReplaceAllSelf(s: string, p: string)
    ensures ReplaceAll(s, p, p) == s
  {
    if p == [] { InsertNothing(s); } else { ReplaceScanSelf(s, p); }
  }

  /** Joining the pieces that `SplitFrom` produces with `r` yields the piece
      in progress followed by the replace-all of the rest. */
  lemma {:induction false} JoinSplitFrom(s: string, p: string, cur: string, r: string)
    requires p != []
    ensures Join(SplitFrom(s, p, cur), r) == cur + ReplaceScan(s, p, r)
    decreases |s|
  {
    if p <= s {
      var tail := s[|p|..];
      var rest := SplitFrom(tail, p, []);
      JoinSplitFrom(tail, p, [], r);
      JoinCons(cur, rest, r);
      assert Join(rest, r) == ReplaceScan(tail, p, r);
      assert ReplaceScan(s, p, r) == r + ReplaceScan(tail, p, r);
    } else if s == [] {
      assert cur + [] == cur;
    } else {
      JoinSplitFrom(s[1..], p, cur + [s[0]], r);
      assert ReplaceScan(s, p, r) == [s[0]] + ReplaceScan(s[1..], p, r);
      assert cur + [s[0]] + ReplaceScan(s[1..], p, r) == cur + ([s[0]] + ReplaceScan(s[1..], p, r));
    }
  }

  /** Joining a piece in front of a non-empty list. */
  lemma JoinCons(x: string, xs: seq<string>, r: string)
    requires xs != []
    ensures Join([x] + xs, r) == x + (r + Join(xs, r))
  {
    var l := [x] + xs;
    assert l[0] == x && l[1..] == xs;
  }

  /** Literal replace-all is split-then-join: `re.sub(re.escape(p), r, s) ==
      r.join(s.split(p))`. */
  lemma ReplaceAllIsSplitJoin(s: string, p: string, r: string)
    requires p != []
    ensures ReplaceAll(s, p, r) == Join(SplitOn(s, p), r)
  {
    JoinSplitFrom(s, p, [], r);
  }

  /** Round trip: splitting on a separator and joining with it gives the input back. */
  lemma SplitJoinRoundTrip(s: string, sep: string)
    requires sep != []
    ensures Join(SplitOn(s, sep), sep) == s
  {
    JoinSplitFrom(s, sep, [], sep);
    ReplaceScanSelf(s, sep);
  }

  /** No piece produced by a split contains the separator. */
  lemma {:induction false} SplitFromPiecesFree(s: string, p: string, cur: string)
    requires p != []
    requires !Occurs(cur, p)
    requires forall k :: 0 <= k < |cur| ==> !(p <= cur[k..] + s)
    ensures forall x | x in SplitFrom(s, p, cur) :: !Occurs(x, p)
    decreases |s|
  {
    if p <= s {
      SplitFromPiecesFree(s[|p|..], p, []);
      assert !Occurs([], p);
    } else if s == [] {
      assert cur + s == cur;
    } else {
      var cur' := cur + [s[0]];
      forall k | 0 <= k < |cur'| ensures !(p <= cur'[k..] + s[1..]) {
        if k < |cur| {
          assert cur'[k..] + s[1..] == cur[k..] + s;
        } else {
          assert cur'[k..] + s[1..] == s;
        }
      }
      assert !Occurs(cur', p) by {
        forall k | 0 <= k <= |cur'| ensures !(p <= cur'[k..]) {
          if k < |cur'| {
            assert cur'[k..] <= cur'[k..] + s[1..];
          } else {
            assert cur'[k..] == [];
          }
        }
      }
      SplitFromPiecesFree(s[1..], p, cur');
    }
  }

  lemma SplitPiecesFree(s: string, sep: string)
    requires sep != []
    ensures forall x | x in SplitOn(s, sep) :: !Occurs(x, sep)
  {
    assert !Occurs([], sep);
    SplitFromPiecesFree(s, sep, []);
  }

  /** When the pattern does not occur, `re.sub` returns its input unchanged. */
  lemma {:induction false} ReplaceAbsent(s: string, p: string, r: string)
    requires p != [] && !Occurs(s, p)
    ensures ReplaceAll(s, p, r) == s
    decreases |s|
  {
    if s != [] {
      assert !(p <= s[0..]);
      assert !Occurs(s[1..], p) by {
        forall k | 0 <= k <= |s[1..]| ensures !(p <= s[1..][k..]) {
          assert s[1..][k..] == s[k + 1..];
        }
      }
      ReplaceAbsent(s[1..], p, r);
      assert s == [s[0]] + s[1..];
    }
  }

  /** Splitting a string that does not contain the separator gives the
      string itself as the only piece. */
  lemma {:induction false} SplitFromAbsent(s: string, p: string, cur: string)
    requires p != [] && !Occurs(s, p)
    ensures SplitFrom(s, p, cur) == [cur + s]
    decreases |s|
  {
    if s == [] {
      assert cur + s == cur;
    } else {
      assert !(p <= s[0..]);
      assert !Occurs(s[1..], p) by {
        forall k | 0 <= k <= |s[1..]| ensures !(p <= s[1..][k..]) {
          assert s[1..][k..] == s[k + 1..];
        }
      }
      SplitFromAbsent(s[1..], p, cur + [s[0]]);
      assert cur + [s[0]] + s[1..] == cur + s;
    }
  }

  /** After replacing a single character by text that does not contain it,
      that character no longer appears (`|` -> `<br>`, `~` -> `{card__name}`). */
  lemma {:induction false} ReplaceCharRemoves(s: string, c: char, r: string)
    requires c !in r
    ensures c !in ReplaceAll(s, [c], r)
    decreases |s|
  {
    if s != [] {
      ReplaceCharRemoves(s[1..], c, r);
    }
  }

  /** An occurrence at the start is replaced, and the scan goes on after it. */
  lemma ReplacePrefix(p: string, rest: string, r: string)
    requires p != []
    ensures ReplaceAll(p + rest, p, r) == r + ReplaceAll(rest, p, r)
  {
    assert (p + rest)[|p|..] == rest;
  }

  /** Text without the pattern's first character is copied through. */
  lemma {:induction false} ReplaceKeep(a: string, rest: string, p: string, r: string)
    requires p != [] && p[0] !in a
    ensures ReplaceAll(a + rest, p, r) == a + ReplaceAll(rest, p, r)
    decreases |a|
  {
    if a == [] {
      assert a + rest == rest;
    } else {
      assert !(p <= a + rest) by { assert (a + rest)[0] == a[0]; }
      ReplaceStep(a, rest, p, r);
      TailFree(a, p[0]);
      ReplaceKeep(a[1..], rest, p, r);
      ConsAssoc(a, ReplaceAll(rest, p, r));
    }
  }

  /** Text without a two-character pattern's second character, followed by
      text that does not start with it either, is copied through. */
  lemma {:induction false} ReplaceKeepSecond(a: string, rest: string, p: string, r: string)
    requires |p| == 2 && p[1] !in a && (rest == [] || rest[0] != p[1])
    ensures ReplaceAll(a + rest, p, r) == a + ReplaceAll(rest, p, r)
    decreases |a|
  {
    if a == [] {
      assert a + rest == rest;
    } else {
      NoMatchHere(a, rest, p);
      ReplaceStep(a, rest, p, r);
      TailFree(a, p[1]);
      ReplaceKeepSecond(a[1..], rest, p, r);
      ConsAssoc(a, ReplaceAll(rest, p, r));
    }
  }

  /** Where the pattern does not start, one character is copied. */
  lemma ReplaceStep(a: string, rest: string, p: string, r: string)
    requires p != [] && a != [] && !(p <= a + rest)
    ensures ReplaceAll(a + rest, p, r) == [a[0]] + ReplaceAll(a[1..] + rest, p, r)
  {
    var s := a + rest;
    assert s[0] == a[0] && s[1..] == a[1..] + rest;
  }

  lemma TailFree(a: string, c: char)
    requires a != [] && c !in a
    ensures c !in a[1..]
  {
    forall k | 0 <= k < |a[1..]| ensures a[1..][k] != c {
      assert a[1..][k] == a[k + 1];
    }
  }

  lemma ConsAssoc(a: string, t: string)
    requires a != []
    ensures [a[0]] + (a[1..] + t) == a + t
  {
    assert a == [a[0]] + a[1..];
  }

  lemma NoMatchHere(a: string, rest: string, p: string)
    requires |p| == 2 && a != [] && p[1] !in a && (rest == [] || rest[0] != p[1])
    ensures !(p <= a + rest) && (a + rest)[0] == a[0]
  {
    var s := a + rest;
    if |s| >= 2 {
      if |a| >= 2 {
        assert s[1] == a[1] && a[1] in a;
      } else {
        assert s[1] == rest[0];
      }
    }
  }

  lemma ReplaceAllEmpty(p: string, r: string)
    requires p != []
    ensures ReplaceAll([], p, r) == []
  {
  }

  /** A string without the pattern's first character is left unchanged. */
  lemma ReplaceNone(a: string, p: string, r: string)
    requires p != [] && p[0] !in a
    ensures ReplaceAll(a, p, r) == a
  {
    ReplaceKeep(a, [], p, r);
    assert a + [] == a;
  }

  /** `<<w>>t`, with no angle brackets in `w` or `t`, rewritten `<<` first and
      `>>` second: the opening text, `w`, the closing text, `t`. The opening
      text may end in `>` as an HTML tag does. */
  lemma WrapBrackets(tag: string, w: string, t: string, close: string)
    requires w != [] && '<' !in w && '>' !in w && '<' !in t && '>' !in t && '>' !in tag
    ensures ReplaceAll(ReplaceAll("<<" + w + ">>" + t, "<<", tag + ">"), ">>", close) == tag + ">" + w + close + t
  {
    var x := w + (">>" + t);
    assert "<<" + w + ">>" + t == "<<" + x;
    ReplacePrefix("<<", x, tag + ">");
    ReplaceNone(x, "<<", tag + ">");
    assert tag + ">" + x == tag + (">" + x);
    CloseBrackets(tag, w, t, close);
  }

  lemma CloseBrackets(tag: string, w: string, t: string, close: string)
    requires w != [] && '>' !in w && '>' !in t && '>' !in tag
    ensures ReplaceAll(tag + (">" + (w + (">>" + t))), ">>", close) == tag + ">" + w + close + t
  {
    CloseWith(tag, w, t, close, ">>");
    assert [">>"[0]] == ">";
  }

  /** The same for any pattern of two equal characters `c`. */
  lemma CloseWith(tag: string, w: string, t: string, close: string, pat: string)
    requires |pat| == 2 && pat[0] == pat[1]
    requires w != [] && pat[0] !in w && pat[0] !in t && pat[0] !in tag
    ensures ReplaceAll(tag + ([pat[0]] + (w + (pat + t))), pat, close) == tag + [pat[0]] + w + close + t
  {
    var c := [pat[0]];
    var y := pat + t;
    var x := w + y;
    var rt := ReplaceAll(t, pat, close);
    var ry := ReplaceAll(y, pat, close);
    var rx := ReplaceAll(x, pat, close);
    var rcx := ReplaceAll(c + x, pat, close);
    ReplaceNone(t, pat, close);
    ReplacePrefix(pat, t, close);
    assert ry == close + t;
    ReplaceKeep(w, y, pat, close);
    assert rx == w + (close + t);
    OneBeforeNoMatch(pat, w, y, close);
    assert rcx == c + rx;
    ReplaceKeep(tag, c + x, pat, close);
    assert tag + (c + (w + (close + t))) == tag + c + w + close + t;
  }

  /** One copy of `pat[0]` before text that does not start a match. */
  lemma OneBeforeNoMatch(pat: string, w: string, y: string, close: string)
    requires |pat| == 2 && w != [] && pat[1] !in w
    ensures ReplaceAll([pat[0]] + (w + y), pat, close) == [pat[0]] + ReplaceAll(w + y, pat, close)
  {
    var c := [pat[0]];
    var x := w + y;
    assert (c + x)[1] == w[0] && w[0] in w;
    ReplaceStep(c, x, pat, close);
    assert c[1..] + x == x;
  }

  /** Characters that cannot start the separator are collected into the current piece. */
  lemma {:induction false} SplitFromFree(x: string, t: string, sep: string, cur: string)
    requires sep != [] && sep[0] !in x
    ensures SplitFrom(x + t, sep, cur) == SplitFrom(t, sep, cur + x)
    decreases |x|
  {
    if x == [] {
      assert x + t == t && cur + x == cur;
    } else {
      var s := x + t;
      assert s[0] == x[0] && x[0] in x;
      assert !(sep <= s);
      assert s[1..] == x[1..] + t;
      SplitFromFree(x[1..], t, sep, cur + [x[0]]);
      assert cur + [x[0]] + x[1..] == cur + x;
    }
  }

  /** Round trip: joining pieces free of the separator's first character and
      splitting the result again gives the pieces back. */
  lemma {:induction false} SplitJoin(xs: seq<string>, sep: string)
    requires sep != [] && xs != []
    requires forall i | 0 <= i < |xs| :: sep[0] !in xs[i]
    ensures SplitOn(Join(xs, sep), sep) == xs
    decreases |xs|
  {
    if |xs| == 1 {
      SplitFromFree(xs[0], [], sep, []);
      assert xs[0] + [] == xs[0] && [] + xs[0] == xs[0];
    } else {
      var j := Join(xs[1..], sep);
      assert Join(xs, sep) == xs[0] + (sep + j);
      SplitFromFree(xs[0], sep + j, sep, []);
      assert [] + xs[0] == xs[0];
      assert (sep + j)[|sep|..] == j;
      SplitJoin(xs[1..], sep);
      assert xs == [xs[0]] + xs[1..];
    }
  }

  /** Cutting at the first occurrence of a character is unambiguous. */
  lemma CutAtFirst(x1: string, r1: string, x2: string, r2: string, d: char)
    requires d !in x1 && d !in x2
    requires x1 + [d] + r1 == x2 + [d] + r2
    ensures x1 == x2 && r1 == r2
  {
    var s := x1 + [d] + r1;
    FirstAt(x1, d, r1);
    FirstAt(x2, d, r2);
    assert |x1| == |x2|;
    assert x1 == s[..|x1|] == x2;
    assert r1 == s[|x1| + 1..] == r2;
  }

  lemma FirstAt(x: string, d: char, r: string)
    requires d !in x
    ensures (x + [d] + r)[|x|] == d
    ensures forall k | 0 <= k < |x| :: (x + [d] + r)[k] != d
  {
    forall k | 0 <= k < |x| ensures (x + [d] + r)[k] != d {
      assert (x + [d] + r)[k] == x[k];
    }
  }
}
