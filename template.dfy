/** `str.format(**ctx)` and `str.format_map(ctx)` restricted to what the
    modelled code relies on: `{name}` replacement fields looked up in a map of
    already-stringified values, `{{` and `}}` as escaped braces, and an error
    for a missing key, an unmatched brace or a positional field. */
module Template {
  import opened Wrappers

  /** `{}` and `{0}` are positional fields; neither call passes positional arguments. */
  predicate Positional(name: string) {
    forall i | 0 <= i < |name| :: '0' <= name[i] <= '9'
  }

  /** The number of leading characters of `s` that are not braces. */
  function FieldLength(s: string): (n: nat)
    ensures n <= |s|
    ensures forall i | 0 <= i < n :: s[i] != '{' && s[i] != '}'
    ensures n < |s| ==> s[n] == '{' || s[n] == '}'
  {
    if s == [] || s[0] == '{' || s[0] == '}' then 0 else 1 + FieldLength(s[1..])
  }

  predicate BraceFree(s: string) {
    '{' !in s && '}' !in s
  }

  /** A replacement-field name the model accepts: brace-free and not positional. */
  predicate FieldName(name: string) {
    BraceFree(name) && !Positional(name)
  }

  function Format(t: string, ctx: map<string, string>): Result<string>
    decreases |t|
  {
    if t == [] then Success([])
    else if |t| > 1 && t[0] == '{' && t[1] == '{' then
      var rest :- Format(t[2..], ctx); Success("{" + rest)
    else if |t| > 1 && t[0] == '}' && t[1] == '}' then
      var rest :- Format(t[2..], ctx); Success("}" + rest)
    else if t[0] == '{' then
      var n := FieldLength(t[1..]);
      if 1 + n == |t| || t[1 + n] == '{' then Failure(BadFormat(t))
      else
        var name := t[1..1 + n];
        if Positional(name) then Failure(BadFormat(t))
        else if name !in ctx then Failure(MissingKey(name))
        else var rest :- Format(t[n + 2..], ctx); Success(ctx[name] + rest)
    else if t[0] == '}' then Failure(BadFormat(t))
    else
      var rest :- Format(t[1..], ctx); Success([t[0]] + rest)
  }

  /** `r` with `a` put in front of its text, failures unchanged. */
  function Prepend(a: string, r: Result<string>): Result<string> {
    match r
    case Success(v) => Success(a + v)
    case Failure(e) => Failure(e)
  }

  /** Text without braces is copied through unchanged, whatever the context. */
  lemma {:induction false} FormatBraceFree(a: string, t: string, ctx: map<string, string>)
    requires BraceFree(a)
    ensures Format(a + t, ctx) == Prepend(a, Format(t, ctx))
    decreases |a|
  {
    if a != [] {
      assert (a + t)[1..] == a[1..] + t;
      FormatBraceFree(a[1..], t, ctx);
      match Format(t, ctx)
      case Success(v) => assert [a[0]] + (a[1..] + v) == a + v;
      case Failure(_) =>
    } else {
      assert a + t == t;
      match Format(t, ctx)
      case Success(v) => assert a + v == v;
      case Failure(_) =>
    }
  }

  lemma FormatPlain(a: string, ctx: map<string, string>)
    requires BraceFree(a)
    ensures Format(a, ctx) == Success(a)
  {
    FormatBraceFree(a, [], ctx);
    assert a + [] == a;
  }

  /** A replacement field is replaced by its value, which is not scanned again. */
  lemma FormatField(k: string, b: string, ctx: map<string, string>)
    requires FieldName(k)
    ensures Format("{" + k + "}" + b, ctx)
         == if k in ctx then Prepend(ctx[k], Format(b, ctx)) else Failure(MissingKey(k))
  {
    var t := "{" + k + "}" + b;
    assert |k| > 0;
    assert t[1] == k[0] && k[0] in k;
    assert t[1..] == k + ("}" + b);
    FieldLengthStops(k, "}" + b);
    assert FieldLength(t[1..]) == |k|;
    assert t[1 + |k|] == '}';
    assert t[1..1 + |k|] == k;
    assert t[|k| + 2..] == b;
    if k in ctx {
      match Format(b, ctx)
      case Success(v) =>
      case Failure(_) =>
    }
  }

  lemma {:induction false} FieldLengthStops(k: string, rest: string)
    requires BraceFree(k) && rest != [] && (rest[0] == '{' || rest[0] == '}')
    ensures FieldLength(k + rest) == |k|
    decreases |k|
  {
    if k != [] {
      assert (k + rest)[1..] == k[1..] + rest;
      FieldLengthStops(k[1..], rest);
    } else {
      assert k + rest == rest;
    }
  }

  /** `a{k}b` with brace-free `a` and `b` becomes `a` + value + `b`, or fails
      with the missing key. */
  lemma FormatOneField(a: string, k: string, b: string, ctx: map<string, string>)
    requires BraceFree(a) && BraceFree(b) && FieldName(k)
    ensures Format(a + "{" + k + "}" + b, ctx)
         == if k in ctx then Success(a + ctx[k] + b) else Failure(MissingKey(k))
  {
    assert a + "{" + k + "}" + b == a + ("{" + k + "}" + b);
    FormatBraceFree(a, "{" + k + "}" + b, ctx);
    FormatField(k, b, ctx);
    FormatPlain(b, ctx);
    if k in ctx {
      assert a + (ctx[k] + b) == a + ctx[k] + b;
    }
  }

  /** A field after brace-free text: the text, the field's value, then the
      formatted rest; or the missing key. */
  lemma FormatFieldThen(a: string, k: string, b: string, ctx: map<string, string>)
    requires BraceFree(a) && FieldName(k)
    ensures Format(a + "{" + k + "}" + b, ctx)
         == if k in ctx then Prepend(a + ctx[k], Format(b, ctx)) else Failure(MissingKey(k))
  {
    var f := "{" + k + "}" + b;
    assert a + "{" + k + "}" + b == a + f;
    FormatBraceFree(a, f, ctx);
    FormatField(k, b, ctx);
    if k in ctx {
      PrependTwice(a, ctx[k], Format(b, ctx));
    }
  }

  lemma PrependTwice(a: string, v: string, r: Result<string>)
    ensures Prepend(a, Prepend(v, r)) == Prepend(a + v, r)
  {
    match r
    case Success(x) => assert a + (v + x) == a + v + x;
    case Failure(_) =>
  }

  /** Doubling every brace: the text that `Format` turns back into `s`. */
  function Escape(s: string): string {
    if s == [] then []
    else (if s[0] == '{' then "{{" else if s[0] == '}' then "}}" else [s[0]]) + Escape(s[1..])
  }

  /** Round trip: formatting an escaped string gives it back in any context. */
  lemma {:induction false} FormatEscape(s: string, ctx: map<string, string>)
    ensures Format(Escape(s), ctx) == Success(s)
  {
    if s != [] {
      var e := Escape(s);
      FormatEscape(s[1..], ctx);
      if s[0] == '{' {
        assert e[2..] == Escape(s[1..]);
      } else if s[0] == '}' {
        assert e[2..] == Escape(s[1..]);
      } else {
        assert e[1..] == Escape(s[1..]);
      }
      assert s == [s[0]] + s[1..];
    }
  }
}
