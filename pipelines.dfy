/** The stage architecture shared by both pipeline generations
    (`tcg/lib/services/pipeline.py` and `tcg/endtoend.py`): a stage is called
    on a dict and returns a dict, and `ConcatPipeline` feeds each stage the
    previous stage's result. A stage may change the dict it is given and
    return it, or build and return a new one, and it may raise part-way
    through; a `Track` records all of that. */
module Pipelines {
  import opened Wrappers
  import opened Records

  /** One call: the state it leaves the passed dict in (`input`), the new
      dict it returned, if it built one (`None` when it returned the passed
      dict itself), and the exception it raised, if any. */
  datatype Track = Track(input: Fields, returned: Option<Fields>, error: Option<Error>) {
    /** The state of the dict the call returned. */
    function Output(): Fields {
      if returned.Some? then returned.value else input
    }

    predicate Same() {
      returned.None?
    }
  }

  /** A primitive stage `P`, or a `ConcatPipeline` of stages. */
  datatype Stage<P> = Step(p: P) | Concat(stages: seq<Stage<P>>)

  /** The call `stage(data)`; `prim` gives the meaning of the primitive stages. */
  function Run<P>(st: Stage<P>, m: Fields, prim: (P, Fields) -> Track): Track
    decreases st
  {
    match st
    case Step(p) => prim(p, m)
    case Concat(sts) => Chain(sts, m, prim)
  }

  /** `ConcatPipeline.__call__`: `result = pipeline(result)` for each stage in
      order, stopping at the first exception. */
  function Chain<P>(sts: seq<Stage<P>>, m: Fields, prim: (P, Fields) -> Track): Track
    decreases sts
  {
    if sts == [] then Idle(m)
    else
      var t := Chain(sts[..|sts| - 1], m, prim);
      Seq(t, Run(sts[|sts| - 1], t.Output(), prim))
  }

  /** A batch of calls collected into one list: the returned dicts in
      order, or the exception of the first call that raised. */
  function Collect(ts: seq<Track>): (r: Result<seq<Fields>>)
    ensures r.Success? <==> forall i | 0 <= i < |ts| :: ts[i].error.None?
    ensures r.Success? ==> |r.value| == |ts| && forall i | 0 <= i < |ts| :: r.value[i] == ts[i].Output()
  {
    if ts == [] then Success([])
    else if ts[0].error.Some? then Failure(ts[0].error.value)
    else
      var rest :- Collect(ts[1..]);
      assert forall i | 1 <= i < |ts| :: ts[i] == ts[1..][i - 1];
      Success([ts[0].Output()] + rest)
  }

  /** A failed batch carries the exception of its first failing call. */
  lemma {:induction false} CollectFirstError(ts: seq<Track>)
    requires Collect(ts).Failure?
    ensures exists i | 0 <= i < |ts| ::
      (forall j | 0 <= j < i :: ts[j].error.None?) && ts[i].error == Some(Collect(ts).error)
  {
    if ts[0].error.Some? {
      assert ts[0].error == Some(Collect(ts).error);
    } else {
      var tail := ts[1..];
      CollectFirstError(tail);
      var i :| 0 <= i < |tail| && (forall j | 0 <= j < i :: tail[j].error.None?)
        && tail[i].error == Some(Collect(tail).error);
      assert ts[i + 1] == tail[i];
      forall j | 0 <= j < i + 1 ensures ts[j].error.None? {
        if j > 0 { assert ts[j] == tail[j - 1]; }
      }
    }
  }

  /** If the calls before `i` succeed and call `i` raises, so does the
      batch, with that exception. */
  lemma CollectStops(ts: seq<Track>, i: nat)
    requires i < |ts| && ts[i].error.Some?
    requires forall k | 0 <= k < i :: ts[k].error.None?
    ensures Collect(ts) == Failure(ts[i].error.value)
  {
    CollectFirstError(ts);
    var i' :| 0 <= i' < |ts| && (forall j | 0 <= j < i' :: ts[j].error.None?)
      && ts[i'].error == Some(Collect(ts).error);
  }

  /** If every call succeeds, the batch returns their results. */
  lemma CollectAll(ts: seq<Track>, vs: seq<Fields>)
    requires |vs| == |ts|
    requires forall k | 0 <= k < |ts| :: ts[k].error.None? && vs[k] == ts[k].Output()
    ensures Collect(ts) == Success(vs)
  {
    assert Collect(ts).Success?;
    var r := Collect(ts).value;
    assert forall k | 0 <= k < |vs| :: r[k] == vs[k];
    assert r == vs;
  }

  /** `u` run on the result of `t`: the caller's dict sees `u` only while it
      is still the dict being passed along. */
  function Then(t: Track, u: Track): Track {
    if t.Same() then u else Track(t.input, Some(u.Output()), u.error)
  }

  /** The identity track of a call that does nothing. */
  function Idle(m: Fields): Track {
    Track(m, None, None)
  }

  /** `t` followed by `u`, stopping at the first exception. */
  function Seq(t: Track, u: Track): Track {
    if t.error.Some? then t else Then(t, u)
  }

  /** One more stage of a pipeline's loop: the stages so far, then stage `i`
      on what they returned. */
  lemma ChainPrefixStep<P>(sts: seq<Stage<P>>, i: nat, m: Fields, prim: (P, Fields) -> Track)
    requires i < |sts|
    ensures Chain(sts[..i + 1], m, prim)
         == Seq(Chain(sts[..i], m, prim), Run(sts[i], Chain(sts[..i], m, prim).Output(), prim))
  {
    assert sts[..i + 1][..i] == sts[..i] && sts[..i + 1][i] == sts[i];
  }

  /** After a call that did not raise, the next call decides the exception
      and the result; the caller's dict is the next call's while no new dict
      has been returned. */
  lemma SeqThrough(t: Track, u: Track)
    requires t.error.None?
    ensures Seq(t, u).error == u.error && Seq(t, u).Output() == u.Output()
    ensures Seq(t, u).Same() == (t.Same() && u.Same())
    ensures Seq(t, u).input == if t.Same() then u.input else t.input
  {
  }

  /** An empty `ConcatPipeline` returns its argument untouched, and a
      one-stage one behaves as the stage. */
  lemma ChainUnit<P>(st: Stage<P>, m: Fields, prim: (P, Fields) -> Track)
    ensures Run(Concat([]), m, prim) == Idle(m)
    ensures Run(Concat([st]), m, prim) == Run(st, m, prim)
  {
    assert [st][..0] == [];
  }

  /** Concatenation is left-to-right composition: running `a + b` is running
      `a`, then `b` on what `a` returned, unless `a` raised. */
  lemma {:induction false} ChainAppend<P>(a: seq<Stage<P>>, b: seq<Stage<P>>, m: Fields,
                                          prim: (P, Fields) -> Track)
    ensures Chain(a + b, m, prim)
         == Seq(Chain(a, m, prim), Chain(b, Chain(a, m, prim).Output(), prim))
    decreases |b|
  {
    var t := Chain(a, m, prim);
    if b == [] {
      assert a + b == a;
    } else {
      var b' := b[..|b| - 1];
      assert (a + b)[..|a + b| - 1] == a + b';
      assert (a + b)[|a + b| - 1] == b[|b| - 1];
      ChainAppend(a, b', m, prim);
    }
  }

  /** A nested `ConcatPipeline` behaves as its stages spliced in place. */
  lemma Flatten<P>(a: seq<Stage<P>>, b: seq<Stage<P>>, m: Fields, prim: (P, Fields) -> Track)
    ensures Chain([Concat(a)] + b, m, prim) == Chain(a + b, m, prim)
  {
    ChainAppend([Concat(a)], b, m, prim);
    ChainAppend(a, b, m, prim);
    ChainUnit(Concat(a), m, prim);
  }

  /** The stages of `sts`, nested ones spliced in. */
  function Primitives<P>(sts: seq<Stage<P>>): seq<P>
    decreases sts
  {
    if sts == [] then [] else Primitives(sts[..|sts| - 1]) + StagePrimitives(sts[|sts| - 1])
  }

  /** The primitive stages of one stage. */
  function StagePrimitives<P>(st: Stage<P>): seq<P>
    decreases st
  {
    match st
    case Step(p) => [p]
    case Concat(inner) => Primitives(inner)
  }

  /** Folding the primitives one by one, in order. */
  function Steps<P>(ps: seq<P>, m: Fields, prim: (P, Fields) -> Track): Track
    decreases |ps|
  {
    if ps == [] then Idle(m)
    else
      var t := Steps(ps[..|ps| - 1], m, prim);
      Seq(t, prim(ps[|ps| - 1], t.Output()))
  }

  lemma {:induction false} StepsAppend<P>(a: seq<P>, b: seq<P>, m: Fields, prim: (P, Fields) -> Track)
    ensures Steps(a + b, m, prim) == Seq(Steps(a, m, prim), Steps(b, Steps(a, m, prim).Output(), prim))
    decreases |b|
  {
    if b == [] {
      assert a + b == a;
    } else {
      var b' := b[..|b| - 1];
      assert (a + b)[..|a + b| - 1] == a + b';
      assert (a + b)[|a + b| - 1] == b[|b| - 1];
      StepsAppend(a, b', m, prim);
    }
  }

  /** However the pipelines are nested, a run is the run of the primitive
      stages one after the other. */
  lemma {:induction false} ChainIsSteps<P>(sts: seq<Stage<P>>, m: Fields, prim: (P, Fields) -> Track)
    ensures Chain(sts, m, prim) == Steps(Primitives(sts), m, prim)
    decreases sts
  {
    if sts != [] {
      var init, last := sts[..|sts| - 1], sts[|sts| - 1];
      ChainIsSteps(init, m, prim);
      var t := Chain(init, m, prim);
      StepsAppend(Primitives(init), StagePrimitives(last), m, prim);
      match last
      case Step(p) =>
        assert [p][..0] == [];
      case Concat(inner) =>
        ChainIsSteps(inner, t.Output(), prim);
    }
  }

  /** Once a stage has returned a new dict, nothing later touches the dict
      the caller passed: a pipeline that starts with a fresh-dict stage that
      leaves its argument alone never changes the caller's dict. */
  lemma FreshFirst<P>(first: Stage<P>, rest: seq<Stage<P>>, m: Fields, prim: (P, Fields) -> Track)
    requires !Run(first, m, prim).Same() && Run(first, m, prim).input == m
    ensures Chain([first] + rest, m, prim).input == m
    ensures !Chain([first] + rest, m, prim).Same()
  {
    ChainAppend([first], rest, m, prim);
    ChainUnit(first, m, prim);
  }

  /** The stages after the first one that raises are never run. */
  lemma {:induction false} ChainErrorStops<P>(sts: seq<Stage<P>>, i: nat, m: Fields, prim: (P, Fields) -> Track)
    requires i <= |sts| && Chain(sts[..i], m, prim).error.Some?
    ensures Chain(sts, m, prim) == Chain(sts[..i], m, prim)
    decreases |sts| - i
  {
    if i < |sts| {
      assert sts[..i + 1][..i] == sts[..i];
      ChainErrorStops(sts, i + 1, m, prim);
    } else {
      assert sts[..i] == sts;
    }
  }

  /** A `ConcatPipeline` of primitive stages, as a list. */
  function StepsOf<P>(ps: seq<P>): (r: seq<Stage<P>>)
    ensures |r| == |ps| && forall i | 0 <= i < |ps| :: r[i] == Step(ps[i])
  {
    seq(|ps|, i requires 0 <= i < |ps| => Step(ps[i]))
  }

  /** A list of primitive stages lists those primitives. */
  lemma {:induction false} PrimitivesOfSteps<P>(ps: seq<P>)
    ensures Primitives(StepsOf(ps)) == ps
    decreases |ps|
  {
    if ps != [] {
      var init := ps[..|ps| - 1];
      assert StepsOf(ps)[..|ps| - 1] == StepsOf(init);
      PrimitivesOfSteps(init);
      assert init + [ps[|ps| - 1]] == ps;
    }
  }

  /** A nested pipeline at the end contributes its primitives. */
  lemma PrimitivesSnoc<P>(sts: seq<Stage<P>>, inner: seq<Stage<P>>)
    ensures Primitives(sts + [Concat(inner)]) == Primitives(sts) + Primitives(inner)
  {
    assert (sts + [Concat(inner)])[..|sts|] == sts;
  }

  /** A `ConcatPipeline` of four `ConcatPipeline`s of primitive stages runs
      their stages one after the other. */
  lemma FourGroups<P>(a: seq<P>, b: seq<P>, c: seq<P>, d: seq<P>, m: Fields, prim: (P, Fields) -> Track)
    ensures Chain([Concat(StepsOf(a)), Concat(StepsOf(b)), Concat(StepsOf(c)), Concat(StepsOf(d))], m, prim)
         == Steps(a + b + c + d, m, prim)
  {
    var sts := [Concat(StepsOf(a)), Concat(StepsOf(b)), Concat(StepsOf(c)), Concat(StepsOf(d))];
    ChainIsSteps(sts, m, prim);
    PrimitivesFour(a, b, c, d);
  }

  lemma PrimitivesFour<P>(a: seq<P>, b: seq<P>, c: seq<P>, d: seq<P>)
    ensures Primitives([Concat(StepsOf(a)), Concat(StepsOf(b)), Concat(StepsOf(c)), Concat(StepsOf(d))])
         == a + b + c + d
  {
    var sa, sb, sc, sd := Concat(StepsOf(a)), Concat(StepsOf(b)), Concat(StepsOf(c)), Concat(StepsOf(d));
    assert Primitives([sa]) == a by {
      PrimitivesOne(StepsOf(a));
      PrimitivesOfSteps(a);
    }
    assert Primitives([sa, sb]) == a + b by {
      PrimitivesSnoc([sa], StepsOf(b));
      PrimitivesOfSteps(b);
      assert [sa] + [sb] == [sa, sb];
    }
    assert Primitives([sa, sb, sc]) == a + b + c by {
      PrimitivesSnoc([sa, sb], StepsOf(c));
      PrimitivesOfSteps(c);
      assert [sa, sb] + [sc] == [sa, sb, sc];
    }
    PrimitivesSnoc([sa, sb, sc], StepsOf(d));
    PrimitivesOfSteps(d);
    assert [sa, sb, sc] + [sd] == [sa, sb, sc, sd];
  }

  /** A pipeline whose first stage is a pipeline of primitive stages starting
      with a stage that builds a new dict without touching its argument
      never changes the caller's dict. */
  lemma FreshFirstNested<P>(first: P, more: seq<P>, rest: seq<Stage<P>>, m: Fields, prim: (P, Fields) -> Track)
    requires !prim(first, m).Same() && prim(first, m).input == m
    ensures Chain([Concat(StepsOf([first] + more))] + rest, m, prim).input == m
    ensures !Chain([Concat(StepsOf([first] + more))] + rest, m, prim).Same()
  {
    var e := StepsOf([first] + more);
    assert e == [Step(first)] + e[1..];
    FreshFirst(Step(first), e[1..], m, prim);
    FreshFirst(Concat(e), rest, m, prim);
  }

  /** The first primitive runs on the argument, the others on its result. */
  lemma StepsHead<P>(p: P, q: seq<P>, m: Fields, prim: (P, Fields) -> Track)
    ensures Steps([p] + q, m, prim) == Seq(prim(p, m), Steps(q, prim(p, m).Output(), prim))
  {
    StepsAppend([p], q, m, prim);
    assert [p][..0] == [];
  }

  /** Three primitives in a row return the dict of the first one that
      raises, or of the last one. */
  lemma ThreeSteps<P>(a: P, b: P, c: P, m: Fields, prim: (P, Fields) -> Track)
    ensures var t1 := prim(a, m);
      var t2 := prim(b, t1.Output());
      var t3 := prim(c, t2.Output());
      Steps([a, b, c], m, prim).Output()
      == if t1.error.Some? then t1.Output() else if t2.error.Some? then t2.Output() else t3.Output()
  {
    var t1 := prim(a, m);
    var t2 := prim(b, t1.Output());
    assert [a][..0] == [];
    assert Steps([a], m, prim) == t1;
    assert [a, b][..1] == [a];
    var s2 := Steps([a, b], m, prim);
    assert s2 == Seq(t1, t2);
    assert s2.error.Some? <==> t1.error.Some? || t2.error.Some?;
    assert s2.Output() == if t1.error.Some? then t1.Output() else t2.Output();
    assert [a, b, c][..2] == [a, b];
    assert Steps([a, b, c], m, prim) == Seq(s2, prim(c, s2.Output()));
  }

  /** When `a` runs through and the primitive after it raises, the whole
      run raises that exception. */
  lemma LaterRaises<P>(a: seq<P>, p: P, q: seq<P>, m: Fields, prim: (P, Fields) -> Track)
    requires Steps(a, m, prim).error.None?
    requires prim(p, Steps(a, m, prim).Output()).error.Some?
    ensures Steps(a + ([p] + q), m, prim).error == prim(p, Steps(a, m, prim).Output()).error
  {
    StepsAppend(a, [p] + q, m, prim);
    StepsHead(p, q, Steps(a, m, prim).Output(), prim);
  }

  /** The same, for the first primitive of the second of four groups. */
  lemma GroupRaises<P>(a: seq<P>, p: P, q: seq<P>, r: seq<P>, t: seq<P>, m: Fields, prim: (P, Fields) -> Track)
    requires Steps(a, m, prim).error.None?
    requires prim(p, Steps(a, m, prim).Output()).error.Some?
    ensures Steps(a + ([p] + q) + r + t, m, prim).error == prim(p, Steps(a, m, prim).Output()).error
  {
    assert a + ([p] + q) + r + t == a + ([p] + (q + r + t));
    LaterRaises(a, p, q + r + t, m, prim);
  }

  /** In a pipeline of four groups, a primitive that raises at the head of
      the second group, after the first group ran through, makes the whole
      pipeline raise that exception. */
  lemma FourGroupsRaise<P>(a: seq<P>, p: P, q: seq<P>, c: seq<P>, d: seq<P>, m: Fields, prim: (P, Fields) -> Track)
    requires Steps(a, m, prim).error.None?
    requires prim(p, Steps(a, m, prim).Output()).error.Some?
    ensures Chain([Concat(StepsOf(a)), Concat(StepsOf([p] + q)), Concat(StepsOf(c)), Concat(StepsOf(d))], m, prim).error
         == prim(p, Steps(a, m, prim).Output()).error
  {
    FourGroups(a, [p] + q, c, d, m, prim);
    GroupRaises(a, p, q, c, d, m, prim);
  }

  /** Splicing is compatible with list concatenation. */
  lemma {:induction false} PrimitivesAppend<P>(a: seq<Stage<P>>, b: seq<Stage<P>>)
    ensures Primitives(a + b) == Primitives(a) + Primitives(b)
    decreases |b|
  {
    if b == [] {
      assert a + b == a;
    } else {
      var b' := b[..|b| - 1];
      assert (a + b)[..|a + b| - 1] == a + b';
      assert (a + b)[|a + b| - 1] == b[|b| - 1];
      PrimitivesAppend(a, b');
      var last := StagePrimitives(b[|b| - 1]);
      assert Primitives(a + b) == Primitives(a + b') + last;
      assert Primitives(b) == Primitives(b') + last;
      assert Primitives(a) + Primitives(b') + last == Primitives(a) + (Primitives(b') + last);
    }
  }

  /** A `ConcatPipeline` whose first stage is a `ConcatPipeline` and whose
      other stages are primitive: the inner primitives, then the others. */
  lemma NestedPrimitives<P>(inner: seq<Stage<P>>, ps: seq<P>)
    ensures Primitives([Concat(inner)] + StepsOf(ps)) == Primitives(inner) + ps
  {
    var head, tail := [Concat(inner)], StepsOf(ps);
    PrimitivesAppend(head, tail);
    PrimitivesOne(inner);
    PrimitivesOfSteps(ps);
  }

  lemma PrimitivesOne<P>(inner: seq<Stage<P>>)
    ensures Primitives([Concat(inner)]) == Primitives(inner)
  {
    PrimitivesSnoc([], inner);
    assert [] + [Concat(inner)] == [Concat(inner)];
  }

  /** Three primitives that each run through: the run returns the third
      one's dict without an exception. */
  lemma ThreeThrough<P>(a: P, b: P, c: P, m: Fields, prim: (P, Fields) -> Track)
    requires prim(a, m).error.None?
    requires prim(b, prim(a, m).Output()).error.None?
    requires prim(c, prim(b, prim(a, m).Output()).Output()).error.None?
    ensures Steps([a, b, c], m, prim).error.None?
    ensures Steps([a, b, c], m, prim).Output() == prim(c, prim(b, prim(a, m).Output()).Output()).Output()
  {
    var t1 := prim(a, m);
    var t2 := prim(b, t1.Output());
    var t3 := prim(c, t2.Output());
    assert [a][..0] == [];
    assert Steps([a], m, prim) == t1;
    assert [a, b][..1] == [a];
    var s2 := Steps([a, b], m, prim);
    assert s2 == Seq(t1, t2);
    assert s2.error.None? && s2.Output() == t2.Output();
    assert [a, b, c][..2] == [a, b];
    assert Steps([a, b, c], m, prim) == Seq(s2, t3);
  }
}
