/**
 Step machines over macro sequences, and when a machine accepts exactly what a parser builds.

 All three document checkers are state machines fed one macro at a time. A checker is compared with
 a parser that grows a tree by the same macros, after leaving out the noise: macros that change
 nothing, such as comments and blank text.
 */
module Machines {
  import opened Outcomes

  /** A whole macro sequence; the first error ends the run. */
  function Run<C, M>(step: (C, M) -> Result<C>, c: C, doc: seq<M>): Result<C> {
    if doc == [] then Success(c)
    else
      match Run(step, c, doc[..|doc| - 1])
      case Success(d) => step(d, doc[|doc| - 1])
      case Failure(code) => Failure(code)
  }

  lemma RunOne<C, M>(step: (C, M) -> Result<C>, c: C, m: M)
    ensures Run(step, c, [m]) == step(c, m)
  {
    assert [m][..0] == [];
  }

  lemma RunSnoc<C, M>(step: (C, M) -> Result<C>, c: C, doc: seq<M>, m: M)
    ensures Run(step, c, doc + [m])
         == match Run(step, c, doc) case Success(d) => step(d, m) case Failure(code) => Failure(code)
  {
    assert (doc + [m])[..|doc|] == doc;
  }

  lemma {:induction false} RunSplits<C, M>(step: (C, M) -> Result<C>, c: C, a: seq<M>, b: seq<M>)
    ensures Run(step, c, a + b)
         == match Run(step, c, a) case Success(d) => Run(step, d, b) case Failure(code) => Failure(code)
  {
    if b == [] {
      assert a + b == a;
    } else {
      RunSplits(step, c, a, b[..|b| - 1]);
      assert (a + b)[..|a + b| - 1] == a + b[..|b| - 1];
    }
  }

  /** Two sequences and a macro. */
  lemma RunInTurn<C, M>(step: (C, M) -> Result<C>, c: C, a: seq<M>, b: seq<M>, m: M)
    requires Run(step, c, a).Success? && Run(step, Run(step, c, a).value, b).Success?
    ensures Run(step, c, a + b + [m]) == step(Run(step, Run(step, c, a).value, b).value, m)
  {
    RunSplits(step, c, a, b);
    RunSnoc(step, c, a + b, m);
  }

  /** A sequence between two macros. */
  lemma RunBetween<C, M>(step: (C, M) -> Result<C>, c: C, a: M, doc: seq<M>, b: M, inner: C, d: C)
    requires step(c, a) == Success(inner) && Run(step, inner, doc) == Success(d)
    ensures Run(step, c, [a] + doc + [b]) == step(d, b)
  {
    RunOne(step, c, a);
    RunSplits(step, c, [a], doc);
    RunSnoc(step, c, [a] + doc, b);
  }

  lemma RunFails<C, M>(step: (C, M) -> Result<C>, c: C, doc: seq<M>, i: nat)
    requires i <= |doc| && Run(step, c, doc[..i]).Failure?
    ensures Run(step, c, doc) == Run(step, c, doc[..i])
  {
    RunSplits(step, c, doc[..i], doc[i..]);
    assert doc[..i] + doc[i..] == doc;
  }

  lemma Regroup<M>(a: seq<M>, b: seq<M>, c: seq<M>)
    ensures a + (b + c) == a + b + c
    ensures a + [] == a
  {
  }

  /** A value carried through a sequence. */
  function Fold<S, M>(f: (S, M) -> S, s: S, ms: seq<M>): S {
    if ms == [] then s else f(Fold(f, s, ms[..|ms| - 1]), ms[|ms| - 1])
  }

  lemma FoldOne<S, M>(f: (S, M) -> S, s: S, m: M)
    ensures Fold(f, s, [m]) == f(s, m)
  {
    assert [m][..0] == [];
  }

  lemma {:induction false} FoldSplits<S, M>(f: (S, M) -> S, s: S, a: seq<M>, b: seq<M>)
    ensures Fold(f, s, a + b) == Fold(f, Fold(f, s, a), b)
  {
    if b == [] {
      assert a + b == a;
    } else {
      FoldSplits(f, s, a, b[..|b| - 1]);
      assert (a + b)[..|a + b| - 1] == a + b[..|b| - 1];
    }
  }

  /** What each macro contributes, end to end. */
  function Collect<M, H>(f: M -> seq<H>, doc: seq<M>): seq<H> {
    if doc == [] then [] else Collect(f, doc[..|doc| - 1]) + f(doc[|doc| - 1])
  }

  lemma {:induction false} CollectSplits<M, H>(f: M -> seq<H>, a: seq<M>, b: seq<M>)
    ensures Collect(f, a + b) == Collect(f, a) + Collect(f, b)
  {
    if b == [] {
      assert a + b == a;
      assert Collect(f, a) + [] == Collect(f, a);
    } else {
      CollectSplits(f, a, b[..|b| - 1]);
      assert (a + b)[..|a + b| - 1] == a + b[..|b| - 1];
    }
  }

  lemma CollectAround<M, H>(f: M -> seq<H>, doc: seq<M>, i: nat)
    requires i < |doc|
    ensures Collect(f, doc[..i + 1]) == Collect(f, doc[..i]) + f(doc[i])
    ensures Collect(f, doc) == Collect(f, doc[..i + 1]) + Collect(f, doc[i + 1..])
  {
    assert doc[..i + 1][..i] == doc[..i];
    CollectSplits(f, doc[..i + 1], doc[i + 1..]);
    assert doc[..i + 1] + doc[i + 1..] == doc;
  }

  function Strip<M>(noise: M -> bool, doc: seq<M>): seq<M> {
    if doc == [] then []
    else
      var m := doc[|doc| - 1];
      var init := Strip(noise, doc[..|doc| - 1]);
      if noise(m) then init else init + [m]
  }

  lemma {:induction false} StripSplits<M>(noise: M -> bool, a: seq<M>, b: seq<M>)
    ensures Strip(noise, a + b) == Strip(noise, a) + Strip(noise, b)
  {
    if b == [] {
      assert a + b == a;
      assert Strip(noise, a) + [] == Strip(noise, a);
    } else {
      StripSplits(noise, a, b[..|b| - 1]);
      assert (a + b)[..|a + b| - 1] == a + b[..|b| - 1];
    }
  }

  lemma StripSnoc<M>(noise: M -> bool, doc: seq<M>, m: M)
    ensures Strip(noise, doc + [m]) == if noise(m) then Strip(noise, doc) else Strip(noise, doc) + [m]
  {
    assert (doc + [m])[..|doc|] == doc;
  }

  /**
   A machine beside a parser. spell turns a tree, whole or not, back into macros; ends marks the
   macro that finishes a document; allowed says whether a noise macro may stand at its place, given
   whether the document is already finished.
   */
  datatype Pair<!C, !M, !P> = Pair(
    step: (C, M) -> Result<C>, extend: (P, M) -> Result<P>, configOf: P -> C, start: P,
    sound: P -> bool, whole: P -> bool, spell: P -> seq<M>,
    noise: M -> bool, allowed: (M, bool) -> bool, ends: M -> bool)

  predicate Finished<C, M, P>(l: Pair<C, M, P>, doc: seq<M>) {
    exists i :: 0 <= i < |doc| && l.ends(doc[i])
  }

  /** Every noise macro of the document stands where it is allowed. */
  predicate Quiet<C, M, P>(l: Pair<C, M, P>, doc: seq<M>) {
    forall i :: 0 <= i < |doc| && l.noise(doc[i]) ==> l.allowed(doc[i], Finished(l, doc[..i]))
  }

  function Parse<C, M, P>(l: Pair<C, M, P>, doc: seq<M>): Result<P> {
    Run(l.extend, l.start, Strip(l.noise, doc))
  }

  /** One step of the machine does to the configuration of p what the parser does to p. */
  ghost predicate Agree<C, M, P>(l: Pair<C, M, P>, p: P, m: M) {
    if l.noise(m) then
      !l.ends(m) && match l.step(l.configOf(p), m)
      case Success(c) => l.allowed(m, l.whole(p)) && c == l.configOf(p)
      case Failure(_) => !l.allowed(m, l.whole(p))
    else
      match l.extend(p, m)
      case Failure(_) => l.step(l.configOf(p), m).Failure?
      case Success(q) =>
        && l.step(l.configOf(p), m) == Success(l.configOf(q))
        && l.sound(q) && !l.whole(p) && (l.whole(q) <==> l.ends(m))
        && l.spell(q) == l.spell(p) + [m]
  }

  ghost predicate Simulates<C(!new), M(!new), P(!new)>(l: Pair<C, M, P>) {
    && l.sound(l.start) && !l.whole(l.start) && l.spell(l.start) == []
    && forall p, m :: l.sound(p) ==> Agree(l, p, m)
  }

  lemma QuietSnoc<C, M, P>(l: Pair<C, M, P>, doc: seq<M>, m: M)
    ensures Quiet(l, doc + [m]) <==> Quiet(l, doc) && (l.noise(m) ==> l.allowed(m, Finished(l, doc)))
    ensures Finished(l, doc + [m]) <==> Finished(l, doc) || l.ends(m)
  {
    var all := doc + [m];
    assert all[..|doc|] == doc && all[|doc|] == m;
    assert forall i :: 0 <= i < |doc| ==> all[i] == doc[i] && all[..i] == doc[..i];
    if Finished(l, doc) {
      var i :| 0 <= i < |doc| && l.ends(doc[i]);
      assert l.ends(all[i]);
    }
  }

  /** The machine survives a document exactly when its noise is allowed and the rest of it parses. */
  lemma {:induction false} RunIsParse<C(!new), M(!new), P(!new)>(l: Pair<C, M, P>, doc: seq<M>)
    requires Simulates(l)
    ensures Run(l.step, l.configOf(l.start), doc).Success? <==> Quiet(l, doc) && Parse(l, doc).Success?
    ensures Run(l.step, l.configOf(l.start), doc).Success? ==>
              var p := Parse(l, doc).value;
              && l.sound(p) && (l.whole(p) <==> Finished(l, doc)) && l.spell(p) == Strip(l.noise, doc)
              && Run(l.step, l.configOf(l.start), doc) == Success(l.configOf(p))
  {
    if doc != [] {
      var init, m := doc[..|doc| - 1], doc[|doc| - 1];
      assert doc == init + [m];
      RunIsParse(l, init);
      QuietSnoc(l, init, m);
      StripSnoc(l.noise, init, m);
      if !l.noise(m) {
        RunSnoc(l.extend, l.start, Strip(l.noise, init), m);
      }
      if Quiet(l, init) && Parse(l, init).Success? {
        assert Agree(l, Parse(l, init).value, m);
      }
    }
  }
}
