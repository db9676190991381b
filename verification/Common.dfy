/** Small shared definitions: optional values and facts about sequences. */
module Common {

  datatype Option<+T> = None | Some(value: T)

  /** Every element of `s` differs from every other. */
  ghost predicate Distinct<T>(s: seq<T>) {
    forall i, j :: 0 <= i < j < |s| ==> s[i] != s[j]
  }

  /** The state after stepping through `xs` from the left. */
  function Fold<A, T>(step: (A, T) -> A, state: A, xs: seq<T>): A {
    if xs == [] then state else Fold(step, step(state, xs[0]), xs[1..])
  }

  lemma {:induction false} FoldAppend<A, T>(step: (A, T) -> A, state: A, xs: seq<T>, ys: seq<T>)
    ensures Fold(step, state, xs + ys) == Fold(step, Fold(step, state, xs), ys)
  {
    if xs == [] {
      assert xs + ys == ys;
    } else {
      assert (xs + ys)[1..] == xs[1..] + ys;
      FoldAppend(step, step(state, xs[0]), xs[1..], ys);
    }
  }

  lemma FoldOne<A, T>(step: (A, T) -> A, state: A, x: T)
    ensures Fold(step, state, [x]) == step(state, x)
  {
    assert [x][1..] == [];
  }

  lemma FoldNext<A, T>(step: (A, T) -> A, state: A, xs: seq<T>, i: nat)
    requires i < |xs|
    ensures Fold(step, state, xs[..i + 1]) == step(Fold(step, state, xs[..i]), xs[i])
  {
    assert xs[..i + 1] == xs[..i] + [xs[i]];
    FoldAppend(step, state, xs[..i], [xs[i]]);
    FoldOne(step, Fold(step, state, xs[..i]), xs[i]);
  }

  /** What `f` makes of each element, one after the other. */
  function FlatMap<T, U>(f: T -> seq<U>, xs: seq<T>): seq<U> {
    if xs == [] then [] else f(xs[0]) + FlatMap(f, xs[1..])
  }

  lemma {:induction false} FlatMapAppend<T, U>(f: T -> seq<U>, xs: seq<T>, ys: seq<T>)
    ensures FlatMap(f, xs + ys) == FlatMap(f, xs) + FlatMap(f, ys)
  {
    if xs == [] {
      assert xs + ys == ys;
    } else {
      assert (xs + ys)[1..] == xs[1..] + ys;
      FlatMapAppend(f, xs[1..], ys);
    }
  }

  lemma FlatMapOne<T, U>(f: T -> seq<U>, x: T)
    ensures FlatMap(f, [x]) == f(x)
  {
    assert FlatMap(f, [x][1..]) == [];
  }

  lemma FlatMapNext<T, U>(f: T -> seq<U>, xs: seq<T>, i: nat)
    requires i < |xs|
    ensures FlatMap(f, xs[..i + 1]) == FlatMap(f, xs[..i]) + f(xs[i])
  {
    assert xs[..i + 1] == xs[..i] + [xs[i]];
    FlatMapAppend(f, xs[..i], [xs[i]]);
    FlatMapOne(f, xs[i]);
  }

  lemma {:induction false} FlatMapNone<T, U>(f: T -> seq<U>, xs: seq<T>)
    requires forall i :: 0 <= i < |xs| ==> f(xs[i]) == []
    ensures FlatMap(f, xs) == []
  {
    if xs != [] { FlatMapNone(f, xs[1..]); }
  }

  lemma {:induction false} FlatMapEmpty<T, U>(f: T -> seq<U>, xs: seq<T>)
    ensures FlatMap(f, xs) == [] <==> forall i :: 0 <= i < |xs| ==> f(xs[i]) == []
  {
    if xs != [] {
      FlatMapEmpty(f, xs[1..]);
      assert forall i :: 0 < i < |xs| ==> xs[i] == xs[1..][i - 1];
      assert forall i :: 0 <= i < |xs[1..]| ==> xs[1..][i] == xs[i + 1];
    }
  }

  lemma {:induction false} FlatMapSingles<T, U>(f: T -> seq<U>, xs: seq<T>, ys: seq<U>)
    requires |xs| == |ys| && forall i :: 0 <= i < |xs| ==> f(xs[i]) == [ys[i]]
    ensures FlatMap(f, xs) == ys
  {
    if xs != [] {
      FlatMapSingles(f, xs[1..], ys[1..]);
      assert ys == [ys[0]] + ys[1..];
    }
  }
}
