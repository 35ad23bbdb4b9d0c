/** Order-preserving filtering, as `Array.prototype.filter` does it. */
module Sequences {

  /** The elements of `xs` that satisfy `p`, in their original order. */
  function Filter<T>(p: T -> bool, xs: seq<T>): (r: seq<T>)
    ensures |r| <= |xs|
    ensures forall k | 0 <= k < |r| :: r[k] in xs && p(r[k])
    ensures forall i | 0 <= i < |xs| :: p(xs[i]) ==> xs[i] in r
  {
    if |xs| == 0 then []
    else
      var rest := Filter(p, xs[1..]);
      assert forall i | 1 <= i < |xs| :: xs[i] == xs[1..][i - 1];
      if p(xs[0]) then [xs[0]] + rest else rest
  }

  /** Filtering distributes over concatenation, so it never reorders. */
  lemma {:induction false} FilterAppend<T>(p: T -> bool, xs: seq<T>, ys: seq<T>)
    ensures Filter(p, xs + ys) == Filter(p, xs) + Filter(p, ys)
  {
    if |xs| > 0 {
      FilterAppend(p, xs[1..], ys);
      assert (xs + ys)[1..] == xs[1..] + ys;
    } else {
      assert xs + ys == ys;
    }
  }

  /** Filtering a singleton keeps it exactly when it satisfies `p`. */
  lemma FilterOne<T>(p: T -> bool, x: T)
    ensures Filter(p, [x]) == if p(x) then [x] else []
  {
    assert [x][1..] == [];
  }

  /** An element that satisfies `p` lands at the position given by the
      number of satisfying elements before it. */
  lemma {:induction false} FilterPosition<T>(p: T -> bool, xs: seq<T>, i: nat)
    requires i < |xs|
    ensures Filter(p, xs) == Filter(p, xs[..i]) + Filter(p, xs[i..])
    ensures p(xs[i]) ==>
              |Filter(p, xs)| > |Filter(p, xs[..i])| && Filter(p, xs)[|Filter(p, xs[..i])|] == xs[i]
  {
    assert xs == xs[..i] + xs[i..];
    FilterAppend(p, xs[..i], xs[i..]);
    assert xs[i..] == [xs[i]] + xs[i + 1..];
    FilterAppend(p, [xs[i]], xs[i + 1..]);
    FilterOne(p, xs[i]);
  }

  /** An element `p` rejects can be dropped before filtering. */
  lemma FilterSkips<T>(p: T -> bool, xs: seq<T>, x: T, ys: seq<T>)
    requires !p(x)
    ensures Filter(p, xs + [x] + ys) == Filter(p, xs + ys)
  {
    FilterAppend(p, xs + [x], ys);
    FilterAppend(p, xs, [x]);
    FilterOne(p, x);
    assert Filter(p, xs) + [] == Filter(p, xs);
    FilterAppend(p, xs, ys);
  }

  /** Filtering peels off the head. */
  lemma FilterCons<T>(p: T -> bool, x: T, xs: seq<T>)
    ensures Filter(p, [x] + xs) == (if p(x) then [x] else []) + Filter(p, xs)
  {
    assert ([x] + xs)[1..] == xs;
  }

  /** When the first `n` elements all satisfy `p`, they are the first `n`
      elements of the result. */
  lemma {:induction false} FilterLeading<T>(p: T -> bool, xs: seq<T>, n: nat)
    requires n <= |xs|
    requires forall i | 0 <= i < n :: p(xs[i])
    ensures |Filter(p, xs)| >= n
    ensures forall i | 0 <= i < n :: Filter(p, xs)[i] == xs[i]
  {
    if n > 0 {
      FilterLeading(p, xs[1..], n - 1);
      assert xs == [xs[0]] + xs[1..];
      FilterCons(p, xs[0], xs[1..]);
    }
  }

  /** What filtering keeps of one element. */
  function Keep<T>(p: T -> bool, x: T): (r: seq<T>)
    ensures r == Filter(p, [x])
  {
    FilterOne(p, x);
    if p(x) then [x] else []
  }

  /** Filtering a six-element sequence visits the elements in order. */
  lemma FilterSix<T>(p: T -> bool, x0: T, x1: T, x2: T, x3: T, x4: T, x5: T)
    ensures Filter(p, [x0, x1, x2, x3, x4, x5])
            == Keep(p, x0) + Keep(p, x1) + Keep(p, x2) + Keep(p, x3) + Keep(p, x4) + Keep(p, x5)
  {
    assert [x0, x1, x2, x3, x4, x5] == [x0] + [x1] + [x2] + [x3] + [x4] + [x5];
    FilterAppend(p, [x0] + [x1] + [x2] + [x3] + [x4], [x5]);
    FilterAppend(p, [x0] + [x1] + [x2] + [x3], [x4]);
    FilterAppend(p, [x0] + [x1] + [x2], [x3]);
    FilterAppend(p, [x0] + [x1], [x2]);
    FilterAppend(p, [x0], [x1]);
  }

  /** `f` applied to every element, the results concatenated in order. */
  function FlatMap<T, U>(f: T -> seq<U>, xs: seq<T>): (r: seq<U>)
    ensures |xs| == 0 ==> r == []
  {
    if |xs| == 0 then [] else f(xs[0]) + FlatMap(f, xs[1..])
  }

  lemma FlatMapUnfold<T, U>(f: T -> seq<U>, xs: seq<T>)
    requires |xs| > 0
    ensures FlatMap(f, xs) == f(xs[0]) + FlatMap(f, xs[1..])
  {
  }

  lemma Assoc<U>(a: seq<U>, b: seq<U>, c: seq<U>)
    ensures a + (b + c) == (a + b) + c
  {
  }

  lemma FlatMapStep<T, U>(f: T -> seq<U>, xs: seq<T>, ys: seq<T>)
    requires |xs| > 0
    requires FlatMap(f, xs[1..] + ys) == FlatMap(f, xs[1..]) + FlatMap(f, ys)
    ensures FlatMap(f, xs + ys) == FlatMap(f, xs) + FlatMap(f, ys)
  {
    var zs := xs + ys;
    assert zs[0] == xs[0] && zs[1..] == xs[1..] + ys;
    FlatMapUnfold(f, zs);
    FlatMapUnfold(f, xs);
    Assoc(f(xs[0]), FlatMap(f, xs[1..]), FlatMap(f, ys));
  }

  /** Flat-mapping distributes over concatenation. */
  lemma {:induction false} FlatMapAppend<T, U>(f: T -> seq<U>, xs: seq<T>, ys: seq<T>)
    ensures FlatMap(f, xs + ys) == FlatMap(f, xs) + FlatMap(f, ys)
  {
    if |xs| == 0 {
      assert xs + ys == ys;
    } else {
      FlatMapAppend(f, xs[1..], ys);
      FlatMapStep(f, xs, ys);
    }
  }

  /** When the first three of six elements satisfy `p`, they open the
      result. */
  lemma FilterFront<T>(p: T -> bool, x0: T, x1: T, x2: T, x3: T, x4: T, x5: T)
    requires p(x0) && p(x1) && p(x2)
    ensures |Filter(p, [x0, x1, x2, x3, x4, x5])| >= 3
    ensures Filter(p, [x0, x1, x2, x3, x4, x5])[..3] == [x0, x1, x2]
  {
    FilterLeading(p, [x0, x1, x2, x3, x4, x5], 3);
  }
}
