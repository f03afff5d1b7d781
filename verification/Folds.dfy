/** Left-to-right accumulation over a sequence, the shape of every accumulating loop in the model. */
module Folds {
  function Fold<S, X>(s: S, xs: seq<X>, step: (S, X) -> S): S {
    if xs == [] then s else step(Fold(s, xs[..|xs| - 1], step), xs[|xs| - 1])
  }

  lemma FoldOne<S, X>(s: S, xs: seq<X>, k: nat, step: (S, X) -> S)
    requires k < |xs|
    ensures Fold(s, xs[..k + 1], step) == step(Fold(s, xs[..k], step), xs[k])
  {
    assert xs[..k + 1][..k] == xs[..k];
  }

  lemma FoldAppend<S, X>(s: S, xs: seq<X>, x: X, step: (S, X) -> S)
    ensures Fold(s, xs + [x], step) == step(Fold(s, xs, step), x)
  {
    assert (xs + [x])[..|xs|] == xs;
  }

  lemma {:induction false} FoldConcat<S, X>(s: S, a: seq<X>, b: seq<X>, step: (S, X) -> S)
    ensures Fold(s, a + b, step) == Fold(Fold(s, a, step), b, step)
  {
    if b == [] {
      assert a + b == a;
    } else {
      FoldConcat(s, a, b[..|b| - 1], step);
      assert (a + b)[..|a + b| - 1] == a + b[..|b| - 1];
    }
  }

  /** The elements that satisfy `p`, mapped by `f`, in order. */
  function Select<X, Y>(xs: seq<X>, p: X -> bool, f: X -> Y): seq<Y> {
    if xs == [] then []
    else
      var before, last := Select(xs[..|xs| - 1], p, f), xs[|xs| - 1];
      if p(last) then before + [f(last)] else before
  }

  lemma SelectOne<X, Y>(xs: seq<X>, k: nat, p: X -> bool, f: X -> Y)
    requires k < |xs|
    ensures Select(xs[..k + 1], p, f) == if p(xs[k]) then Select(xs[..k], p, f) + [f(xs[k])] else Select(xs[..k], p, f)
  {
    assert xs[..k + 1][..k] == xs[..k];
  }

  lemma FoldSelectOne<S, X, Y>(s: S, xs: seq<X>, k: nat, p: X -> bool, f: X -> Y, step: (S, Y) -> S)
    requires k < |xs|
    ensures var before := Fold(s, Select(xs[..k], p, f), step);
            Fold(s, Select(xs[..k + 1], p, f), step) == if p(xs[k]) then step(before, f(xs[k])) else before
  {
    SelectOne(xs, k, p, f);
    FoldAppend(s, Select(xs[..k], p, f), f(xs[k]), step);
  }

  lemma {:induction false} SelectConcat<X, Y>(a: seq<X>, b: seq<X>, p: X -> bool, f: X -> Y)
    ensures Select(a + b, p, f) == Select(a, p, f) + Select(b, p, f)
  {
    if b == [] {
      assert a + b == a;
    } else {
      SelectConcat(a, b[..|b| - 1], p, f);
      assert (a + b)[..|a + b| - 1] == a + b[..|b| - 1];
    }
  }

  function Count<T>(xs: seq<T>, p: T -> bool): nat {
    |Select(xs, p, (x: T) => x)|
  }

  lemma CountConcat<T>(a: seq<T>, b: seq<T>, p: T -> bool)
    ensures Count(a + b, p) == Count(a, p) + Count(b, p)
  {
    SelectConcat(a, b, p, (x: T) => x);
  }

  lemma {:induction false} SelectNonEmptyIff<X, Y>(xs: seq<X>, p: X -> bool, f: X -> Y)
    ensures Select(xs, p, f) != [] <==> exists x <- xs :: p(x)
  {
    if xs != [] {
      SelectNonEmptyIff(xs[..|xs| - 1], p, f);
      assert xs == xs[..|xs| - 1] + [xs[|xs| - 1]];
    }
  }

  lemma CountPositiveIff<T>(xs: seq<T>, p: T -> bool)
    ensures Count(xs, p) > 0 <==> exists x <- xs :: p(x)
  {
    SelectNonEmptyIff(xs, p, (x: T) => x);
  }

  /** Selecting twice is selecting once. */
  lemma {:induction false} SelectSelect<X, Y, Z>(xs: seq<X>, p: X -> bool, f: X -> Y, q: Y -> bool, g: Y -> Z,
                                                 pq: X -> bool, gf: X -> Z)
    requires forall x <- xs :: pq(x) == (p(x) && q(f(x))) && (pq(x) ==> gf(x) == g(f(x)))
    ensures Select(Select(xs, p, f), q, g) == Select(xs, pq, gf)
  {
    if xs != [] {
      var n := |xs| - 1;
      SelectSelect(xs[..n], p, f, q, g, pq, gf);
      var inner := Select(xs[..n], p, f);
      assert (inner + [f(xs[n])])[..|inner|] == inner;
      assert xs[n] in xs;
    }
  }

  /** Selection depends on nothing but what the tests and the mapping say on the elements. */
  lemma {:induction false} SelectAgrees<X, Y>(xs: seq<X>, p: X -> bool, f: X -> Y, p': X -> bool, f': X -> Y)
    requires forall x <- xs :: p(x) == p'(x) && (p(x) ==> f(x) == f'(x))
    ensures Select(xs, p, f) == Select(xs, p', f')
  {
    if xs != [] {
      SelectAgrees(xs[..|xs| - 1], p, f, p', f');
      assert xs[|xs| - 1] in xs;
    }
  }

  lemma {:induction false} SelectedFrom<X, Y>(xs: seq<X>, p: X -> bool, f: X -> Y)
    ensures forall y <- Select(xs, p, f) :: exists x <- xs :: p(x) && y == f(x)
    ensures forall x <- xs :: p(x) ==> f(x) in Select(xs, p, f)
  {
    if xs != [] {
      SelectedFrom(xs[..|xs| - 1], p, f);
      assert xs == xs[..|xs| - 1] + [xs[|xs| - 1]];
    }
  }
}
