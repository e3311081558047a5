/** `Enumerable.Sum` over a projection, and how it behaves when the
    sequence is appended to, updated in place or has an element removed. */
module Sumas {

  function Suma<T>(xs: seq<T>, f: T -> real): real
    decreases |xs|
  {
    if |xs| == 0 then 0.0 else f(xs[0]) + Suma(xs[1..], f)
  }

  lemma {:induction false} SumaConcat<T>(a: seq<T>, b: seq<T>, f: T -> real)
    ensures Suma(a + b, f) == Suma(a, f) + Suma(b, f)
    decreases |a|
  {
    if |a| > 0 {
      assert (a + b)[1..] == a[1..] + b;
      SumaConcat(a[1..], b, f);
    } else {
      assert a + b == b;
    }
  }

  lemma SumaAgregar<T>(xs: seq<T>, x: T, f: T -> real)
    ensures Suma(xs + [x], f) == Suma(xs, f) + f(x)
  {
    SumaConcat(xs, [x], f);
  }

  lemma SumaUnitaria<T>(xs: seq<T>, f: T -> real)
    requires |xs| == 1
    ensures Suma(xs, f) == f(xs[0])
  {
    assert xs[1..] == [];
  }

  lemma SumaPar<T>(x: T, y: T, f: T -> real)
    ensures Suma([x, y], f) == f(x) + f(y)
  {
    assert [x, y][1..] == [y];
    SumaUnitaria([y], f);
  }

  lemma SumaActualizar<T>(xs: seq<T>, i: nat, y: T, f: T -> real)
    requires i < |xs|
    ensures Suma(xs[i := y], f) == Suma(xs, f) - f(xs[i]) + f(y)
  {
    assert xs == xs[..i] + [xs[i]] + xs[i + 1..];
    assert xs[i := y] == xs[..i] + [y] + xs[i + 1..];
    SumaConcat(xs[..i] + [xs[i]], xs[i + 1..], f);
    SumaConcat(xs[..i] + [y], xs[i + 1..], f);
    SumaConcat(xs[..i], [xs[i]], f);
    SumaConcat(xs[..i], [y], f);
  }

  lemma SumaQuitar<T>(xs: seq<T>, i: nat, f: T -> real)
    requires i < |xs|
    ensures Suma(xs[..i] + xs[i + 1..], f) == Suma(xs, f) - f(xs[i])
  {
    assert xs == xs[..i] + [xs[i]] + xs[i + 1..];
    SumaMedio(xs[..i], xs[i], xs[i + 1..], f);
  }

  lemma SumaMedio<T>(a: seq<T>, x: T, b: seq<T>, f: T -> real)
    ensures Suma(a + [x] + b, f) == Suma(a + b, f) + f(x)
  {
    SumaConcat(a + [x], b, f);
    SumaAgregar(a, x, f);
    SumaConcat(a, b, f);
  }

  /** Sums of non-negative terms are non-negative, and the sum of two
      projections is the projection of their sum. */
  lemma {:induction false} SumaNoNegativa<T>(xs: seq<T>, f: T -> real)
    requires forall i | 0 <= i < |xs| :: f(xs[i]) >= 0.0
    ensures Suma(xs, f) >= 0.0
    decreases |xs|
  {
    if |xs| > 0 {
      SumaNoNegativa(xs[1..], f);
    }
  }

  lemma {:induction false} SumaDeSuma<T>(xs: seq<T>, f: T -> real, g: T -> real, h: T -> real)
    requires forall i | 0 <= i < |xs| :: h(xs[i]) == f(xs[i]) + g(xs[i])
    ensures Suma(xs, h) == Suma(xs, f) + Suma(xs, g)
    decreases |xs|
  {
    if |xs| > 0 {
      SumaDeSuma(xs[1..], f, g, h);
    }
  }
}
