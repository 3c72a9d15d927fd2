/** Sums over sequences, used for every total of the ledgers. */
module Sumas {

  /** Adds f over xs. */
  function Suma<T>(f: T -> int, xs: seq<T>): int {
    if xs == [] then 0 else Suma(f, xs[..|xs| - 1]) + f(xs[|xs| - 1])
  }

  lemma {:induction false} SumaConcatena<T>(f: T -> int, xs: seq<T>, ys: seq<T>)
    ensures Suma(f, xs + ys) == Suma(f, xs) + Suma(f, ys)
  {
    if ys == [] {
      assert xs + ys == xs;
    } else {
      var n := |ys| - 1;
      assert (xs + ys)[..|xs| + n] == xs + ys[..n];
      SumaConcatena(f, xs, ys[..n]);
    }
  }

  lemma SumaAgrega<T>(f: T -> int, xs: seq<T>, x: T)
    ensures Suma(f, xs + [x]) == Suma(f, xs) + f(x)
  {
    assert (xs + [x])[..|xs|] == xs;
  }

  lemma SumaPrimero<T>(f: T -> int, xs: seq<T>)
    requires xs != []
    ensures Suma(f, xs) == f(xs[0]) + Suma(f, xs[1..])
  {
    assert xs == [xs[0]] + xs[1..];
    SumaConcatena(f, [xs[0]], xs[1..]);
    SumaAgrega(f, [], xs[0]);
    assert [] + [xs[0]] == [xs[0]];
  }

  /** Replacing one element changes a sum by the difference of its terms. */
  lemma {:induction false} SumaReemplaza<T>(f: T -> int, xs: seq<T>, i: nat, x: T)
    requires i < |xs|
    ensures Suma(f, xs[i := x]) == Suma(f, xs) - f(xs[i]) + f(x)
  {
    var n := |xs| - 1;
    if i == n {
      assert xs[i := x][..n] == xs[..n];
    } else {
      assert xs[i := x][..n] == xs[..n][i := x];
      SumaReemplaza(f, xs[..n], i, x);
    }
  }

  /** Two sums agree when their terms do, place by place. */
  lemma {:induction false} SumaIgual<T, U>(f: T -> int, xs: seq<T>, g: U -> int, ys: seq<U>)
    requires |xs| == |ys|
    requires forall i | 0 <= i < |xs| :: f(xs[i]) == g(ys[i])
    ensures Suma(f, xs) == Suma(g, ys)
  {
    if xs != [] {
      SumaIgual(f, xs[..|xs| - 1], g, ys[..|ys| - 1]);
    }
  }

  /** A sum whose terms are all zero is zero. */
  lemma {:induction false} SumaNula<T>(f: T -> int, xs: seq<T>)
    requires forall x | x in xs :: f(x) == 0
    ensures Suma(f, xs) == 0
  {
    if xs != [] {
      SumaNula(f, xs[..|xs| - 1]);
    }
  }

  /** A sum does not depend on the order of its terms. */
  lemma {:induction false} SumaPermuta<T>(f: T -> int, xs: seq<T>, ys: seq<T>)
    requires multiset(xs) == multiset(ys)
    ensures Suma(f, xs) == Suma(f, ys)
    decreases |xs|
  {
    if xs == [] {
      assert |multiset(ys)| == 0;
    } else {
      assert xs[0] in multiset(ys);
      var j :| 0 <= j < |ys| && ys[j] == xs[0];
      QuitarPermuta(xs, ys, j);
      SumaPermuta(f, xs[1..], ys[..j] + ys[j + 1..]);
      SumaPrimero(f, xs);
      SumaConcatena(f, ys[..j], ys[j + 1..]);
      SumaConcatena(f, ys[..j], ys[j..]);
      assert ys == ys[..j] + ys[j..];
      SumaPrimero(f, ys[j..]);
      assert ys[j..][1..] == ys[j + 1..];
    }
  }

  lemma QuitarPermuta<T>(xs: seq<T>, ys: seq<T>, j: nat)
    requires multiset(xs) == multiset(ys)
    requires xs != [] && j < |ys| && ys[j] == xs[0]
    ensures multiset(xs[1..]) == multiset(ys[..j] + ys[j + 1..])
  {
    var resto := ys[..j] + ys[j + 1..];
    assert xs == [xs[0]] + xs[1..];
    assert ys == ys[..j] + [ys[j]] + ys[j + 1..];
    assert multiset(xs) - multiset{xs[0]} == multiset(xs[1..]);
    assert multiset(ys) - multiset{xs[0]} == multiset(resto);
  }
}
