/** Sums over an initial segment of the naturals and over square tables, and the sizes of sets of naturals. */
module Counting {

  /** f(0) + f(1) + ... + f(n-1). */
  ghost function Sum(n: nat, f: nat -> int): int
  {
    if n == 0 then 0 else Sum(n - 1, f) + f(n - 1)
  }

  lemma {:induction false} SumEqual(n: nat, f: nat -> int, g: nat -> int)
    requires forall i: nat :: i < n ==> f(i) == g(i)
    ensures Sum(n, f) == Sum(n, g)
  {
    if n == 0 {
    } else {
      SumEqual(n - 1, f, g);
    }
  }

  /** Changing one summand changes the sum by the same amount. */
  lemma {:induction false} SumUpdate(n: nat, f: nat -> int, g: nat -> int, k: nat)
    requires k < n
    requires forall i: nat :: i < n && i != k ==> f(i) == g(i)
    ensures Sum(n, g) == Sum(n, f) + g(k) - f(k)
  {
    if k == n - 1 {
      SumEqual(n - 1, f, g);
    } else {
      SumUpdate(n - 1, f, g, k);
    }
  }

  lemma {:induction false} SumBound(n: nat, f: nat -> int, b: int)
    requires forall i: nat :: i < n ==> f(i) <= b
    ensures Sum(n, f) <= n * b
  {
    if n == 0 {
    } else {
      SumBound(n - 1, f, b);
    }
  }

  lemma {:induction false} SumLowerBound(n: nat, f: nat -> int, b: int)
    requires forall i: nat :: i < n ==> f(i) >= b
    ensures Sum(n, f) >= n * b
  {
    if n == 0 {
    } else {
      SumLowerBound(n - 1, f, b);
    }
  }

  /** A sum whose summands are at most b, one of them strictly less, is strictly less than n * b. */
  lemma {:induction false} SumStrictBound(n: nat, f: nat -> int, b: int, k: nat)
    requires k < n && f(k) < b
    requires forall i: nat :: i < n ==> f(i) <= b
    ensures Sum(n, f) < n * b
  {
    if k == n - 1 {
      SumBound(n - 1, f, b);
    } else {
      SumStrictBound(n - 1, f, b, k);
    }
  }

  lemma {:induction false} SumNonNegative(n: nat, f: nat -> int)
    requires forall i: nat :: i < n ==> f(i) >= 0
    ensures Sum(n, f) >= 0
    ensures forall i: nat :: i < n ==> f(i) <= Sum(n, f)
  {
    if n == 0 {
    } else {
      SumNonNegative(n - 1, f);
    }
  }

  ghost function Row(cell: (nat, nat) -> int, i: nat): nat -> int
  {
    (j: nat) => cell(i, j)
  }

  ghost function Rows(n: nat, head: nat -> int, cell: (nat, nat) -> int): nat -> int
  {
    (i: nat) => head(i) + Sum(n, Row(cell, i))
  }

  /** The sum of n heads and of the n cells of each of n rows. */
  ghost function Grid(n: nat, head: nat -> int, cell: (nat, nat) -> int): int
  {
    Sum(n, Rows(n, head, cell))
  }

  /** Changing one cell, and the head of its row. */
  lemma GridUpdate(n: nat, head: nat -> int, cell: (nat, nat) -> int, head': nat -> int, cell': (nat, nat) -> int,
                   i: nat, j: nat)
    requires i < n && j < n
    requires forall k: nat :: k < n && k != i ==> head'(k) == head(k)
    requires forall k: nat, l: nat :: k < n && l < n && (k, l) != (i, j) ==> cell'(k, l) == cell(k, l)
    ensures Grid(n, head', cell') == Grid(n, head, cell) + (head'(i) - head(i)) + (cell'(i, j) - cell(i, j))
  {
    forall k: nat | k < n && k != i ensures Rows(n, head', cell')(k) == Rows(n, head, cell)(k) {
      SumEqual(n, Row(cell', k), Row(cell, k));
    }
    SumUpdate(n, Row(cell, i), Row(cell', i), j);
    SumUpdate(n, Rows(n, head, cell), Rows(n, head', cell'), i);
  }

  lemma GridNonNegative(n: nat, head: nat -> int, cell: (nat, nat) -> int)
    requires forall i: nat :: i < n ==> head(i) >= 0
    requires forall i: nat, j: nat :: i < n && j < n ==> cell(i, j) >= 0
    ensures Grid(n, head, cell) >= 0
  {
    forall i: nat | i < n ensures Rows(n, head, cell)(i) >= 0 {
      SumNonNegative(n, Row(cell, i));
    }
    SumNonNegative(n, Rows(n, head, cell));
  }

  /** The naturals below n. */
  ghost function Below(n: nat): (s: set<nat>)
    ensures |s| == n
    ensures forall i: nat :: i in s <==> i < n
  {
    if n == 0 then {} else Below(n - 1) + {n - 1}
  }

  lemma SubsetSize<T>(a: set<T>, b: set<T>)
    requires a <= b
    ensures |a| <= |b|
    ensures |a| == |b| ==> a == b
  {
    assert b == a + (b - a);
    assert |b| == |a| + |b - a|;
  }

  /** A set of naturals below n has at most n elements, and all of them only when it has n. */
  lemma BelowSubset(a: set<nat>, n: nat)
    requires forall i: nat :: i in a ==> i < n
    ensures |a| <= n
    ensures |a| == n <==> a == Below(n)
  {
    assert a <= Below(n);
    SubsetSize(a, Below(n));
  }
}
