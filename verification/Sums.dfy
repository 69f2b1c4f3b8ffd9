/** Finite sums of integer functions over {0, ..., n-1}, and the few laws about them that the
    flow and barrier proofs use. */
module Sums {

  ghost function Sum(n: nat, f: nat -> int): int {
    if n == 0 then 0 else Sum(n - 1, f) + f(n - 1)
  }

  lemma {:induction false} SumEq(n: nat, f: nat -> int, g: nat -> int)
    requires forall i: nat | i < n :: f(i) == g(i)
    ensures Sum(n, f) == Sum(n, g)
  {
    if n > 0 { SumEq(n - 1, f, g); }
  }

  /** Changing one summand by d changes the sum by d. */
  lemma {:induction false} SumPoint(n: nat, f: nat -> int, g: nat -> int, p: nat, d: int)
    requires p < n && g(p) == f(p) + d
    requires forall i: nat | i < n && i != p :: g(i) == f(i)
    ensures Sum(n, g) == Sum(n, f) + d
  {
    if p == n - 1 {
      SumEq(n - 1, f, g);
    } else {
      SumPoint(n - 1, f, g, p, d);
    }
  }

  lemma {:induction false} SumPlus(n: nat, f: nat -> int, g: nat -> int, h: nat -> int)
    requires forall i: nat | i < n :: h(i) == f(i) + g(i)
    ensures Sum(n, h) == Sum(n, f) + Sum(n, g)
  {
    if n > 0 { SumPlus(n - 1, f, g, h); }
  }

  lemma {:induction false} SumLe(n: nat, f: nat -> int, g: nat -> int)
    requires forall i: nat | i < n :: f(i) <= g(i)
    ensures Sum(n, f) <= Sum(n, g)
  {
    if n > 0 { SumLe(n - 1, f, g); }
  }

  lemma {:induction false} SumZero(n: nat, f: nat -> int)
    requires forall i: nat | i < n :: f(i) == 0
    ensures Sum(n, f) == 0
  {
    if n > 0 { SumZero(n - 1, f); }
  }

  lemma {:induction false} SumNonNegative(n: nat, f: nat -> int)
    requires forall i: nat | i < n :: f(i) >= 0
    ensures Sum(n, f) >= 0
    ensures forall i: nat | i < n :: f(i) <= Sum(n, f)
  {
    if n > 0 { SumNonNegative(n - 1, f); }
  }

  /** Pointwise <= with equal sums means pointwise equal. */
  lemma {:induction false} SumLeEqual(n: nat, f: nat -> int, g: nat -> int)
    requires forall i: nat | i < n :: f(i) <= g(i)
    requires Sum(n, f) == Sum(n, g)
    ensures forall i: nat | i < n :: f(i) == g(i)
  {
    if n > 0 {
      SumLe(n - 1, f, g);
      SumLeEqual(n - 1, f, g);
    }
  }

  /** A positive sum has a positive summand. */
  lemma {:induction false} PositiveSummand(n: nat, f: nat -> int) returns (i: nat)
    requires Sum(n, f) > 0
    ensures i < n && f(i) > 0
  {
    if f(n - 1) > 0 {
      i := n - 1;
    } else {
      i := PositiveSummand(n - 1, f);
    }
  }

  /** Column v of the matrix g, and the function summing each column up to row k. */
  ghost function Column(g: (nat, nat) -> int, v: nat): nat -> int { (u: nat) => g(u, v) }
  ghost function ColumnSums(g: (nat, nat) -> int, k: nat): nat -> int { (v: nat) => Sum(k, Column(g, v)) }
  ghost function Row(g: (nat, nat) -> int, u: nat): nat -> int { (v: nat) => g(u, v) }

  /** An antisymmetric square sums to zero. */
  lemma {:induction false} AntisymmetricSum(k: nat, g: (nat, nat) -> int)
    requires forall u: nat, v: nat | u < k && v < k :: g(u, v) == -g(v, u)
    ensures Sum(k, ColumnSums(g, k)) == 0
  {
    if k > 0 {
      var m := k - 1;
      AntisymmetricSum(m, g);
      SumPlus(m, ColumnSums(g, m), Row(g, m), ColumnSums(g, k));
      SumPlus(m, Column(g, m), Row(g, m), (i: nat) => 0) by {
        assert forall i: nat | i < m :: g(i, m) == -g(m, i);
      }
      SumZero(m, (i: nat) => 0);
    }
  }

  ghost function One(b: bool): nat { if b then 1 else 0 }

  /** k times n. */
  ghost function Times(k: nat, n: nat): nat { if k == 0 then 0 else n + Times(k - 1, n) }

  lemma {:induction false} TimesMonotone(j: nat, k: nat, n: nat)
    requires j <= k
    ensures Times(j, n) <= Times(k, n)
    ensures j < k ==> Times(j, n) + n <= Times(k, n)
  {
    if j < k { TimesMonotone(j, k - 1, n); }
  }

  lemma {:induction false} SumAtMost(n: nat, f: nat -> int, bound: nat)
    requires forall i: nat | i < n :: f(i) <= bound
    ensures Sum(n, f) <= Times(n, bound)
  {
    if n > 0 { SumAtMost(n - 1, f, bound); }
  }

  lemma {:induction false} TimesOne(n: nat)
    ensures Times(n, 1) == n
  {
    if n > 0 { TimesOne(n - 1); }
  }

  /** A sum of zeros and ones counts the ones. */
  lemma {:induction false} SumCounts(n: nat, f: nat -> int)
    requires forall i: nat | i < n :: f(i) == 0 || f(i) == 1
    ensures Sum(n, f) == |set i: nat | i < n && f(i) == 1|
  {
    var ones := set i: nat | i < n && f(i) == 1;
    if n == 0 {
      assert ones == {};
    } else {
      SumCounts(n - 1, f);
      var rest := set i: nat | i < n - 1 && f(i) == 1;
      assert ones == if f(n - 1) == 1 then rest + {n - 1} else rest;
    }
  }
}
