/** Facts about products and quotients of variables, and about the sizes of sets. */
module Arithmetic {
  const TWO_64: nat := 0x1_0000_0000_0000_0000

  lemma {:induction false} MulMonotone(a: nat, b: nat, n: nat)
    requires a <= b
    ensures a * n <= b * n
  {
  }

  lemma {:induction false} MulNext(a: nat, n: nat)
    ensures (a + 1) * n == a * n + n
  {
  }

  lemma {:induction false} MulLess(a: nat, b: nat, n: nat, r: nat)
    requires a < b && r < n
    ensures a * n + r < b * n
  {
    MulNext(a, n);
    MulMonotone(a + 1, b, n);
  }

  /** A quotient and a remainder are unique. */
  lemma {:induction false} UniqueSplit(a: nat, b: nat, n: nat, r: nat, q: nat)
    requires r < n && q < n && a * n + r == b * n + q
    ensures a == b && r == q
  {
    if a < b {
      MulLess(a, b, n, r);
    } else if b < a {
      MulLess(b, a, n, q);
    }
  }

  lemma {:induction false} Split(a: nat, n: nat)
    requires n > 0
    ensures a == a / n * n + a % n && 0 <= a % n < n
  {
  }

  lemma {:induction false} SplitIs(a: nat, n: nat, q: nat, r: nat)
    requires r < n && a == q * n + r
    ensures a / n == q && a % n == r
  {
    Split(a, n);
    UniqueSplit(a / n, q, n, a % n, r);
  }

  lemma {:induction false} DivMonotone(a: nat, b: nat, n: nat)
    requires a <= b && n > 0
    ensures a / n <= b / n
  {
    Split(a, n);
    Split(b, n);
    if b / n < a / n {
      MulLess(b / n, a / n, n, b % n);
    }
  }

  lemma {:induction false} DivLess(a: nat, n: nat, b: nat)
    requires n > 0 && a < n * b
    ensures a / n < b
  {
    Split(a, n);
    if b <= a / n {
      MulMonotone(b, a / n, n);
    }
  }

  lemma {:induction false} SubsetCard(a: set<nat>, b: set<nat>)
    requires a <= b
    ensures |a| <= |b|
    ensures |a| == |b| ==> a == b
  {
    assert b == a + (b - a);
  }
}
