/** Bitwise operators and shifts on natural numbers, and what masks and shifts are as arithmetic. */
module Bits {
  import opened Arithmetic

  function Or(a: nat, b: nat): nat {
    if a == 0 && b == 0 then 0 else 2 * Or(a / 2, b / 2) + (if a % 2 == 1 || b % 2 == 1 then 1 else 0)
  }

  function And(a: nat, b: nat): nat {
    if a == 0 || b == 0 then 0 else 2 * And(a / 2, b / 2) + (if a % 2 == 1 && b % 2 == 1 then 1 else 0)
  }

  function Pow2(k: nat): (r: nat)
    ensures r > 0
  {
    if k == 0 then 1 else 2 * Pow2(k - 1)
  }

  function Shl(a: nat, k: nat): nat { a * Pow2(k) }

  function Shr(a: nat, k: nat): nat {
    if k == 0 then a else Shr(a / 2, k - 1)
  }

  // ---- Shifts, bit by bit -----------------------------------------------------------------------

  lemma {:induction false} Doubled(a: nat, n: nat)
    ensures a * (2 * n) == 2 * (a * n)
  {
  }

  lemma {:induction false} Halved(a: nat, n: nat)
    requires n > 0
    ensures a / 2 / n == a / (2 * n) && a % (2 * n) == 2 * (a / 2 % n) + a % 2
  {
    Split(a / 2, n);
    Doubled(a / 2 / n, n);
    SplitIs(a, 2 * n, a / 2 / n, 2 * (a / 2 % n) + a % 2);
  }

  lemma {:induction false} ShlStep(a: nat, k: nat)
    requires k > 0
    ensures Shl(a, k) == 2 * Shl(a, k - 1)
  {
    Doubled(a, Pow2(k - 1));
  }

  lemma {:induction false} ShrIs(a: nat, k: nat)
    ensures Shr(a, k) == a / Pow2(k)
  {
    if k > 0 {
      ShrIs(a / 2, k - 1);
      Halved(a, Pow2(k - 1));
    }
  }

  lemma {:induction false} ShrUndoesShl(a: nat, k: nat)
    ensures Shr(Shl(a, k), k) == a
  {
    if k > 0 {
      ShlStep(a, k);
      ShrUndoesShl(a, k - 1);
    }
  }

  // ---- Fields -----------------------------------------------------------------------------------

  lemma {:induction false} OrZero(a: nat)
    ensures Or(a, 0) == a
  {
    if a > 0 {
      OrZero(a / 2);
    }
  }

  /** Fields that do not overlap: their or is their sum. */
  lemma {:induction false} OrIsSum(a: nat, b: nat, k: nat)
    requires b < Pow2(k)
    ensures Or(Shl(a, k), b) == Shl(a, k) + b
  {
    if k == 0 {
      OrZero(a);
    } else {
      ShlStep(a, k);
      OrIsSum(a, b / 2, k - 1);
    }
  }

  lemma {:induction false} PowersAdd(j: nat, k: nat)
    ensures Pow2(j + k) == Pow2(k) * Pow2(j)
  {
    if j > 0 {
      PowersAdd(j - 1, k);
      Doubled(Pow2(k), Pow2(j - 1));
    }
  }

  /** A mask of the low `k` bits takes the remainder. */
  lemma {:induction false} LowMask(a: nat, k: nat)
    ensures And(a, Pow2(k) - 1) == a % Pow2(k)
  {
    if k > 0 {
      LowMask(a / 2, k - 1);
      Halved(a, Pow2(k - 1));
    }
  }

  lemma {:induction false} Regroup(a: nat, m: nat, n: nat, b: nat)
    ensures a * (m * n) + b * n == (a * m + b) * n
  {
  }

  lemma {:induction false} JoinThree(high: nat, middle: nat, low: nat, j: nat, k: nat)
    requires low < Pow2(j) && middle < Pow2(k)
    ensures Or(Or(Shl(high, j + k), Shl(middle, j)), low) == high * Pow2(j + k) + middle * Pow2(j) + low
  {
    var upper := high * Pow2(k) + middle;
    assert Shl(middle, j) < Pow2(j + k) && Shl(high, j + k) + Shl(middle, j) == Shl(upper, j) by {
      PowersAdd(j, k);
      MulLess(middle, Pow2(k), Pow2(j), 0);
      Regroup(high, Pow2(k), Pow2(j), middle);
    }
    OrIsSum(high, Shl(middle, j), j + k);
    OrIsSum(upper, low, j);
  }

  /** Three fields of `h`, `k` and `j` bits, each masked and shifted to its place, in one word. */
  lemma {:induction false} PackThree(a: nat, b: nat, c: nat, h: nat, k: nat, j: nat)
    ensures Or(Or(Shl(And(a, Pow2(h) - 1), j + k), Shl(And(b, Pow2(k) - 1), j)), And(c, Pow2(j) - 1))
         == a % Pow2(h) * Pow2(j + k) + b % Pow2(k) * Pow2(j) + c % Pow2(j)
  {
    LowMask(a, h);
    LowMask(b, k);
    LowMask(c, j);
    Split(b, Pow2(k));
    Split(c, Pow2(j));
    JoinThree(a % Pow2(h), b % Pow2(k), c % Pow2(j), j, k);
  }

  lemma {:induction false} ShiftedMask(a: nat, m: nat, j: nat)
    ensures And(a, Shl(m, j)) == Shl(And(Shr(a, j), m), j)
  {
    if j > 0 {
      ShlStep(m, j);
      ShiftedMask(a / 2, m, j - 1);
      ShlStep(And(Shr(a, j), m), j);
    }
  }

  /** A mask of `k` bits from bit `j` on, shifted down, takes those bits. */
  lemma {:induction false} FieldMask(a: nat, j: nat, k: nat)
    ensures Shr(And(a, Shl(Pow2(k) - 1, j)), j) == a / Pow2(j) % Pow2(k)
  {
    ShiftedMask(a, Pow2(k) - 1, j);
    ShrUndoesShl(And(Shr(a, j), Pow2(k) - 1), j);
    LowMask(Shr(a, j), k);
    ShrIs(a, j);
  }
}
