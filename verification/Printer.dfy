/** The digit loops of the firmware's printf. */
module Printer {
  import opened Arithmetic
  import opened Numerals

  /** The quotients of one round of the digit loop. */
  lemma {:induction false} DigitStep(num: nat, q: nat, rest: nat, d: nat, base: nat)
    requires d > 0 && num == q * (d * base) + rest && rest < d * base
    ensures rest / d < base && num == (q * base + rest / d) * d + rest % d
  {
    Split(rest, d);
    DivLess(rest, d, base);
    var g := rest / d;
    assert q * (d * base) == q * base * d;
    assert (q * base + g) * d == q * base * d + g * d;
  }

  /** The text after one more digit. */
  lemma {:induction false} AppendDigit(q: nat, g: nat, base: nat, upper: bool)
    requires 2 <= base <= 36 && g < base
    ensures Text(q * base + g, base, upper) == (if q > 0 then Text(q, base, upper) else "") + [DigitChar(g, upper)]
  {
    if q > 0 {
      MulMonotone(1, q, base);
      SplitIs(q * base + g, base, q, g);
    }
  }

  /** The divisor is a power of the base, so dividing it by the base is exact. */
  lemma {:induction false} PowerStep(base: nat, k: nat)
    requires base >= 2 && k > 0
    ensures Power(base, k) / base == Power(base, k - 1) > 0
  {
    PowerPositive(base, k - 1);
    SplitIs(Power(base, k), base, Power(base, k - 1), 0);
  }

  lemma {:induction false} PowerPositive(base: nat, k: nat)
    requires base >= 2
    ensures Power(base, k) > 0
  {
    if k > 0 {
      PowerPositive(base, k - 1);
      MulMonotone(1, Power(base, k - 1), base);
    }
  }

  /** ulli2a, uli2a and ui2a, which differ in the type of `num` only. The divisor never exceeds the
      number, so it does not overflow the type, and the buffer of 23 characters is never overrun. */
  method PrintUnsigned(num: nat, base: nat, upper: bool, bf: array<char>) returns (n: nat)
    requires num < 0x1_0000_0000_0000_0000 && 8 <= base <= 16 && bf.Length >= 23
    modifies bf
    ensures n < 23 && bf[..n] == Text(num, base, upper) && bf[n] == '\0'
  {
    var d, k := FindDivisor(num, base);
    assert k < 22 by {
      EightPowers();
      PowerLess(base, k, num);
    }
    n := WriteDigits(num, base, upper, bf, d, k);
    bf[n] := '\0';
  }

  lemma {:induction false} EightPowers()
    ensures Power(8, 22) == 0x4_0000_0000_0000_0000
  {
    assert Power(8, 4) == 4096;
    assert Power(8, 8) == 0x100_0000;
    assert Power(8, 12) == 0x10_0000_0000;
    assert Power(8, 16) == 0x1_0000_0000_0000;
    assert Power(8, 20) == 0x1000_0000_0000_0000;
  }

  lemma {:induction false} PowerGrows(j: nat, k: nat)
    requires j <= k
    ensures Power(8, j) <= Power(8, k)
  {
    if j < k {
      PowerGrows(j, k - 1);
    }
  }

  lemma {:induction false} PowerInBase(base: nat, k: nat)
    requires base >= 8
    ensures Power(8, k) <= Power(base, k)
  {
    if k > 0 {
      PowerInBase(base, k - 1);
      MulMonotone(Power(8, k - 1), Power(base, k - 1), 8);
      MulMonotone(8, base, Power(base, k - 1));
    }
  }

  /** A power of the base below 8^22 has an exponent below 22. */
  lemma {:induction false} PowerLess(base: nat, k: nat, num: nat)
    requires base >= 8 && (k == 0 || Power(base, k) <= num) && num < Power(8, 22)
    ensures k < 22
  {
    PowerInBase(base, k);
    if k >= 22 {
      PowerGrows(22, k);
    }
  }

  /** The first loop: the largest power of the base that does not exceed the number, or 1. */
  method FindDivisor(num: nat, base: nat) returns (d: nat, ghost k: nat)
    requires base >= 2
    ensures d == Power(base, k) && 0 < d && (k == 0 || d <= num) && num < d * base
  {
    d, k := 1, 0;
    while num / d >= base
      invariant d == Power(base, k) && 0 < d && (k == 0 || d <= num)
      decreases num - d
    {
      Split(num, d);
      MulMonotone(base, num / d, d);
      MulMonotone(2, base, d);
      d := d * base;
      k := k + 1;
    }
    Split(num, d);
    MulLess(num / d, base, d, num % d);
  }

  /** One round of the second loop, with divisor base^k. */
  lemma {:induction false} Round(num: nat, q: nat, rest: nat, base: nat, k: nat)
    requires base >= 2 && Power(base, k) > 0 && num == q * (Power(base, k) * base) + rest
    requires rest < Power(base, k) * base
    ensures var (d, g, rest') := (Power(base, k), rest / Power(base, k), rest % Power(base, k));
            && 0 <= g < base
            && (k == 0 ==> d / base == 0 && num == q * base + g)
            && (k > 0 ==> d / base == Power(base, k - 1) > 0
                          && num == (q * base + g) * (d / base * base) + rest' && rest' < d / base * base)
  {
    var d := Power(base, k);
    DigitStep(num, q, rest, d, base);
    Split(rest, d);
    if k > 0 {
      PowerStep(base, k);
      assert d / base * base == d;
    }
  }

  /** The second loop. `q` is the number whose digits are written; zeroes before the first other digit
      are left out, except the last. */
  method WriteDigits(num: nat, base: nat, upper: bool, bf: array<char>, divisor: nat, ghost power: nat) returns (n: nat)
    requires 2 <= base <= 36 && divisor == Power(base, power) && 0 < divisor && num < divisor * base
    requires power + 1 < bf.Length
    modifies bf
    ensures n <= power + 1 && bf[..n] == Text(num, base, upper)
  {
    n := 0;
    var rest: nat, d: nat := num, divisor;
    ghost var q: nat, k: nat := 0, power + 1;
    while d != 0
      invariant n + k <= power + 1
      invariant d == if k > 0 then Power(base, k - 1) else 0
      invariant k > 0 ==> d > 0 && num == q * (d * base) + rest && rest < d * base
      invariant bf[..n] == if q > 0 || k == 0 then Text(q, base, upper) else ""
      invariant k == 0 ==> q == num
      decreases k
    {
      Round(num, q, rest, base, k - 1);
      AppendDigit(q, rest / d, base, upper);
      ghost var written := bf[..n];
      var g := rest / d;
      rest := rest % d;
      d := d / base;
      if n > 0 || g > 0 || d == 0 {
        bf[n] := DigitChar(g, upper);
        n := n + 1;
        assert bf[..n] == written + [DigitChar(g, upper)];
      }
      q, k := q * base + g, k - 1;
    }
  }

  // ---- Signed numbers -----------------------------------------------------------------------------

  /** A signed number read as an unsigned one of its width, and back. */
  function AsUnsigned(n: int, kind: Kind): int {
    if n < 0 then n + kind.Modulus() else n
  }

  function AsSigned(u: int, kind: Kind): int {
    if u >= kind.half then u - kind.Modulus() else u
  }

  /** Two's-complement negation in the type's width. */
  function Negated(n: int, kind: Kind): int
    requires kind.half > 0
  {
    AsSigned((kind.Modulus() - AsUnsigned(n, kind)) % kind.Modulus(), kind)
  }

  /** The negation of a negative number, read as unsigned, is its magnitude; the lowest number, whose
      negation is itself, is no exception. */
  lemma {:induction false} NegatedIsMagnitude(n: int, kind: Kind)
    requires kind.signed && kind.Min() <= n < 0
    ensures AsUnsigned(Negated(n, kind), kind) == -n
    ensures n == kind.Min() ==> Negated(n, kind) == n
  {
    SplitIs(-n, kind.Modulus(), 0, -n);
  }

  /** lli2a, li2a and i2a: the sign to put in front, and the digits in the buffer. */
  method PrintSigned(num: int, kind: Kind, base: nat, upper: bool, bf: array<char>) returns (sign: string, n: nat)
    requires kind.signed && 0 < kind.half <= 0x8000_0000_0000_0000 && kind.Min() <= num <= kind.Max()
    requires 8 <= base <= 16 && bf.Length >= 23
    modifies bf
    ensures n < 23 && sign + bf[..n] == SignedText(num, base, upper) && bf[n] == '\0'
  {
    var m := num;
    sign := "";
    if num < 0 {
      NegatedIsMagnitude(num, kind);
      m := Negated(num, kind);
      sign := "-";
    }
    n := PrintUnsigned(AsUnsigned(m, kind), base, upper, bf);
  }
}
