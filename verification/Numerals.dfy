/** Numbers written in a base between 2 and 36. */
module Numerals {
  import opened Arithmetic
  import opened Options

  /** The integer type of an instance: `half` is 2^(width-1). */
  datatype Kind = Kind(signed: bool, half: nat) {
    function Modulus(): nat { 2 * half }
    function Max(): int { if signed then half - 1 else 2 * half - 1 }
    function Min(): int { if signed then 0 - half else 0 }
  }

  /** What a character counts as, if it is a digit of some base. */
  function DigitValue(c: char): Option<nat> {
    if '0' <= c <= '9' then Some((c - '0') as nat)
    else if 'a' <= c <= 'z' then Some(10 + (c - 'a') as nat)
    else if 'A' <= c <= 'Z' then Some(10 + (c - 'A') as nat)
    else None
  }

  predicate IsDigit(c: char, base: nat) {
    DigitValue(c).Some? && DigitValue(c).value < base
  }

  function ValueOf(c: char): nat {
    if DigitValue(c).Some? then DigitValue(c).value else 0
  }

  /** The number a string of digits stands for. */
  function Value(text: string, base: nat): nat {
    if text == "" then 0 else Value(text[..|text| - 1], base) * base + ValueOf(text[|text| - 1])
  }

  /** The character for a digit below 36. */
  function DigitChar(d: nat, upper: bool): char
    requires d < 36
  {
    if d < 10 then '0' + d as char else if upper then 'A' + (d - 10) as char else 'a' + (d - 10) as char
  }

  /** The shortest way to write `n`. */
  function Text(n: nat, base: nat, upper: bool): string
    requires 2 <= base <= 36
  {
    if n < base then [DigitChar(n, upper)]
    else
      QuotientFacts(n, base);
      Text(n / base, base, upper) + [DigitChar(n % base, upper)]
  }

  lemma {:induction false} DigitCharIs(d: nat, upper: bool)
    requires d < 36
    ensures DigitValue(DigitChar(d, upper)) == Some(d)
  {
  }

  ghost predicate AllDigits(text: string, base: nat) {
    forall i | 0 <= i < |text| :: IsDigit(text[i], base)
  }

  lemma {:induction false} ValueSnoc(head: string, c: char, base: nat)
    ensures Value(head + [c], base) == Value(head, base) * base + ValueOf(c)
  {
    assert (head + [c])[..|head|] == head;
  }

  lemma {:induction false} TextSplits(n: nat, base: nat, upper: bool) returns (q: nat, r: nat)
    requires 2 <= base <= 36 && n >= base
    ensures 0 < q < n && r < base && n == q * base + r
    ensures Text(n, base, upper) == Text(q, base, upper) + [DigitChar(r, upper)]
  {
    QuotientFacts(n, base);
    q, r := n / base, n % base;
  }

  lemma {:induction false} QuotientFacts(n: nat, base: nat)
    requires 2 <= base <= n
    ensures n == n / base * base + n % base && 0 < n / base < n && 0 <= n % base < base
  {
    Split(n, base);
    var q := n / base;
    MulMonotone(2, base, q);
  }

  lemma {:induction false} TextIsDigits(n: nat, base: nat, upper: bool)
    requires 2 <= base <= 36
    ensures Text(n, base, upper) != "" && AllDigits(Text(n, base, upper), base)
  {
    if n < base {
      DigitCharIs(n, upper);
    } else {
      var q, r := TextSplits(n, base, upper);
      TextIsDigits(q, base, upper);
      DigitCharIs(r, upper);
    }
  }

  /** Writing a number and reading it back gives the number. */
  lemma {:induction false} ValueOfText(n: nat, base: nat, upper: bool)
    requires 2 <= base <= 36
    ensures Value(Text(n, base, upper), base) == n
  {
    if n < base {
      DigitCharIs(n, upper);
      assert Text(n, base, upper) == "" + [DigitChar(n, upper)];
      ValueSnoc("", DigitChar(n, upper), base);
    } else {
      var q, r := TextSplits(n, base, upper);
      ValueOfText(q, base, upper);
      DigitCharIs(r, upper);
      ValueSnoc(Text(q, base, upper), DigitChar(r, upper), base);
    }
  }

  function Power(base: nat, k: nat): nat {
    if k == 0 then 1 else base * Power(base, k - 1)
  }

  /** What the printer writes for a signed number: the magnitude, with a sign in front. */
  function SignedText(n: int, base: nat, upper: bool): string
    requires 2 <= base <= 36
  {
    if n < 0 then "-" + Text(0 - n, base, upper) else Text(n, base, upper)
  }
}
