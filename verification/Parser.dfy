/** The strtol/strtoul template of the firmware's C library. */
module Parser {
  import opened Arithmetic
  import opened Numerals
  import opened Options

  // ---- The parts of the text -------------------------------------------------------------------

  predicate IsSpace(c: char) {
    c == ' ' || '\t' <= c <= '\r'
  }

  function SkipSpaces(text: string, i: nat): (j: nat)
    requires i <= |text|
    ensures i <= j <= |text| && (forall k | i <= k < j :: IsSpace(text[k])) && (j < |text| ==> !IsSpace(text[j]))
    decreases |text| - i
  {
    if i < |text| && IsSpace(text[i]) then SkipSpaces(text, i + 1) else i
  }

  predicate At(text: string, i: nat, c: char) {
    i < |text| && text[i] == c
  }

  predicate HexPrefix(text: string, i: nat) {
    At(text, i, '0') && (At(text, i + 1, 'x') || At(text, i + 1, 'X'))
  }

  function SkipDigits(text: string, i: nat, base: nat): (j: nat)
    requires i <= |text|
    ensures i <= j <= |text| && (forall k | i <= k < j :: IsDigit(text[k], base))
    ensures j < |text| ==> !IsDigit(text[j], base)
    decreases |text| - i
  {
    if i < |text| && IsDigit(text[i], base) then SkipDigits(text, i + 1, base) else i
  }

  predicate ValidBase(base: int) {
    base == 0 || 2 <= base <= 36
  }

  /** Where the parts of a subject sequence lie. */
  datatype Layout = Layout(negative: bool, base: nat, prefixed: bool, digits: nat, end: nat)

  predicate IsNegative(text: string) {
    At(text, SkipSpaces(text, 0), '-')
  }

  /** Where the text goes on after spaces and sign. */
  function AfterSign(text: string): (j: nat)
    ensures j <= |text|
  {
    var i := SkipSpaces(text, 0);
    if At(text, i, '+') || At(text, i, '-') then i + 1 else i
  }

  /** The text from `j` on begins with a hexadecimal prefix that counts as one. */
  predicate Prefixed(text: string, j: nat, base: nat) {
    (base == 0 || base == 16) && HexPrefix(text, j)
  }

  function BaseOf(text: string, j: nat, base: nat): nat {
    if Prefixed(text, j, base) then 16 else if base != 0 then base else if At(text, j, '0') then 8 else 10
  }

  function LayoutOf(text: string, base: nat): (l: Layout)
    ensures l.digits <= l.end <= |text|
  {
    var j := AfterSign(text);
    var d := if Prefixed(text, j, base) then j + 2 else j;
    var b := BaseOf(text, j, base);
    Layout(IsNegative(text), b, Prefixed(text, j, base), d, SkipDigits(text, d, b))
  }

  // ---- The meaning -------------------------------------------------------------------------------

  function Clamp(v: int, kind: Kind): int {
    if v > kind.Max() then kind.Max() else if v < kind.Min() then kind.Min() else v
  }

  /** The value of the digits with its sign: the signed forms clamp it, and the unsigned forms saturate
      the magnitude and negate it modulo 2^width. */
  function Meaning(v: nat, negative: bool, kind: Kind): int
    requires kind.half > 0
  {
    if kind.signed then Clamp(if negative then 0 - v else v, kind)
    else if v > kind.Max() then kind.Max()
    else if negative then (kind.Modulus() - v) % kind.Modulus()
    else v
  }

  /** How many characters are used: none without a digit, except the zero before an "x" no digit follows. */
  function Used(l: Layout): nat {
    if l.end > l.digits then l.end else if l.prefixed && l.digits > 0 then l.digits - 1 else 0
  }

  /** Value and end pointer for a text and a base; no end pointer is stored for an invalid base. */
  function Parse(text: string, base: int, kind: Kind): (int, Option<nat>)
    requires kind.half > 0
  {
    if !ValidBase(base) then (0, None)
    else
      var l := LayoutOf(text, base);
      (Meaning(Value(text[l.digits..l.end], l.base), l.negative, kind), Some(Used(l)))
  }

  // ---- The code ------------------------------------------------------------------------------------

  /** One more digit stays within `limit` exactly when the test on quotient and remainder says so. */
  lemma {:induction false} OverflowTest(absval: nat, digit: nat, base: nat, limit: nat)
    requires digit < base
    ensures absval * base + digit <= limit <==>
              absval < limit / base || (absval == limit / base && digit <= limit % base)
  {
    Split(limit, base);
    var q := limit / base;
    if absval < q {
      MulLess(absval, q, base, digit);
    } else if absval > q {
      MulLess(q, absval, base, limit % base);
    }
  }

  lemma {:induction false} ValueGrows(v: nat, base: nat, digit: nat)
    requires base >= 2
    ensures v <= v * base + digit
  {
    MulMonotone(1, base, v);
  }

  /** One character compared with the highest digit, lower-case and upper-case letter of the base. */
  method ReadDigit(c: char, base: nat) returns (digit: Option<nat>)
    requires 2 <= base <= 36
    ensures digit == if IsDigit(c, base) then DigitValue(c) else None
  {
    var dtop, ltop, utop := '9', '\0', '\0';
    if base <= 10 {
      dtop := '0' + (base - 1) as char;
    } else {
      ltop, utop := 'a' + (base - 11) as char, 'A' + (base - 11) as char;
    }
    if '0' <= c <= dtop {
      return Some((c - '0') as nat);
    } else if 'a' <= c <= ltop {
      return Some(10 + (c - 'a') as nat);
    } else if 'A' <= c <= utop {
      return Some(10 + (c - 'A') as nat);
    }
    return None;
  }

  /** What one more digit does to the value read so far. */
  lemma {:induction false} OneMore(text: string, from: nat, s: nat, base: nat, limit: nat, absval: nat)
    requires from <= s < |text| && 2 <= base <= 36 && IsDigit(text[s], base)
    ensures var (v, v', digit) := (Value(text[from..s], base), Value(text[from..s + 1], base), ValueOf(text[s]));
            && (v > limit ==> v' > limit)
            && (absval == v ==>
                  && v' == absval * base + digit
                  && (v' <= limit <==> absval < limit / base || (absval == limit / base && digit <= limit % base)))
  {
    assert text[from..s + 1] == text[from..s] + [text[s]];
    ValueSnoc(text[from..s], text[s], base);
    ValueGrows(Value(text[from..s], base), base, ValueOf(text[s]));
    OverflowTest(absval, ValueOf(text[s]), base, limit);
  }

  /** The digit loop: the value saturated by a flag, and where the digits end. */
  method ReadDigits(text: string, from: nat, base: nat, limit: nat) returns (absval: nat, overflow: bool, s: nat)
    requires from <= |text| && 2 <= base <= 36
    ensures s == SkipDigits(text, from, base)
    ensures overflow <==> Value(text[from..s], base) > limit
    ensures absval <= limit && (!overflow ==> absval == Value(text[from..s], base))
  {
    var maxUnshifted, maxLast := limit / base, limit % base;
    absval, overflow, s := 0, false, from;
    while s < |text|
      invariant from <= s <= |text| && SkipDigits(text, s, base) == SkipDigits(text, from, base)
      invariant overflow <==> Value(text[from..s], base) > limit
      invariant absval <= limit && (!overflow ==> absval == Value(text[from..s], base))
    {
      var d := ReadDigit(text[s], base);
      if d.None? {
        break;
      }
      var digit := d.value;
      OneMore(text, from, s, base, limit, absval);
      s := s + 1;
      if !overflow {
        if absval > maxUnshifted || (absval == maxUnshifted && digit > maxLast) {
          overflow := true;
        } else {
          absval := absval * base + digit;
        }
      }
    }
  }

  method ReadSpaces(text: string) returns (s: nat)
    ensures s == SkipSpaces(text, 0)
  {
    s := 0;
    while s < |text| && IsSpace(text[s])
      invariant s <= |text| && SkipSpaces(text, s) == SkipSpaces(text, 0)
    {
      s := s + 1;
    }
  }

  /** Spaces, sign and prefix: everything before the digits. */
  method ReadPrefix(text: string, base: nat) returns (negative: bool, b: nat, prefixed: bool, s: nat)
    requires ValidBase(base)
    ensures 2 <= b <= 36 && s <= |text|
    ensures LayoutOf(text, base) == Layout(negative, b, prefixed, s, SkipDigits(text, s, b))
  {
    s := ReadSpaces(text);
    negative, prefixed, b := false, false, base;
    if s < |text| && text[s] == '+' {
      s := s + 1;
    } else if s < |text| && text[s] == '-' {
      negative := true;
      s := s + 1;
    }
    assert negative == IsNegative(text) && s == AfterSign(text);
    ghost var j := s;
    if (base == 0 || base == 16) && HexPrefix(text, s) {
      b, prefixed, s := 16, true, s + 2;
    } else if base == 0 && s < |text| && text[s] == '0' {
      b := 8;
    } else if base == 0 {
      b := 10;
    }
    assert prefixed == Prefixed(text, j, base) && b == BaseOf(text, j, base) && s == if prefixed then j + 2 else j;
  }

  /** The largest magnitude the type has for the sign. */
  function Limit(kind: Kind, negative: bool): nat
    requires kind.half > 0
  {
    if !kind.signed then kind.Modulus() - 1 else if negative then kind.half else kind.half - 1
  }

  /** What is returned: the saturated or negated magnitude, kept in an unsigned variable of the type's
      width, read as the returned type. */
  function Finish(absval: nat, overflow: bool, negative: bool, kind: Kind): int
    requires kind.half > 0 && absval <= Limit(kind, negative)
  {
    var u := if overflow then Limit(kind, negative)
             else if negative then (kind.Modulus() - absval) % kind.Modulus()
             else absval;
    if kind.signed && u >= kind.half then u - kind.Modulus() else u
  }

  lemma {:induction false} FinishIsMeaning(v: nat, absval: nat, overflow: bool, negative: bool, kind: Kind)
    requires kind.half > 0 && absval <= Limit(kind, negative)
    requires (overflow <==> v > Limit(kind, negative)) && (!overflow ==> absval == v)
    ensures Finish(absval, overflow, negative, kind) == Meaning(v, negative, kind)
  {
    if !overflow && negative {
      if v == 0 {
        assert kind.Modulus() % kind.Modulus() == 0;
      } else {
        SplitIs(kind.Modulus() - v, kind.Modulus(), 0, kind.Modulus() - v);
      }
    }
  }

  /** strtol, strtoll, strtoul and strtoull. */
  method StrTo(text: string, base: int, kind: Kind) returns (value: int, end: Option<nat>)
    requires kind.half > 0
    ensures (value, end) == Parse(text, base, kind)
  {
    if !(base == 0 || (2 <= base <= 36)) {
      return 0, None;
    }
    var negative, b, prefixed, s := ReadPrefix(text, base);
    var endc := if prefixed then s - 1 else 0;
    var absval, overflow, stop := ReadDigits(text, s, b, Limit(kind, negative));
    if stop > s {
      endc := stop;
    }
    FinishIsMeaning(Value(text[s..stop], b), absval, overflow, negative, kind);
    return Finish(absval, overflow, negative, kind), Some(endc);
  }

  // ---- What is written ----------------------------------------------------------------------------------

  predicate IsBlank(text: string) {
    forall i | 0 <= i < |text| :: text[i] in {' ', '\t', '\n', '\U{000B}', '\U{000C}', '\r'}
  }

  /** The digits stand in base `b` for a caller who asks for `base`: as asked; or, when nothing is asked,
      hexadecimal after "0x", octal after a zero, and decimal otherwise. */
  predicate Stands(prefix: string, digits: string, rest: string, base: nat, b: nat)
    requires digits != ""
  {
    if prefix == "" then
      && !((base == 0 || base == 16) && HexPrefix(digits + rest, 0))
      && (if base == 0 then b == if digits[0] == '0' then 8 else 10 else b == base)
    else (prefix == "0x" || prefix == "0X") && (base == 0 || base == 16) && b == 16
  }

  lemma {:induction false} SpacesEnd(text: string, n: nat)
    requires n < |text| && (forall k | 0 <= k < n :: IsSpace(text[k])) && !IsSpace(text[n])
    ensures SkipSpaces(text, 0) == n
  {
  }

  lemma {:induction false} DigitsEnd(text: string, i: nat, n: nat, base: nat)
    requires i <= n <= |text| && (forall k | i <= k < n :: IsDigit(text[k], base))
    requires n < |text| ==> !IsDigit(text[n], base)
    ensures SkipDigits(text, i, base) == n
  {
  }

  lemma {:induction false} DigitsAreRead(front: string, digits: string, rest: string, b: nat)
    requires AllDigits(digits, b) && (rest != "" ==> !IsDigit(rest[0], b))
    ensures var (text, d, n) := (front + digits + rest, |front|, |front| + |digits|);
            text[d..n] == digits && SkipDigits(text, d, b) == n
  {
    var text, d, n := front + digits + rest, |front|, |front| + |digits|;
    forall k | d <= k < n ensures IsDigit(text[k], b) {
      assert text[k] == digits[k - d];
    }
    DigitsEnd(text, d, n, b);
  }

  lemma {:induction false} LayoutIs(text: string, base: nat, l: Layout)
    requires IsNegative(text) == l.negative && BaseOf(text, AfterSign(text), base) == l.base
    requires Prefixed(text, AfterSign(text), base) == l.prefixed
    requires l.digits == AfterSign(text) + (if l.prefixed then 2 else 0) <= |text|
    requires SkipDigits(text, l.digits, l.base) == l.end
    ensures LayoutOf(text, base) == l
  {
  }

  lemma {:induction false} LayoutParses(text: string, base: nat, l: Layout, digits: string, kind: Kind)
    requires kind.half > 0 && ValidBase(base) && l.digits < l.end <= |text|
    requires LayoutOf(text, base) == l && text[l.digits..l.end] == digits
    ensures Parse(text, base, kind) == (Meaning(Value(digits, l.base), l.negative, kind), Some(l.end))
  {
  }

  /** Spaces and an optional sign are passed over. */
  lemma {:induction false} SignEnds(spaces: string, sign: string, body: string)
    requires IsBlank(spaces) && (sign == "" || sign == "+" || sign == "-")
    requires body != "" && DigitValue(body[0]).Some?
    ensures var text := spaces + sign + body;
            AfterSign(text) == |spaces + sign| && (IsNegative(text) <==> sign == "-")
  {
    var text, n := spaces + sign + body, |spaces|;
    forall k | 0 <= k < n ensures IsSpace(text[k]) {
      assert text[k] == spaces[k];
    }
    assert text[n] == (sign + body)[0];
    SpacesEnd(text, n);
  }

  /** What lies at the front of the body decides the base. */
  lemma {:induction false} BaseIs(front: string, prefix: string, digits: string, rest: string, base: nat, b: nat)
    requires digits != "" && Stands(prefix, digits, rest, base, b)
    ensures var (text, j) := (front + (prefix + digits + rest), |front|);
            && (Prefixed(text, j, base) <==> prefix != "") && BaseOf(text, j, base) == b
  {
    var text, j, body := front + (prefix + digits + rest), |front|, prefix + digits + rest;
    assert forall k | 0 <= k < |body| :: text[j + k] == body[k];
    assert HexPrefix(text, j) <==> HexPrefix(body, 0);
    if prefix == "" {
      assert body == digits + rest;
    } else {
      assert body[0] == prefix[0] && body[1] == prefix[1];
    }
  }

  lemma {:induction false} BodyBegins(prefix: string, digits: string, rest: string, base: nat, b: nat)
    requires digits != "" && AllDigits(digits, b) && Stands(prefix, digits, rest, base, b)
    ensures DigitValue((prefix + digits + rest)[0]).Some? && |prefix| == if prefix != "" then 2 else 0
  {
    assert IsDigit(digits[0], b);
    assert (prefix + digits + rest)[0] == (prefix + digits)[0];
  }

  lemma {:induction false} Regrouped(front: string, prefix: string, digits: string, rest: string)
    ensures front + (prefix + digits + rest) == (front + prefix) + digits + rest
  {
  }

  /** The parts of a number as it is written. */
  datatype Number = Number(spaces: string, sign: string, prefix: string, digits: string, rest: string) {
    function Text(): string {
      spaces + sign + (prefix + digits + rest)
    }

    /** For a caller who asks for `base`, its digits stand in base `b` and are followed by none. */
    ghost predicate Reads(base: nat, b: nat) {
      && IsBlank(spaces) && (sign == "" || sign == "+" || sign == "-") && digits != "" && AllDigits(digits, b)
      && (rest != "" ==> !IsDigit(rest[0], b)) && Stands(prefix, digits, rest, base, b)
    }
  }

  lemma {:induction false} FrontIsRead(text: string, m: Number, base: nat, b: nat)
    requires m.Reads(base, b) && text == m.Text()
    ensures AfterSign(text) == |m.spaces| + |m.sign| && IsNegative(text) == (m.sign == "-")
    ensures Prefixed(text, |m.spaces| + |m.sign|, base) == (m.prefix != "")
    ensures BaseOf(text, |m.spaces| + |m.sign|, base) == b
    ensures |m.prefix| == if m.prefix != "" then 2 else 0
  {
    BodyBegins(m.prefix, m.digits, m.rest, base, b);
    SignEnds(m.spaces, m.sign, m.prefix + m.digits + m.rest);
    BaseIs(m.spaces + m.sign, m.prefix, m.digits, m.rest, base, b);
  }

  lemma {:induction false} BodyIsRead(text: string, m: Number, base: nat, b: nat, d: nat)
    requires m.Reads(base, b) && text == m.Text() && d == |m.spaces| + |m.sign| + |m.prefix|
    ensures d + |m.digits| == |text| - |m.rest| && text[d..d + |m.digits|] == m.digits
    ensures SkipDigits(text, d, b) == d + |m.digits|
  {
    var front := m.spaces + m.sign;
    Regrouped(front, m.prefix, m.digits, m.rest);
    DigitsAreRead(front + m.prefix, m.digits, m.rest, b);
  }

  function NumberLayout(m: Number, b: nat): Layout {
    var d := |m.spaces| + |m.sign| + |m.prefix|;
    Layout(m.sign == "-", b, m.prefix != "", d, d + |m.digits|)
  }

  lemma {:induction false} NumberIsLaidOut(text: string, m: Number, base: nat, b: nat)
    requires m.Reads(base, b) && text == m.Text()
    ensures LayoutOf(text, base) == NumberLayout(m, b)
  {
    FrontIsRead(text, m, base, b);
    BodyIsRead(text, m, base, b, NumberLayout(m, b).digits);
    LayoutIs(text, base, NumberLayout(m, b));
  }

  /** A number is read as it is written: after any spaces and one sign, its digits up to the first character
      that is none, in the base asked for or the one its prefix says. */
  lemma {:induction false} ReadsAsWritten(text: string, m: Number, base: nat, b: nat, kind: Kind)
    requires ValidBase(base) && kind.half > 0 && m.Reads(base, b) && text == m.Text()
    ensures Parse(text, base, kind) == (Meaning(Value(m.digits, b), m.sign == "-", kind), Some(|text| - |m.rest|))
  {
    var l := NumberLayout(m, b);
    BodyIsRead(text, m, base, b, l.digits);
    assert LayoutOf(text, base) == l by {
      NumberIsLaidOut(text, m, base, b);
    }
    LayoutParses(text, base, l, m.digits, kind);
  }

  /** Text that has no digit where one must come stands for zero, and none of it is used. */
  lemma {:induction false} NothingIsRead(text: string, base: nat, kind: Kind)
    requires ValidBase(base) && kind.half > 0
    requires var (j, b) := (AfterSign(text), if base == 0 then 10 else base);
             j < |text| ==> text[j] != '0' && !IsDigit(text[j], b)
    ensures Parse(text, base, kind) == (0, Some(0))
  {
    var l := LayoutOf(text, base);
    assert text[l.digits..l.end] == "";
    if !kind.signed && l.negative {
      SplitIs(kind.Modulus(), kind.Modulus(), 1, 0);
    }
  }

  // ---- Printing and parsing ---------------------------------------------------------------------------

  lemma {:induction false} AllSkipped(text: string, i: nat, base: nat)
    requires i <= |text| && forall k | i <= k < |text| :: IsDigit(text[k], base)
    ensures SkipDigits(text, i, base) == |text|
  {
  }

  /** The layout of digits with an optional minus sign and nothing else. */
  lemma {:induction false} PlainLayout(text: string, base: nat, d: nat)
    requires (base == 8 || base == 10 || base == 16) && d <= 1 && d < |text| && (d == 1 ==> text[0] == '-')
    requires forall k | d <= k < |text| :: IsDigit(text[k], base)
    ensures LayoutOf(text, base) == Layout(d == 1, base, false, d, |text|)
  {
    assert IsDigit(text[d], base) && (d + 1 < |text| ==> IsDigit(text[d + 1], base));
    assert SkipSpaces(text, 0) == 0;
    AllSkipped(text, d, base);
  }

  lemma {:induction false} ParseDigits(sign: string, digits: string, base: nat, kind: Kind)
    requires (base == 8 || base == 10 || base == 16) && kind.half > 0 && (sign == "" || sign == "-")
    requires digits != "" && AllDigits(digits, base)
    ensures Parse(sign + digits, base, kind) == (Meaning(Value(digits, base), sign == "-", kind), Some(|sign + digits|))
  {
    var text, d := sign + digits, |sign|;
    forall k | d <= k < |text| ensures IsDigit(text[k], base) {
      assert text[k] == digits[k - d];
    }
    PlainLayout(text, base, d);
    assert text[d..|text|] == digits;
  }

  /** A written magnitude with an optional minus sign is read whole, as its meaning. */
  lemma {:induction false} ParsePlain(text: string, m: nat, base: nat, upper: bool, d: nat, kind: Kind)
    requires (base == 8 || base == 10 || base == 16) && kind.half > 0 && d <= 1
    requires text == (if d == 1 then "-" else "") + Text(m, base, upper)
    ensures Parse(text, base, kind) == (Meaning(m, d == 1, kind), Some(|text|))
  {
    TextIsDigits(m, base, upper);
    ParseDigits(if d == 1 then "-" else "", Text(m, base, upper), base, kind);
    ValueOfText(m, base, upper);
  }

  /** Every unsigned number that the printer writes in base 8, 10 or 16 is read back, and all of the text
      is used. */
  lemma {:induction false} UnsignedRoundTrip(n: nat, base: nat, upper: bool, kind: Kind)
    requires (base == 8 || base == 10 || base == 16) && !kind.signed && n < kind.Modulus()
    ensures Parse(Text(n, base, upper), base, kind) == (n, Some(|Text(n, base, upper)|))
  {
    ParsePlain(Text(n, base, upper), n, base, upper, 0, kind);
  }

  /** Signed numbers are read back too, the lowest of the type included. */
  lemma {:induction false} SignedRoundTrip(n: int, base: nat, upper: bool, kind: Kind)
    requires (base == 8 || base == 10 || base == 16) && kind.signed && kind.Min() <= n <= kind.Max()
    ensures Parse(SignedText(n, base, upper), base, kind) == (n, Some(|SignedText(n, base, upper)|))
  {
    if n < 0 {
      ParsePlain(SignedText(n, base, upper), 0 - n, base, upper, 1, kind);
    } else {
      ParsePlain(SignedText(n, base, upper), n, base, upper, 0, kind);
    }
  }
}
