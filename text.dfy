/** Go strings and the decimal rendering that `fmt.Sprint` gives integers. */
module GoText {

  type Byte = bv8

  /** A Go `string` is an immutable byte sequence; `string(b)` and `[]byte(s)`
      keep the bytes as they are, so both are modelled as `Bytes`. */
  type Bytes = seq<Byte>

  const Zero: Byte := 0x30
  const Minus: Byte := 0x2D

  /** The bytes of an ASCII literal of the Go source. */
  function Ascii(s: string): (r: Bytes)
    requires forall i :: 0 <= i < |s| ==> s[i] < 128 as char
    ensures |r| == |s|
    ensures forall i :: 0 <= i < |s| ==> r[i] == s[i] as Byte
  {
    seq(|s|, i requires 0 <= i < |s| => s[i] as Byte)
  }

  predicate IsDigit(b: Byte) {
    Zero <= b <= 0x39
  }

  predicate AllDigits(s: Bytes) {
    forall i :: 0 <= i < |s| ==> IsDigit(s[i])
  }

  /** The shape `fmt.Sprint` gives a natural number: at least one digit, and a
      leading zero only in "0" itself. */
  predicate Canonical(s: Bytes) {
    |s| >= 1 && AllDigits(s) && (s[0] == Zero ==> |s| == 1)
  }

  /** The shape `fmt.Sprint` gives a signed integer: a canonical magnitude,
      preceded by a minus sign only when the magnitude is not zero. */
  predicate CanonicalSigned(s: Bytes) {
    |s| >= 1 && if s[0] == Minus then Canonical(s[1..]) && s[1] != Zero else Canonical(s)
  }

  function DigitByte(d: nat): (b: Byte)
    requires d < 10
    ensures IsDigit(b) && (b - Zero) as nat == d
  {
    (48 + d) as Byte
  }

  /** Every digit byte is the rendering of its own value. */
  lemma DigitOf(b: Byte)
    requires IsDigit(b)
    ensures DigitByte((b - Zero) as nat) == b
  {
  }

  /** `fmt.Sprint` of an unsigned integer: its decimal digits, most significant
      first, without leading zeros. */
  function NatToDecimal(n: nat): (r: Bytes)
    ensures Canonical(r)
    ensures r[0] == Zero ==> n == 0
    decreases n
  {
    if n < 10 then [DigitByte(n)] else NatToDecimal(n / 10) + [DigitByte(n % 10)]
  }

  /** `fmt.Sprint` of a signed integer: a minus sign before the digits of its
      magnitude when it is negative. */
  function IntToDecimal(i: int): (r: Bytes)
    ensures CanonicalSigned(r)
    ensures (r[0] == Minus) <==> i < 0
    ensures SignedDecimal(r) && SignedDecimalValue(r) == i
  {
    if i < 0 then
      DecimalRoundTrip(-i);
      [Minus] + NatToDecimal(-i)
    else
      DecimalRoundTrip(i);
      NatToDecimal(i)
  }

  /** The number a string of decimal digits denotes. */
  function DecimalValue(s: Bytes): nat
    requires AllDigits(s)
  {
    if s == [] then 0 else DecimalValue(s[..|s| - 1]) * 10 + (s[|s| - 1] - Zero) as nat
  }

  predicate SignedDecimal(s: Bytes) {
    if |s| > 0 && s[0] == Minus then AllDigits(s[1..]) else AllDigits(s)
  }

  /** The number an optionally signed decimal string denotes. */
  function SignedDecimalValue(s: Bytes): int
    requires SignedDecimal(s)
  {
    if |s| > 0 && s[0] == Minus then -(DecimalValue(s[1..]) as int) else DecimalValue(s)
  }

  /** Reading back the decimal rendering of `n` gives `n`. */
  lemma {:induction false} DecimalRoundTrip(n: nat)
    ensures DecimalValue(NatToDecimal(n)) == n
    decreases n
  {
    if n >= 10 {
      var prefix := NatToDecimal(n / 10);
      var r := NatToDecimal(n);
      assert r == prefix + [DigitByte(n % 10)];
      assert r[..|r| - 1] == prefix;
      DecimalRoundTrip(n / 10);
    }
  }

  /** Distinct numbers render as distinct strings. */
  lemma DecimalInjective(m: nat, n: nat)
    requires NatToDecimal(m) == NatToDecimal(n)
    ensures m == n
  {
    DecimalRoundTrip(m);
    DecimalRoundTrip(n);
  }

  /** A digit string that does not start with `0` denotes a positive number. */
  lemma {:induction false} LeadingDigitPositive(s: Bytes)
    requires |s| >= 1 && AllDigits(s) && s[0] != Zero
    ensures DecimalValue(s) > 0
    decreases |s|
  {
    if |s| > 1 {
      var p := s[..|s| - 1];
      assert p[0] == s[0];
      LeadingDigitPositive(p);
    }
  }

  /** The canonical rendering is the only one: a canonical digit string that
      reads back as `n` is `fmt.Sprint(n)`. */
  lemma {:induction false} CanonicalUnique(s: Bytes, n: nat)
    requires Canonical(s) && DecimalValue(s) == n
    ensures s == NatToDecimal(n)
    decreases |s|
  {
    var last := s[|s| - 1];
    DigitOf(last);
    if |s| == 1 {
      assert s == [last];
    } else {
      var p := s[..|s| - 1];
      assert p[0] == s[0];
      LeadingDigitPositive(p);
      assert n / 10 == DecimalValue(p) && n % 10 == (last - Zero) as nat;
      CanonicalUnique(p, n / 10);
      assert s == p + [last];
    }
  }

  /** The same for signed integers: a canonical signed string that reads back
      as `i` is `fmt.Sprint(i)`. */
  lemma SignedCanonicalUnique(s: Bytes, i: int)
    requires CanonicalSigned(s) && SignedDecimal(s) && SignedDecimalValue(s) == i
    ensures s == IntToDecimal(i)
  {
    if s[0] == Minus {
      var mag := s[1..];
      assert mag[0] == s[1];
      LeadingDigitPositive(mag);
      CanonicalUnique(mag, -i);
      assert s == [Minus] + mag;
    } else {
      CanonicalUnique(s, i);
    }
  }
}
