/** Bytes, ASCII text and base-10 integers: what fmt's %d prints and strconv.ParseInt reads. */
module Text {
  import opened Wrappers

  type byte = b: int | 0 <= b < 256

  predicate IsAscii(s: string) {
    forall i :: 0 <= i < |s| ==> s[i] as int < 128
  }

  /** The bytes of an ASCII string. */
  function Bytes(s: string): (r: seq<byte>)
    requires IsAscii(s)
    ensures |r| == |s|
    ensures forall i :: 0 <= i < |s| ==> r[i] == s[i] as int
  {
    seq(|s|, i requires 0 <= i < |s| => s[i] as int)
  }

  /** Bytes read back as characters, one character per byte. */
  function Chars(b: seq<byte>): (r: string)
    ensures |r| == |b|
    ensures forall i :: 0 <= i < |b| ==> r[i] as int == b[i]
  {
    seq(|b|, i requires 0 <= i < |b| => b[i] as char)
  }

  lemma {:induction false} CharsOfBytes(s: string)
    requires IsAscii(s)
    ensures Chars(Bytes(s)) == s
  {
    var c := Chars(Bytes(s));
    assert |c| == |s|;
    forall i | 0 <= i < |s| ensures c[i] == s[i] {
      assert c[i] as int == s[i] as int;
    }
  }

  /** unicode.IsDigit, on the ASCII range. */
  predicate IsDigit(c: char) {
    '0' <= c <= '9'
  }

  /** unicode.IsLetter, on the ASCII range. */
  predicate IsLetter(c: char) {
    'a' <= c <= 'z' || 'A' <= c <= 'Z'
  }

  function DigitChar(d: int): (c: char)
    requires 0 <= d < 10
    ensures IsDigit(c) && c as int - '0' as int == d
  {
    ('0' as int + d) as char
  }

  /** The decimal spelling of a natural number, without leading zeros. */
  function NatString(n: nat): (s: string)
    decreases n
  {
    if n < 10 then [DigitChar(n)] else NatString(n / 10) + [DigitChar(n % 10)]
  }

  /** What fmt prints for %d: a minus sign for negative values, then the digits. */
  function IntString(n: int): string {
    if n < 0 then "-" + NatString(-n) else NatString(n)
  }

  predicate AllDigits(s: string) {
    forall i :: 0 <= i < |s| ==> IsDigit(s[i])
  }

  /** The value of a string of decimal digits. */
  function DigitsValue(s: string): nat
    requires AllDigits(s)
  {
    if s == [] then 0
    else DigitsValue(s[..|s| - 1]) * 10 + (s[|s| - 1] as int - '0' as int)
  }

  /** Base-10 integer text: one or more digits, or a sign followed by one or more digits. */
  predicate DecimalSyntax(s: string) {
    (s != [] && AllDigits(s)) || (|s| > 1 && (s[0] == '+' || s[0] == '-') && AllDigits(s[1..]))
  }

  /** The value such a text denotes. */
  function DecimalValue(s: string): int
    requires DecimalSyntax(s)
  {
    if s[0] == '-' then 0 - DigitsValue(s[1..]) as int
    else if s[0] == '+' then DigitsValue(s[1..])
    else DigitsValue(s)
  }

  const MinInt64: int := -0x8000_0000_0000_0000
  const MaxInt64: int := 0x7fff_ffff_ffff_ffff

  /**
   * strconv.ParseInt(s, 10, 64): an optional sign, then at least one digit and nothing else,
   * and a value that fits in 64 bits; anything else is an error.
   */
  function ParseInt64(s: string): (r: Option<int>)
    ensures s == [] ==> r == None
    ensures r.Some? <==> DecimalSyntax(s) && MinInt64 <= DecimalValue(s) <= MaxInt64
    ensures r.Some? ==> r.value == DecimalValue(s)
  {
    if s == [] then None
    else
      var signed := s[0] == '+' || s[0] == '-';
      var digits := if signed then s[1..] else s;
      if digits == [] || !AllDigits(digits) then None
      else
        var v: int := if s[0] == '-' then 0 - DigitsValue(digits) as int else DigitsValue(digits);
        if MinInt64 <= v <= MaxInt64 then Some(v) else None
  }

  lemma {:induction false} NatStringDigits(n: nat)
    ensures NatString(n) != [] && AllDigits(NatString(n))
    ensures DigitsValue(NatString(n)) == n
    decreases n
  {
    if n >= 10 {
      NatStringDigits(n / 10);
      var s := NatString(n);
      assert s[..|s| - 1] == NatString(n / 10);
    }
  }

  /** Printing a 64-bit non-negative value with %d and parsing it back gives the value. */
  lemma NatStringRoundTrip(n: nat)
    requires n <= MaxInt64
    ensures IsAscii(NatString(n))
    ensures ParseInt64(NatString(n)) == Some(n)
  {
    NatStringDigits(n);
    var s := NatString(n);
    assert !IsDigit('+') && !IsDigit('-');
    assert IsDigit(s[0]);
  }

  /** Printing any 64-bit value with %d and parsing it back gives the value. */
  lemma IntStringRoundTrip(v: int)
    requires MinInt64 <= v <= MaxInt64
    ensures ParseInt64(IntString(v)) == Some(v)
  {
    if v < 0 {
      NatStringDigits(-v);
      var s := IntString(v);
      assert s[1..] == NatString(-v);
    } else {
      NatStringRoundTrip(v);
    }
  }
}
