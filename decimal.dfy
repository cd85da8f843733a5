/**
 * The parts of Go's `strconv` and `fmt` that the core relies on for base-10
 * integers: formatting with `%d` and `strconv.ParseInt(s, 10, bitSize)`
 * (which `strconv.Atoi` equals on a 64-bit platform).
 */
module Decimal {
  import opened Wrappers

  const MinInt32: int := -0x8000_0000
  const MaxInt32: int := 0x7fff_ffff
  const MinInt64: int := -0x8000_0000_0000_0000
  const MaxInt64: int := 0x7fff_ffff_ffff_ffff

  /** Go's `int32`. */
  type Int32 = x: int | MinInt32 <= x <= MaxInt32
  /** Go's `int64`, and `int` on a 64-bit platform. */
  type Int64 = x: int | MinInt64 <= x <= MaxInt64

  /** The two widths the core parses at. */
  datatype BitSize = Bits32 | Bits64

  predicate InRange(v: int, bits: BitSize)
  {
    match bits
    case Bits32 => MinInt32 <= v <= MaxInt32
    case Bits64 => MinInt64 <= v <= MaxInt64
  }

  predicate IsDigit(c: char)
  {
    '0' <= c <= '9'
  }

  predicate AllDigits(s: string)
  {
    forall i :: 0 <= i < |s| ==> IsDigit(s[i])
  }

  function DigitChar(d: nat): (c: char)
    requires d < 10
    ensures IsDigit(c)
  {
    ('0' as int + d) as char
  }

  function DigitValue(c: char): (d: nat)
    requires IsDigit(c)
    ensures d < 10
  {
    c as int - '0' as int
  }

  /** The decimal digits of `n`, most significant first, with no leading zero. */
  function DigitsOf(n: nat): (s: string)
    ensures |s| >= 1 && AllDigits(s)
    ensures s[0] == '0' ==> n == 0 && |s| == 1
    decreases n
  {
    if n < 10 then [DigitChar(n)] else DigitsOf(n / 10) + [DigitChar(n % 10)]
  }

  /** The number a run of decimal digits denotes. */
  function DigitsValue(s: string): nat
    requires AllDigits(s)
  {
    if s == [] then 0 else DigitsValue(s[..|s| - 1]) * 10 + DigitValue(s[|s| - 1])
  }

  /** `fmt.Sprintf("%d", v)`: a minus sign for negative values, then the digits. */
  function FormatInt(v: int): (s: string)
    ensures |s| >= 1 && (s[0] == '-' <==> v < 0)
    ensures v < 0 ==> |s| >= 2 && AllDigits(s[1..]) && DigitsValue(s[1..]) == -v && s[1] != '0'
    ensures v >= 0 ==> AllDigits(s) && DigitsValue(s) == v && (s[0] == '0' ==> s == "0")
  {
    if v < 0 then
      DigitsRoundTrip(-v);
      var s := "-" + DigitsOf(-v);
      assert s[1..] == DigitsOf(-v);
      s
    else
      DigitsRoundTrip(v);
      DigitsOf(v)
  }

  /** `strconv.ParseInt(s, 10, bitSize)`: an optional `+` or `-`, then at least one
      decimal digit, denoting a value within the signed range of the width.
      Go distinguishes a syntax error from a range error; every caller in the
      core treats both alike, so both are `None` here. */
  function ParseInt(s: string, bits: BitSize): (r: Option<int>)
    ensures r.Some? ==> InRange(r.value, bits)
    ensures r.Some? ==>
      && |s| >= 1
      && (if s[0] == '+' || s[0] == '-' then
            |s| >= 2 && AllDigits(s[1..]) && r.value == (if s[0] == '-' then -1 else 1) * DigitsValue(s[1..])
          else
            AllDigits(s) && r.value == DigitsValue(s))
  {
    if s == [] then None
    else
      var signed := s[0] == '+' || s[0] == '-';
      var digits := if signed then s[1..] else s;
      if digits == [] || !AllDigits(digits) then None
      else
        var v: int := if s[0] == '-' then -(DigitsValue(digits) as int) else DigitsValue(digits);
        if InRange(v, bits) then Some(v) else None
  }

  /** Reading back the digits of `n` gives `n`. */
  lemma {:induction false} DigitsRoundTrip(n: nat)
    ensures DigitsValue(DigitsOf(n)) == n
    decreases n
  {
    var s := DigitsOf(n);
    if n < 10 {
      assert s[..|s| - 1] == [];
    } else {
      assert s[..|s| - 1] == DigitsOf(n / 10);
      DigitsRoundTrip(n / 10);
      assert DigitValue(DigitChar(n % 10)) == n % 10;
    }
  }

  /** Every optional sign followed by at least one digit parses to the value it
      denotes when that value fits the width, and fails otherwise; leading zeros
      and a `+` sign are accepted. */
  lemma ParseIntOfNumeral(sign: string, digits: string, bits: BitSize)
    requires sign == "" || sign == "+" || sign == "-"
    requires |digits| >= 1 && AllDigits(digits)
    ensures var v := (if sign == "-" then -1 else 1) * DigitsValue(digits);
      ParseInt(sign + digits, bits) == if InRange(v, bits) then Some(v) else None
  {
    var s := sign + digits;
    if sign == "" {
      assert s == digits;
      assert IsDigit(s[0]);
    } else {
      assert s[0] == sign[0] && s[1..] == digits;
    }
  }

  /** Formatted integers contain only a leading minus sign and digits. */
  lemma FormatIntChars(v: int)
    ensures forall c :: c in FormatInt(v) ==> c == '-' || IsDigit(c)
  {
    var d := DigitsOf(if v < 0 then -v else v);
    assert forall c :: c in d ==> IsDigit(c);
  }

  /** Parsing what `%d` printed gives the value back, for every value of the width. */
  lemma ParseFormatRoundTrip(v: int, bits: BitSize)
    requires InRange(v, bits)
    ensures ParseInt(FormatInt(v), bits) == Some(v)
  {
    var s := FormatInt(v);
    if v < 0 {
      DigitsRoundTrip(-v);
      assert s[0] == '-' && s[1..] == DigitsOf(-v);
    } else {
      DigitsRoundTrip(v);
      assert IsDigit(s[0]);
    }
  }
}
