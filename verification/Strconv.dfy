/**
  The text conversions the controllers rely on: decimal printing and parsing,
  booleans and hexadecimal (section 8 of RFC 4648).
 */
module Strconv {
  import opened Common

  const MAX_UINT64: nat := 0xFFFF_FFFF_FFFF_FFFF
  const MAX_INT64: nat := 0x7FFF_FFFF_FFFF_FFFF

  predicate IsDigit(c: char) {
    '0' <= c <= '9'
  }

  function DigitValue(c: char): nat
    requires IsDigit(c)
  {
    c as int - '0' as int
  }

  function DigitChar(d: nat): (c: char)
    requires d < 10
    ensures IsDigit(c) && DigitValue(c) == d
  {
    ('0' as int + d) as char
  }

  /** The canonical decimal text of a number. */
  function Decimal(n: nat): (s: string)
    ensures s != "" && forall c | c in s :: IsDigit(c)
  {
    if n < 10 then [DigitChar(n)] else Decimal(n / 10) + [DigitChar(n % 10)]
  }

  function Itoa(i: int): string {
    if i < 0 then "-" + Decimal(-i) else Decimal(i)
  }

  datatype UintResult = Parsed(value: nat) | SyntaxError | RangeError {
    /** The number returned beside the error: zero for bad syntax, the largest one when out of range. */
    function Number(): nat {
      match this
      case Parsed(n) => n
      case SyntaxError => 0
      case RangeError => MAX_UINT64
    }
  }

  /** Reads digits left to right and gives up at the first bad digit or overflow, whichever is first. */
  function Scan(s: string, acc: nat): UintResult {
    if s == "" then Parsed(acc)
    else if !IsDigit(s[0]) then SyntaxError
    else
      var next := acc * 10 + DigitValue(s[0]);
      if next > MAX_UINT64 then RangeError else Scan(s[1..], next)
  }

  /** strconv.ParseUint(s, 10, 64) */
  function ParseUint(s: string): UintResult {
    if s == "" then SyntaxError else Scan(s, 0)
  }

  /** strconv.Atoi, with every error folded into None */
  function Atoi(s: string): Option<int> {
    var negative := s != "" && s[0] == '-';
    var digits := if s != "" && (s[0] == '-' || s[0] == '+') then s[1..] else s;
    match ParseUint(digits)
    case Parsed(n) =>
      var magnitude: int := n;
      var i := if negative then -magnitude else magnitude;
      if -(MAX_INT64 + 1) <= i <= MAX_INT64 then Some(i) else None
    case _ => None
  }

  /** strconv.ParseBool */
  function ParseBool(s: string): Option<bool> {
    if s in {"1", "t", "T", "TRUE", "true", "True"} then Some(true)
    else if s in {"0", "f", "F", "FALSE", "false", "False"} then Some(false)
    else None
  }

  /** Conversion to a 32-bit integer wraps around. */
  function Int32(i: int): (r: int)
    ensures -0x8000_0000 <= r < 0x8000_0000
    ensures -0x8000_0000 <= i < 0x8000_0000 ==> r == i
  {
    (i + 0x8000_0000) % 0x1_0000_0000 - 0x8000_0000
  }

  lemma {:induction false} ScanSnoc(s: string, c: char, acc: nat)
    requires IsDigit(c)
    ensures Scan(s, acc).RangeError? ==> Scan(s + [c], acc).RangeError?
    ensures Scan(s, acc).Parsed? ==>
              var n := Scan(s, acc).value * 10 + DigitValue(c);
              Scan(s + [c], acc) == if n > MAX_UINT64 then RangeError else Parsed(n)
  {
    if s == "" {
      assert (s + [c])[1..] == "";
    } else {
      assert (s + [c])[1..] == s[1..] + [c];
      var next := acc * 10 + if IsDigit(s[0]) then DigitValue(s[0]) else 0;
      ScanSnoc(s[1..], c, next);
    }
  }

  lemma {:induction false} ScanDecimal(n: nat)
    ensures Scan(Decimal(n), 0) == if n <= MAX_UINT64 then Parsed(n) else RangeError
  {
    if n < 10 {
      assert Decimal(n)[1..] == "";
    } else {
      ScanDecimal(n / 10);
      ScanSnoc(Decimal(n / 10), DigitChar(n % 10), 0);
    }
  }

  /** Parsing undoes printing; printing a number beyond 64 bits parses as out of range. */
  lemma ParseUintOfDecimal(n: nat)
    ensures ParseUint(Decimal(n)) == if n <= MAX_UINT64 then Parsed(n) else RangeError
  {
    ScanDecimal(n);
  }

  lemma {:induction false} ScanBound(s: string, acc: nat)
    requires acc <= MAX_UINT64
    ensures Scan(s, acc).Parsed? ==> Scan(s, acc).value <= MAX_UINT64
  {
    if s != "" && IsDigit(s[0]) {
      var next := acc * 10 + DigitValue(s[0]);
      if next <= MAX_UINT64 {
        ScanBound(s[1..], next);
      }
    }
  }

  lemma ParseUintBound(s: string)
    ensures ParseUint(s).Number() <= MAX_UINT64
  {
    ScanBound(s, 0);
  }

  lemma AtoiOfItoa(i: int)
    requires -(MAX_INT64 + 1) <= i <= MAX_INT64
    ensures Atoi(Itoa(i)) == Some(i)
  {
    if i < 0 {
      ParseUintOfDecimal(-i);
      assert Itoa(i)[1..] == Decimal(-i);
    } else {
      ParseUintOfDecimal(i);
      assert Decimal(i)[0] in Decimal(i);
    }
  }

  /******* Hexadecimal *******/

  function HexChar(n: bv8): char
    requires n < 16
  {
    match n
    case 0 => '0' case 1 => '1' case 2 => '2' case 3 => '3'
    case 4 => '4' case 5 => '5' case 6 => '6' case 7 => '7'
    case 8 => '8' case 9 => '9' case 10 => 'a' case 11 => 'b'
    case 12 => 'c' case 13 => 'd' case 14 => 'e' case _ => 'f'
  }

  function HexValue(c: char): Option<bv8> {
    match c
    case '0' => Some(0) case '1' => Some(1) case '2' => Some(2) case '3' => Some(3)
    case '4' => Some(4) case '5' => Some(5) case '6' => Some(6) case '7' => Some(7)
    case '8' => Some(8) case '9' => Some(9)
    case 'a' => Some(10) case 'b' => Some(11) case 'c' => Some(12)
    case 'd' => Some(13) case 'e' => Some(14) case 'f' => Some(15)
    case 'A' => Some(10) case 'B' => Some(11) case 'C' => Some(12)
    case 'D' => Some(13) case 'E' => Some(14) case 'F' => Some(15)
    case _ => None
  }

  /** hex.EncodeToString */
  function HexEncode(bytes: seq<bv8>): string {
    if bytes == [] then ""
    else [HexChar(bytes[0] >> 4), HexChar(bytes[0] & 15)] + HexEncode(bytes[1..])
  }

  /** hex.DecodeString: odd lengths and foreign characters are errors */
  function HexDecode(s: string): Option<seq<bv8>> {
    if s == "" then Some([])
    else if |s| == 1 then None
    else
      match (HexValue(s[0]), HexValue(s[1]), HexDecode(s[2..]))
      case (Some(hi), Some(lo), Some(rest)) => Some([(hi << 4) | lo] + rest)
      case _ => None
  }

  lemma HexDigitRoundTrip(n: bv8)
    requires n < 16
    ensures HexValue(HexChar(n)) == Some(n)
  {
  }

  lemma NibblesRejoin(b: bv8)
    ensures b >> 4 < 16 && b & 15 < 16
    ensures ((b >> 4) << 4) | (b & 15) == b
  {
  }

  lemma {:induction false} HexRoundTrip(bytes: seq<bv8>)
    ensures HexDecode(HexEncode(bytes)) == Some(bytes)
  {
    if bytes != [] {
      HexRoundTrip(bytes[1..]);
      var b := bytes[0];
      NibblesRejoin(b);
      HexDigitRoundTrip(b >> 4);
      HexDigitRoundTrip(b & 15);
      assert HexEncode(bytes)[2..] == HexEncode(bytes[1..]);
      assert bytes == [b] + bytes[1..];
    }
  }
}
