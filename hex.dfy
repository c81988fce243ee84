/** Hexadecimal digits as the tile compiler prints them and the ROM converter reads them. */
module Hex {
  import opened Common

  /** The digit printf's "%x" prints for d: 0-9, then lower-case a-f. */
  function DigitChar(d: int): (c: char)
    requires 0 <= d < 16
    ensures '0' <= c <= '9' || 'a' <= c <= 'f'
  {
    if d < 10 then ('0' as int + d) as char else ('a' as int + d - 10) as char
  }

  /** read_hex_digit's classification: 0-9, a-f and A-F have a value, every other character none. */
  function DigitValue(c: char): (v: Option<int>)
    ensures v.Some? ==> 0 <= v.value < 16
    ensures v.Some? <==> ('0' <= c <= '9' || 'a' <= c <= 'f' || 'A' <= c <= 'F')
  {
    if '0' <= c <= '9' then Some(c as int - '0' as int)
    else if 'a' <= c <= 'f' then Some(c as int - 'a' as int + 10)
    else if 'A' <= c <= 'F' then Some(c as int - 'A' as int + 10)
    else None
  }

  /** Reading back a printed digit gives the digit. */
  lemma DigitRoundTrip(d: int)
    requires 0 <= d < 16
    ensures DigitValue(DigitChar(d)) == Some(d)
  {
  }

  /** The upper-case form of a letter digit has the same value. */
  lemma UpperCaseDigit(d: int)
    requires 10 <= d < 16
    ensures DigitValue(('A' as int + d - 10) as char) == Some(d)
  {
  }

  /** "%02x": two lower-case digits, high nibble first. */
  function Byte2(v: int): (s: string)
    requires 0 <= v < 256
    ensures |s| == 2
  {
    [DigitChar(v / 16), DigitChar(v % 16)]
  }

  /** The value of two hex digits, high first. */
  function Byte2Value(s: string): (v: Option<int>)
    requires |s| == 2
    ensures v.Some? ==> 0 <= v.value < 256
  {
    match (DigitValue(s[0]), DigitValue(s[1]))
    case (Some(hi), Some(lo)) => Some(hi * 16 + lo)
    case _ => None
  }

  lemma Byte2RoundTrip(v: int)
    requires 0 <= v < 256
    ensures Byte2Value(Byte2(v)) == Some(v)
  {
    DigitRoundTrip(v / 16);
    DigitRoundTrip(v % 16);
  }
}
