/** Values shared by every component: an optional value (Java's null),
    decimal digit strings (the text form of Java ints that are never negative)
    and the UTF-16 code units a Java string is made of. */
module Base {

  datatype Option<+T> = None | Some(value: T)

  predicate IsDigit(c: char) { '0' <= c <= '9' }

  function DigitValue(c: char): (d: nat)
    requires IsDigit(c)
    ensures d < 10
  {
    (c as int) - ('0' as int)
  }

  function DigitChar(d: nat): (c: char)
    requires d < 10
    ensures IsDigit(c) && DigitValue(c) == d
  {
    (('0' as int) + d) as char
  }

  predicate AllDigits(s: string) { forall i :: 0 <= i < |s| ==> IsDigit(s[i]) }

  /** The value of a digit string, most significant digit first
      (Integer.valueOf, without its 32-bit range check). */
  function DecimalValue(s: string): nat
    requires AllDigits(s)
  {
    if s == [] then 0 else DecimalValue(s[..|s| - 1]) * 10 + DigitValue(s[|s| - 1])
  }

  /** The decimal text of a non-negative number, without leading zeros, as Java
      writes an int into a string. */
  function NatToString(n: nat): (s: string)
    ensures |s| >= 1 && AllDigits(s)
    ensures s[0] == '0' ==> n == 0
  {
    if n < 10 then [DigitChar(n)] else NatToString(n / 10) + [DigitChar(n % 10)]
  }

  /** Reading back the decimal text of a number gives the number. */
  lemma {:induction false} DecimalValueOfNatToString(n: nat)
    ensures DecimalValue(NatToString(n)) == n
  {
    if n >= 10 {
      var s := NatToString(n);
      assert s[..|s| - 1] == NatToString(n / 10);
      DecimalValueOfNatToString(n / 10);
    }
  }

  /** Distinct numbers have distinct decimal texts. */
  lemma NatToStringInjective(m: nat, n: nat)
    requires NatToString(m) == NatToString(n)
    ensures m == n
  {
    DecimalValueOfNatToString(m);
    DecimalValueOfNatToString(n);
  }

  // Java strings

  /** The UTF-16 code units of one character: itself below 0x10000, otherwise
      a high surrogate followed by a low surrogate. */
  function CharUnits(c: char): (us: seq<nat>)
    ensures 1 <= |us| <= 2 && (|us| == 1 <==> c as int < 0x10000)
    ensures forall i | 0 <= i < |us| :: us[i] < 0x10000
  {
    var v := c as int;
    if v < 0x10000 then [v]
    else [0xD800 + (v - 0x10000) / 0x400, 0xDC00 + (v - 0x10000) % 0x400]
  }

  /** A string as Java holds it: what length() counts and charAt(i) returns. */
  function Utf16(s: string): (us: seq<nat>)
    ensures |s| <= |us| <= 2 * |s|
    ensures forall i | 0 <= i < |us| :: us[i] < 0x10000
  {
    if s == [] then [] else CharUnits(s[0]) + Utf16(s[1..])
  }

  /** Decoding UTF-16: None on a surrogate that is not part of a pair. */
  function FromUtf16(us: seq<nat>): Option<string>
  {
    if us == [] then Some([])
    else if 0xD800 <= us[0] < 0xDC00 && |us| >= 2 && 0xDC00 <= us[1] < 0xE000 then
      match FromUtf16(us[2..])
      case None => None
      case Some(rest) => Some([(0x10000 + (us[0] - 0xD800) * 0x400 + (us[1] - 0xDC00)) as char] + rest)
    else if us[0] < 0xD800 || 0xE000 <= us[0] < 0x110000 then
      match FromUtf16(us[1..])
      case None => None
      case Some(rest) => Some([us[0] as char] + rest)
    else None
  }

  lemma CharUnitsDecode(c: char, rest: seq<nat>)
    ensures FromUtf16(CharUnits(c) + rest).Some? <==> FromUtf16(rest).Some?
    ensures FromUtf16(rest).Some? ==> FromUtf16(CharUnits(c) + rest) == Some([c] + FromUtf16(rest).value)
  {
    var us := CharUnits(c) + rest;
    var v := c as int;
    if v < 0x10000 {
      assert us[1..] == rest;
    } else {
      var x := v - 0x10000;
      assert x == (x / 0x400) * 0x400 + x % 0x400;
      assert us[2..] == rest;
    }
  }

  /** Every string reads back from its UTF-16 units. */
  lemma {:induction false} Utf16RoundTrip(s: string)
    ensures FromUtf16(Utf16(s)) == Some(s)
  {
    if s != [] {
      Utf16RoundTrip(s[1..]);
      CharUnitsDecode(s[0], Utf16(s[1..]));
      assert [s[0]] + s[1..] == s;
    }
  }

  /** Below 0x10000 every character is one code unit, its own code. */
  lemma {:induction false} Utf16Bmp(s: string)
    requires forall i | 0 <= i < |s| :: s[i] as int < 0x10000
    ensures |Utf16(s)| == |s|
    ensures forall i | 0 <= i < |s| :: Utf16(s)[i] == s[i] as nat
  {
    if s != [] {
      Utf16Bmp(s[1..]);
      assert forall i | 1 <= i < |s| :: Utf16(s)[i] == Utf16(s[1..])[i - 1];
    }
  }
}
