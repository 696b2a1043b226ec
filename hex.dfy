/** Hexadecimal text as the client uses it: `Number.prototype.toString(16)`
    for the public exponent, and Node's `new Buffer(text, 'hex')` for turning
    the exponent and modulus text into octets. Node decodes pairs of hex
    digits from the front, stops silently at the first pair that is not two
    hex digits, and ignores an odd digit left at the end. */
module Hex {
  import opened Octets

  predicate IsHexDigit(c: char) {
    '0' <= c <= '9' || 'a' <= c <= 'f' || 'A' <= c <= 'F'
  }

  predicate AllHex(s: string) {
    forall k :: 0 <= k < |s| ==> IsHexDigit(s[k])
  }

  function DigitValue(c: char): (v: nat)
    requires IsHexDigit(c)
    ensures v < 16
    ensures v == 0 <==> c == '0'
  {
    if '0' <= c <= '9' then c as int - '0' as int
    else if 'a' <= c <= 'f' then c as int - 'a' as int + 10
    else c as int - 'A' as int + 10
  }

  const LowerDigits: string := "0123456789abcdef"

  /** The lowercase digit of a value below 16. */
  function Digit(v: nat): (c: char)
    requires v < 16
    ensures IsHexDigit(c) && DigitValue(c) == v
  {
    LowerDigits[v]
  }

  /** `new Buffer(s, 'hex')` as Node 8 and later decode it: pairs of hex
      digits become octets and a final unpaired digit is dropped. */
  function Decode(s: string): (b: seq<Byte>)
    ensures |b| <= |s| / 2
    ensures AllHex(s) ==> |b| == |s| / 2
    decreases |s|
  {
    if |s| < 2 || !IsHexDigit(s[0]) || !IsHexDigit(s[1]) then []
    else [DigitValue(s[0]) * 16 + DigitValue(s[1])] + Decode(s[2..])
  }

  /** `n.toString(16)`: lowercase digits, no leading zero. */
  function ToHex(n: nat): (s: string)
    ensures |s| >= 1 && AllHex(s)
    ensures forall k :: 0 <= k < |s| ==> s[k] in LowerDigits
    ensures s[0] == '0' <==> n == 0
  {
    if n < 16 then [Digit(n)] else ToHex(n / 16) + [Digit(n % 16)]
  }

  /** The number a string of hex digits denotes. */
  function HexValue(s: string): nat
    requires AllHex(s)
  {
    if s == [] then 0 else HexValue(s[..|s| - 1]) * 16 + DigitValue(s[|s| - 1])
  }

  /** The number a big-endian octet string denotes. */
  function BytesValue(b: seq<Byte>): nat {
    if b == [] then 0 else BytesValue(b[..|b| - 1]) * 256 + b[|b| - 1]
  }

  lemma {:induction false} ToHexValue(n: nat)
    ensures HexValue(ToHex(n)) == n
  {
    if n >= 16 {
      var s := ToHex(n);
      assert s[..|s| - 1] == ToHex(n / 16);
      ToHexValue(n / 16);
      assert HexValue(s) == (n / 16) * 16 + n % 16;
    }
  }

  lemma {:induction false} LeadingZero(s: string)
    requires AllHex(s)
    ensures HexValue("0" + s) == HexValue(s)
    decreases |s|
  {
    if s != [] {
      var z := "0" + s;
      assert z[..|z| - 1] == "0" + s[..|s| - 1];
      LeadingZero(s[..|s| - 1]);
    }
  }

  /** Appending a pair of hex digits to whole pairs appends one octet. */
  lemma {:induction false} DecodeSnoc(s: string, x: char, y: char)
    requires AllHex(s) && |s| % 2 == 0 && IsHexDigit(x) && IsHexDigit(y)
    ensures Decode(s + [x, y]) == Decode(s) + [DigitValue(x) * 16 + DigitValue(y)]
    decreases |s|
  {
    if s != [] {
      var t := s + [x, y];
      assert t[0] == s[0] && t[1] == s[1];
      assert t[2..] == s[2..] + [x, y];
      DecodeSnoc(s[2..], x, y);
    } else {
      assert s + [x, y] == [x, y];
    }
  }

  /** Whole pairs of hex digits decode to octets with the same value. */
  lemma {:induction false} DecodeValue(s: string)
    requires AllHex(s) && |s| % 2 == 0
    ensures BytesValue(Decode(s)) == HexValue(s)
    decreases |s|
  {
    if s != [] {
      var p := s[..|s| - 2];
      var x, y := s[|s| - 2], s[|s| - 1];
      assert s == p + [x, y];
      DecodeSnoc(p, x, y);
      DecodeValue(p);
      var d := Decode(s);
      assert d[..|d| - 1] == Decode(p);
      assert s[..|s| - 1] == p + [x];
      assert (p + [x])[..|p|] == p;
      assert HexValue(s) == (HexValue(p) * 16 + DigitValue(x)) * 16 + DigitValue(y);
    }
  }

  // ---------------------------------------------------------------------
  // The public exponent's hex text

  /** The exponent text as the client builds it. The padding test has two
      defects: it reads a misspelt property (`lenght`), which is always
      `undefined`, so a "0" is always prefixed; and it is inverted, since
      `!(length % 2)` holds for an EVEN number of digits, so correcting the
      spelling alone would pad the even case and leave the usual exponent
      65537 ("10001") odd. The intended test is `length % 2 == 1`. */
  function ExponentHexAsWritten(e: nat): string {
    "0" + ToHex(e)
  }

  /** The exponent text padded to whole octets: a "0" is prefixed exactly
      when the hex digits are odd in number. */
  function ExponentHex(e: nat): (s: string)
    ensures AllHex(s) && |s| % 2 == 0
    ensures s == ToHex(e) || s == "0" + ToHex(e)
  {
    var h := ToHex(e);
    if |h| % 2 == 1 then "0" + h else h
  }

  /** The padded exponent decodes to the octets of the exponent, with no
      leading zero octet for a positive exponent. */
  lemma ExponentHexOctets(e: nat)
    ensures BytesValue(Decode(ExponentHex(e))) == e
    ensures e > 0 ==> |Decode(ExponentHex(e))| >= 1 && Decode(ExponentHex(e))[0] != 0
  {
    var h := ToHex(e);
    var s := ExponentHex(e);
    ToHexValue(e);
    if |h| % 2 == 1 {
      LeadingZero(h);
    }
    DecodeValue(s);
    if e > 0 {
      assert s[0] != '0' || s[1] != '0';
    }
  }

  /** The two agree whenever the hex digits are odd in number, as for the
      usual exponent 65537 ("10001"). */
  lemma ExponentHexAgreement(e: nat)
    requires |ToHex(e)| % 2 == 1
    ensures ExponentHexAsWritten(e) == ExponentHex(e)
  {
  }

  lemma ToHexUsual()
    ensures ToHex(65537) == "10001"
  {
    assert ToHex(1) == "1";
    assert ToHex(16) == ToHex(1) + [Digit(0)] == "10";
    assert ToHex(256) == ToHex(16) + [Digit(0)] == "100";
    assert ToHex(4096) == ToHex(256) + [Digit(0)] == "1000";
    assert ToHex(65537) == ToHex(4096) + [Digit(1)];
  }

  /** For the usual exponent 65537 both texts are "010001", the octets
      01 00 01. */
  lemma ExponentHexUsual()
    ensures ExponentHexAsWritten(65537) == ExponentHex(65537) == "010001"
    ensures Decode(ExponentHex(65537)) == [1, 0, 1]
  {
    ToHexUsual();
    assert "0" + "10001" == "010001";
    DecodeUsual();
  }

  lemma DecodeUsual()
    ensures Decode("010001") == [1, 0, 1]
  {
    assert Decode("01") == [1] + Decode("");
    assert "0001"[2..] == "01";
    assert Decode("0001") == [0] + Decode("01");
    assert "010001"[2..] == "0001";
    assert Decode("010001") == [1] + Decode("0001");
  }

  /** Exponent 17 ("11") becomes "011" as written, which decodes to the
      single octet 0x01: the key is then published with exponent 1. */
  lemma ExponentHexAsWrittenSeventeen()
    ensures ExponentHexAsWritten(17) == "011"
    ensures Decode(ExponentHexAsWritten(17)) == [1]
    ensures Decode(ExponentHex(17)) == [17]
  {
    assert ToHex(1) == "1";
    assert ToHex(17) == "11";
    assert Decode("1") == [];
    assert Decode("11") == [17];
  }
}
