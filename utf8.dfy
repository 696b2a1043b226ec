/** UTF-8 (RFC 3629), the encoding Node applies when a string becomes a
    Buffer: `new Buffer(string)`, `hash.update(string)`, `sign.write(string)`
    and `fs.writeFileSync(path, string)` all hash, sign or store the UTF-8
    octets of the string. */
module Utf8 {
  import opened Octets

  predicate IsAscii(s: string) {
    forall k :: 0 <= k < |s| ==> s[k] as int < 0x80
  }

  /** The one to four octets of a code point (section 3 of RFC 3629). */
  function EncodeChar(c: char): (b: seq<Byte>)
    ensures 1 <= |b| <= 4
    ensures |b| == 1 <==> c as int < 0x80
    ensures c as int < 0x80 ==> b[0] == c as int
  {
    var n := c as int;
    if n < 0x80 then [n]
    else if n < 0x800 then [0xC0 + n / 0x40, 0x80 + n % 0x40]
    else if n < 0x10000 then [0xE0 + n / 0x1000, 0x80 + (n / 0x40) % 0x40, 0x80 + n % 0x40]
    else [0xF0 + n / 0x40000, 0x80 + (n / 0x1000) % 0x40, 0x80 + (n / 0x40) % 0x40, 0x80 + n % 0x40]
  }

  /** The octets of a string; an ASCII string has one octet per character,
      equal to its code. */
  function Encode(s: string): (b: seq<Byte>)
    ensures |b| >= |s|
    ensures IsAscii(s) ==> |b| == |s| && forall k :: 0 <= k < |s| ==> b[k] == s[k] as int
    decreases |s|
  {
    if s == [] then [] else EncodeChar(s[0]) + Encode(s[1..])
  }

  lemma {:induction false} EncodeAppend(x: string, y: string)
    ensures Encode(x + y) == Encode(x) + Encode(y)
    decreases |x|
  {
    if x == [] {
      assert x + y == y;
    } else {
      assert (x + y)[0] == x[0];
      assert (x + y)[1..] == x[1..] + y;
      EncodeAppend(x[1..], y);
    }
  }
}
