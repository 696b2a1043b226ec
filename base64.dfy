/** Base 64 encoding of octets (section 4 of RFC 4648) and the URL-safe,
    unpadded form the client derives from it in `base64SafeEncode`
    (src/Acme.js:14-17), which is the base64url encoding of section 5 of
    RFC 4648 without padding, as section 2 of RFC 7515 requires. */
module Base64 {
  import opened Outcomes
  import opened Octets
  import opened Strings

  type Sextet = x: int | 0 <= x < 64

  /** A six-bit value's character in the standard alphabet (Table 1 of RFC 4648). */
  function StdChar(v: Sextet): (c: char)
  {
    if v < 26 then ('A' as int + v) as char
    else if v < 52 then ('a' as int + (v - 26)) as char
    else if v < 62 then ('0' as int + (v - 52)) as char
    else if v == 62 then '+'
    else '/'
  }

  predicate IsStdChar(c: char) {
    'A' <= c <= 'Z' || 'a' <= c <= 'z' || '0' <= c <= '9' || c == '+' || c == '/'
  }

  /** The characters of the URL and filename safe alphabet (Table 2 of RFC 4648). */
  predicate IsUrlChar(c: char) {
    'A' <= c <= 'Z' || 'a' <= c <= 'z' || '0' <= c <= '9' || c == '-' || c == '_'
  }

  /** The inverse of `StdChar`: the value of a character of the standard
      alphabet, or None for any other character. */
  function StdValue(c: char): (r: Option<Sextet>)
    ensures r.Some? <==> IsStdChar(c)
    ensures r.Some? ==> StdChar(r.value) == c
  {
    if 'A' <= c <= 'Z' then Some(c as int - 'A' as int)
    else if 'a' <= c <= 'z' then Some(c as int - 'a' as int + 26)
    else if '0' <= c <= '9' then Some(c as int - '0' as int + 52)
    else if c == '+' then Some(62)
    else if c == '/' then Some(63)
    else None
  }

  lemma StdValueOfChar(v: Sextet)
    ensures IsStdChar(StdChar(v)) && StdValue(StdChar(v)) == Some(v)
  {
  }

  /** The four six-bit groups of a 24-bit input group, most significant first. */
  function Quad(a: Byte, b: Byte, c: Byte): (s: seq<Sextet>)
    ensures |s| == 4
  {
    [a / 4, (a % 4) * 16 + b / 16, (b % 16) * 4 + c / 64, c % 64]
  }

  /** The six-bit groups of `d`: whole 24-bit groups, then a final group of
      8 or 16 bits filled with zero bits up to a multiple of six. */
  function Sextets(d: seq<Byte>): (s: seq<Sextet>)
    ensures |s| == (4 * |d| + 2) / 3
    decreases |d|
  {
    if |d| == 0 then []
    else if |d| == 1 then [d[0] / 4, (d[0] % 4) * 16]
    else if |d| == 2 then [d[0] / 4, (d[0] % 4) * 16 + d[1] / 16, (d[1] % 16) * 4]
    else Quad(d[0], d[1], d[2]) + Sextets(d[3..])
  }

  function StdChars(s: seq<Sextet>): (r: string)
    ensures |r| == |s|
  {
    seq(|s|, k requires 0 <= k < |s| => StdChar(s[k]))
  }

  /** The padded base 64 encoding: the characters of the six-bit groups, then
      "=" or "==" when the input ends with a 16- or 8-bit group. This is
      what `Buffer.toString('base64')` produces. */
  function Encode(d: seq<Byte>): string {
    StdChars(Sextets(d)) + Repeat('=', (3 - |d| % 3) % 3)
  }

  lemma PaddingCount(n: nat)
    ensures (4 - ((4 * n + 2) / 3) % 4) % 4 == (3 - n % 3) % 3
  {
    var q, r := n / 3, n % 3;
    assert n == 3 * q + r;
    assert 4 * n + 2 == 3 * (4 * q) + (4 * r + 2);
    assert (4 * n + 2) / 3 == 4 * q + (4 * r + 2) / 3;
  }

  /** The decoder of section 4 of RFC 4648 for padded input: groups of four
      characters, the last of which may end in "=" or "==". None when the
      input is not a padded base 64 text. */
  function Decode(s: string): (r: Option<seq<Byte>>)
    decreases |s|
  {
    if |s| == 0 then Some([])
    else if |s| < 4 then None
    else if |s| == 4 then DecodeLast(s[0], s[1], s[2], s[3])
    else match DecodeQuad(s[0], s[1], s[2], s[3])
      case None => None
      case Some(g) =>
        match Decode(s[4..])
        case None => None
        case Some(t) => Some(g + t)
  }

  /** The first, second and third octet carried by six-bit groups. */
  function High(w: Sextet, x: Sextet): Byte { w * 4 + x / 16 }
  function Middle(x: Sextet, y: Sextet): Byte { (x % 16) * 16 + y / 4 }
  function Low(y: Sextet, z: Sextet): Byte { (y % 4) * 64 + z }

  function DecodeQuad(a: char, b: char, c: char, d: char): Option<seq<Byte>> {
    match (StdValue(a), StdValue(b), StdValue(c), StdValue(d))
    case (Some(w), Some(x), Some(y), Some(z)) => Some([High(w, x), Middle(x, y), Low(y, z)])
    case _ => None
  }

  function DecodeLast(a: char, b: char, c: char, d: char): Option<seq<Byte>> {
    if c == '=' && d == '=' then
      match (StdValue(a), StdValue(b))
      case (Some(w), Some(x)) => Some([High(w, x)])
      case _ => None
    else if d == '=' then
      match (StdValue(a), StdValue(b), StdValue(c))
      case (Some(w), Some(x), Some(y)) => Some([High(w, x), Middle(x, y)])
      case _ => None
    else DecodeQuad(a, b, c, d)
  }

  lemma HighOf(a: Byte, b: Byte)
    ensures High(a / 4, (a % 4) * 16 + b / 16) == a
  {
    assert ((a % 4) * 16 + b / 16) / 16 == a % 4;
  }

  lemma MiddleOf(a: Byte, b: Byte, c: Byte)
    ensures Middle((a % 4) * 16 + b / 16, (b % 16) * 4 + c / 64) == b
  {
    assert ((a % 4) * 16 + b / 16) % 16 == b / 16;
    assert ((b % 16) * 4 + c / 64) / 4 == b % 16;
  }

  lemma LowOf(b: Byte, c: Byte)
    ensures Low((b % 16) * 4 + c / 64, c % 64) == c
  {
    assert ((b % 16) * 4 + c / 64) % 4 == c / 64;
  }

  lemma QuadRoundTrip(a: Byte, b: Byte, c: Byte)
    ensures var q := StdChars(Quad(a, b, c)); DecodeQuad(q[0], q[1], q[2], q[3]) == Some([a, b, c])
  {
    var s := Quad(a, b, c);
    var q := StdChars(s);
    StdValueOfChar(s[0]);
    StdValueOfChar(s[1]);
    StdValueOfChar(s[2]);
    StdValueOfChar(s[3]);
    assert StdValue(q[0]) == Some(s[0]) && StdValue(q[1]) == Some(s[1]);
    assert StdValue(q[2]) == Some(s[2]) && StdValue(q[3]) == Some(s[3]);
    assert DecodeQuad(q[0], q[1], q[2], q[3]) == Some([High(s[0], s[1]), Middle(s[1], s[2]), Low(s[2], s[3])]);
    HighOf(a, b);
    MiddleOf(a, b, c);
    LowOf(b, c);
  }

  lemma EncodeCons(d: seq<Byte>)
    requires |d| >= 3
    ensures Encode(d) == StdChars(Quad(d[0], d[1], d[2])) + Encode(d[3..])
  {
    var q, t := Quad(d[0], d[1], d[2]), Sextets(d[3..]);
    assert Sextets(d) == q + t;
    assert StdChars(q + t) == StdChars(q) + StdChars(t);
    assert |d[3..]| % 3 == |d| % 3;
  }

  lemma DecodeEncodeOne(d: seq<Byte>)
    requires |d| == 1
    ensures Decode(Encode(d)) == Some(d)
  {
    var e, s := Encode(d), Sextets(d);
    StdValueOfChar(s[0]);
    StdValueOfChar(s[1]);
    assert e == [StdChar(s[0]), StdChar(s[1]), '=', '='];
    assert Decode(e) == DecodeLast(e[0], e[1], e[2], e[3]) == Some([High(s[0], s[1])]);
    HighOf(d[0], 0);
    assert [High(s[0], s[1])] == d;
  }

  lemma DecodeEncodeTwo(d: seq<Byte>)
    requires |d| == 2
    ensures Decode(Encode(d)) == Some(d)
  {
    var e, s := Encode(d), Sextets(d);
    StdValueOfChar(s[0]);
    StdValueOfChar(s[1]);
    StdValueOfChar(s[2]);
    assert e == [StdChar(s[0]), StdChar(s[1]), StdChar(s[2]), '='];
    assert DecodeLast(e[0], e[1], e[2], e[3]) == Some([High(s[0], s[1]), Middle(s[1], s[2])]);
    HighOf(d[0], d[1]);
    MiddleOf(d[0], d[1], 0);
    assert s[2] == (d[1] % 16) * 4 + 0 / 64;
    assert Decode(e) == DecodeLast(e[0], e[1], e[2], e[3]);
    assert High(s[0], s[1]) == d[0];
    assert Middle(s[1], s[2]) == d[1];
    assert [High(s[0], s[1]), Middle(s[1], s[2])] == d;
  }

  /** A group of four characters without padding in front of a decodable
      text decodes to its three octets followed by that text's octets. */
  lemma DecodeGroupThen(q: string, t: string, g: seq<Byte>, u: seq<Byte>)
    requires |q| == 4 && q[3] != '='
    requires DecodeQuad(q[0], q[1], q[2], q[3]) == Some(g)
    requires Decode(t) == Some(u)
    ensures Decode(q + t) == Some(g + u)
  {
    var e := q + t;
    assert e[0] == q[0] && e[1] == q[1] && e[2] == q[2] && e[3] == q[3];
    if t == [] {
      assert e == q;
      assert u == [];
      assert g + u == g;
    } else {
      assert e[4..] == t;
    }
  }

  /** A full group in front of an encoding that decodes: the group's
      three octets come back in front. */
  lemma DecodeQuadThen(a: Byte, b: Byte, c: Byte, rest: seq<Byte>)
    requires Decode(Encode(rest)) == Some(rest)
    ensures Decode(StdChars(Quad(a, b, c)) + Encode(rest)) == Some([a, b, c] + rest)
  {
    QuadRoundTrip(a, b, c);
    StdValueOfChar(Quad(a, b, c)[3]);
    DecodeGroupThen(StdChars(Quad(a, b, c)), Encode(rest), [a, b, c], rest);
  }

  lemma DecodeEncodeCons(d: seq<Byte>)
    requires |d| >= 3
    requires Decode(Encode(d[3..])) == Some(d[3..])
    ensures Decode(Encode(d)) == Some(d)
  {
    EncodeCons(d);
    DecodeQuadThen(d[0], d[1], d[2], d[3..]);
    assert [d[0], d[1], d[2]] + d[3..] == d;
  }

  /** Decoding undoes encoding. */
  lemma {:induction false} DecodeEncode(d: seq<Byte>)
    ensures Decode(Encode(d)) == Some(d)
    decreases |d|
  {
    if |d| == 1 {
      DecodeEncodeOne(d);
    } else if |d| == 2 {
      DecodeEncodeTwo(d);
    } else if |d| >= 3 {
      DecodeEncode(d[3..]);
      DecodeEncodeCons(d);
    }
  }

  /** A six-bit value's character in the URL and filename safe alphabet. */
  function UrlChar(v: Sextet): char
  {
    if v == 62 then '-' else if v == 63 then '_' else StdChar(v)
  }

  /** `base64SafeEncode` (src/Acme.js:14-17): the padded encoding with "+"
      replaced by "-", "/" by "_", and the trailing "=" run removed. The
      result uses only the URL-safe alphabet, so never "=", and has the
      unpadded length of section 3.2 of RFC 4648. */
  function SafeEncode(d: seq<Byte>): (r: string)
    ensures forall k :: 0 <= k < |r| ==> IsUrlChar(r[k])
    ensures |r| == (4 * |d| + 2) / 3
  {
    SafeEncodeIsUrlChars(d);
    StripTrailing(Replace(Replace(Encode(d), '+', '-'), '/', '_'), '=')
  }

  function UrlChars(s: seq<Sextet>): (r: string)
    ensures |r| == |s|
  {
    seq(|s|, k requires 0 <= k < |s| => UrlChar(s[k]))
  }

  /** Every character of the URL-safe alphabet is a letter, a digit, "-"
      or "_". */
  lemma UrlCharsAreUrlChars(s: seq<Sextet>)
    ensures forall k :: 0 <= k < |s| ==> IsUrlChar(UrlChars(s)[k])
  {
    forall k | 0 <= k < |s|
      ensures IsUrlChar(UrlChars(s)[k])
    {
      UrlCharIsUrlChar(s[k]);
    }
  }

  lemma UrlCharIsUrlChar(v: Sextet)
    ensures IsUrlChar(UrlChar(v))
  {
  }

  lemma SafeEncodeIsUrlChars(d: seq<Byte>)
    ensures StripTrailing(Replace(Replace(Encode(d), '+', '-'), '/', '_'), '=') == UrlChars(Sextets(d))
    ensures forall k :: 0 <= k < |Sextets(d)| ==> IsUrlChar(UrlChars(Sextets(d))[k])
  {
    var s := Sextets(d);
    UrlCharsAreUrlChars(s);
    var body, pad := StdChars(s), Repeat('=', (3 - |d| % 3) % 3);
    ReplaceAppend(body, pad, '+', '-');
    ReplaceAppend(Replace(body, '+', '-'), Replace(pad, '+', '-'), '/', '_');
    assert Replace(Replace(pad, '+', '-'), '/', '_') == pad;
    assert Replace(Replace(body, '+', '-'), '/', '_') == UrlChars(s);
    StripTrailingAfterRun(UrlChars(s), '=', (3 - |d| % 3) % 3);
  }

  /** What a decoder does to a `SafeEncode` output to get the standard form
      back: "-" and "_" mapped back to "+" and "/", and "=" appended to a
      multiple of four characters. */
  function Restore(s: string): string {
    var t := Replace(Replace(s, '-', '+'), '_', '/');
    t + Repeat('=', (4 - |t| % 4) % 4)
  }

  /** Restoring undoes the alphabet change and puts back the padding that
      an input of `n` octets gets. */
  lemma RestoreUrlChars(s: seq<Sextet>, n: nat)
    requires |s| == (4 * n + 2) / 3
    ensures Restore(UrlChars(s)) == StdChars(s) + Repeat('=', (3 - n % 3) % 3)
  {
    assert Replace(Replace(UrlChars(s), '-', '+'), '_', '/') == StdChars(s);
    PaddingCount(n);
  }

  /** Restoring the alphabet and the padding and decoding gives back the
      input octets: `SafeEncode` loses nothing. */
  lemma SafeEncodeRoundTrip(d: seq<Byte>)
    ensures Decode(Restore(SafeEncode(d))) == Some(d)
  {
    var s := Sextets(d);
    SafeEncodeIsUrlChars(d);
    assert SafeEncode(d) == UrlChars(s);
    RestoreUrlChars(s, |d|);
    assert Restore(SafeEncode(d)) == Encode(d);
    DecodeEncode(d);
  }
}
