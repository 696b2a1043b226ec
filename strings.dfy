/** The string operations the client performs with JavaScript's
    `String.prototype.replace`: replacing one character everywhere,
    stripping a run of trailing characters (`/=+$/`, `/\.+$/`) and deleting
    every character of a class (`/\s/g`, `/:/g`, `/[-:..]/g`). */
module Strings {

  /** `n` copies of `c`. */
  function Repeat(c: char, n: nat): (r: string)
    ensures |r| == n
    ensures forall k :: 0 <= k < n ==> r[k] == c
  {
    seq(n, _ => c)
  }

  /** `s.replace(/a/g, b)`: every occurrence of `a` becomes `b`. */
  function Replace(s: string, a: char, b: char): (r: string)
    ensures |r| == |s|
    ensures forall k :: 0 <= k < |s| ==> r[k] == (if s[k] == a then b else s[k])
  {
    seq(|s|, k requires 0 <= k < |s| => if s[k] == a then b else s[k])
  }

  lemma ReplaceAppend(x: string, y: string, a: char, b: char)
    ensures Replace(x + y, a, b) == Replace(x, a, b) + Replace(y, a, b)
  {
    assert forall k :: 0 <= k < |x + y| ==> Replace(x + y, a, b)[k] == (Replace(x, a, b) + Replace(y, a, b))[k];
  }

  /** `s.replace(/c+$/, '')`: the longest run of `c` at the end is removed.
      The result is the shortest prefix of `s` after which only `c` follows. */
  function StripTrailing(s: string, c: char): (r: string)
    ensures r <= s
    ensures |r| == 0 || r[|r| - 1] != c
    ensures forall k :: |r| <= k < |s| ==> s[k] == c
    decreases |s|
  {
    if |s| > 0 && s[|s| - 1] == c then StripTrailing(s[..|s| - 1], c) else s
  }

  /** Stripping a run of `c` appended to a string that does not end in `c`
      gives that string back. */
  lemma StripTrailingAfterRun(b: string, c: char, n: nat)
    requires |b| == 0 || b[|b| - 1] != c
    ensures StripTrailing(b + Repeat(c, n), c) == b
  {
    var s := b + Repeat(c, n);
    var r := StripTrailing(s, c);
    if |b| > 0 {
      assert s[|b| - 1] == b[|b| - 1] != c;
    }
    assert |r| >= |b|;
    assert r == s[..|r|] == b;
  }

  /** `s` with every character of `drop` deleted (a global regular-expression
      replace of a character class by the empty string). */
  function Without(s: string, drop: set<char>): (r: string)
    ensures |r| <= |s|
    ensures forall k :: 0 <= k < |r| ==> r[k] !in drop
    ensures (forall k :: 0 <= k < |s| ==> s[k] !in drop) ==> r == s
    decreases |s|
  {
    if s == [] then []
    else (if s[0] in drop then [] else [s[0]]) + Without(s[1..], drop)
  }

  lemma {:induction false} WithoutAppend(x: string, y: string, drop: set<char>)
    ensures Without(x + y, drop) == Without(x, drop) + Without(y, drop)
    decreases |x|
  {
    if x != [] {
      assert (x + y)[0] == x[0];
      assert (x + y)[1..] == x[1..] + y;
      WithoutAppend(x[1..], y, drop);
      var h := if x[0] in drop then [] else [x[0]];
      calc {
        Without(x + y, drop);
        h + Without(x[1..] + y, drop);
        h + (Without(x[1..], drop) + Without(y, drop));
        (h + Without(x[1..], drop)) + Without(y, drop);
      }
    } else {
      assert x + y == y;
    }
  }

  /** Deleting a class twice deletes nothing more. */
  lemma WithoutIdempotent(s: string, drop: set<char>)
    ensures Without(Without(s, drop), drop) == Without(s, drop)
  {
  }

  /** The characters JavaScript's `\s` matches: the ECMAScript white space
      and line terminator characters. */
  const JsWhitespace: set<char> := {
    '\t', '\n', '\U{000B}', '\U{000C}', '\r', ' ', '\U{00A0}', '\U{1680}',
    '\U{2000}', '\U{2001}', '\U{2002}', '\U{2003}', '\U{2004}', '\U{2005}',
    '\U{2006}', '\U{2007}', '\U{2008}', '\U{2009}', '\U{200A}',
    '\U{2028}', '\U{2029}', '\U{202F}', '\U{205F}', '\U{3000}', '\U{FEFF}'
  }
}
