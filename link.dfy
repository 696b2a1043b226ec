/** The Link-header parse the client performs with
    `header.match(...)[1]` with the pattern `.*<(.*)>;rel="REL".*`: the regular expression is
    matched as ECMAScript does (greedy `.*`, which never crosses a line
    terminator) and the first capture group is returned. */
module Link {
  import opened Outcomes

  /** The characters `.` does not match. */
  predicate IsLineTerminator(c: char) {
    c == '\n' || c == '\r' || c == '\U{2028}' || c == '\U{2029}'
  }

  predicate NoLineTerminator(s: string) {
    forall k :: 0 <= k < |s| ==> !IsLineTerminator(s[k])
  }

  /** The literal text after the capture group: `>;rel="REL"`. */
  function Marker(rel: string): string {
    ">;rel=\"" + rel + "\""
  }

  predicate OccursAt(s: string, m: int, mk: string) {
    0 <= m && m + |mk| <= |s| && s[m..m + |mk|] == mk
  }

  /** One way the pattern can match a line: `<` at `q`, the marker at `m`,
      the capture group in between. */
  predicate MatchesAt(line: string, q: int, m: int, rel: string) {
    0 <= q < m && OccursAt(line, m, Marker(rel)) && line[q] == '<'
  }

  /** The start of the last occurrence of `mk` in `s`. */
  function LastOccurrence(s: string, mk: string): (r: Option<nat>)
    requires |mk| > 0
    ensures r.Some? ==> OccursAt(s, r.value, mk)
    ensures r.Some? ==> forall m :: r.value < m ==> !OccursAt(s, m, mk)
    ensures r.None? ==> forall m :: !OccursAt(s, m, mk)
    decreases |s|
  {
    if |s| < |mk| then None
    else if s[|s| - |mk|..] == mk then Some(|s| - |mk|)
    else
      var r := LastOccurrence(s[..|s| - 1], mk);
      assert forall m :: OccursAt(s, m, mk) && m + |mk| < |s| ==> OccursAt(s[..|s| - 1], m, mk) by {
        forall m | OccursAt(s, m, mk) && m + |mk| < |s|
          ensures OccursAt(s[..|s| - 1], m, mk)
        {
          assert s[..|s| - 1][m..m + |mk|] == s[m..m + |mk|];
        }
      }
      if r.Some? then
        assert OccursAt(s, r.value, mk) by {
          assert s[..|s| - 1][r.value..r.value + |mk|] == s[r.value..r.value + |mk|];
        }
        r
      else r
  }

  /** The last position before `limit` holding `c`. */
  function LastBefore(s: string, c: char, limit: nat): (r: Option<nat>)
    requires limit <= |s|
    ensures r.Some? ==> r.value < limit && s[r.value] == c
    ensures r.Some? ==> forall k :: r.value < k < limit ==> s[k] != c
    ensures r.None? ==> forall k :: 0 <= k < limit ==> s[k] != c
  {
    if limit == 0 then None
    else if s[limit - 1] == c then Some(limit - 1)
    else LastBefore(s, c, limit - 1)
  }

  /** The capture on a line without line terminators: the latest `<`
      before the last marker. */
  function LineTarget(line: string, rel: string): Option<string> {
    match LastOccurrence(line, Marker(rel))
    case None => None
    case Some(m) =>
      match LastBefore(line, '<', m)
      case None => None
      case Some(q) => Some(line[q + 1..m])
  }

  /** Of all the ways the pattern can match a line, the backtracking order
      of the two greedy `.*` selects the one with the latest `<` and, for
      it, the latest marker; there is no capture exactly when there is no
      match. */
  lemma LineTargetSpec(line: string, rel: string)
    ensures var r := LineTarget(line, rel);
      (r.None? <==> forall q, m :: !MatchesAt(line, q, m, rel)) &&
      (r.Some? ==> exists q, m ::
        MatchesAt(line, q, m, rel) && r.value == line[q + 1..m] &&
        forall q', m' :: MatchesAt(line, q', m', rel) ==> q' < q || (q' == q && m' <= m))
  {
    match LastOccurrence(line, Marker(rel))
    case None =>
    case Some(m) =>
      match LastBefore(line, '<', m)
      case None =>
      case Some(q) =>
        assert MatchesAt(line, q, m, rel);
  }

  /** The first line terminator, or the length when there is none. */
  function LineEnd(s: string): (i: nat)
    ensures i <= |s| && NoLineTerminator(s[..i])
    ensures i < |s| ==> IsLineTerminator(s[i])
  {
    if s == [] || IsLineTerminator(s[0]) then 0
    else
      var i := 1 + LineEnd(s[1..]);
      assert s[..i] == [s[0]] + s[1..][..i - 1];
      i
  }

  /** The capture group of the pattern `.*<(.*)>;rel="REL".*` on `s`: the match
      found on the first line that has one, or `null` (here `None`). */
  function Target(s: string, rel: string): Option<string>
    decreases |s|
  {
    var i := LineEnd(s);
    var t := LineTarget(s[..i], rel);
    if t.Some? || i == |s| then t else Target(s[i + 1..], rel)
  }

  /** An occurrence of a marker starting with `>` after which no `>`
      follows is the last one. */
  lemma LastOccurrenceIs(s: string, mk: string, m0: nat)
    requires |mk| > 0 && OccursAt(s, m0, mk)
    requires forall m :: m0 < m ==> !OccursAt(s, m, mk)
    ensures LastOccurrence(s, mk) == Some(m0)
  {
  }

  lemma LineTargetIs(line: string, rel: string, q: nat, m: nat)
    requires LastOccurrence(line, Marker(rel)) == Some(m) && m <= |line|
    requires LastBefore(line, '<', m) == Some(q)
    ensures LineTarget(line, rel) == Some(line[q + 1..m])
  {
  }

  /** On a string without line terminators the whole string is the line. */
  lemma TargetOneLine(s: string, rel: string)
    requires NoLineTerminator(s)
    ensures Target(s, rel) == LineTarget(s, rel)
  {
    assert LineEnd(s) == |s|;
    assert s[..|s|] == s;
  }

  /** The pattern's match on one line, given where its `<` and its last
      marker are. */
  lemma TargetAt(s: string, rel: string, q0: nat, m0: nat, u: string)
    requires NoLineTerminator(s)
    requires OccursAt(s, m0, Marker(rel))
    requires forall m :: m0 < m ==> !OccursAt(s, m, Marker(rel))
    requires q0 < m0 && s[q0] == '<'
    requires forall k :: q0 < k < m0 ==> s[k] != '<'
    requires s[q0 + 1..m0] == u
    ensures Target(s, rel) == Some(u)
  {
    LastOccurrenceIs(s, Marker(rel), m0);
    LineTargetIs(s, rel, q0, m0);
    TargetOneLine(s, rel);
  }

  /** Only the first character of a marker is `>`. */
  lemma MarkerShape(rel: string)
    requires forall k :: 0 <= k < |rel| ==> rel[k] != '>'
    ensures Marker(rel)[0] == '>'
    ensures forall k :: 0 < k < |Marker(rel)| ==> Marker(rel)[k] != '>'
  {
    var mk := Marker(rel);
    forall k | 0 < k < |mk|
      ensures mk[k] != '>'
    {
      if k < 7 {
        assert mk[k] == ">;rel=\""[k];
      } else if k < 7 + |rel| {
        assert mk[k] == rel[k - 7];
      }
    }
  }

  lemma LinkSlices(p: string, url: string, tail: string)
    ensures (p + "<" + url + tail)[|p|] == '<'
    ensures (p + "<" + url + tail)[|p| + 1..|p| + 1 + |url|] == url
    ensures forall k :: |p| < k < |p| + 1 + |url| ==> (p + "<" + url + tail)[k] == url[k - |p| - 1]
  {
    var s := p + "<" + url + tail;
    assert s == (p + "<") + (url + tail);
    assert s[|p| + 1..][..|url|] == url;
  }

  /** A later occurrence of the marker would lie inside this one, which has
      no other `>`, or inside what follows it. */
  lemma NoLaterMarker(head: string, rel: string, t: string)
    requires forall k :: 0 <= k < |rel| ==> rel[k] != '>'
    requires forall m :: !OccursAt(t, m, Marker(rel))
    ensures forall m :: |head| < m ==> !OccursAt(head + Marker(rel) + t, m, Marker(rel))
  {
    var mk := Marker(rel);
    var s := head + mk + t;
    MarkerShape(rel);
    forall m | |head| < m
      ensures !OccursAt(s, m, mk)
    {
      if m < |head| + |mk| {
        assert s[m] == mk[m - |head|] != '>';
        if m + |mk| <= |s| {
          assert s[m..m + |mk|][0] == s[m];
        }
      } else if m + |mk| <= |s| {
        assert s[m..m + |mk|] == t[m - |head| - |mk|..m - |head|];
        assert !OccursAt(t, m - |head| - |mk|, mk);
      }
    }
  }

  /** Where the `<` and the marker of a single link sit in its header. */
  lemma LinkLayout(p: string, url: string, rel: string, t: string)
    requires forall k :: 0 <= k < |url| ==> url[k] != '<'
    requires forall k :: 0 <= k < |rel| ==> rel[k] != '>'
    requires forall m :: !OccursAt(t, m, Marker(rel))
    ensures var s := p + "<" + url + Marker(rel) + t; var m0 := |p| + 1 + |url|;
      OccursAt(s, m0, Marker(rel)) &&
      (forall m :: m0 < m ==> !OccursAt(s, m, Marker(rel))) &&
      s[|p|] == '<' && s[|p| + 1..m0] == url &&
      (forall k :: |p| < k < m0 ==> s[k] != '<')
  {
    var head := p + "<" + url;
    var tail := Marker(rel) + t;
    var s := p + "<" + url + Marker(rel) + t;
    assert s == head + tail;
    var m0 := |head|;
    assert OccursAt(s, m0, Marker(rel)) by {
      assert s[m0..] == tail;
    }
    NoLaterMarker(head, rel, t);
    LinkSlices(p, url, tail);
  }

  /** A header holding a link `<url>;rel="REL"` yields exactly `url` (a URL
      never contains `<`, section 2 of RFC 3986), whatever precedes it on
      the line and whatever follows it, other links included, so long as
      no later link has relation REL. */
  lemma TargetOfLink(p: string, url: string, rel: string, t: string)
    requires NoLineTerminator(p + "<" + url + Marker(rel) + t)
    requires forall k :: 0 <= k < |url| ==> url[k] != '<'
    requires forall k :: 0 <= k < |rel| ==> rel[k] != '>'
    requires forall m :: !OccursAt(t, m, Marker(rel))
    ensures Target(p + "<" + url + Marker(rel) + t, rel) == Some(url)
  {
    LinkLayout(p, url, rel, t);
    TargetAt(p + "<" + url + Marker(rel) + t, rel, |p|, |p| + 1 + |url|, url);
  }
}
