/** File paths as the client builds them with Node's `path.join` and a
    leading `~` it expands by hand. */
module Paths {

  /** The non-empty segments of `parts`, separated by "/". */
  function JoinSegments(parts: seq<string>): (r: string)
    ensures (forall i :: 0 <= i < |parts| ==> parts[i] == "") <==> r == ""
    decreases |parts|
  {
    if parts == [] then ""
    else
      var init := JoinSegments(parts[..|parts| - 1]);
      var last := parts[|parts| - 1];
      assert forall i :: 0 <= i < |parts| - 1 ==> parts[..|parts| - 1][i] == parts[i];
      if last == "" then init else if init == "" then last else init + "/" + last
  }

  /** `path.join(...parts)`: empty segments are dropped and an empty
      result is ".". */
  function PathJoin(parts: seq<string>): (r: string)
    ensures r != ""
  {
    var j := JoinSegments(parts);
    if j == "" then "." else j
  }

  /** One more segment after the others. */
  lemma JoinSegmentsSnoc(parts: seq<string>, x: string)
    ensures JoinSegments(parts + [x])
         == if x == "" then JoinSegments(parts)
            else if JoinSegments(parts) == "" then x
            else JoinSegments(parts) + "/" + x
  {
    assert (parts + [x])[..|parts|] == parts;
  }

  /** Two non-empty segments are joined by one "/". */
  lemma PathJoinTwo(a: string, b: string)
    requires a != "" && b != ""
    ensures PathJoin([a, b]) == a + "/" + b
  {
    JoinSegmentsSnoc([], a);
    assert [] + [a] == [a];
    JoinSegmentsSnoc([a], b);
    assert [a] + [b] == [a, b];
  }

  /** Joining a joined path with one more segment joins all of them at
      once, unless the first join was empty. */
  lemma PathJoinNested(a: string, b: string, c: string)
    requires a != "" || b != ""
    ensures PathJoin([PathJoin([a, b]), c]) == PathJoin([a, b, c])
  {
    var j := JoinSegments([a, b]);
    assert j != "";
    JoinSegmentsSnoc([], j);
    assert [] + [j] == [j];
    JoinSegmentsSnoc([j], c);
    assert [j] + [c] == [j, c];
    JoinSegmentsSnoc([a, b], c);
    assert [a, b] + [c] == [a, b, c];
  }

  /** A path joined from parts ending in a non-empty segment ends with it. */
  lemma {:induction false} PathJoinEndsWith(parts: seq<string>, x: string)
    requires x != ""
    ensures exists p :: PathJoin(parts + [x]) == p + x
  {
    JoinSegmentsSnoc(parts, x);
    if JoinSegments(parts) == "" {
      assert PathJoin(parts + [x]) == "" + x;
    } else {
      assert PathJoin(parts + [x]) == (JoinSegments(parts) + "/") + x;
    }
  }

  predicate StartsWithTilde(s: string) {
    |s| > 0 && s[0] == '~'
  }

  /** `s[0] === '~' ? path.join(home, s.slice(1)) : s`: the home directory
      takes the place of the tilde; any other path is kept. */
  function ExpandTilde(s: string, home: string): (r: string)
    ensures !StartsWithTilde(s) ==> r == s
    ensures StartsWithTilde(s) && home != "" && !StartsWithTilde(home) ==> !StartsWithTilde(r)
  {
    if StartsWithTilde(s) then
      assert home != "" ==> PathJoin([home, s[1..]])[0] == home[0] by {
        if home != "" { PathJoinStartsWithFirst(home, s[1..]); }
      }
      PathJoin([home, s[1..]])
    else s
  }

  lemma PathJoinStartsWithFirst(a: string, b: string)
    requires a != ""
    ensures PathJoin([a, b])[0] == a[0]
  {
    JoinSegmentsSnoc([], a);
    assert [] + [a] == [a];
    JoinSegmentsSnoc([a], b);
    assert [a] + [b] == [a, b];
  }
}
