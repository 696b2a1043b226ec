/** The slice of JavaScript value semantics the client relies on: values
    produced by `JSON.parse`, `JSON.stringify` (compact and indented),
    property reads such as `body.challenges` (which throw on `undefined` and
    `null`), `for ... of` iteration, truthiness, `String(x)` as used by `+`,
    and loose equality `==` / `!=` against a string.

    A JavaScript value that may be `undefined` is an `Option<Json>`; a member
    whose value is `undefined` is simply absent from the `JObject`, which is
    what `JSON.stringify` does with it. */
module JsValues {
  import opened Outcomes

  datatype Json =
    | JNull
    | JBool(b: bool)
    | JNumber(n: int)
    | JString(s: string)
    | JArray(items: seq<Json>)
    | JObject(members: seq<Member>)

  datatype Member = Member(key: string, value: Json)

  // ---------------------------------------------------------------------
  // Numbers and strings as JSON.stringify and String() render them

  function DigitChar(d: nat): (c: char)
    requires d < 10
    ensures '0' <= c <= '9' && c as int - '0' as int == d
  {
    ['0', '1', '2', '3', '4', '5', '6', '7', '8', '9'][d]
  }

  /** Decimal digits of a natural number, most significant first. */
  function NatToString(n: nat): (r: string)
    ensures |r| >= 1
    ensures forall k :: 0 <= k < |r| ==> '0' <= r[k] <= '9'
    ensures |r| > 1 ==> r[0] != '0'
  {
    if n < 10 then [DigitChar(n)] else NatToString(n / 10) + [DigitChar(n % 10)]
  }

  /** `String(n)` for an integral number. */
  function IntToString(n: int): (r: string)
    ensures |r| >= 1
    ensures r[0] == '-' <==> n < 0
  {
    if n < 0 then "-" + NatToString(-n) else NatToString(n)
  }

  /** The value of a string of decimal digits, as `Number(digits)` gives it
      when it is exact. */
  function DecimalValue(s: string): nat
    requires forall k :: 0 <= k < |s| ==> '0' <= s[k] <= '9'
  {
    if s == [] then 0 else DecimalValue(s[..|s| - 1]) * 10 + (s[|s| - 1] as int - '0' as int)
  }

  lemma {:induction false} DecimalValueOfNatToString(n: nat)
    ensures DecimalValue(NatToString(n)) == n
  {
    if n >= 10 {
      var s := NatToString(n);
      DecimalValueOfNatToString(n / 10);
      assert s[..|s| - 1] == NatToString(n / 10);
      assert s[|s| - 1] as int - '0' as int == n % 10;
      assert DecimalValue(s) == (n / 10) * 10 + n % 10;
    }
  }

  const HexDigits: string := "0123456789abcdef"

  /** JSON.stringify's escape of one character (QuoteJSONString in the
      ECMAScript specification). */
  function EscapeChar(c: char): (r: string)
    ensures |r| >= 1
    ensures r == [c] <==> NeedsNoEscape(c)
  {
    if c == '"' then "\\\""
    else if c == '\\' then "\\\\"
    else if c == '\U{0008}' then "\\b"
    else if c == '\t' then "\\t"
    else if c == '\n' then "\\n"
    else if c == '\U{000C}' then "\\f"
    else if c == '\r' then "\\r"
    else if (c as int) < 0x20 then "\\u00" + [HexDigits[c as int / 16], HexDigits[c as int % 16]]
    else [c]
  }

  predicate NeedsNoEscape(c: char) {
    c != '"' && c != '\\' && (c as int) >= 0x20
  }

  function Escape(s: string): (r: string)
    ensures |r| >= |s|
    ensures (forall k :: 0 <= k < |s| ==> NeedsNoEscape(s[k])) ==> r == s
    decreases |s|
  {
    if s == [] then [] else EscapeChar(s[0]) + Escape(s[1..])
  }

  /** A JSON string literal. A string none of whose characters needs an
      escape (every base64url string, every dotted nonce) is quoted as is. */
  function Quote(s: string): (r: string)
    ensures |r| >= |s| + 2 && r[0] == '"' && r[|r| - 1] == '"'
    ensures (forall k :: 0 <= k < |s| ==> NeedsNoEscape(s[k])) ==> r == "\"" + s + "\""
  {
    "\"" + Escape(s) + "\""
  }

  function Join(sep: string, parts: seq<string>): string {
    if parts == [] then ""
    else if |parts| == 1 then parts[0]
    else parts[0] + sep + Join(sep, parts[1..])
  }

  /** `JSON.stringify(v, null, space)` where `gap` is the indentation the
      `space` argument selects ("" for `0`, " " for `' '`) and `indent` is
      the current indentation. */
  function Stringify(v: Json, gap: string, indent: string): string
    decreases v, 1
  {
    match v
    case JNull => "null"
    case JBool(b) => if b then "true" else "false"
    case JNumber(n) => IntToString(n)
    case JString(s) => Quote(s)
    case JArray(items) => Bracket('[', ']', ItemTexts(v, 0, gap, indent + gap), gap, indent)
    case JObject(members) => Bracket('{', '}', MemberTexts(v, 0, gap, indent + gap), gap, indent)
  }

  /** The serialised items of an array from index `from` on. */
  function ItemTexts(v: Json, from: nat, gap: string, inner: string): (r: seq<string>)
    requires v.JArray? && from <= |v.items|
    ensures |r| == |v.items| - from
    decreases v, 0, |v.items| - from
  {
    if from == |v.items| then []
    else [Stringify(v.items[from], gap, inner)] + ItemTexts(v, from + 1, gap, inner)
  }

  /** The serialised `"key": value` members of an object from `from` on. */
  function MemberTexts(v: Json, from: nat, gap: string, inner: string): (r: seq<string>)
    requires v.JObject? && from <= |v.members|
    ensures |r| == |v.members| - from
    decreases v, 0, |v.members| - from
  {
    if from == |v.members| then []
    else
      var m := v.members[from];
      assert m.value < m;
      [Quote(m.key) + (if gap == "" then ":" else ": ") + Stringify(m.value, gap, inner)]
        + MemberTexts(v, from + 1, gap, inner)
  }

  /** An array or object body: compact when there is no gap, one part per
      line otherwise; empty ones are always `[]` / `{}`. */
  function Bracket(open: char, close: char, parts: seq<string>, gap: string, indent: string): string {
    if parts == [] then [open, close]
    else if gap == "" then [open] + Join(",", parts) + [close]
    else [open] + "\n" + indent + gap + Join(",\n" + indent + gap, parts) + "\n" + indent + [close]
  }

  /** Compact `JSON.stringify(v, null, 0)`. */
  function Compact(v: Json): string {
    Stringify(v, "", "")
  }

  /** One member of a compact object: `"key":value`. */
  function MemberText(m: Member): string {
    Quote(m.key) + ":" + Compact(m.value)
  }

  lemma Join3(sep: string, a: string, b: string, c: string)
    ensures Join(sep, [a, b, c]) == a + sep + b + sep + c
  {
    assert [a, b, c][1..] == [b, c];
    assert [b, c][1..] == [c];
    assert Join(sep, [b, c]) == b + sep + c;
  }

  lemma MemberTexts3(m0: Member, m1: Member, m2: Member)
    ensures MemberTexts(JObject([m0, m1, m2]), 0, "", "") == [MemberText(m0), MemberText(m1), MemberText(m2)]
  {
    var v := JObject([m0, m1, m2]);
    assert MemberTexts(v, 3, "", "") == [];
    assert MemberTexts(v, 2, "", "") == [MemberText(m2)];
    assert MemberTexts(v, 1, "", "") == [MemberText(m1), MemberText(m2)];
  }

  lemma CompactObject(v: Json)
    requires v.JObject?
    ensures Compact(v) == Bracket('{', '}', MemberTexts(v, 0, "", ""), "", "")
  {
    assert "" + "" == "";
  }

  /** A compact three-member object, member by member in order. */
  lemma CompactObject3(m0: Member, m1: Member, m2: Member)
    ensures Compact(JObject([m0, m1, m2]))
         == "{" + MemberText(m0) + "," + MemberText(m1) + "," + MemberText(m2) + "}"
  {
    var a, b, c := MemberText(m0), MemberText(m1), MemberText(m2);
    MemberTexts3(m0, m1, m2);
    CompactObject(JObject([m0, m1, m2]));
    Join3(",", a, b, c);
    Braced3(a, b, c);
  }

  lemma Braced3(a: string, b: string, c: string)
    ensures Bracket('{', '}', [a, b, c], "", "") == "{" + a + "," + b + "," + c + "}"
  {
    Join3(",", a, b, c);
  }

  /** A member whose key and string value need no escape. */
  lemma MemberTextPlain(k: string, v: string)
    requires forall i :: 0 <= i < |k| ==> NeedsNoEscape(k[i])
    requires forall i :: 0 <= i < |v| ==> NeedsNoEscape(v[i])
    ensures MemberText(Member(k, JString(v))) == "\"" + k + "\":\"" + v + "\""
  {
    assert Compact(JString(v)) == "\"" + v + "\"";
  }

  /** A string needing no escape is serialised between two quotes. */
  lemma CompactPlainString(s: string)
    requires forall k :: 0 <= k < |s| ==> NeedsNoEscape(s[k])
    ensures Compact(JString(s)) == "\"" + s + "\""
  {
  }

  // ---------------------------------------------------------------------
  // Reading values the way the client's JavaScript does

  /** The value of the last member named `key` (JSON.parse keeps the last
      of duplicate keys), or undefined. */
  function Lookup(members: seq<Member>, key: string): (r: Option<Json>)
    ensures r.None? <==> forall i :: 0 <= i < |members| ==> members[i].key != key
    ensures r.Some? ==> exists i :: 0 <= i < |members| && members[i] == Member(key, r.value)
  {
    if members == [] then None
    else if members[|members| - 1].key == key then Some(members[|members| - 1].value)
    else Lookup(members[..|members| - 1], key)
  }

  /** Looking up in an object extended by one member at the end. */
  lemma LookupSnoc(ms: seq<Member>, m: Member, key: string)
    ensures Lookup(ms + [m], key) == if m.key == key then Some(m.value) else Lookup(ms, key)
  {
    assert (ms + [m])[..|ms|] == ms;
  }

  /** `v.key`: a TypeError on `undefined` and `null`, the member on an
      object, and `undefined` on any other value (no key the client reads
      is a property of strings, numbers, booleans or arrays). */
  function Get(v: Option<Json>, key: string): (r: Outcome<Option<Json>>)
    ensures r.Threw? <==> v.None? || v.value.JNull?
    ensures r.Ok? && r.value.Some? ==> v.Some? && v.value.JObject?
  {
    match v
    case None => Threw(TypeError("cannot read property " + key + " of undefined"))
    case Some(JNull) => Threw(TypeError("cannot read property " + key + " of null"))
    case Some(JObject(ms)) => Ok(Lookup(ms, key))
    case Some(_) => Ok(None)
  }

  /** The elements `for (x of v)` visits: the items of an array, the
      characters of a string (each a one-character string); anything else
      is not iterable. */
  function Iterate(v: Option<Json>): (r: Outcome<seq<Json>>)
    ensures r.Ok? <==> v.Some? && (v.value.JArray? || v.value.JString?)
    ensures r.Ok? && v.value.JArray? ==> r.value == v.value.items
  {
    match v
    case Some(JArray(items)) => Ok(items)
    case Some(JString(s)) => Ok(seq(|s|, k requires 0 <= k < |s| => JString([s[k]])))
    case _ => Threw(TypeError("not iterable"))
  }

  /** JavaScript truthiness of a parsed value or undefined. */
  predicate Truthy(v: Option<Json>) {
    match v
    case None => false
    case Some(JNull) => false
    case Some(JBool(b)) => b
    case Some(JNumber(n)) => n != 0
    case Some(JString(s)) => s != ""
    case Some(_) => true
  }

  /** `String(v)`, what `+` appends: `undefined` becomes "undefined". */
  function ToJsString(v: Option<Json>): string {
    match v
    case None => "undefined"
    case Some(j) => JsonToJsString(j)
  }

  function JsonToJsString(j: Json): string
    decreases j
  {
    match j
    case JNull => "null"
    case JBool(b) => if b then "true" else "false"
    case JNumber(n) => IntToString(n)
    case JString(s) => s
    case JArray(items) =>
      Join(",", seq(|items|, i requires 0 <= i < |items| =>
        if items[i].JNull? then "" else JsonToJsString(items[i])))
    case JObject(_) => "[object Object]"
  }

  /** `v == s` for a string `s` (abstract equality), for the strings the
      client compares with: a string compares by content, an array or
      object through its string form, an integer with its canonical decimal
      text and a boolean with "1" or "0"; `undefined` and `null` equal no
      string. JavaScript also converts non-canonical numeric text ("",
      " 7", "010", "0x10", "1e1"), which this does not. */
  predicate LooseEqualsString(v: Option<Json>, s: string) {
    match v
    case None => false
    case Some(JNull) => false
    case Some(JString(t)) => t == s
    case Some(JNumber(n)) => s == IntToString(n)
    case Some(JBool(b)) => s == (if b then "1" else "0")
    case Some(j) => JsonToJsString(j) == s
  }

  lemma LooseEqualsStringOfString(t: string, s: string)
    ensures LooseEqualsString(Some(JString(t)), s) <==> t == s
  {
  }
}
