/** The pure part of the ACME v1 client (src/Acme.js): the account key
    record, the JWK and JWS values of section 5.1 of RFC 7515, the JWK
    thumbprint of section 3 of RFC 7638, the request payloads, the choice of
    the `dns-01` challenge and its key authorization (sections 8.1 and 8.4
    of RFC 8555), and the terms-of-service check on a registration.

    SHA-256 and RSA-SHA256 are parameters (`sha256`, `sign`): the model
    says what they are applied to, never what they compute. */
module Messages {
  import opened Outcomes
  import opened Octets
  import opened Strings
  import Base64
  import Utf8
  import opened JsValues
  import Hex
  import Link

  const CA: string := "https://acme-v01.api.letsencrypt.org"
  const DirectoryUrl: string := CA + "/directory"
  const NewRegUrl: string := CA + "/acme/new-reg"
  const NewAuthzUrl: string := CA + "/acme/new-authz"
  const NewCertUrl: string := CA + "/acme/new-cert"
  const RevokeCertUrl: string := CA + "/acme/revoke-cert"

  /** `base64SafeEncode` of a string: the string's UTF-8 octets, encoded. */
  function SafeEncodeText(s: string): (r: string)
    ensures forall k :: 0 <= k < |r| ==> Base64.IsUrlChar(r[k])
  {
    Base64.SafeEncode(Utf8.Encode(s))
  }

  /** A base64url string needs no escape inside a JSON string literal. */
  lemma UrlCharsNeedNoEscape(s: string)
    requires forall k :: 0 <= k < |s| ==> Base64.IsUrlChar(s[k])
    ensures forall k :: 0 <= k < |s| ==> NeedsNoEscape(s[k])
  {
  }

  // ---------------------------------------------------------------------
  // The account key

  type Digits = s: string | forall k :: 0 <= k < |s| ==> '0' <= s[k] <= '9'

  /** What the client's regular expression captures from the text of
      `openssl rsa -noout -text`: the modulus lines after "00:" and the
      decimal public exponent. */
  datatype RsaText = RsaText(modulusText: string, exponentDigits: Digits)

  /** `this.accountKey` once set: the PEM text, the modulus hex (colons
      kept), the exponent hex and the JWK thumbprint. */
  datatype AccountKey = AccountKey(key: string, modulus: string, publicExponent: string, thumbprint: string)

  /** The JWK of an RSA public key with the members in the order the
      client writes them, which is also the lexicographic order section 3
      of RFC 7638 prescribes for the thumbprint input. */
  function Jwk(publicExponent: string, modulus: string): (r: Json)
    ensures r.JObject? && |r.members| == 3
    ensures r.members[0].key == "e" && r.members[1].key == "kty" && r.members[2].key == "n"
    ensures r.members[1].value == JString("RSA")
  {
    JObject([
      Member("e", JString(Base64.SafeEncode(Hex.Decode(publicExponent)))),
      Member("kty", JString("RSA")),
      Member("n", JString(Base64.SafeEncode(Hex.Decode(Without(modulus, {':'})))))])
  }

  /** The thumbprint input as text: no whitespace, members e, kty, n. */
  lemma JwkText(publicExponent: string, modulus: string)
    ensures var e := Base64.SafeEncode(Hex.Decode(publicExponent));
            var n := Base64.SafeEncode(Hex.Decode(Without(modulus, {':'})));
            Compact(Jwk(publicExponent, modulus)) == "{\"e\":\"" + e + "\",\"kty\":\"RSA\",\"n\":\"" + n + "\"}"
  {
    var e := Base64.SafeEncode(Hex.Decode(publicExponent));
    var n := Base64.SafeEncode(Hex.Decode(Without(modulus, {':'})));
    UrlCharsNeedNoEscape(e);
    UrlCharsNeedNoEscape(n);
    JwkTextOf(e, n);
  }

  lemma JwkTextOf(e: string, n: string)
    requires forall k :: 0 <= k < |e| ==> NeedsNoEscape(e[k])
    requires forall k :: 0 <= k < |n| ==> NeedsNoEscape(n[k])
    ensures Compact(JObject([Member("e", JString(e)), Member("kty", JString("RSA")), Member("n", JString(n))]))
         == "{\"e\":\"" + e + "\",\"kty\":\"RSA\",\"n\":\"" + n + "\"}"
  {
    var me, mk, mn := Member("e", JString(e)), Member("kty", JString("RSA")), Member("n", JString(n));
    CompactObject3(me, mk, mn);
    JwkMemberTexts(e, n);
    JwkShape(e, n);
  }

  lemma JwkMemberTexts(e: string, n: string)
    requires forall k :: 0 <= k < |e| ==> NeedsNoEscape(e[k])
    requires forall k :: 0 <= k < |n| ==> NeedsNoEscape(n[k])
    ensures MemberText(Member("e", JString(e))) == "\"" + "e" + "\":\"" + e + "\""
    ensures MemberText(Member("kty", JString("RSA"))) == "\"" + "kty" + "\":\"" + "RSA" + "\""
    ensures MemberText(Member("n", JString(n))) == "\"" + "n" + "\":\"" + n + "\""
  {
    MemberTextPlain("e", e);
    KtyText();
    MemberTextPlain("n", n);
  }

  lemma KtyText()
    ensures MemberText(Member("kty", JString("RSA"))) == "\"" + "kty" + "\":\"" + "RSA" + "\""
  {
    MemberTextPlain("kty", "RSA");
  }

  lemma JwkShape(e: string, n: string)
    ensures "{" + ("\"" + "e" + "\":\"" + e + "\"") + "," + ("\"" + "kty" + "\":\"" + "RSA" + "\"") + ","
        + ("\"" + "n" + "\":\"" + n + "\"") + "}"
         == "{\"e\":\"" + e + "\",\"kty\":\"RSA\",\"n\":\"" + n + "\"}"
  {
  }

  /** `initalizeKey` after the openssl call: whitespace is removed from the
      captured modulus, the exponent is written in hex padded to whole
      octets, and the thumbprint is base64url(SHA-256(JWK text)). */
  function MakeAccountKey(sha256: seq<Byte> -> seq<Byte>, pem: string, text: RsaText): AccountKey {
    var modulus := Without(text.modulusText, JsWhitespace);
    var exponent := Hex.ExponentHex(JsValues.DecimalValue(text.exponentDigits));
    AccountKey(pem, modulus, exponent, Base64.SafeEncode(sha256(Utf8.Encode(Compact(Jwk(exponent, modulus))))))
  }

  /** A key made from openssl's text keeps the PEM, holds a modulus free of
      whitespace, and its thumbprint decodes to the digest of its own JWK. */
  lemma AccountKeyFacts(sha256: seq<Byte> -> seq<Byte>, pem: string, text: RsaText)
    ensures var k := MakeAccountKey(sha256, pem, text);
      k.key == pem &&
      (forall i :: 0 <= i < |k.modulus| ==> k.modulus[i] !in JsWhitespace) &&
      Base64.Decode(Base64.Restore(k.thumbprint)) == Some(sha256(Utf8.Encode(Compact(Jwk(k.publicExponent, k.modulus)))))
  {
    var k := MakeAccountKey(sha256, pem, text);
    Base64.SafeEncodeRoundTrip(sha256(Utf8.Encode(Compact(Jwk(k.publicExponent, k.modulus)))));
  }

  /** The exponent of a key made from openssl's text decodes to octets
      whose value is the decimal exponent openssl printed. */
  lemma AccountKeyExponent(sha256: seq<Byte> -> seq<Byte>, pem: string, text: RsaText)
    ensures Hex.BytesValue(Hex.Decode(MakeAccountKey(sha256, pem, text).publicExponent))
         == JsValues.DecimalValue(text.exponentDigits)
  {
    Hex.ExponentHexOctets(JsValues.DecimalValue(text.exponentDigits));
  }

  // ---------------------------------------------------------------------
  // The JWS envelope

  /** The unprotected header: algorithm and key, no nonce. */
  function JwsHeader(key: AccountKey): (r: Json)
    ensures r.JObject? && Lookup(r.members, "nonce") == None
    ensures Lookup(r.members, "jwk") == Some(Jwk(key.publicExponent, key.modulus))
  {
    JObject([Member("alg", JString("RS256")), Member("jwk", Jwk(key.publicExponent, key.modulus))])
  }

  /** The first of three members is found when the two after it have
      other names. */
  lemma LookupFirstOfThree(m0: Member, m1: Member, m2: Member, key: string)
    requires m0.key == key && m1.key != key && m2.key != key
    ensures Lookup([m0, m1, m2], key) == Some(m0.value)
  {
    assert [m0, m1, m2][..2] == [m0, m1];
    assert Lookup([m0, m1, m2], key) == Lookup([m0, m1], key);
    assert [m0, m1][..1] == [m0];
    assert Lookup([m0, m1], key) == Lookup([m0], key);
  }

  /** `Object.assign({nonce}, jwsHeader)`: the nonce first, then the
      header's members; an undefined nonce is left out when serialised. */
  function ProtectedHeader(nonce: Option<string>, key: AccountKey): (r: Json)
    ensures r.JObject?
    ensures Lookup(r.members, "nonce") == (if nonce.Some? then Some(JString(nonce.value)) else None)
    ensures nonce.Some? ==> r.members == [Member("nonce", JString(nonce.value))] + JwsHeader(key).members
    ensures nonce.None? ==> r == JwsHeader(key)
  {
    match nonce
    case Some(n) =>
      var mn, ma, mj := Member("nonce", JString(n)), Member("alg", JString("RS256")),
                        Member("jwk", Jwk(key.publicExponent, key.modulus));
      LookupFirstOfThree(mn, ma, mj, "nonce");
      assert [mn, ma, mj] == [mn] + JwsHeader(key).members;
      JObject([mn, ma, mj])
    case None => JwsHeader(key)
  }

  /** The flattened JWS the client posts. */
  datatype Jws = Jws(header: Json, protected: string, payload: string, signature: string)

  /** The JWS signing input of section 5.1 of RFC 7515. */
  function SigningInput(protected: string, payload: string): string {
    protected + "." + payload
  }

  function Envelope(sign: (string, seq<Byte>) -> seq<Byte>, key: AccountKey,
                    nonce: Option<string>, payload: Json): (j: Jws)
    ensures j.header == JwsHeader(key)
    ensures Base64.Decode(Base64.Restore(j.protected)) == Some(Utf8.Encode(Compact(ProtectedHeader(nonce, key))))
    ensures Base64.Decode(Base64.Restore(j.payload)) == Some(Utf8.Encode(Compact(payload)))
    ensures Base64.Decode(Base64.Restore(j.signature))
         == Some(sign(key.key, Utf8.Encode(SigningInput(j.protected, j.payload))))
  {
    var protected := SafeEncodeText(Compact(ProtectedHeader(nonce, key)));
    var body := SafeEncodeText(Compact(payload));
    var signature := sign(key.key, Utf8.Encode(SigningInput(protected, body)));
    Base64.SafeEncodeRoundTrip(Utf8.Encode(Compact(ProtectedHeader(nonce, key))));
    Base64.SafeEncodeRoundTrip(Utf8.Encode(Compact(payload)));
    Base64.SafeEncodeRoundTrip(signature);
    Jws(JwsHeader(key), protected, body, Base64.SafeEncode(signature))
  }

  lemma ProtectedJwk(nonce: Option<string>, key: AccountKey)
    ensures Lookup(ProtectedHeader(nonce, key).members, "jwk") == Some(Jwk(key.publicExponent, key.modulus))
  {
    if nonce.Some? {
      var p := ProtectedHeader(nonce, key);
      assert p.members[..|p.members| - 1] == [p.members[0], p.members[1]];
    }
  }

  /** The JWK in the protected header is the one in the unprotected
      header, and the thumbprint was computed over that same JWK. */
  lemma SameJwkEverywhere(sha256: seq<Byte> -> seq<Byte>, pem: string, text: RsaText, nonce: Option<string>)
    ensures var key := MakeAccountKey(sha256, pem, text);
      Lookup(ProtectedHeader(nonce, key).members, "jwk") == Lookup(JwsHeader(key).members, "jwk")
      == Some(Jwk(key.publicExponent, key.modulus))
  {
    ProtectedJwk(nonce, MakeAccountKey(sha256, pem, text));
  }

  /** The protected header as text: `{"nonce":N,"alg":"RS256","jwk":{...}}`
      for a nonce that needs no escape (a base64url nonce). */
  lemma ProtectedHeaderText(nonce: string, key: AccountKey)
    requires forall k :: 0 <= k < |nonce| ==> NeedsNoEscape(nonce[k])
    ensures Compact(ProtectedHeader(Some(nonce), key))
         == "{\"nonce\":\"" + nonce + "\",\"alg\":\"RS256\",\"jwk\":" + Compact(Jwk(key.publicExponent, key.modulus)) + "}"
  {
    ProtectedTextOf(nonce, Jwk(key.publicExponent, key.modulus));
  }

  lemma ProtectedTextOf(nonce: string, jwk: Json)
    requires forall k :: 0 <= k < |nonce| ==> NeedsNoEscape(nonce[k])
    ensures Compact(JObject([Member("nonce", JString(nonce)), Member("alg", JString("RS256")), Member("jwk", jwk)]))
         == "{\"nonce\":\"" + nonce + "\",\"alg\":\"RS256\",\"jwk\":" + Compact(jwk) + "}"
  {
    var mn, ma, mj := Member("nonce", JString(nonce)), Member("alg", JString("RS256")), Member("jwk", jwk);
    var a, b, c := MemberText(mn), MemberText(ma), MemberText(mj);
    assert Compact(JObject([mn, ma, mj])) == "{" + a + "," + b + "," + c + "}" by {
      CompactObject3(mn, ma, mj);
    }
    assert a == "\"" + "nonce" + "\":\"" + nonce + "\"" by {
      NonceText(nonce);
    }
    assert b == "\"" + "alg" + "\":\"" + "RS256" + "\"" by {
      AlgText();
    }
    assert c == "\"jwk\"" + ":" + Compact(jwk) by {
      JwkMemberText(jwk);
    }
    ProtectedShape(a, b, c, nonce, Compact(jwk));
  }

  lemma NonceText(nonce: string)
    requires forall k :: 0 <= k < |nonce| ==> NeedsNoEscape(nonce[k])
    ensures MemberText(Member("nonce", JString(nonce))) == "\"" + "nonce" + "\":\"" + nonce + "\""
  {
    MemberTextPlain("nonce", nonce);
  }

  lemma AlgText()
    ensures MemberText(Member("alg", JString("RS256"))) == "\"" + "alg" + "\":\"" + "RS256" + "\""
  {
    MemberTextPlain("alg", "RS256");
  }

  lemma JwkMemberText(jwk: Json)
    ensures MemberText(Member("jwk", jwk)) == "\"jwk\"" + ":" + Compact(jwk)
  {
    assert Quote("jwk") == "\"jwk\"";
  }

  lemma ProtectedShape(a: string, b: string, c: string, nonce: string, j: string)
    requires a == "\"" + "nonce" + "\":\"" + nonce + "\""
    requires b == "\"" + "alg" + "\":\"" + "RS256" + "\""
    requires c == "\"jwk\"" + ":" + j
    ensures "{" + a + "," + b + "," + c + "}" == "{\"nonce\":\"" + nonce + "\",\"alg\":\"RS256\",\"jwk\":" + j + "}"
  {
  }

  // ---------------------------------------------------------------------
  // Payloads

  /** `registerAccountKey`: the contact is `"mailto:" + email`, whatever
      the email is (`+` renders undefined as "undefined"). */
  function NewRegPayload(email: Option<Json>): Json {
    JObject([Member("resource", JString("new-reg")),
             Member("contact", JArray([JString("mailto:" + ToJsString(email))]))])
  }

  /** `getRegistration` */
  function RegPayload(): Json {
    JObject([Member("resource", JString("reg"))])
  }

  /** `updateRegistration`: the agreement accepted. */
  function UpdateRegPayload(agreement: string): Json {
    JObject([Member("resource", JString("reg")), Member("agreement", JString(agreement))])
  }

  /** `newAuthorization`: a DNS identifier. */
  function NewAuthzPayload(domain: string): Json {
    JObject([Member("resource", JString("new-authz")),
             Member("identifier", JObject([Member("type", JString("dns")), Member("value", JString(domain))]))])
  }

  /** `newCertificate`: the CSR, base64url-encoded. */
  function NewCertPayload(csr: seq<Byte>): Json {
    JObject([Member("resource", JString("new-cert")), Member("csr", JString(Base64.SafeEncode(csr)))])
  }

  /** The `csr` member of a new-cert payload decodes back to the CSR. */
  lemma NewCertPayloadCsr(csr: seq<Byte>)
    ensures var r := NewCertPayload(csr);
      Lookup(r.members, "resource") == Some(JString("new-cert")) &&
      Lookup(r.members, "csr").Some? && Lookup(r.members, "csr").value.JString? &&
      Base64.Decode(Base64.Restore(Lookup(r.members, "csr").value.s)) == Some(csr)
  {
    Base64.SafeEncodeRoundTrip(csr);
  }

  /** `revokeCert`: the DER certificate, base64url-encoded. */
  function RevokeCertPayload(der: seq<Byte>): Json {
    JObject([Member("resource", JString("revoke-cert")), Member("certificate", JString(Base64.SafeEncode(der)))])
  }

  /** The `certificate` member of a revocation payload decodes back to the
      DER certificate. */
  lemma RevokeCertPayloadCertificate(der: seq<Byte>)
    ensures var r := RevokeCertPayload(der);
      Lookup(r.members, "resource") == Some(JString("revoke-cert")) &&
      Lookup(r.members, "certificate").Some? && Lookup(r.members, "certificate").value.JString? &&
      Base64.Decode(Base64.Restore(Lookup(r.members, "certificate").value.s)) == Some(der)
  {
    Base64.SafeEncodeRoundTrip(der);
  }

  /** `validateChallenge`: the key authorization. */
  function ChallengePayload(keyAuth: string): Json {
    JObject([Member("resource", JString("challenge")), Member("keyAuthorization", JString(keyAuth))])
  }

  // ---------------------------------------------------------------------
  // The dns-01 challenge

  /** `challenge.type == "dns-01"` on a challenge that is not null. */
  predicate IsDnsChallenge(c: Json)
    requires !c.JNull?
  {
    LooseEqualsString(Get(Some(c), "type").value, "dns-01")
  }

  /** Challenges the loop passes over without stopping. */
  predicate Skipped(cs: seq<Json>, n: int)
    requires 0 <= n <= |cs|
  {
    forall j :: 0 <= j < n ==> !cs[j].JNull? && !IsDnsChallenge(cs[j])
  }

  /** The loop of `extractDnsChallenge`: the first challenge whose type is
      "dns-01", undefined when there is none, and a TypeError at the first
      `null` met before one is found. */
  function FirstDnsChallenge(cs: seq<Json>): Outcome<Option<Json>> {
    if cs == [] then Ok(None)
    else if cs[0].JNull? then Threw(TypeError("cannot read property type of null"))
    else if IsDnsChallenge(cs[0]) then Ok(Some(cs[0]))
    else FirstDnsChallenge(cs[1..])
  }

  /** Undefined exactly when the loop passes over every challenge; a
      challenge found is a dns-01 challenge that every earlier one is not;
      a TypeError comes from a null reached before any dns-01 challenge. */
  lemma {:induction false} FirstDnsChallengeSpec(cs: seq<Json>)
    ensures var r := FirstDnsChallenge(cs);
      (r == Ok(None) <==> Skipped(cs, |cs|)) &&
      (r.Ok? && r.value.Some? ==>
        exists i :: 0 <= i < |cs| && Skipped(cs, i) && cs[i] == r.value.value && !cs[i].JNull? && IsDnsChallenge(cs[i])) &&
      (r.Threw? ==> exists i :: 0 <= i < |cs| && Skipped(cs, i) && cs[i].JNull?)
  {
    if cs == [] {
    } else if cs[0].JNull? {
      assert Skipped(cs, 0);
      assert !Skipped(cs, |cs|);
    } else if IsDnsChallenge(cs[0]) {
      assert Skipped(cs, 0);
      assert !Skipped(cs, |cs|);
    } else {
      var rest := cs[1..];
      FirstDnsChallengeSpec(rest);
      assert forall n :: 0 <= n <= |rest| ==> (Skipped(rest, n) <==> Skipped(cs, n + 1)) by {
        forall n | 0 <= n <= |rest| ensures Skipped(rest, n) <==> Skipped(cs, n + 1) {
          assert forall j :: 0 <= j < n ==> rest[j] == cs[j + 1];
          if Skipped(cs, n + 1) {
            assert forall j :: 0 <= j < n + 1 ==> !cs[j].JNull? && !IsDnsChallenge(cs[j]);
          }
          if Skipped(rest, n) {
            forall j | 0 <= j < n + 1 ensures !cs[j].JNull? && !IsDnsChallenge(cs[j]) {
              if j > 0 { assert cs[j] == rest[j - 1]; }
            }
          }
        }
      }
      var r := FirstDnsChallenge(rest);
      if r.Ok? && r.value.Some? {
        var i :| 0 <= i < |rest| && Skipped(rest, i) && rest[i] == r.value.value && !rest[i].JNull? && IsDnsChallenge(rest[i]);
        assert cs[i + 1] == r.value.value && Skipped(cs, i + 1);
      } else if r.Threw? {
        var i :| 0 <= i < |rest| && Skipped(rest, i) && rest[i].JNull?;
        assert cs[i + 1].JNull? && Skipped(cs, i + 1);
      }
    }
  }

  /** `extractDnsChallenge` on the parsed authorization body (None when
      the body is not JSON): `challenges` must be iterable. */
  function ExtractDnsChallenge(parsed: Option<Json>): Outcome<Option<Json>> {
    match parsed
    case None => Threw(SyntaxError)
    case Some(body) =>
      match Get(parsed, "challenges")
      case Threw(f) => Threw(f)
      case Ok(cs) =>
        match Iterate(cs)
        case Threw(f) => Threw(f)
        case Ok(items) => FirstDnsChallenge(items)
  }

  /** A body that is not JSON throws; an object whose `challenges` is an
      array is searched by the loop; one without `challenges` throws. */
  lemma ExtractDnsChallengeSpec(parsed: Option<Json>)
    ensures var r := ExtractDnsChallenge(parsed);
      (parsed.None? ==> r == Threw(SyntaxError)) &&
      ((parsed.Some? && parsed.value.JObject? && Lookup(parsed.value.members, "challenges").Some? &&
        Lookup(parsed.value.members, "challenges").value.JArray?) ==>
         r == FirstDnsChallenge(Lookup(parsed.value.members, "challenges").value.items)) &&
      (parsed.Some? && parsed.value.JObject? && Lookup(parsed.value.members, "challenges").None? ==> r.Threw?)
  {
  }

  /** The key authorization of section 8.1 of RFC 8555 and its digest, as
      the TXT record of section 8.4 carries it. */
  datatype TxtChallenge = TxtChallenge(hashedKeyAuth: string, keyAuth: string, uri: Option<Json>)

  function KeyAuthorization(token: string, thumbprint: string): string {
    token + "." + thumbprint
  }

  /** The rest of `newTxtCallenge` once the challenge is chosen: reading
      `token` of an undefined challenge throws; a token that is not a
      string is converted as `+` does. */
  function TxtChallengeOf(sha256: seq<Byte> -> seq<Byte>, thumbprint: string, challenge: Option<Json>): Outcome<TxtChallenge> {
    match Get(challenge, "token")
    case Threw(f) => Threw(f)
    case Ok(token) =>
      var keyAuth := ToJsString(token) + "." + thumbprint;
      Ok(TxtChallenge(Base64.SafeEncode(sha256(Utf8.Encode(keyAuth))), keyAuth, Get(challenge, "uri").value))
  }

  /** Only an undefined or null challenge throws; otherwise the key
      authorization is the token, a dot and the thumbprint, the TXT value
      decodes to the digest of that key authorization, and the URI is the
      challenge's own. */
  lemma TxtChallengeOfSpec(sha256: seq<Byte> -> seq<Byte>, thumbprint: string, challenge: Option<Json>)
    ensures var r := TxtChallengeOf(sha256, thumbprint, challenge);
      (r.Threw? <==> challenge.None? || challenge.value.JNull?) &&
      (r.Ok? ==> r.value.uri == Get(challenge, "uri").value) &&
      (r.Ok? ==> r.value.keyAuth == ToJsString(Get(challenge, "token").value) + "." + thumbprint) &&
      (r.Ok? ==> Base64.Decode(Base64.Restore(r.value.hashedKeyAuth)) == Some(sha256(Utf8.Encode(r.value.keyAuth))))
  {
    var r := TxtChallengeOf(sha256, thumbprint, challenge);
    if r.Ok? {
      Base64.SafeEncodeRoundTrip(sha256(Utf8.Encode(r.value.keyAuth)));
    }
  }

  /** For a challenge whose token is a string, the key authorization is
      exactly `token.thumbprint`, and a 32-octet digest gives a 43-character
      TXT value. */
  lemma TxtChallengeOfToken(sha256: seq<Byte> -> seq<Byte>, thumbprint: string, members: seq<Member>, token: string)
    requires Lookup(members, "token") == Some(JString(token))
    requires |sha256(Utf8.Encode(KeyAuthorization(token, thumbprint)))| == 32
    ensures var r := TxtChallengeOf(sha256, thumbprint, Some(JObject(members)));
      r.Ok? && r.value.keyAuth == KeyAuthorization(token, thumbprint) &&
      r.value.uri == Lookup(members, "uri") && |r.value.hashedKeyAuth| == 43
  {
  }

  // ---------------------------------------------------------------------
  // The terms of service

  /** `hasNewAgreement` after the registration is fetched: the
      terms-of-service link target from the Link header (a TypeError when
      the header is absent or has none), then the parsed body's
      `agreement`; the target is returned when the two are not loosely
      equal, `false` (None) otherwise. */
  function NewAgreement(link: Option<string>, parsedBody: Option<Json>): (r: Outcome<Option<string>>)
    ensures link.None? ==> r.Threw?
    ensures link.Some? && Link.Target(link.value, "terms-of-service").None? ==> r.Threw?
    ensures r.Ok? && r.value.Some? ==> link.Some? && Link.Target(link.value, "terms-of-service") == r.value
  {
    match link
    case None => Threw(TypeError("cannot read property match of undefined"))
    case Some(h) =>
      match Link.Target(h, "terms-of-service")
      case None => Threw(TypeError("cannot read property 1 of null"))
      case Some(latest) =>
        match parsedBody
        case None => Threw(SyntaxError)
        case Some(_) =>
          match Get(parsedBody, "agreement")
          case Threw(f) => Threw(f)
          case Ok(accepted) => if LooseEqualsString(accepted, latest) then Ok(None) else Ok(Some(latest))
  }

  /** With a well-formed Link header and a registration object, a new
      agreement is reported exactly when the accepted one differs. */
  lemma NewAgreementDecision(link: string, members: seq<Member>, accepted: Option<string>)
    requires Link.Target(link, "terms-of-service").Some?
    requires Lookup(members, "agreement") == (if accepted.Some? then Some(JString(accepted.value)) else None)
    ensures var latest := Link.Target(link, "terms-of-service").value;
      NewAgreement(Some(link), Some(JObject(members)))
        == if accepted == Some(latest) then Ok(None) else Ok(Some(latest))
  {
  }
}
