/** The `Acme` class of src/Acme.js: the account key, once initialised, and
    the replay nonce (section 6.5 of RFC 8555) that every signed request
    consumes and every response renews. */
module Acme {
  import opened Outcomes
  import opened Octets
  import opened JsValues
  import opened Messages
  import opened Environment

  /** What a signed request leaves behind: its result, the trace and the
      nonce held afterwards. */
  datatype Exchange = Exchange(result: Outcome<Response>, trace: seq<Event>, nonce: Option<string>)

  /** The directory GET `signedRequest` makes first when it holds no nonce. */
  function NonceFetch(o: Oracles, t: seq<Event>, held: Option<string>): seq<Event> {
    if held.Some? then [] else [Exchanged(GetRequest(DirectoryUrl), o.ca(t, GetRequest(DirectoryUrl)))]
  }

  /** The nonce the request is built with: the one held, or else the
      `replay-nonce` header of the directory's answer (possibly absent). */
  function NonceInUse(o: Oracles, t: seq<Event>, held: Option<string>): Option<string> {
    if held.Some? then held else Header(o.ca(t, GetRequest(DirectoryUrl)), "replay-nonce")
  }

  /** `signedRequest(key, url, payload)` from trace `t` holding nonce
      `held`. The nonce is fetched before anything can fail; an undefined
      key throws when the header is built and a URL that is not a string
      throws in `url.parse`, both before the POST; after the POST the
      nonce is the response's `replay-nonce` header, whatever the status. */
  function SignedExchange(o: Oracles, t: seq<Event>, held: Option<string>, key: Option<AccountKey>,
                          url: Option<string>, payload: Json): Exchange
  {
    var t1 := t + NonceFetch(o, t, held);
    var used := NonceInUse(o, t, held);
    if key.None? then Exchange(Threw(TypeError("cannot read property publicExponent of undefined")), t1, used)
    else if url.None? then Exchange(Threw(TypeError("the url argument must be a string")), t1, used)
    else
      var request := PostRequest(url.value, payload, used, key.value);
      var response := o.ca(t1, request);
      Exchange(Ok(response), t1 + [Exchanged(request, response)], Header(response, "replay-nonce"))
  }

  /** A signed request only adds to the trace; it is posted exactly when
      the key and the URL are there, and otherwise throws a TypeError; the
      nonce held afterwards is the response's `replay-nonce`; when it
      throws, the nonce in use is kept. */
  lemma SignedExchangeSpec(o: Oracles, t: seq<Event>, held: Option<string>, key: Option<AccountKey>,
                           url: Option<string>, payload: Json)
    ensures var x := SignedExchange(o, t, held, key, url, payload);
      t <= x.trace &&
      (x.result.Ok? <==> key.Some? && url.Some?) &&
      (x.result.Threw? ==> x.result.fault.TypeError?) &&
      (x.result.Ok? ==> x.nonce == Header(x.result.value, "replay-nonce")) &&
      (x.result.Threw? ==> x.nonce == NonceInUse(o, t, held))
  {
  }

  /** The nonce is threaded: a request made right after another one uses
      the `replay-nonce` the first response carried, and goes back to the
      directory for a fresh one only when that header was absent. */
  lemma NonceThreaded(o: Oracles, t: seq<Event>, held: Option<string>, key: AccountKey,
                      url1: string, payload1: Json, url2: string, payload2: Json)
    ensures var x1 := SignedExchange(o, t, held, Some(key), Some(url1), payload1);
            var x2 := SignedExchange(o, x1.trace, x1.nonce, Some(key), Some(url2), payload2);
            var renewed := Header(x1.result.value, "replay-nonce");
            x2.result.Ok? &&
            (renewed.Some? ==> x2.trace == x1.trace + [Exchanged(PostRequest(url2, payload2, renewed, key), x2.result.value)]) &&
            (renewed.None? ==> |x2.trace| == |x1.trace| + 2 && x2.trace[|x1.trace|] == Exchanged(GetRequest(DirectoryUrl), o.ca(x1.trace, GetRequest(DirectoryUrl))))
  {
  }

  /** The nonce a request's protected header carries is the one in use. */
  lemma ProtectedNonce(o: Oracles, t: seq<Event>, held: Option<string>, key: AccountKey, url: string, payload: Json)
    ensures var x := SignedExchange(o, t, held, Some(key), Some(url), payload);
            var e := x.trace[|x.trace| - 1];
            e.Exchanged? && e.request.PostRequest? &&
            Base64.Decode(Base64.Restore(Signed(o, e.request).protected))
              == Some(Utf8.Encode(Compact(ProtectedHeader(NonceInUse(o, t, held), key)))) &&
            Lookup(ProtectedHeader(NonceInUse(o, t, held), key).members, "nonce")
              == if NonceInUse(o, t, held).Some? then Some(JString(NonceInUse(o, t, held).value)) else None
  {
  }

  /** The milestone a signed request leaves: its POST with the response,
      when it got as far as the POST. */
  function Posted(url: Option<string>, payload: Json, result: Outcome<Response>): seq<Step> {
    if result.Ok? && url.Some? then [Requested(url.value, payload, result.value)] else []
  }

  /** The `uri` of a challenge as `Request.postJson` takes it: `url.parse`
      throws on anything that is not a string. */
  function UrlOf(uri: Option<Json>): (r: Option<string>)
    ensures r.Some? <==> uri.Some? && uri.value.JString?
  {
    if uri.Some? && uri.value.JString? then Some(uri.value.s) else None
  }

  /** The rest of `newTxtCallenge` once the authorization response is in:
      its body parsed, the dns-01 challenge taken, the key authorization
      and its digest computed. */
  function ChallengeOf(o: Oracles, key: AccountKey, response: Response): Outcome<TxtChallenge> {
    match ExtractDnsChallenge(o.parse(response.body))
    case Threw(f) => Threw(f)
    case Ok(challenge) => TxtChallengeOf(o.sha256, key.thumbprint, challenge)
  }

  class Acme {
    var accountKey: Option<AccountKey>
    var nonce: Option<string>
    const world: World

    constructor (world: World)
      ensures accountKey == None && nonce == None && this.world == world
    {
      accountKey := None;
      nonce := None;
      this.world := world;
    }

    /** `getInitialNonce()`: the directory's `replay-nonce` header. */
    method GetInitialNonce() returns (n: Option<string>)
      modifies world`trace, world`milestones
      ensures world.trace == old(world.trace) + NonceFetch(world.o, old(world.trace), None)
      ensures n == NonceInUse(world.o, old(world.trace), None)
      ensures world.milestones == old(world.milestones)
    {
      var response := world.Send(GetRequest(DirectoryUrl));
      n := Header(response, "replay-nonce");
    }

    method SignedRequest(key: Option<AccountKey>, url: Option<string>, payload: Json) returns (r: Outcome<Response>)
      modifies this`nonce, world`trace, world`milestones
      ensures accountKey == old(accountKey)
      ensures Exchange(r, world.trace, nonce) == SignedExchange(world.o, old(world.trace), old(nonce), key, url, payload)
      ensures world.milestones == old(world.milestones) + Posted(url, payload, r)
    {
      ghost var x := SignedExchange(world.o, world.trace, nonce, key, url, payload);
      ghost var used := NonceInUse(world.o, world.trace, nonce);
      if nonce.None? {
        nonce := GetInitialNonce();
      }
      assert world.trace == old(world.trace) + NonceFetch(world.o, old(world.trace), old(nonce)) && nonce == used;
      if key.None? {
        r := Threw(TypeError("cannot read property publicExponent of undefined"));
        assert r == x.result && world.trace == x.trace && nonce == x.nonce;
        return;
      }
      if url.None? {
        r := Threw(TypeError("the url argument must be a string"));
        assert r == x.result && world.trace == x.trace && nonce == x.nonce;
        return;
      }
      var request := PostRequest(url.value, payload, nonce, key.value);
      var response := world.Send(request);
      nonce := Header(response, "replay-nonce");
      r := Ok(response);
      assert r == x.result && world.trace == x.trace && nonce == x.nonce;
    }

    /** `initalizeKey(key)`, from what openssl and the regular expression
        make of the key: an undefined key makes openssl fail, an output
        the pattern does not match throws a TypeError, and otherwise the
        account key is set. */
    method InitializeKey(key: Option<string>) returns (r: Outcome<()>)
      modifies this`accountKey
      ensures key.None? ==> r.Threw? && r.fault.OpensslFailure? && accountKey == old(accountKey)
      ensures key.Some? && world.o.rsaText(key.value).Unreadable? ==>
                r.Threw? && r.fault.OpensslFailure? && accountKey == old(accountKey)
      ensures key.Some? && world.o.rsaText(key.value).Unmatched? ==>
                r.Threw? && r.fault.TypeError? && accountKey == old(accountKey)
      ensures key.Some? && world.o.rsaText(key.value).Matched? ==>
                r == Ok(()) && accountKey == Some(MakeAccountKey(world.o.sha256, key.value, world.o.rsaText(key.value).text))
    {
      if key.None? {
        return Threw(OpensslFailure("openssl rsa -noout -text"));
      }
      match world.o.rsaText(key.value)
      case Unreadable =>
        return Threw(OpensslFailure("openssl rsa -noout -text"));
      case Unmatched =>
        return Threw(TypeError("cannot read property 1 of null"));
      case Matched(text) =>
        accountKey := Some(MakeAccountKey(world.o.sha256, key.value, text));
        return Ok(());
    }

    method RegisterAccountKey(email: Option<Json>) returns (r: Outcome<Response>)
      modifies this`nonce, world`trace, world`milestones
      ensures accountKey == old(accountKey)
      ensures Exchange(r, world.trace, nonce)
           == SignedExchange(world.o, old(world.trace), old(nonce), accountKey, Some(NewRegUrl), NewRegPayload(email))
      ensures world.milestones == old(world.milestones) + Posted(Some(NewRegUrl), NewRegPayload(email), r)
    {
      r := SignedRequest(accountKey, Some(NewRegUrl), NewRegPayload(email));
    }

    method GetRegistration(url: Option<string>) returns (r: Outcome<Response>)
      modifies this`nonce, world`trace, world`milestones
      ensures accountKey == old(accountKey)
      ensures Exchange(r, world.trace, nonce)
           == SignedExchange(world.o, old(world.trace), old(nonce), accountKey, url, RegPayload())
      ensures world.milestones == old(world.milestones) + Posted(url, RegPayload(), r)
    {
      r := SignedRequest(accountKey, url, RegPayload());
    }

    /** `hasNewAgreement(url)`: the registration is fetched, then its Link
        header and body decide. */
    method HasNewAgreement(url: Option<string>) returns (r: Outcome<Option<string>>)
      modifies this`nonce, world`trace, world`milestones
      ensures accountKey == old(accountKey)
      ensures var x := SignedExchange(world.o, old(world.trace), old(nonce), accountKey, url, RegPayload());
        world.trace == x.trace && nonce == x.nonce &&
        world.milestones == old(world.milestones) + Posted(url, RegPayload(), x.result) &&
        r == match x.result
             case Threw(f) => Threw(f)
             case Ok(response) => NewAgreement(Header(response, "link"), world.o.parse(response.body))
    {
      var registration := GetRegistration(url);
      match registration
      case Threw(f) =>
        return Threw(f);
      case Ok(response) =>
        return NewAgreement(Header(response, "link"), world.o.parse(response.body));
    }

    method UpdateRegistration(url: Option<string>, agreement: string) returns (r: Outcome<Response>)
      modifies this`nonce, world`trace, world`milestones
      ensures accountKey == old(accountKey)
      ensures Exchange(r, world.trace, nonce)
           == SignedExchange(world.o, old(world.trace), old(nonce), accountKey, url, UpdateRegPayload(agreement))
      ensures world.milestones == old(world.milestones) + Posted(url, UpdateRegPayload(agreement), r)
    {
      r := SignedRequest(accountKey, url, UpdateRegPayload(agreement));
    }

    method NewAuthorization(domain: string) returns (r: Outcome<Response>)
      modifies this`nonce, world`trace, world`milestones
      ensures accountKey == old(accountKey)
      ensures Exchange(r, world.trace, nonce)
           == SignedExchange(world.o, old(world.trace), old(nonce), accountKey, Some(NewAuthzUrl), NewAuthzPayload(domain))
      ensures world.milestones == old(world.milestones) + Posted(Some(NewAuthzUrl), NewAuthzPayload(domain), r)
    {
      r := SignedRequest(accountKey, Some(NewAuthzUrl), NewAuthzPayload(domain));
    }

    method NewCertificate(csr: seq<Byte>) returns (r: Outcome<Response>)
      modifies this`nonce, world`trace, world`milestones
      ensures accountKey == old(accountKey)
      ensures Exchange(r, world.trace, nonce)
           == SignedExchange(world.o, old(world.trace), old(nonce), accountKey, Some(NewCertUrl), NewCertPayload(csr))
      ensures world.milestones == old(world.milestones) + Posted(Some(NewCertUrl), NewCertPayload(csr), r)
    {
      r := SignedRequest(accountKey, Some(NewCertUrl), NewCertPayload(csr));
    }

    method RevokeCert(certificate: seq<Byte>) returns (r: Outcome<Response>)
      modifies this`nonce, world`trace, world`milestones
      ensures accountKey == old(accountKey)
      ensures Exchange(r, world.trace, nonce)
           == SignedExchange(world.o, old(world.trace), old(nonce), accountKey, Some(RevokeCertUrl), RevokeCertPayload(certificate))
      ensures world.milestones == old(world.milestones) + Posted(Some(RevokeCertUrl), RevokeCertPayload(certificate), r)
    {
      r := SignedRequest(accountKey, Some(RevokeCertUrl), RevokeCertPayload(certificate));
    }

    /** `newTxtCallenge(domain)`: a new authorization, then the dns-01
        challenge of its body and the key authorization for it. */
    method NewTxtChallenge(domain: string) returns (r: Outcome<TxtChallenge>)
      modifies this`nonce, world`trace, world`milestones
      ensures accountKey == old(accountKey)
      ensures var x := SignedExchange(world.o, old(world.trace), old(nonce), accountKey, Some(NewAuthzUrl), NewAuthzPayload(domain));
        world.trace == x.trace && nonce == x.nonce &&
        world.milestones == old(world.milestones) + Posted(Some(NewAuthzUrl), NewAuthzPayload(domain), x.result) &&
        (x.result.Threw? ==> r == Threw(x.result.fault)) &&
        (x.result.Ok? ==> accountKey.Some? && r == ChallengeOf(world.o, accountKey.value, x.result.value))
    {
      SignedExchangeSpec(world.o, world.trace, nonce, accountKey, Some(NewAuthzUrl), NewAuthzPayload(domain));
      var authorization := NewAuthorization(domain);
      match authorization
      case Threw(f) =>
        return Threw(f);
      case Ok(response) =>
        var key := if accountKey.Some? then accountKey.value else AccountKey("", "", "", "");
        return ChallengeOf(world.o, key, response);
    }

    /** `validateChallenge(challenge)`: the key authorization, posted to the
        challenge's own `uri`. */
    method ValidateChallenge(challenge: TxtChallenge) returns (r: Outcome<Response>)
      modifies this`nonce, world`trace, world`milestones
      ensures accountKey == old(accountKey)
      ensures Exchange(r, world.trace, nonce)
           == SignedExchange(world.o, old(world.trace), old(nonce), accountKey, UrlOf(challenge.uri), ChallengePayload(challenge.keyAuth))
      ensures world.milestones == old(world.milestones) + Posted(UrlOf(challenge.uri), ChallengePayload(challenge.keyAuth), r)
    {
      r := SignedRequest(accountKey, UrlOf(challenge.uri), ChallengePayload(challenge.keyAuth));
    }
  }
}
