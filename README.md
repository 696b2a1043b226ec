# letsencrypt-route53 in Dafny

A model of a small Node.js command line client. It obtains Let's Encrypt
certificates with the ACME v1 draft protocol, which later became RFC 8555,
and it answers the `dns-01` challenge by publishing a TXT record in an AWS
Route 53 hosted zone. The model covers four source files:

- `src/Acme.js`: the ACME client. The model covers the account key built
  from openssl's output (with the exponent padding corrected as the second
  Findings row below explains), the base64url encoding, the JWK and its thumbprint
  (section 3 of RFC 7638), the flattened JWS envelope (section 5.1 of
  RFC 7515), and the replay nonce (section 6.5 of RFC 8555). That nonce is
  fetched once and then renewed by every response. The model also covers
  the request payloads, the choice of the `dns-01` challenge with its key
  authorization and digest (sections 8.1 and 8.4 of RFC 8555), and the
  terms-of-service check.
- `src/Cli.js`: the `setup`, `newCert` and `revokeCert` commands, the
  INSYNC polling, the `rel="up"` Link parse and the timestamp.
- `src/Config.js`: the configuration directory with its `~` expansion, the
  account key path, the certificate directory with its quirk, and the
  `{email}` configuration file.
- `src/Route53.js`: hosted-zone matching, the TXT change batches and the
  INSYNC test.

The module layout:

- Pure logic lives in modules of datatypes, functions and lemmas: `Base64`,
  `Hex`, `Strings`, `Utf8`, `JsValues`, `Link`, `Paths`, `Messages` and
  `Route53Records`.
- The four source classes are Dafny classes whose methods update the
  source's fields: `Acme.Acme` holds `accountKey` and `nonce`,
  `Config.Config` holds `email`, and there are also `Route53.Route53` and
  `Cli.Cli`.
- Everything outside the client is one `Environment.World`: the CA over
  HTTPS, the AWS SDK, the file system, openssl, SHA-256, RSA signing and
  `JSON.parse`.
  - The world answers from oracle functions. An answer may depend on
    everything that happened before.
  - The world records each effect in a `trace`, and the ordered part of it
    in a ghost `milestones` sequence.
- What a command does is stated as predicates on the milestones it appends
  (`CliTrace`):
  - `newCert` does the new authorization, the TXT record, the wait, the
    challenge answer, the deletion of the same record, the wait, the key,
    the CSR, the new-cert request and the chain, in that order.
  - `setup` branches on the registration status.

## Model

| member | source | states |
|---|---|---|
| Base64.SafeEncode | src/Acme.js:14-17 | the encoding uses only the base64url alphabet, so never `+`, `/` or `=`, and an n-octet input gives the unpadded length (4n+2)/3 |
| Base64.SafeEncodeRoundTrip | src/Acme.js:14-17 | mapping `-` and `_` back, restoring the `=` padding and decoding as standard base64 gives back exactly the input octets |
| Messages.SafeEncodeText | src/Acme.js:39-41 | the base64url text of a JSON string (its UTF-8 octets) consists of base64url characters only |
| Hex.ExponentHex | src/Acme.js:89-92 | the padded exponent text is hex with an even number of digits: the hex of the exponent, or that with one `0` in front |
| Hex.ExponentHexOctets | src/Acme.js:89-92 | the padded exponent text decodes to octets whose big-endian value is the exponent, with no leading zero octet when it is positive |
| Hex.ExponentHexAgreement | src/Acme.js:89-92 | the text as written and the padded text are equal whenever the exponent's hex has an odd number of digits |
| Hex.ExponentHexUsual | src/Acme.js:89-92 | for 65537 both texts are `010001`, the octets 01 00 01 |
| Hex.ExponentHexAsWrittenSeventeen | src/Acme.js:89-92 | as written, exponent 17 becomes `011`, which decodes to the single octet 01; the padded text decodes to 17 |
| Messages.AccountKeyFacts | src/Acme.js:86-107 | the account key keeps the PEM text, its modulus holds no whitespace, and its thumbprint decodes to SHA-256 of the UTF-8 of the key's own compact JWK |
| Messages.AccountKeyExponent | src/Acme.js:86-107 | with the corrected padding of the Findings row, the key's exponent hex decodes to octets whose value is the decimal exponent openssl printed |
| Messages.Jwk | src/Acme.js:94-98 | the JWK has exactly the members `e`, `kty`, `n` in this order, and `kty` is `RSA` |
| Messages.JwkText | src/Acme.js:94-100 | the thumbprint input is the text `{"e":E,"kty":"RSA","n":N}` with no whitespace, where E and N are the base64url of the exponent octets and of the modulus octets, colons removed |
| Messages.JwsHeader | src/Acme.js:29-36 | the unprotected header has no `nonce` member, and its `jwk` is the key's JWK |
| Messages.ProtectedHeader | src/Acme.js:38 | the protected header has the nonce first, then the members of the unprotected header; it has a `nonce` member exactly when the nonce is defined, and an undefined nonce leaves the unprotected header |
| Messages.ProtectedHeaderText | src/Acme.js:38-39 | for a nonce that needs no escape, the protected header text is `{"nonce":N,"alg":"RS256","jwk":J}` with J the compact JWK |
| Messages.SameJwkEverywhere | src/Acme.js:29-38 | the `jwk` of the protected header and of the unprotected header are the same JWK, the one the thumbprint was computed over |
| Messages.Envelope | src/Acme.js:39-54 | the posted JWS carries the unprotected header; `protected` and `payload` decode to the UTF-8 of the compact protected header and payload; `signature` decodes to the RSA-SHA256 signature of `protected + "." + payload` under the account key |
| Acme.SignedExchangeSpec | src/Acme.js:24-61 | a signed request only appends to the trace; it is posted exactly when the key and the URL are defined; afterwards the nonce held is the response's `replay-nonce`, whatever the status; when it throws, the nonce in use is kept |
| Acme.NonceThreaded | src/Acme.js:26-59 | a second request right after a first uses the first response's `replay-nonce` and makes no directory GET; when that header was absent it first GETs the directory for a fresh nonce |
| Acme.ProtectedNonce | src/Acme.js:26-39 | the protected header of the POST decodes to the header built with the nonce in use, and its `nonce` member is that nonce, or absent when it is undefined |
| Acme.UrlOf | src/Acme.js:210 | a challenge `uri` is usable as a request URL exactly when it is a string |
| Acme.Acme.constructor | src/Acme.js:9-12 | no account key and no nonce are held |
| Acme.Acme.GetInitialNonce | src/Acme.js:19-22 | one directory GET is added to the trace, and the result is its `replay-nonce` header |
| Acme.Acme.SignedRequest | src/Acme.js:24-61 | the new trace, the nonce and the result are those of the signed exchange from the old trace and the old nonce; the account key is unchanged; a milestone is added exactly when the POST happened |
| Acme.Acme.InitializeKey | src/Acme.js:82-108 | an undefined or unreadable key is an openssl failure and output the pattern does not match is a TypeError, both leaving the key as it was; otherwise the account key is the one made from the captured modulus and exponent, with the corrected exponent padding |
| Acme.Acme.RegisterAccountKey | src/Acme.js:110-121 | the signed exchange of the new-reg payload, with contact `mailto:` plus the email, to the new-reg URL with the held account key |
| Acme.Acme.GetRegistration | src/Acme.js:123-129 | the signed exchange of `{resource: "reg"}` to the registration URL given |
| Acme.Acme.HasNewAgreement | src/Acme.js:131-139 | the registration is fetched; a failure propagates; otherwise the result is the Link header's terms-of-service target when the body's `agreement` differs from it, and `false` when it is the same |
| Acme.Acme.UpdateRegistration | src/Acme.js:141-148 | the signed exchange of `{resource: "reg", agreement}` to the registration URL |
| Acme.Acme.NewAuthorization | src/Acme.js:150-162 | the signed exchange of the new-authz payload with the DNS identifier of the domain |
| Acme.Acme.NewCertificate | src/Acme.js:164-173 | the signed exchange of the new-cert payload with the CSR to the new-cert URL |
| Acme.Acme.RevokeCert | src/Acme.js:175-184 | the signed exchange of the revoke-cert payload with the certificate to the revoke-cert URL |
| Acme.Acme.NewTxtChallenge | src/Acme.js:195-202 | one new-authz exchange; a failed exchange propagates; otherwise the result is the dns-01 challenge of the response body with its key authorization, computed with the held key's thumbprint |
| Acme.Acme.ValidateChallenge | src/Acme.js:204-211 | the signed exchange of `{resource: "challenge", keyAuthorization}` to the challenge's own `uri`; no POST when the `uri` is not a string |
| Messages.NewCertPayloadCsr | src/Acme.js:167-170 | the new-cert payload has resource `new-cert`, and its `csr` member decodes back to the CSR octets |
| Messages.RevokeCertPayloadCertificate | src/Acme.js:178-181 | the revoke-cert payload has resource `revoke-cert`, and its `certificate` member decodes back to the DER octets |
| Messages.FirstDnsChallengeSpec | src/Acme.js:187-192 | the search yields undefined exactly when every challenge is passed over; a challenge found has type `dns-01` and every earlier one does not; a TypeError comes from a `null` reached before any dns-01 challenge |
| Messages.ExtractDnsChallengeSpec | src/Acme.js:186-193 | a body that is not JSON throws a SyntaxError, an object whose `challenges` is an array is searched in order, and an object without `challenges` throws |
| Messages.TxtChallengeOfSpec | src/Acme.js:198-201 | only an undefined or null challenge throws; otherwise the key authorization is the token, a dot and the thumbprint, the TXT value decodes to SHA-256 of that key authorization, and the `uri` is passed through unchanged |
| Messages.TxtChallengeOfToken | src/Acme.js:199-201 | for a string token the key authorization is exactly `token.thumbprint`, and a 32-octet digest gives a 43-character TXT value |
| Messages.NewAgreement | src/Acme.js:133-138 | a missing Link header, or one without a terms-of-service link, throws; a URL returned is that link's target |
| Messages.NewAgreementDecision | src/Acme.js:133-138 | with such a link and a registration object, the result is `false` exactly when the accepted agreement equals the link's target, and that target otherwise |
| Link.LineTargetSpec | src/Cli.js:160 | on one line, `.*<(.*)>;rel="REL".*` captures nothing exactly when no `<` precedes a marker; otherwise it captures the text between the latest `<` and the latest marker after it, as greedy matching does |
| Link.TargetAt | src/Cli.js:160 | given where the last marker on a line is, and the last `<` before it, the capture is the text between them |
| Link.TargetOfLink | src/Cli.js:160 | in a header with `<URL>;rel="REL"` and no later link of that relation, the target is URL, whatever surrounds it |
| Cli.Timestamp | src/Cli.js:136 | the timestamp holds no `-`, `:` or `.` and is no longer than the ISO time |
| Cli.TimestampSnoc | src/Cli.js:136 | each further character of the ISO time is kept at the end of the timestamp unless it is `-`, `:` or `.` |
| Cli.Refusal | src/Cli.js:186-189 | a body that is not JSON, or is null, throws; an object body yields the report of its `status` and `detail` |
| CliTrace.CertFilesDiffer | src/Cli.js:142-162 | files of different kinds in one run are different files whenever no kind holds a `-`, so the key, CSR, certificate and chain never overwrite one another |
| Cli.Cli.constructor | src/Cli.js:9-13 | the three collaborators share the world, the configuration has its default names, and no key, nonce or email is held |
| Cli.Cli.StoredKey | src/Cli.js:43-50 | the account key text is defined exactly when the key file exists |
| Cli.Cli.WaitForRecord | src/Cli.js:21-32 | only polls of this change are added; it returns only after a poll found the change INSYNC, which is then the last poll; the only other ending is an interruption after the poll limit |
| Cli.Cli.MkdirSync | src/Cli.js:34-41 | the directory exists afterwards unless a file of that name does; an existing directory is no error |
| Cli.Cli.AdoptEmail | src/Cli.js:59-64 | whatever the configuration file held, the email afterwards is the one given |
| Cli.Cli.SaveConfig | src/Cli.js:55-65 | the configuration directory is made; with a truthy email `config.json` is written with it; otherwise nothing is written and InvalidConfig is thrown |
| Cli.Cli.EnsureKey | src/Cli.js:67-76 | a stored key is used and nothing happens; otherwise a new key is generated and saved at the account key path |
| Cli.Cli.Prepare | src/Cli.js:55-76 | the configuration part of `setup`: directory, configuration file, then a key generated and saved only when none could be read; the key in use is the stored one or the new one |
| Cli.Cli.Agree | src/Cli.js:92-98 | without a `location` URL nothing is posted and a TypeError is thrown; otherwise the registration is fetched, a fault reading its links ends the run after that request, and the agreement is updated exactly when a new agreement URL was returned, and with that URL |
| Cli.Cli.Register | src/Cli.js:80-98 | new-reg; statuses 201 and 409 go on to the agreement part with the `location` header; any other status stops there with the ReferenceError of the log line; both branches hold whatever the result |
| Cli.Cli.Enroll | src/Cli.js:78-98 | the registration is posted exactly when openssl's text of the key matches; otherwise the command throws with the trace unchanged; when it matches, the account key is the one made from that text and the registration goes as `Register` says |
| Cli.Cli.Setup | src/Cli.js:52-100 | the email given replaces the stored one; the configuration is saved, or the email is rejected before anything is written; a key is generated only when none could be read; the registration is posted exactly when the stored or generated key's openssl text matches, and then the account key in use is the one made from that key and the registration follows the status branch; otherwise the command throws |
| Cli.Cli.Start | src/Cli.js:105-118 | without a stored key nothing happens; a stored key whose openssl text does not match throws before any call; without a hosted zone for the domain only the zone listing and the exit happen; otherwise the zone found is the first matching one and the account key in use is the one made from the stored key |
| Cli.Cli.CreateRecord | src/Cli.js:123-125 | the creation of the challenge TXT record with the digest, then the INSYNC of that change |
| Cli.Cli.DeleteRecord | src/Cli.js:132-134 | the deletion of the same TXT record, then the INSYNC of that change |
| Cli.Cli.Publish | src/Cli.js:121-125 | the new authorization, whose body yields the challenge, then the record with its digest created and in sync |
| Cli.Cli.Confirm | src/Cli.js:127-134 | the key authorization posted to the challenge's `uri`, then the same record deleted and in sync |
| Cli.Cli.Control | src/Cli.js:121-134 | the DNS part of `newCert`: new-authz, create, sync, validate, delete with the same digest, sync, in this order |
| Cli.Cli.MakeKey | src/Cli.js:137-144 | the certificate directory is made, and a fresh key is generated and saved as `key-TIMESTAMP.pem` in it |
| Cli.Cli.MakeCsr | src/Cli.js:137-150 | after the key, a CSR for the domain is made from that key and saved as `csr-TIMESTAMP.pem`; the result is the saved CSR |
| Cli.Cli.RequestCertificate | src/Cli.js:152-157 | the new-cert request carries the CSR, and the PEM of the response body is saved as `cert-TIMESTAMP.pem` |
| Cli.Cli.SaveCertificate | src/Cli.js:136-157 | key, CSR, new-cert and certificate file in this order, where the new-cert request carries the CSR that was saved |
| Cli.Cli.FetchChain | src/Cli.js:159-165 | the issuer URL is the `rel="up"` target of the new-cert response (a TypeError without one); the issuer certificate is fetched from it and saved in PEM as `chain-TIMESTAMP.pem` |
| Cli.Cli.FetchChainAsWritten | src/Cli.js:159-161 | the chain part as written always throws a TypeError |
| Cli.Cli.Issue | src/Cli.js:121-165 | after the zone: the DNS steps, then the certificate steps, then the chain steps, and the issuer is the `up` target of the new-cert response |
| Cli.Cli.NewCert | src/Cli.js:102-166 | it ends with no account key exactly when none is stored, with no hosted zone exactly when the key is usable and no zone serves the domain, and throws with nothing done when the key is unusable; no CA call without an account key or a hosted zone; otherwise the zone listing, then the DNS steps with the account key made from the stored key, the certificate and the chain, in this order |
| Cli.Cli.NewCertAsWritten | src/Cli.js:102-166 | the same early exits as `NewCert`, each exactly in its case; the command as written never ends with a certificate and chain saved |
| Cli.Cli.Revoke | src/Cli.js:178-189 | exactly one revoke-cert request with the DER certificate; whatever the outcome, status 200 gives Revoked and any other status the report of the body's `status` and `detail` (or its parse or lookup fault) |
| Cli.Cli.RevokeCert | src/Cli.js:168-190 | the path is expanded with HOME when it starts with `~`; a missing or unreadable stored key, a missing certificate file or a failed PEM to DER conversion throws before any request; otherwise the account key is the one made from the stored key, exactly one revoke request carries the DER of that file, and status 200 gives Revoked while any other status gives the report of the body |
| Paths.ExpandTilde | src/Config.js:12-17 | a path without a leading `~` is kept as it is; an expanded one does not start with `~` when HOME is non-empty and does not either |
| Config.AccountKeyPathInConfigDirectory | src/Config.js:19-24 | the account key path is the configuration directory joined with the key file name, in both branches |
| Config.ConfigFileIsNotKeyFile | src/Config.js:19-24 | `config.json` and the account key are different files |
| Config.CertDirectoryInConfigDirectory | src/Config.js:26-31 | with a leading `~`, the certificate directory is the configuration directory joined with the domain |
| Config.CertDirectoryQuirk | src/Config.js:26-31 | without a leading `~`, the first character is dropped: directory `certs` gives `erts/example.com` |
| Config.ConfigJson | src/Config.js:33-38 | the configuration object's `email` reads back as the email held, and an undefined email gives no member |
| Config.EmailOf | src/Config.js:40-43 | text that is not JSON throws a SyntaxError, and reading `email` throws exactly on that or on `null` |
| Config.ConfigFileText | src/Config.js:61-65 | the file written holds the email on a line of its own, indented by one space |
| Config.ConfigFileEmailAt | src/Config.js:61-65 | the email sits in the file text between a fixed 13-character opening and a fixed 3-character closing |
| Config.ConfigFileInjective | src/Config.js:61-65 | two emails that need no escaping never give the same file text |
| Config.ConfigFileRoundTrip | src/Config.js:33-43 | for a parser that reads back what was written, loading the saved configuration gives the same email |
| Config.Config.constructor | src/Config.js:6-10 | the default directory `~.letsencrypt-certs`, `config.json`, `accountKey.pem`, and no email |
| Config.Config.SetConfigJson | src/Config.js:40-43 | the email becomes the parsed `email`; text that is not JSON, or is `null`, throws and changes nothing |
| Config.Config.LoadConfigFile | src/Config.js:45-53 | true exactly when the file exists and its email could be read, and the email is then that one; otherwise false and the email is unchanged |
| Config.Config.ValidateConfig | src/Config.js:55-59 | throws exactly when the email is falsy |
| Config.Config.SaveConfigFile | src/Config.js:61-65 | with a falsy email nothing is written and the trace is unchanged; otherwise `config.json` in the configuration directory holds the serialised `{email}` |
| Config.Config.SetEmail | src/Config.js:67-73 | afterwards `getEmail()` returns the email set |
| Route53Records.ZoneDomain | src/Route53.js:15 | the stripped name is a prefix of the name, does not end in `.`, and only dots were removed |
| Route53Records.ZoneDomainOfDotted | src/Route53.js:15 | a domain followed by any number of dots strips back to the domain |
| Route53Records.ZoneDomainExample | src/Route53.js:15 | `a.b..` becomes `a.b` |
| Route53Records.FindHostedZoneIdSpec | src/Route53.js:14-19 | undefined exactly when no zone's stripped name equals the domain; otherwise the id of the first zone whose stripped name does |
| Route53Records.ChallengeRecordValue | src/Route53.js:37-46 | the record is a TXT record named `_acme-challenge.` plus the domain, holding one value: the challenge value in double quotes and nothing else |
| Route53Records.CreateDeleteDiffer | src/Route53.js:31-80 | the create and delete requests are for the same zone and the same record set, and differ only in the action and the comment, which only the creation carries |
| Route53.Route53.constructor | src/Route53.js:5-7 | the client acts on the given world |
| Route53.Route53.FindHostedZoneId | src/Route53.js:9-21 | one zone listing for the domain, and the id of the first listed zone that matches |
| Route53.Route53.IsRecordInSync | src/Route53.js:23-29 | one status poll, and true exactly when the status is `INSYNC` |
| Route53.Route53.CreateChallengeTxtRecord | src/Route53.js:31-55 | one change with the create request, and its change id |
| Route53.Route53.DeleteChallengeTxtRecord | src/Route53.js:57-80 | one change with the delete request, and its change id |

## Left out

- Console output is not modelled. `process.exit` is an `Ended` milestone.
- `process.env.HOME` is the world's `home`, and is always defined.
- `Date().toISOString()` is an input string.
- The CA transport (src/Request.js) and the AWS SDK are oracles of the world. Their errors (network failures, AWS exceptions, a missing `ChangeInfo`) are not modelled: every call answers.
- The openssl subprocesses are oracles. The CSR, the DER/PEM conversions and `openssl rsa -noout -text` (together with its regular expression) may fail; key generation (`openssl genrsa`) always answers with a key, so its failure is not modelled.
- Messages.MakeAccountKey: the public exponent's decimal text is read exactly. `Number(...)` in src/Acme.js:89 loses precision above 2^53, which the model does not reproduce; openssl's usual exponents (3, 17, 65537) are far below it.
- SHA-256 and RSA-SHA256 signing are uninterpreted functions.
- `JSON.parse` of a CA body or of the configuration file is an oracle returning a parsed value or nothing.
- JSON numbers are integers, because the client never reads a fractional one.
- Strings are sequences of Unicode scalar values. JavaScript's lone UTF-16 surrogates are not represented.
- `path.join` drops empty segments and joins the rest with `/`. It does not normalise `.`, `..` or repeated slashes.
- `url.parse` is reduced to its one failure that matters here: a challenge `uri` that is not a string throws.
- `fs.mkdirSync` has no other error than EEXIST here, which the client ignores. A missing parent directory or a permission error is not modelled, and `fs.writeFileSync` never fails.
- Cli.Cli.WaitForRecord: the source polls for ever, one second apart. The model stops after the world's `pollLimit` polls with `Interrupted`, which stands for the process being stopped from outside.
- Cli.Cli.NewCert: the milestones are stated for the three normal endings. When an exception ends the command part way, the contract states the result but not which milestones were reached.
- Cli.Cli.NewCertAsWritten: the early exits are stated as in `NewCert`, and so is the fact that it never ends with a chain saved; the milestones of a run that reaches the CA are not stated.
- Cli.Cli.Enroll: when the account key cannot be initialised, the fault's kind is not stated; `Acme.Acme.InitializeKey` states it.
- Messages.AccountKeyExponent: holds for the corrected exponent padding only. As written (src/Acme.js:89-92), an exponent whose hex has an even number of digits, such as 17, is published as a different value (1); see the Findings row.
- Acme.Acme.InitializeKey: the account key is built with the corrected exponent padding of the Findings row, not the padding as written; for the usual exponent 65537 the two agree (`Hex.ExponentHexAgreement`).
- Config.ConfigFileRoundTrip: `JSON.parse` is an oracle, so that it reads back what `JSON.stringify` wrote is taken as the requires, not proved; `Config.ConfigFileInjective` shows that inverse is well defined for emails that need no escaping.
- Hex.Decode: follows Node 8 and later, where a final unpaired hex digit is dropped; Node 7 threw "Invalid hex string" instead.
- JsValues.LooseEqualsString: only canonical decimal text equals a number; JavaScript's conversion of "", whitespace, "010", "0x10" or "1e1" to a number is not modelled.
- Cli.Cli.FetchChain: when the `up` target is the CA's directory URL, only the saved chain file is stated. That GET is a nonce fetch in the trace and no milestone.
- The `delay` helper of src/Cli.js and the commander wiring in src/letsencrypt-route53.js are not part of this model.
- Cli.Cli.RevokeCert: the certificate argument is always a string; `revokeCert()` called with no argument, where `certificate[0]` throws a TypeError (src/Cli.js:172), is not modelled.
- The `generatePrivateKey`, `generateCSR`, `convertDERtoPEM` and `convertPEMtoDER` wrappers in src/Acme.js are only calls to openssl, so each is one oracle of the world.

## Findings

| source | as written | input that shows it | evidently intended | confidence | as-written member | corrected member |
|---|---|---|---|---|---|---|
| src/Cli.js:161 | `newCert` calls `this.acme.getIssuerCert(issuerCertUrl)`, which the ACME client does not define, so the call throws a TypeError after the certificate has been saved and the chain is never written | any run that gets a certificate, with a Link header holding `<https://acme-v01.api.letsencrypt.org/acme/issuer-cert>;rel="up"` | fetch the issuer certificate from the `up` URL and save it in PEM as `chain-TIMESTAMP.pem` | not executed | Cli.Cli.NewCertAsWritten | Cli.Cli.NewCert |
| src/Acme.js:90-91 | `!(keyPublicExponent.lenght % 2)` has two defects: it reads a misspelt property, so the test is always true and a `0` is always prefixed; and it is inverted, since with the spelling fixed `!(length % 2)` pads the EVEN-length case. An exponent whose hex has an even number of digits gets an odd-length text, whose last digit `Buffer` drops (Node 8 and later; Node 7 threw) | exponent 17: hex `11` becomes `011`, which decodes to the single octet 01, so the JWK and the thumbprint publish exponent 1 | prefix `0` only when the hex has an odd number of digits (`length % 2 == 1`), so the text decodes to the exponent's own octets | not executed | Hex.ExponentHexAsWrittenSeventeen | Hex.ExponentHexOctets |
