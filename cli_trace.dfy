/** What a run of the command line client (src/Cli.js) amounts to, stated
    on the milestones the world keeps beside its trace (`World.milestones`):
    the parts of `newCert`, each a predicate on the milestones it added. */
module CliTrace {
  import opened Outcomes
  import opened Octets
  import opened JsValues
  import opened Messages
  import opened Route53Records
  import opened Environment
  import Acme
  import Utf8
  import Link
  import Paths

  /** Milestones appended one part after another are the whole appended
      at once. */
  lemma Then(m: seq<Step>, done: seq<Step>, more: seq<Step>)
    ensures m + done + more == m + (done + more)
  {
  }

  /** The file `newCert` saves a certificate artefact to:
      `path.join(certDirectory, kind + "-" + timestamp + ".pem")`. */
  function CertFile(dir: string, kind: string, timestamp: string): string {
    Paths.PathJoin([dir, kind + "-" + timestamp + ".pem"])
  }

  /** Artefacts of different kinds go to different files, so long as no
      kind holds a "-": "key", "csr", "cert" and "chain" never overwrite
      one another. */
  lemma CertFilesDiffer(dir: string, kind1: string, kind2: string, timestamp: string)
    requires kind1 != kind2
    requires forall k :: 0 <= k < |kind1| ==> kind1[k] != '-'
    requires forall k :: 0 <= k < |kind2| ==> kind2[k] != '-'
    ensures CertFile(dir, kind1, timestamp) != CertFile(dir, kind2, timestamp)
  {
    var a, b := kind1 + "-" + timestamp + ".pem", kind2 + "-" + timestamp + ".pem";
    var i := NamesDiffer(kind1, kind2, timestamp);
    if dir == "" {
      Paths.JoinSegmentsSnoc([], dir);
      Paths.JoinSegmentsSnoc([dir], a);
      Paths.JoinSegmentsSnoc([dir], b);
      assert [] + [dir] == [dir] && [dir] + [a] == [dir, a] && [dir] + [b] == [dir, b];
    } else {
      Paths.PathJoinTwo(dir, a);
      Paths.PathJoinTwo(dir, b);
      assert (dir + "/" + a)[|dir| + 1 + i] == a[i];
      assert (dir + "/" + b)[|dir| + 1 + i] == b[i];
    }
  }

  /** Where the two file names first differ: inside the kinds, or where
      the shorter kind is followed by its "-". */
  lemma NamesDiffer(kind1: string, kind2: string, timestamp: string) returns (i: nat)
    requires kind1 != kind2
    requires forall k :: 0 <= k < |kind1| ==> kind1[k] != '-'
    requires forall k :: 0 <= k < |kind2| ==> kind2[k] != '-'
    ensures var a, b := kind1 + "-" + timestamp + ".pem", kind2 + "-" + timestamp + ".pem";
      i < |a| && i < |b| && a[i] != b[i]
  {
    var a, b := kind1 + "-" + timestamp + ".pem", kind2 + "-" + timestamp + ".pem";
    if k :| 0 <= k < |kind1| && k < |kind2| && kind1[k] != kind2[k] {
      i := k;
      assert a[i] == kind1[i] && b[i] == kind2[i];
    } else if |kind1| < |kind2| {
      i := |kind1|;
      assert a[i] == '-' && b[i] == kind2[i];
    } else {
      i := |kind2|;
      assert a[i] == kind1[i] && b[i] == '-';
    }
  }

  /** The first half of the DNS part of `newCert`: the authorization, whose
      body yields the challenge, and the TXT record with the challenge's
      digest created in the zone, and the wait until it is INSYNC. */
  predicate PublishSteps(s: seq<Step>, o: Oracles, key: AccountKey, domain: string, zone: string, ch: TxtChallenge) {
    |s| == 3 &&
    s[0].Requested? && s[0].url == NewAuthzUrl && s[0].payload == NewAuthzPayload(domain) &&
    Acme.ChallengeOf(o, key, s[0].response) == Ok(ch) &&
    s[1].RecordChanged? && s[1].request == CreateRequest(zone, domain, ch.hashedKeyAuth) &&
    s[2] == Synced(s[1].changeId)
  }

  /** The second half: the key authorization posted to the challenge's own
      URI, then the deletion of that same record and the wait. */
  predicate ConfirmSteps(s: seq<Step>, domain: string, zone: string, ch: TxtChallenge) {
    |s| == 3 &&
    s[0].Requested? && Acme.UrlOf(ch.uri) == Some(s[0].url) && s[0].payload == ChallengePayload(ch.keyAuth) &&
    s[1].RecordChanged? && s[1].request == DeleteRequest(zone, domain, ch.hashedKeyAuth) &&
    s[2] == Synced(s[1].changeId)
  }

  /** The DNS part of `newCert`: the record is published, the challenge is
      answered and the record is removed again, in this order. */
  predicate ControlSteps(s: seq<Step>, o: Oracles, key: AccountKey, domain: string, zone: string, ch: TxtChallenge) {
    |s| == 6 && PublishSteps(s[..3], o, key, domain, zone, ch) && ConfirmSteps(s[3..], domain, zone, ch)
  }

  lemma ControlOfHalves(p: seq<Step>, c: seq<Step>, o: Oracles, key: AccountKey, domain: string, zone: string, ch: TxtChallenge)
    requires PublishSteps(p, o, key, domain, zone, ch) && ConfirmSteps(c, domain, zone, ch)
    ensures ControlSteps(p + c, o, key, domain, zone, ch)
  {
    assert (p + c)[..3] == p && (p + c)[3..] == c;
  }

  /** The start of the issuing part of `newCert`: the certificate
      directory, a fresh key saved, and a CSR for the domain made from that
      key and saved. */
  predicate CsrSteps(s: seq<Step>, o: Oracles, domain: string, dir: string, timestamp: string) {
    |s| == 5 &&
    s[0] == DirectoryMade(dir) &&
    s[1].KeyGenerated? && s[2] == Saved(CertFile(dir, "key", timestamp), Utf8.Encode(s[1].pem)) &&
    s[3] == CsrGenerated(s[1].pem, domain) &&
    s[4].Saved? && s[4].path == CertFile(dir, "csr", timestamp) && o.csr(s[1].pem, domain) == Some(s[4].data)
  }

  /** The new-cert request with the CSR, and the certificate of its
      response, in PEM, saved. */
  predicate IssuedSteps(s: seq<Step>, o: Oracles, csr: seq<Byte>, dir: string, timestamp: string) {
    |s| == 2 &&
    s[0].Requested? && s[0].url == NewCertUrl && s[0].payload == NewCertPayload(csr) &&
    o.derToPem(s[0].response.body).Some? &&
    s[1] == Saved(CertFile(dir, "cert", timestamp), o.derToPem(s[0].response.body).value)
  }

  /** The issuing part of `newCert` as far as the certificate: the request
      carries the CSR that was saved. */
  predicate CertificateSteps(s: seq<Step>, o: Oracles, domain: string, dir: string, timestamp: string) {
    |s| == 7 && CsrSteps(s[..5], o, domain, dir, timestamp) && s[4].Saved? &&
    IssuedSteps(s[5..], o, s[4].data, dir, timestamp)
  }

  lemma CertificateOfParts(c: seq<Step>, i: seq<Step>, o: Oracles, domain: string, dir: string, timestamp: string)
    requires CsrSteps(c, o, domain, dir, timestamp) && IssuedSteps(i, o, c[4].data, dir, timestamp)
    ensures CertificateSteps(c + i, o, domain, dir, timestamp) && (c + i)[5] == i[0]
  {
    assert (c + i)[..5] == c && (c + i)[5..] == i;
  }

  /** The issuer URL of a new-cert response: the target of its `rel="up"`
      link. */
  function IssuerUrl(response: Response): Option<string> {
    match Header(response, "link")
    case None => None
    case Some(link) => Link.Target(link, "up")
  }

  /** The chain part: the issuer certificate fetched from the `up` link of
      the new-cert response and saved in PEM. */
  predicate ChainSteps(s: seq<Step>, o: Oracles, certResponse: Response, dir: string, timestamp: string) {
    IssuerUrl(certResponse).Some? &&
    var issuer := IssuerUrl(certResponse).value;
    if issuer == DirectoryUrl then
      |s| == 1 && s[0].Saved? && s[0].path == CertFile(dir, "chain", timestamp)
    else
      |s| == 2 && s[0].Fetched? && s[0].url == issuer &&
      o.derToPem(s[0].response.body).Some? &&
      s[1] == Saved(CertFile(dir, "chain", timestamp), o.derToPem(s[0].response.body).value)
  }
}
