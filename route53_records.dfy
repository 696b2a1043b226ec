/** The decisions src/Route53.js makes around its AWS calls: which hosted
    zone belongs to a domain, the change batch that creates or deletes the
    `_acme-challenge` TXT record, and when a change counts as propagated. */
module Route53Records {
  import opened Outcomes
  import opened Strings

  /** One entry of `ListHostedZonesByName`: the zone's name, which Route 53
      writes with a trailing dot, and its id. */
  datatype HostedZone = HostedZone(name: string, id: string)

  /** `name.replace(/\.+$/, "")` */
  function ZoneDomain(name: string): (r: string)
    ensures r <= name
    ensures |r| == 0 || r[|r| - 1] != '.'
    ensures forall k :: |r| <= k < |name| ==> name[k] == '.'
  {
    StripTrailing(name, '.')
  }

  predicate Serves(zone: HostedZone, domain: string) {
    ZoneDomain(zone.name) == domain
  }

  /** The loop of `findHostedZoneId`: the id of the first zone whose name,
      trailing dots removed, is exactly the domain; undefined when none is. */
  function FindHostedZoneId(zones: seq<HostedZone>, domain: string): Option<string> {
    if zones == [] then None
    else if Serves(zones[0], domain) then Some(zones[0].id)
    else FindHostedZoneId(zones[1..], domain)
  }

  /** No zone found exactly when no zone serves the domain; a zone found is
      the first one that serves it. */
  lemma {:induction false} FindHostedZoneIdSpec(zones: seq<HostedZone>, domain: string)
    ensures var r := FindHostedZoneId(zones, domain);
      (r.None? <==> forall i :: 0 <= i < |zones| ==> !Serves(zones[i], domain)) &&
      (r.Some? ==> exists i :: 0 <= i < |zones| && Serves(zones[i], domain) && zones[i].id == r.value &&
                               forall j :: 0 <= j < i ==> !Serves(zones[j], domain))
  {
    if zones != [] && !Serves(zones[0], domain) {
      var rest := zones[1..];
      FindHostedZoneIdSpec(rest, domain);
      assert forall i :: 0 < i < |zones| ==> zones[i] == rest[i - 1];
      var r := FindHostedZoneId(rest, domain);
      if r.Some? {
        var i :| 0 <= i < |rest| && Serves(rest[i], domain) && rest[i].id == r.value &&
                 forall j :: 0 <= j < i ==> !Serves(rest[j], domain);
        assert Serves(zones[i + 1], domain) && zones[i + 1].id == r.value;
        assert forall j :: 0 <= j < i + 1 ==> !Serves(zones[j], domain) by {
          forall j | 0 < j < i + 1 ensures !Serves(zones[j], domain) {
            assert zones[j] == rest[j - 1];
          }
        }
      }
    }
  }

  /** Every trailing dot goes, and only the trailing dots: a name that is
      the domain followed by dots is served, whatever the number of dots. */
  lemma ZoneDomainOfDotted(domain: string, dots: nat)
    requires |domain| == 0 || domain[|domain| - 1] != '.'
    ensures ZoneDomain(domain + Repeat('.', dots)) == domain
  {
    StripTrailingAfterRun(domain, '.', dots);
  }

  lemma ZoneDomainExample()
    ensures ZoneDomain("a.b..") == "a.b"
  {
    assert "a.b.." == "a.b" + Repeat('.', 2);
    ZoneDomainOfDotted("a.b", 2);
  }

  /** The record set of the challenge: name, type, the one quoted value,
      TTL. */
  datatype ResourceRecordSet = ResourceRecordSet(name: string, kind: string, values: seq<string>, ttl: nat)

  datatype Change = Change(action: string, recordSet: ResourceRecordSet)

  datatype ChangeBatch = ChangeBatch(changes: seq<Change>, comment: Option<string>)

  /** The parameters of `changeResourceRecordSets`. */
  datatype ChangeRequest = ChangeRequest(batch: ChangeBatch, hostedZoneId: string)

  /** The TXT record that carries a dns-01 value (section 8.4 of RFC 8555):
      the value in double quotes, as a TXT string is written in a zone. */
  function ChallengeRecordSet(domain: string, value: string): ResourceRecordSet {
    ResourceRecordSet("_acme-challenge." + domain, "TXT", ["\"" + value + "\""], 300)
  }

  /** The record is named under `_acme-challenge.` of the domain and holds
      one string: the value, which its quotes give back, with no other
      character around it. */
  lemma ChallengeRecordValue(domain: string, value: string)
    ensures var r := ChallengeRecordSet(domain, value);
      r.kind == "TXT" && |r.values| == 1 && |r.values[0]| == |value| + 2 &&
      r.values[0][0] == '"' && r.values[0][|r.values[0]| - 1] == '"' &&
      r.values[0][1..|r.values[0]| - 1] == value &&
      r.name[..|"_acme-challenge."|] == "_acme-challenge." && r.name[|"_acme-challenge."|..] == domain
  {
    var q := "\"" + value + "\"";
    assert q[1..|q| - 1] == value;
  }

  /** The parameters of `createChallengeTxtRecord`. */
  function CreateRequest(hostedZoneId: string, domain: string, value: string): ChangeRequest {
    ChangeRequest(ChangeBatch([Change("CREATE", ChallengeRecordSet(domain, value))],
                              Some("LetsEncrypt validation record")), hostedZoneId)
  }

  /** The parameters of `deleteChallengeTxtRecord`. */
  function DeleteRequest(hostedZoneId: string, domain: string, value: string): ChangeRequest {
    ChangeRequest(ChangeBatch([Change("DELETE", ChallengeRecordSet(domain, value))], None), hostedZoneId)
  }

  /** The deletion removes exactly the record set the creation added: the
      two requests differ in the action and the comment and in nothing
      else. */
  lemma CreateDeleteDiffer(hostedZoneId: string, domain: string, value: string)
    ensures var c := CreateRequest(hostedZoneId, domain, value);
            var d := DeleteRequest(hostedZoneId, domain, value);
            c != d && c.hostedZoneId == d.hostedZoneId &&
            c.batch.changes[0].recordSet == d.batch.changes[0].recordSet &&
            c.batch.changes[0].action == "CREATE" && d.batch.changes[0].action == "DELETE" &&
            d == ChangeRequest(ChangeBatch([Change("DELETE", c.batch.changes[0].recordSet)], None), c.hostedZoneId)
  {
  }

  /** `result.ChangeInfo.Status == 'INSYNC'` */
  predicate IsInSync(status: string) {
    status == "INSYNC"
  }
}
