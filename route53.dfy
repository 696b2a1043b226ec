/** The `Route53` class of src/Route53.js: each method is one AWS call
    wrapped around the parameter construction and result matching of
    `Route53Records`. */
module Route53 {
  import opened Outcomes
  import opened Route53Records
  import opened Environment

  class Route53 {
    const world: World

    constructor (world: World)
      ensures this.world == world
    {
      this.world := world;
    }

    /** `findHostedZoneId(domain)`: the zones listed for the domain, then
        the first one whose name without trailing dots is the domain
        (`FindHostedZoneIdSpec`). */
    method FindHostedZoneId(domain: string) returns (id: Option<string>)
      modifies world`trace, world`milestones
      ensures var zones := world.o.zones(old(world.trace), domain);
        world.trace == old(world.trace) + [ListedZones(domain, zones)] &&
        world.milestones == old(world.milestones) + [ZonesListed(domain)] &&
        id == Route53Records.FindHostedZoneId(zones, domain)
    {
      var zones := world.ListHostedZonesByName(domain);
      id := Route53Records.FindHostedZoneId(zones, domain);
    }

    /** `isRecordIsInsync(changeId)`: true exactly when Route 53 reports
        the change as INSYNC. */
    method IsRecordInSync(changeId: string) returns (inSync: bool)
      modifies world`trace, world`milestones
      ensures var status := world.o.changeStatus(old(world.trace), changeId);
        world.trace == old(world.trace) + [Polled(changeId, status)] && (inSync <==> status == "INSYNC") &&
        world.milestones == old(world.milestones) + (if inSync then [Synced(changeId)] else [])
    {
      var status := world.GetChange(changeId);
      inSync := IsInSync(status);
    }

    /** `createChallengeTxtRecord(hostedZoneId, domain, value)`: the id of
        the change that creates the challenge record. */
    method CreateChallengeTxtRecord(hostedZoneId: string, domain: string, value: string) returns (changeId: string)
      modifies world`trace, world`milestones
      ensures changeId == world.o.changeId(old(world.trace), CreateRequest(hostedZoneId, domain, value))
      ensures world.trace == old(world.trace) + [Changed(CreateRequest(hostedZoneId, domain, value), changeId)]
      ensures world.milestones == old(world.milestones) + [RecordChanged(CreateRequest(hostedZoneId, domain, value), changeId)]
    {
      changeId := world.ChangeResourceRecordSets(CreateRequest(hostedZoneId, domain, value));
    }

    /** `deleteChallengeTxtRecord(hostedZoneId, domain, value)`: the id of
        the change that deletes it again. */
    method DeleteChallengeTxtRecord(hostedZoneId: string, domain: string, value: string) returns (changeId: string)
      modifies world`trace, world`milestones
      ensures changeId == world.o.changeId(old(world.trace), DeleteRequest(hostedZoneId, domain, value))
      ensures world.trace == old(world.trace) + [Changed(DeleteRequest(hostedZoneId, domain, value), changeId)]
      ensures world.milestones == old(world.milestones) + [RecordChanged(DeleteRequest(hostedZoneId, domain, value), changeId)]
    {
      changeId := world.ChangeResourceRecordSets(DeleteRequest(hostedZoneId, domain, value));
    }
  }
}
