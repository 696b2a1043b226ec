/** The `Cli` class of src/Cli.js: the `setup`, `newCert` and `revokeCert`
    commands, each a sequence of effects on the ACME client, the
    configuration, Route 53 and the file system. What a command did is
    stated on the milestones of the trace (`CliTrace.Steps`). */
module Cli {
  import opened Outcomes
  import opened Octets
  import opened JsValues
  import opened Messages
  import opened Route53Records
  import opened Environment
  import opened CliTrace
  import Strings
  import Paths
  import Utf8
  import Config
  import Acme
  import Route53

  /** `new Date().toISOString().replace(/[-:..]/g, '')` for the given ISO
      time: the character class holds `-`, `:` and `.`, and all of them go. */
  function Timestamp(iso: string): (r: string)
    ensures forall k :: 0 <= k < |r| ==> r[k] != '-' && r[k] != ':' && r[k] != '.'
    ensures |r| <= |iso|
  {
    Strings.Without(iso, {'-', ':', '.'})
  }

  /** The timestamp is built left to right: one more character of the ISO
      time is kept at the end unless it is `-`, `:` or `.`. */
  lemma TimestampSnoc(iso: string, c: char)
    ensures Timestamp(iso + [c]) == Timestamp(iso) + (if c in {'-', ':', '.'} then [] else [c])
  {
    Strings.WithoutAppend(iso, [c], {'-', ':', '.'});
    assert [c][1..] == [];
  }

  /** The email given on the command line as `config.email` holds it. */
  function EmailJson(email: Option<string>): (r: Option<Json>)
    ensures r.None? <==> email.None?
    ensures Truthy(r) <==> email.Some? && email.value != ""
  {
    if email.Some? then Some(JString(email.value)) else None
  }

  /** `if (x)` on a string or undefined. */
  predicate Present(s: Option<string>) {
    s.Some? && s.value != ""
  }

  /** How `newCert` can stop before it reaches the CA. */
  datatype Start = KeyMissing | ZoneMissing | ZoneFound(zone: string)

  /** How `newCert` ends without an exception: no account key, no hosted
      zone (the process exits), or a certificate and its chain saved. */
  datatype NewCertEnd = NoAccountKey | NoHostedZone | Issued(zone: string, challenge: TxtChallenge, issuer: string)

  /** What `revokeCert` reports. */
  datatype Revocation = Revoked | Refused(status: string, detail: string)

  /** The report for a revocation the CA refused, from the parsed body:
      `body.status` and `body.detail` as `+` renders them. */
  function Refusal(parsed: Option<Json>): (r: Outcome<Revocation>)
    ensures parsed.None? ==> r == Threw(SyntaxError)
    ensures r.Threw? <==> parsed.None? || parsed.value.JNull?
    ensures parsed.Some? && parsed.value.JObject? ==>
      r == Ok(Refused(ToJsString(Lookup(parsed.value.members, "status")), ToJsString(Lookup(parsed.value.members, "detail"))))
  {
    if parsed.None? then Threw(SyntaxError)
    else
      match Get(parsed, "status")
      case Threw(f) => Threw(f)
      case Ok(status) => Ok(Refused(ToJsString(status), ToJsString(Get(parsed, "detail").value)))
  }

  /** The first part of `setup`: the configuration directory made, the
      configuration saved, and a new account key generated and saved when
      none could be read. */
  predicate PrepSteps(s: seq<Step>, dir: string, configPath: string, configData: seq<Byte>, keyPath: string, hadKey: bool) {
    |s| >= 2 && s[0] == DirectoryMade(dir) && s[1] == Saved(configPath, configData) &&
    if hadKey then |s| == 2
    else |s| == 4 && s[2].KeyGenerated? && s[3] == Saved(keyPath, Utf8.Encode(s[2].pem))
  }

  lemma PrepOfParts(saved: seq<Step>, made: seq<Step>, dir: string, configPath: string, configData: seq<Byte>,
                    keyPath: string, hadKey: bool)
    requires saved == [DirectoryMade(dir)] + [Saved(configPath, configData)]
    requires hadKey ==> made == []
    requires !hadKey ==> |made| == 2 && made[0].KeyGenerated? && made[1] == Saved(keyPath, Utf8.Encode(made[0].pem))
    ensures PrepSteps(saved + made, dir, configPath, configData, keyPath, hadKey)
    ensures !hadKey ==> (saved + made)[2] == made[0]
  {
  }

  /** The agreement part of `setup`: the registration fetched from the
      `location` URL, and an update accepting the agreement when that
      registration names a new one. Without a URL nothing is posted and a
      TypeError is thrown; a registration whose links cannot be read ends
      the run with that fault after the one request. */
  predicate AgreementSteps(s: seq<Step>, o: Oracles, url: Option<string>, r: Outcome<Option<string>>) {
    (url.None? ==> s == [] && r.Threw? && r.fault.TypeError?) &&
    (url.Some? ==>
      |s| >= 1 && s[0].Requested? && s[0].url == url.value && s[0].payload == RegPayload() &&
      var latest := NewAgreement(Header(s[0].response, "link"), o.parse(s[0].response.body));
      (latest.Threw? ==> r == latest && |s| == 1) &&
      (latest.Ok? && Present(latest.value) ==>
        r == latest && |s| == 2 && s[1].Requested? && s[1].url == url.value &&
        s[1].payload == UpdateRegPayload(latest.value.value)) &&
      (latest.Ok? && !Present(latest.value) ==> r == Ok(None) && |s| == 1))
  }

  /** The registration part of `setup`: new-reg; on 201 or 409 the
      agreement part with the `location` URL; on any other status nothing
      more, and the ReferenceError of the log line. */
  predicate RegistrationSteps(s: seq<Step>, o: Oracles, email: Option<Json>, r: Outcome<Option<string>>) {
    |s| >= 1 && s[0].Requested? && s[0].url == NewRegUrl && s[0].payload == NewRegPayload(email) &&
    var status := s[0].response.statusCode;
    (status != 201 && status != 409 ==> |s| == 1 && r == Threw(ReferenceError("res"))) &&
    (status == 201 || status == 409 ==> AgreementSteps(s[1..], o, Header(s[0].response, "location"), r))
  }

  lemma RegistrationOfParts(first: Step, agreed: seq<Step>, o: Oracles, email: Option<Json>, r: Outcome<Option<string>>)
    requires first.Requested? && first.url == NewRegUrl && first.payload == NewRegPayload(email)
    requires first.response.statusCode == 201 || first.response.statusCode == 409
    requires AgreementSteps(agreed, o, Header(first.response, "location"), r)
    ensures RegistrationSteps([first] + agreed, o, email, r)
  {
    assert ([first] + agreed)[1..] == agreed;
  }

  class Cli {
    const acme: Acme.Acme
    const config: Config.Config
    const r53: Route53.Route53
    const world: World

    /** The collaborators act on one world, and the configuration has the
        constructor's names. */
    predicate Valid() {
      acme.world == world && config.world == world && r53.world == world &&
      config.configDirectory == "~.letsencrypt-certs" && config.configFile == "config.json" &&
      config.accountKey == "accountKey.pem"
    }

    constructor (world: World)
      ensures Valid() && this.world == world
      ensures acme.accountKey == None && acme.nonce == None && config.email == None
    {
      acme := new Acme.Acme(world);
      config := new Config.Config(world);
      r53 := new Route53.Route53(world);
      this.world := world;
    }

    /** `getAccountKey()`: the key file's text, undefined when it cannot be
        read. */
    function StoredKey(): (r: Option<string>)
      reads world
      ensures r.Some? <==> config.KeyPath() in world.files
    {
      match world.ReadFile(config.KeyPath())
      case Ok(bytes) => Some(world.o.text(bytes))
      case Threw(_) => None
    }

    /** `waitForRecord(changeId)`: polls until a poll finds the change
        INSYNC. The source polls for ever; here the process is stopped from
        outside after `world.pollLimit` polls. */
    method WaitForRecord(changeId: string) returns (r: Outcome<()>)
      requires Valid()
      modifies world`trace, world`milestones
      ensures acme.accountKey == old(acme.accountKey)
      ensures old(world.trace) <= world.trace
      ensures forall k :: |old(world.trace)| <= k < |world.trace| ==>
                world.trace[k].Polled? && world.trace[k].changeId == changeId
      ensures r.Ok? ==> |world.trace| > |old(world.trace)| && world.trace[|world.trace| - 1].status == "INSYNC"
      ensures r.Threw? ==> r.fault == Interrupted && |world.trace| == |old(world.trace)| + world.pollLimit
      ensures world.milestones == old(world.milestones) + (if r.Ok? then [Synced(changeId)] else [])
    {
      var polls := 0;
      while polls < world.pollLimit
        invariant polls <= world.pollLimit
        invariant |world.trace| == |old(world.trace)| + polls
        invariant old(world.trace) <= world.trace
        invariant forall k :: |old(world.trace)| <= k < |world.trace| ==>
                    world.trace[k].Polled? && world.trace[k].changeId == changeId
        invariant world.milestones == old(world.milestones)
        decreases world.pollLimit - polls
      {
        var inSync := r53.IsRecordInSync(changeId);
        if inSync {
          return Ok(());
        }
        polls := polls + 1;
      }
      return Threw(Interrupted);
    }

    /** `mkdirSync(path)`: an existing name (EEXIST) is no error. */
    method MkdirSync(path: string)
      modifies world`trace, world`milestones, world`dirs
      ensures world.dirs == if path in world.files then old(world.dirs) else old(world.dirs) + {path}
      ensures world.trace == old(world.trace) + [MadeDirectory(path)]
      ensures world.milestones == old(world.milestones) + [DirectoryMade(path)]
    {
      var _ := world.MakeDirectory(path);
    }

    /** `setup(email)` lines 58-69: the email read from the configuration
        file is replaced by the one given. */
    method AdoptEmail(email: Option<string>)
      modifies config`email
      ensures config.email == EmailJson(email)
    {
      var _ := config.LoadConfigFile();
      if EmailJson(email) != config.GetEmail() {
        config.SetEmail(EmailJson(email));
      }
    }

    /** `setup(email)` lines 55-70: the configuration directory made, the
        email adopted and the configuration saved; an email that is not
        truthy is rejected before anything is written. */
    method SaveConfig(email: Option<string>) returns (r: Outcome<()>, ghost saved: seq<Step>)
      requires Valid()
      modifies world`trace, world`milestones, world`files, world`dirs, config`email
      ensures config.email == EmailJson(email)
      ensures world.milestones == old(world.milestones) + saved
      ensures world.files == if r.Ok? then old(world.files)[config.ConfigPath() := Config.ConfigBytes(EmailJson(email))] else old(world.files)
      ensures r.Ok? <==> Truthy(EmailJson(email))
      ensures r.Threw? ==> r.fault == InvalidConfig && saved == [DirectoryMade(config.Directory())]
      ensures r.Ok? ==> saved == [DirectoryMade(config.Directory())] + [Saved(config.ConfigPath(), Config.ConfigBytes(EmailJson(email)))]
    {
      MkdirSync(config.Directory());
      saved := [DirectoryMade(config.Directory())];
      AdoptEmail(email);
      ghost var m1 := world.milestones;
      r := config.SaveConfigFile();
      if r.Ok? {
        Then(old(world.milestones), saved, [Saved(config.ConfigPath(), Config.ConfigBytes(EmailJson(email)))]);
        saved := saved + [Saved(config.ConfigPath(), Config.ConfigBytes(EmailJson(email)))];
      }
    }

    /** `setup(email)` lines 72-76: the stored account key, or else a new
        one generated and saved. */
    method EnsureKey() returns (pem: string, ghost made: seq<Step>)
      requires Valid()
      modifies world`trace, world`milestones, world`files
      ensures world.milestones == old(world.milestones) + made
      ensures Present(old(StoredKey())) ==> pem == old(StoredKey()).value && made == []
      ensures !Present(old(StoredKey())) ==> made == [KeyGenerated(pem)] + [Saved(config.KeyPath(), Utf8.Encode(pem))]
    {
      var accountKey := StoredKey();
      if Present(accountKey) {
        return accountKey.value, [];
      }
      pem := world.GenerateRsaKey();
      world.WriteFile(config.KeyPath(), Utf8.Encode(pem));
      made := [KeyGenerated(pem)] + [Saved(config.KeyPath(), Utf8.Encode(pem))];
    }

    /** `setup(email)` as far as the account key (lines 55-76). */
    method Prepare(email: Option<string>) returns (r: Outcome<string>, ghost prep: seq<Step>)
      requires Valid()
      modifies world`trace, world`milestones, world`files, world`dirs, config`email
      ensures config.email == EmailJson(email)
      ensures world.milestones == old(world.milestones) + prep
      ensures !Truthy(EmailJson(email)) ==> r == Threw(InvalidConfig) && prep == [DirectoryMade(config.Directory())]
      ensures var hadKey := Present(old(StoredKey()));
        Truthy(EmailJson(email)) ==>
          r.Ok? && PrepSteps(prep, config.Directory(), config.ConfigPath(), Config.ConfigBytes(EmailJson(email)), config.KeyPath(), hadKey) &&
          r.value == if hadKey then old(StoredKey()).value else prep[2].pem
    {
      ghost var stored := StoredKey();
      var written, saved := SaveConfig(email);
      prep := saved;
      if written.Threw? {
        return Threw(written.fault), prep;
      }
      Config.ConfigFileIsNotKeyFile(config.configDirectory, world.home);
      assert StoredKey() == stored;
      var pem, made := EnsureKey();
      Then(old(world.milestones), saved, made);
      prep := saved + made;
      PrepOfParts(saved, made, config.Directory(), config.ConfigPath(), Config.ConfigBytes(EmailJson(email)), config.KeyPath(), Present(stored));
      return Ok(pem), prep;
    }

    /** `setup(email)` lines 85-95: the registration fetched, and the
        agreement accepted when it is new. */
    method Agree(url: Option<string>) returns (r: Outcome<Option<string>>, ghost agreed: seq<Step>)
      requires Valid() && acme.accountKey.Some?
      modifies world`trace, world`milestones, acme`nonce
      ensures world.milestones == old(world.milestones) + agreed
      ensures AgreementSteps(agreed, world.o, url, r)
    {
      ghost var x1 := Acme.SignedExchange(world.o, world.trace, acme.nonce, acme.accountKey, url, RegPayload());
      Acme.SignedExchangeSpec(world.o, world.trace, acme.nonce, acme.accountKey, url, RegPayload());
      var agreement := acme.HasNewAgreement(url);
      agreed := Acme.Posted(url, RegPayload(), x1.result);
      if agreement.Threw? {
        return Threw(agreement.fault), agreed;
      }
      if Present(agreement.value) {
        ghost var x2 := Acme.SignedExchange(world.o, world.trace, acme.nonce, acme.accountKey, url, UpdateRegPayload(agreement.value.value));
        Acme.SignedExchangeSpec(world.o, world.trace, acme.nonce, acme.accountKey, url, UpdateRegPayload(agreement.value.value));
        var _ := acme.UpdateRegistration(url, agreement.value.value);
        Then(old(world.milestones), agreed, Acme.Posted(url, UpdateRegPayload(agreement.value.value), x2.result));
        agreed := agreed + Acme.Posted(url, UpdateRegPayload(agreement.value.value), x2.result);
        return Ok(agreement.value), agreed;
      }
      return Ok(None), agreed;
    }

    /** `setup(email)` from the registration on (lines 81-98). */
    method Register() returns (r: Outcome<Option<string>>, ghost reg: seq<Step>)
      requires Valid() && acme.accountKey.Some?
      modifies world`trace, world`milestones, acme`nonce
      ensures world.milestones == old(world.milestones) + reg
      ensures RegistrationSteps(reg, world.o, config.email, r)
    {
      Acme.SignedExchangeSpec(world.o, world.trace, acme.nonce, acme.accountKey, Some(NewRegUrl), NewRegPayload(config.email));
      var registration := acme.RegisterAccountKey(config.email);
      var first := Requested(NewRegUrl, NewRegPayload(config.email), registration.value);
      reg := [first];
      var status := registration.value.statusCode;
      if status != 201 && status != 409 {
        return Threw(ReferenceError("res")), reg;
      }
      ghost var agreed;
      r, agreed := Agree(Header(registration.value, "location"));
      Then(old(world.milestones), reg, agreed);
      RegistrationOfParts(first, agreed, world.o, config.email, r);
      reg := reg + agreed;
    }

    /** `setup(email)` from the account key on (lines 78-98): the key is
        initialised, then the registration. */
    method Enroll(key: string) returns (r: Outcome<Option<string>>, ghost reg: seq<Step>)
      requires Valid()
      modifies world`trace, world`milestones, acme`nonce, acme`accountKey
      ensures world.milestones == old(world.milestones) + reg
      ensures world.o.rsaText(key).Matched? <==> reg != []
      ensures !world.o.rsaText(key).Matched? ==> r.Threw? && world.trace == old(world.trace)
      ensures world.o.rsaText(key).Matched? ==>
        acme.accountKey == Some(MakeAccountKey(world.o.sha256, key, world.o.rsaText(key).text))
      ensures reg != [] ==> RegistrationSteps(reg, world.o, config.email, r)
    {
      var init := acme.InitializeKey(Some(key));
      if init.Threw? {
        return Threw(init.fault), [];
      }
      r, reg := Register();
    }

    /** `setup(email)`: the email given replaces the stored one, the
        configuration is saved (or the email is rejected before anything is
        written), an account key is generated only when none could be read,
        and the registration goes as `RegistrationSteps` says. */
    method Setup(email: Option<string>) returns (r: Outcome<Option<string>>, ghost prep: seq<Step>, ghost reg: seq<Step>)
      requires Valid()
      modifies world`trace, world`milestones, world`files, world`dirs, config`email, acme`nonce, acme`accountKey
      ensures config.email == EmailJson(email)
      ensures world.milestones == old(world.milestones) + prep + reg
      ensures !Truthy(EmailJson(email)) ==> r == Threw(InvalidConfig) && prep == [DirectoryMade(config.Directory())] && reg == []
      ensures Truthy(EmailJson(email)) ==>
        PrepSteps(prep, config.Directory(), config.ConfigPath(), Config.ConfigBytes(EmailJson(email)), config.KeyPath(), Present(old(StoredKey()))) &&
        var key := if Present(old(StoredKey())) then old(StoredKey()).value else prep[2].pem;
        (world.o.rsaText(key).Matched? <==> reg != []) &&
        (!world.o.rsaText(key).Matched? ==> r.Threw?) &&
        (world.o.rsaText(key).Matched? ==> acme.accountKey == Some(MakeAccountKey(world.o.sha256, key, world.o.rsaText(key).text)))
      ensures reg != [] ==> RegistrationSteps(reg, world.o, EmailJson(email), r)
    {
      var key;
      key, prep := Prepare(email);
      if key.Threw? {
        return Threw(key.fault), prep, [];
      }
      r, reg := Enroll(key.value);
    }

    /** `newCert(domain)` up to the hosted zone (lines 105-118): nothing
        happens without an account key, and the process exits before any
        CA call when no zone serves the domain. */
    method Start(domain: string) returns (r: Outcome<Start>)
      requires Valid()
      modifies world`trace, world`milestones, acme`accountKey
      ensures r == Ok(KeyMissing) <==> !Present(old(StoredKey()))
      ensures r.Threw? || r == Ok(KeyMissing) ==> world.trace == old(world.trace) && world.milestones == old(world.milestones)
      ensures Present(old(StoredKey())) ==> (r.Threw? <==> !world.o.rsaText(old(StoredKey()).value).Matched?)
      ensures Present(old(StoredKey())) && r.Ok? ==>
        (r.value.ZoneMissing? <==> !Present(FindHostedZoneId(world.o.zones(old(world.trace), domain), domain)))
      ensures r == Ok(ZoneMissing) ==> world.milestones == old(world.milestones) + [ZonesListed(domain)] + [Ended(1)]
      ensures r.Ok? && r.value.ZoneFound? ==>
        acme.accountKey == Some(MakeAccountKey(world.o.sha256, old(StoredKey()).value, world.o.rsaText(old(StoredKey()).value).text)) &&
        FindHostedZoneId(world.o.zones(old(world.trace), domain), domain) == Some(r.value.zone) &&
        world.milestones == old(world.milestones) + [ZonesListed(domain)]
    {
      var accountKey := StoredKey();
      if !Present(accountKey) {
        return Ok(KeyMissing);
      }
      var init := acme.InitializeKey(accountKey);
      if init.Threw? {
        return Threw(init.fault);
      }
      var id := r53.FindHostedZoneId(domain);
      if !Present(id) {
        world.Exit(1);
        return Ok(ZoneMissing);
      }
      return Ok(ZoneFound(id.value));
    }

    /** `newCert` lines 123-126: the challenge record created in the zone,
        then the wait until Route 53 has it INSYNC. */
    method CreateRecord(domain: string, zone: string, ch: TxtChallenge) returns (r: Outcome<()>, ghost placed: seq<Step>)
      requires Valid()
      modifies world`trace, world`milestones
      ensures acme.accountKey == old(acme.accountKey)
      ensures world.milestones == old(world.milestones) + placed
      ensures r.Ok? ==>
        |placed| == 2 && placed[0].RecordChanged? &&
        placed[0].request == CreateRequest(zone, domain, ch.hashedKeyAuth) && placed[1] == Synced(placed[0].changeId)
    {
      var createId := r53.CreateChallengeTxtRecord(zone, domain, ch.hashedKeyAuth);
      placed := [RecordChanged(CreateRequest(zone, domain, ch.hashedKeyAuth), createId)];
      r := WaitForRecord(createId);
      if r.Ok? {
        Then(old(world.milestones), placed, [Synced(createId)]);
        placed := placed + [Synced(createId)];
      }
    }

    /** `newCert` lines 131-134: the same record deleted, then the wait. */
    method DeleteRecord(domain: string, zone: string, ch: TxtChallenge) returns (r: Outcome<()>, ghost removed: seq<Step>)
      requires Valid()
      modifies world`trace, world`milestones
      ensures acme.accountKey == old(acme.accountKey)
      ensures world.milestones == old(world.milestones) + removed
      ensures r.Ok? ==>
        |removed| == 2 && removed[0].RecordChanged? &&
        removed[0].request == DeleteRequest(zone, domain, ch.hashedKeyAuth) && removed[1] == Synced(removed[0].changeId)
    {
      var deleteId := r53.DeleteChallengeTxtRecord(zone, domain, ch.hashedKeyAuth);
      removed := [RecordChanged(DeleteRequest(zone, domain, ch.hashedKeyAuth), deleteId)];
      r := WaitForRecord(deleteId);
      if r.Ok? {
        Then(old(world.milestones), removed, [Synced(deleteId)]);
        removed := removed + [Synced(deleteId)];
      }
    }

    /** The DNS part of `newCert(domain)` up to the record being in place
        (lines 121-127). */
    method Publish(domain: string, zone: string, ghost key: AccountKey) returns (r: Outcome<TxtChallenge>, ghost published: seq<Step>)
      requires Valid() && acme.accountKey == Some(key)
      modifies world`trace, world`milestones, acme`nonce
      ensures acme.accountKey == old(acme.accountKey)
      ensures world.milestones == old(world.milestones) + published
      ensures r.Ok? ==> PublishSteps(published, world.o, key, domain, zone, r.value)
    {
      ghost var x := Acme.SignedExchange(world.o, world.trace, acme.nonce, acme.accountKey, Some(NewAuthzUrl), NewAuthzPayload(domain));
      Acme.SignedExchangeSpec(world.o, world.trace, acme.nonce, acme.accountKey, Some(NewAuthzUrl), NewAuthzPayload(domain));
      var challenge := acme.NewTxtChallenge(domain);
      published := [Requested(NewAuthzUrl, NewAuthzPayload(domain), x.result.value)];
      if challenge.Threw? {
        return Threw(challenge.fault), published;
      }
      var created, placed := CreateRecord(domain, zone, challenge.value);
      Then(old(world.milestones), published, placed);
      published := published + placed;
      if created.Threw? {
        return Threw(created.fault), published;
      }
      return Ok(challenge.value), published;
    }

    /** The DNS part of `newCert(domain)` once the record is in place
        (lines 128-134). */
    method Confirm(domain: string, zone: string, ch: TxtChallenge) returns (r: Outcome<()>, ghost confirmed: seq<Step>)
      requires Valid()
      modifies world`trace, world`milestones, acme`nonce
      ensures acme.accountKey == old(acme.accountKey)
      ensures world.milestones == old(world.milestones) + confirmed
      ensures r.Ok? ==> ConfirmSteps(confirmed, domain, zone, ch)
    {
      ghost var x := Acme.SignedExchange(world.o, world.trace, acme.nonce, acme.accountKey, Acme.UrlOf(ch.uri), ChallengePayload(ch.keyAuth));
      Acme.SignedExchangeSpec(world.o, world.trace, acme.nonce, acme.accountKey, Acme.UrlOf(ch.uri), ChallengePayload(ch.keyAuth));
      var validation := acme.ValidateChallenge(ch);
      confirmed := Acme.Posted(Acme.UrlOf(ch.uri), ChallengePayload(ch.keyAuth), validation);
      if validation.Threw? {
        return Threw(validation.fault), confirmed;
      }
      var deleted, removed := DeleteRecord(domain, zone, ch);
      Then(old(world.milestones), confirmed, removed);
      confirmed := confirmed + removed;
      if deleted.Threw? {
        return Threw(deleted.fault), confirmed;
      }
      return Ok(()), confirmed;
    }

    /** The DNS part of `newCert(domain)` (lines 121-134). */
    method Control(domain: string, zone: string, ghost key: AccountKey) returns (r: Outcome<TxtChallenge>, ghost control: seq<Step>)
      requires Valid() && acme.accountKey == Some(key)
      modifies world`trace, world`milestones, acme`nonce
      ensures acme.accountKey == old(acme.accountKey)
      ensures world.milestones == old(world.milestones) + control
      ensures r.Ok? ==> ControlSteps(control, world.o, key, domain, zone, r.value)
    {
      ghost var m0 := world.milestones;
      var challenge, published := Publish(domain, zone, key);
      control := published;
      if challenge.Threw? {
        return Threw(challenge.fault), control;
      }
      var confirmation, confirmed := Confirm(domain, zone, challenge.value);
      Then(m0, published, confirmed);
      control := published + confirmed;
      if confirmation.Threw? {
        return Threw(confirmation.fault), control;
      }
      ControlOfHalves(published, confirmed, world.o, key, domain, zone, challenge.value);
      return Ok(challenge.value), control;
    }

    /** `newCert` lines 137-141: the certificate directory made, and a
        fresh key generated and saved in it. */
    method MakeKey(dir: string, timestamp: string) returns (certKey: string, ghost made: seq<Step>)
      modifies world`trace, world`milestones, world`files, world`dirs
      ensures acme.accountKey == old(acme.accountKey)
      ensures world.milestones == old(world.milestones) + made
      ensures made == [DirectoryMade(dir)] + [KeyGenerated(certKey)] + [Saved(CertFile(dir, "key", timestamp), Utf8.Encode(certKey))]
    {
      MkdirSync(dir);
      certKey := world.GenerateRsaKey();
      world.WriteFile(CertFile(dir, "key", timestamp), Utf8.Encode(certKey));
      made := [DirectoryMade(dir)] + [KeyGenerated(certKey)] + [Saved(CertFile(dir, "key", timestamp), Utf8.Encode(certKey))];
      Then(old(world.milestones), [DirectoryMade(dir)], [KeyGenerated(certKey)]);
      Then(old(world.milestones), [DirectoryMade(dir)] + [KeyGenerated(certKey)], [Saved(CertFile(dir, "key", timestamp), Utf8.Encode(certKey))]);
    }

    /** The certificate part of `newCert(domain)` up to the CSR (lines
        137-147). */
    method MakeCsr(domain: string, dir: string, timestamp: string) returns (r: Outcome<seq<Byte>>, ghost made: seq<Step>)
      modifies world`trace, world`milestones, world`files, world`dirs
      ensures acme.accountKey == old(acme.accountKey)
      ensures world.milestones == old(world.milestones) + made
      ensures r.Ok? ==> CsrSteps(made, world.o, domain, dir, timestamp) && made[4].data == r.value
    {
      var certKey, keyed := MakeKey(dir, timestamp);
      var csr := world.GenerateCsr(certKey, domain);
      Then(old(world.milestones), keyed, [CsrGenerated(certKey, domain)]);
      made := keyed + [CsrGenerated(certKey, domain)];
      if csr.Threw? {
        return Threw(csr.fault), made;
      }
      world.WriteFile(CertFile(dir, "csr", timestamp), csr.value);
      Then(old(world.milestones), made, [Saved(CertFile(dir, "csr", timestamp), csr.value)]);
      made := made + [Saved(CertFile(dir, "csr", timestamp), csr.value)];
      return Ok(csr.value), made;
    }

    /** `newCert` lines 149-157: the new-cert request with the CSR, and the
        certificate of its response saved in PEM. */
    method RequestCertificate(csr: seq<Byte>, dir: string, timestamp: string) returns (r: Outcome<Response>, ghost issued: seq<Step>)
      requires Valid() && acme.accountKey.Some?
      modifies world`trace, world`milestones, world`files, acme`nonce
      ensures acme.accountKey == old(acme.accountKey)
      ensures world.milestones == old(world.milestones) + issued
      ensures r.Ok? ==> IssuedSteps(issued, world.o, csr, dir, timestamp) && r.value == issued[0].response
    {
      Acme.SignedExchangeSpec(world.o, world.trace, acme.nonce, acme.accountKey, Some(NewCertUrl), NewCertPayload(csr));
      var certResponse := acme.NewCertificate(csr);
      issued := [Requested(NewCertUrl, NewCertPayload(csr), certResponse.value)];
      var cert := world.o.derToPem(certResponse.value.body);
      if cert.None? {
        return Threw(OpensslFailure("openssl x509 -inform DER -outform PEM")), issued;
      }
      world.WriteFile(CertFile(dir, "cert", timestamp), cert.value);
      Then(old(world.milestones), issued, [Saved(CertFile(dir, "cert", timestamp), cert.value)]);
      issued := issued + [Saved(CertFile(dir, "cert", timestamp), cert.value)];
      return Ok(certResponse.value), issued;
    }

    /** The certificate part of `newCert(domain)` (lines 137-157); the
        new-cert response is the result. */
    method SaveCertificate(domain: string, timestamp: string) returns (r: Outcome<Response>, ghost certificate: seq<Step>)
      requires Valid() && acme.accountKey.Some?
      modifies world`trace, world`milestones, world`files, world`dirs, acme`nonce
      ensures acme.accountKey == old(acme.accountKey)
      ensures world.milestones == old(world.milestones) + certificate
      ensures r.Ok? ==>
        CertificateSteps(certificate, world.o, domain, config.CertDirectoryFor(domain), timestamp) &&
        r.value == certificate[5].response
    {
      var dir := config.CertDirectoryFor(domain);
      var csr, made := MakeCsr(domain, dir, timestamp);
      certificate := made;
      if csr.Threw? {
        return Threw(csr.fault), certificate;
      }
      var certResponse, issued := RequestCertificate(csr.value, dir, timestamp);
      Then(old(world.milestones), made, issued);
      certificate := made + issued;
      if certResponse.Threw? {
        return Threw(certResponse.fault), certificate;
      }
      CertificateOfParts(made, issued, world.o, domain, dir, timestamp);
      return Ok(certResponse.value), certificate;
    }

    /** The chain part of `newCert`, as intended (lines 159-165): the issuer
        certificate is fetched from the `up` link and saved. */
    method FetchChain(certResponse: Response, dir: string, timestamp: string) returns (r: Outcome<string>, ghost chain: seq<Step>)
      modifies world`trace, world`milestones, world`files
      ensures acme.accountKey == old(acme.accountKey)
      ensures world.milestones == old(world.milestones) + chain
      ensures IssuerUrl(certResponse).None? ==> r.Threw? && r.fault.TypeError? && world.trace == old(world.trace) && chain == []
      ensures r.Ok? ==> IssuerUrl(certResponse) == Some(r.value) && ChainSteps(chain, world.o, certResponse, dir, timestamp)
    {
      ghost var m0 := world.milestones;
      chain := [];
      var issuer := IssuerUrl(certResponse);
      if issuer.None? {
        return Threw(TypeError("cannot read property 1 of null")), chain;
      }
      var issuerResponse := world.Send(GetRequest(issuer.value));
      chain := StepOf(Exchanged(GetRequest(issuer.value), issuerResponse));
      var pem := world.o.derToPem(issuerResponse.body);
      if pem.None? {
        return Threw(OpensslFailure("openssl x509 -inform DER -outform PEM")), chain;
      }
      world.WriteFile(CertFile(dir, "chain", timestamp), pem.value);
      Then(m0, chain, [Saved(CertFile(dir, "chain", timestamp), pem.value)]);
      chain := chain + [Saved(CertFile(dir, "chain", timestamp), pem.value)];
      return Ok(issuer.value), chain;
    }

    /** The chain part of `newCert` as written: the `up` link is parsed,
        then `this.acme.getIssuerCert` is called, which the ACME client does
        not define, so it always throws and the chain is never saved. */
    method FetchChainAsWritten(certResponse: Response) returns (r: Outcome<string>)
      ensures r.Threw? && r.fault.TypeError?
    {
      var issuer := IssuerUrl(certResponse);
      if issuer.None? {
        return Threw(TypeError("cannot read property 1 of null"));
      }
      return Threw(TypeError("this.acme.getIssuerCert is not a function"));
    }

    /** `newCert(domain)` after the account key and the zone (lines
        121-165): the DNS steps, the certificate and the chain. */
    method Issue(domain: string, zone: string, now: string, ghost key: AccountKey)
      returns (r: Outcome<NewCertEnd>, ghost control: seq<Step>, ghost certificate: seq<Step>, ghost chain: seq<Step>)
      requires Valid() && acme.accountKey == Some(key)
      modifies world`trace, world`milestones, world`files, world`dirs, acme`nonce
      ensures acme.accountKey == Some(key)
      ensures world.milestones == old(world.milestones) + control + certificate + chain
      ensures r.Ok? ==>
        r.value.Issued? && r.value.zone == zone &&
        ControlSteps(control, world.o, key, domain, zone, r.value.challenge) &&
        CertificateSteps(certificate, world.o, domain, config.CertDirectoryFor(domain), Timestamp(now)) &&
        IssuerUrl(certificate[5].response) == Some(r.value.issuer) &&
        ChainSteps(chain, world.o, certificate[5].response, config.CertDirectoryFor(domain), Timestamp(now))
    {
      certificate, chain := [], [];
      var challenge;
      challenge, control := Control(domain, zone, key);
      if challenge.Threw? {
        return Threw(challenge.fault), control, certificate, chain;
      }
      var timestamp := Timestamp(now);
      var certResponse;
      certResponse, certificate := SaveCertificate(domain, timestamp);
      if certResponse.Threw? {
        return Threw(certResponse.fault), control, certificate, chain;
      }
      var issuer;
      issuer, chain := FetchChain(certResponse.value, config.CertDirectoryFor(domain), timestamp);
      if issuer.Threw? {
        return Threw(issuer.fault), control, certificate, chain;
      }
      return Ok(Issued(zone, challenge.value, issuer.value)), control, certificate, chain;
    }

    /** `newCert(domain)` with the chain fetched as intended: the early
        exits, then the DNS steps, the certificate and the chain in this
        order. */
    method NewCert(domain: string, now: string)
      returns (r: Outcome<NewCertEnd>, ghost control: seq<Step>, ghost certificate: seq<Step>, ghost chain: seq<Step>)
      requires Valid()
      modifies world`trace, world`milestones, world`files, world`dirs, acme`nonce, acme`accountKey
      ensures r == Ok(NoAccountKey) <==> !Present(old(StoredKey()))
      ensures !Present(old(StoredKey())) ==> world.trace == old(world.trace) && world.milestones == old(world.milestones)
      ensures Present(old(StoredKey())) && !world.o.rsaText(old(StoredKey()).value).Matched? ==>
        r.Threw? && world.trace == old(world.trace) && world.milestones == old(world.milestones)
      ensures r == Ok(NoHostedZone) <==>
        Present(old(StoredKey())) && world.o.rsaText(old(StoredKey()).value).Matched? &&
        !Present(FindHostedZoneId(world.o.zones(old(world.trace), domain), domain))
      ensures r == Ok(NoHostedZone) ==> world.milestones == old(world.milestones) + [ZonesListed(domain)] + [Ended(1)]
      ensures r.Ok? && r.value.Issued? ==>
        acme.accountKey == Some(MakeAccountKey(world.o.sha256, old(StoredKey()).value, world.o.rsaText(old(StoredKey()).value).text)) &&
        FindHostedZoneId(world.o.zones(old(world.trace), domain), domain) == Some(r.value.zone) &&
        world.milestones == old(world.milestones) + [ZonesListed(domain)] + control + certificate + chain &&
        ControlSteps(control, world.o, acme.accountKey.value, domain, r.value.zone, r.value.challenge) &&
        CertificateSteps(certificate, world.o, domain, config.CertDirectoryFor(domain), Timestamp(now)) &&
        IssuerUrl(certificate[5].response) == Some(r.value.issuer) &&
        ChainSteps(chain, world.o, certificate[5].response, config.CertDirectoryFor(domain), Timestamp(now))
    {
      control, certificate, chain := [], [], [];
      var start := Start(domain);
      if start.Threw? {
        return Threw(start.fault), control, certificate, chain;
      }
      match start.value
      case KeyMissing =>
        return Ok(NoAccountKey), control, certificate, chain;
      case ZoneMissing =>
        return Ok(NoHostedZone), control, certificate, chain;
      case ZoneFound(zone) =>
        r, control, certificate, chain := Issue(domain, zone, now, acme.accountKey.value);
    }

    /** `newCert(domain)` as written: it never completes, because the chain
        step always throws (after the certificate has been saved). */
    method NewCertAsWritten(domain: string, now: string) returns (r: Outcome<NewCertEnd>)
      requires Valid()
      modifies world`trace, world`milestones, world`files, world`dirs, acme`nonce, acme`accountKey
      ensures r == Ok(NoAccountKey) <==> !Present(old(StoredKey()))
      ensures !Present(old(StoredKey())) ==> world.trace == old(world.trace) && world.milestones == old(world.milestones)
      ensures Present(old(StoredKey())) && !world.o.rsaText(old(StoredKey()).value).Matched? ==>
        r.Threw? && world.trace == old(world.trace) && world.milestones == old(world.milestones)
      ensures r == Ok(NoHostedZone) <==>
        Present(old(StoredKey())) && world.o.rsaText(old(StoredKey()).value).Matched? &&
        !Present(FindHostedZoneId(world.o.zones(old(world.trace), domain), domain))
      ensures r == Ok(NoHostedZone) ==> world.milestones == old(world.milestones) + [ZonesListed(domain)] + [Ended(1)]
      ensures !(r.Ok? && r.value.Issued?)
    {
      var start := Start(domain);
      if start.Threw? {
        return Threw(start.fault);
      }
      match start.value
      case KeyMissing =>
        return Ok(NoAccountKey);
      case ZoneMissing =>
        return Ok(NoHostedZone);
      case ZoneFound(zone) =>
        var challenge, _ := Control(domain, zone, acme.accountKey.value);
        if challenge.Threw? {
          return Threw(challenge.fault);
        }
        var certResponse, _ := SaveCertificate(domain, Timestamp(now));
        if certResponse.Threw? {
          return Threw(certResponse.fault);
        }
        var issuer := FetchChainAsWritten(certResponse.value);
        return Threw(issuer.fault);
    }

    /** `revokeCert` lines 176-190 once the certificate is in DER: the
        revocation request, then the report the CA's status decides. */
    method Revoke(der: seq<Byte>) returns (r: Outcome<Revocation>, ghost posted: seq<Step>)
      requires Valid() && acme.accountKey.Some?
      modifies world`trace, world`milestones, acme`nonce
      ensures world.files == old(world.files)
      ensures world.milestones == old(world.milestones) + posted
      ensures |posted| == 1 && posted[0].Requested? && posted[0].url == RevokeCertUrl && posted[0].payload == RevokeCertPayload(der)
      ensures posted[0].response.statusCode == 200 ==> r == Ok(Revoked)
      ensures posted[0].response.statusCode != 200 ==> r == Refusal(world.o.parse(posted[0].response.body))
    {
      Acme.SignedExchangeSpec(world.o, world.trace, acme.nonce, acme.accountKey, Some(RevokeCertUrl), RevokeCertPayload(der));
      var revocation := acme.RevokeCert(der);
      posted := [Requested(RevokeCertUrl, RevokeCertPayload(der), revocation.value)];
      if revocation.value.statusCode == 200 {
        return Ok(Revoked), posted;
      }
      r := Refusal(world.o.parse(revocation.value.body));
    }

    /** `revokeCert(certificate)`: a path starting with `~` is taken from
        HOME; the certificate read there is sent in DER, and the CA's status
        decides the report. */
    method RevokeCert(certificate: string) returns (r: Outcome<Revocation>, ghost posted: seq<Step>)
      requires Valid()
      modifies world`trace, world`milestones, acme`nonce, acme`accountKey
      ensures world.milestones == old(world.milestones) + posted
      ensures Paths.ExpandTilde(certificate, world.home) !in world.files ==> r.Threw? && world.trace == old(world.trace) && posted == []
      ensures old(StoredKey()).None? || !world.o.rsaText(old(StoredKey()).value).Matched? ==>
        r.Threw? && world.trace == old(world.trace) && posted == []
      ensures var path := Paths.ExpandTilde(certificate, world.home);
        path in world.files && world.o.pemToDer(world.files[path]).None? ==>
          r.Threw? && world.trace == old(world.trace) && posted == []
      ensures var path := Paths.ExpandTilde(certificate, world.home);
        old(StoredKey()).Some? && world.o.rsaText(old(StoredKey()).value).Matched? &&
        path in world.files && world.o.pemToDer(world.files[path]).Some? ==>
          acme.accountKey == Some(MakeAccountKey(world.o.sha256, old(StoredKey()).value, world.o.rsaText(old(StoredKey()).value).text)) &&
          |posted| == 1 && posted[0].Requested? && posted[0].url == RevokeCertUrl &&
          posted[0].payload == RevokeCertPayload(world.o.pemToDer(world.files[path]).value) &&
          (posted[0].response.statusCode == 200 ==> r == Ok(Revoked)) &&
          (posted[0].response.statusCode != 200 ==> r == Refusal(world.o.parse(posted[0].response.body)))
      ensures r.Ok? ==>
        var path := Paths.ExpandTilde(certificate, world.home);
        path in world.files && world.o.pemToDer(world.files[path]).Some? &&
        |posted| == 1 && posted[0].Requested? && posted[0].url == RevokeCertUrl &&
        posted[0].payload == RevokeCertPayload(world.o.pemToDer(world.files[path]).value) &&
        (r.value.Revoked? <==> posted[0].response.statusCode == 200) &&
        (r.value.Refused? ==> r == Refusal(world.o.parse(posted[0].response.body)))
    {
      posted := [];
      var accountKey := StoredKey();
      var init := acme.InitializeKey(accountKey);
      if init.Threw? {
        return Threw(init.fault), posted;
      }
      var path := Paths.ExpandTilde(certificate, world.home);
      var cert := world.ReadFile(path);
      if cert.Threw? {
        return Threw(cert.fault), posted;
      }
      var der := world.o.pemToDer(cert.value);
      if der.None? {
        return Threw(OpensslFailure("openssl x509 -inform PEM -outform DER")), posted;
      }
      r, posted := Revoke(der.value);
    }
  }
}
