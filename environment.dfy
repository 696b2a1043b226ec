/** Everything the client reaches outside its own code: the CA over HTTPS
    (src/Request.js), the Route 53 API of the AWS SDK, the file system,
    openssl run as a subprocess, and Node's crypto and JSON.parse.

    The world answers from `Oracles`, functions fixed when the world is made:
    an answer may depend on the request and on everything that happened
    before it (the trace), which is how a CA hands out fresh nonces and a
    change becomes INSYNC after some polls. The world records every effect
    it performs, with the answer it gave, in `trace`. */
module Environment {
  import opened Outcomes
  import opened Octets
  import opened JsValues
  import opened Route53Records
  import Messages

  /** What `Request.get` and `Request.postJson` resolve to. Node gives
      header names in lower case. */
  datatype Response = Response(statusCode: int, headers: map<string, string>, body: seq<Byte>)

  /** `response.headers[name]`, undefined when absent. */
  function Header(response: Response, name: string): Option<string> {
    if name in response.headers then Some(response.headers[name]) else None
  }

  /** A GET of a URL, or a POST of a payload signed with an account key
      under a nonce; `Signed` gives the flattened JWS that the POST carries
      as its body, so the request holds what determines it. */
  datatype HttpRequest =
    | GetRequest(url: string)
    | PostRequest(url: string, payload: Json, nonce: Option<string>, key: Messages.AccountKey)

  /** The body of a POST: `signedRequest`'s `data`. */
  function Signed(o: Oracles, request: HttpRequest): Messages.Jws
    requires request.PostRequest?
  {
    Messages.Envelope(o.sign, request.key, request.nonce, request.payload)
  }

  /** What `openssl rsa -noout -text` and the client's regular expression
      make of a key: openssl failed, the pattern did not match, or the
      modulus text and decimal exponent it captured. */
  datatype RsaReading = Unreadable | Unmatched | Matched(text: Messages.RsaText)

  datatype Event =
    | Exchanged(request: HttpRequest, response: Response)
    | ListedZones(domain: string, zones: seq<HostedZone>)
    | Changed(change: ChangeRequest, changeId: string)
    | Polled(changeId: string, status: string)
    | MadeDirectory(path: string)
    | Wrote(path: string, data: seq<Byte>)
    | GeneratedKey(pem: string)
    | GeneratedCsr(key: string, domain: string)
    | Exited(code: int)

  /** The milestones of a run: the effects whose order the commands fix.
      The directory GETs that fetch a nonce and the polls that find a
      change still pending are no milestones. */
  datatype Step =
    | Requested(url: string, payload: Json, response: Response)   // a signed POST to the CA
    | Fetched(url: string, response: Response)                   // any other GET than the directory's
    | ZonesListed(domain: string)
    | RecordChanged(request: ChangeRequest, changeId: string)
    | Synced(changeId: string)                                   // a poll that found the change INSYNC
    | DirectoryMade(path: string)
    | Saved(path: string, data: seq<Byte>)
    | KeyGenerated(pem: string)
    | CsrGenerated(key: string, domain: string)
    | Ended(code: int)                                           // process.exit

  /** The milestones an event adds: one, or none for a nonce fetch and a
      poll that finds the change still pending. */
  function StepOf(e: Event): seq<Step> {
    match e
    case Exchanged(GetRequest(url), response) => if url == Messages.DirectoryUrl then [] else [Fetched(url, response)]
    case Exchanged(PostRequest(url, payload, _, _), response) => [Requested(url, payload, response)]
    case ListedZones(domain, _) => [ZonesListed(domain)]
    case Changed(request, changeId) => [RecordChanged(request, changeId)]
    case Polled(changeId, status) => if IsInSync(status) then [Synced(changeId)] else []
    case MadeDirectory(path) => [DirectoryMade(path)]
    case Wrote(path, data) => [Saved(path, data)]
    case GeneratedKey(pem) => [KeyGenerated(pem)]
    case GeneratedCsr(key, domain) => [CsrGenerated(key, domain)]
    case Exited(code) => [Ended(code)]
  }

  datatype Oracles = Oracles(
    ca: (seq<Event>, HttpRequest) -> Response,           // the CA's answer
    zones: (seq<Event>, string) -> seq<HostedZone>,      // listHostedZonesByName
    changeId: (seq<Event>, ChangeRequest) -> string,     // ChangeInfo.Id of a change
    changeStatus: (seq<Event>, string) -> string,        // ChangeInfo.Status of a change
    genrsa: seq<Event> -> string,                        // openssl genrsa 2048
    csr: (string, string) -> Option<seq<Byte>>,          // openssl req, from key and domain
    derToPem: seq<Byte> -> Option<seq<Byte>>,            // openssl x509 -inform DER
    pemToDer: seq<Byte> -> Option<seq<Byte>>,            // openssl x509 -inform PEM
    rsaText: string -> RsaReading,                       // openssl rsa -noout -text, then the match
    sha256: seq<Byte> -> seq<Byte>,
    sign: (string, seq<Byte>) -> seq<Byte>,              // RSA-SHA256 with a PEM key
    parse: seq<Byte> -> Option<Json>,                    // JSON.parse(buffer.toString())
    text: seq<Byte> -> string)                           // buffer.toString()

  class World {
    var trace: seq<Event>
    /** The milestones of `trace`, kept beside it: every effect appends its
        event to the one and its `StepOf` to the other. */
    ghost var milestones: seq<Step>
    var files: map<string, seq<Byte>>
    var dirs: set<string>
    /** `process.env.HOME` */
    const home: string
    /** How many status polls happen before the process is stopped from
        outside; the source itself would wait for ever. */
    const pollLimit: nat
    const o: Oracles

    constructor (home: string, pollLimit: nat, o: Oracles, files: map<string, seq<Byte>>, dirs: set<string>)
      ensures this.home == home && this.pollLimit == pollLimit && this.o == o
      ensures this.files == files && this.dirs == dirs && trace == [] && milestones == []
    {
      this.home := home;
      this.pollLimit := pollLimit;
      this.o := o;
      this.files := files;
      this.dirs := dirs;
      trace := [];
      milestones := [];
    }

    /** One HTTPS exchange with the CA. */
    method Send(request: HttpRequest) returns (response: Response)
      modifies this`trace, this`milestones
      ensures response == o.ca(old(trace), request)
      ensures trace == old(trace) + [Exchanged(request, response)]
      ensures milestones == old(milestones) + StepOf(Exchanged(request, response))
    {
      response := o.ca(trace, request);
      trace := trace + [Exchanged(request, response)];
      milestones := milestones + StepOf(Exchanged(request, response));
    }

    method ListHostedZonesByName(domain: string) returns (zones: seq<HostedZone>)
      modifies this`trace, this`milestones
      ensures zones == o.zones(old(trace), domain)
      ensures trace == old(trace) + [ListedZones(domain, zones)]
      ensures milestones == old(milestones) + [ZonesListed(domain)]
    {
      zones := o.zones(trace, domain);
      trace := trace + [ListedZones(domain, zones)];
      milestones := milestones + StepOf(ListedZones(domain, zones));
    }

    method ChangeResourceRecordSets(request: ChangeRequest) returns (changeId: string)
      modifies this`trace, this`milestones
      ensures changeId == o.changeId(old(trace), request)
      ensures trace == old(trace) + [Changed(request, changeId)]
      ensures milestones == old(milestones) + [RecordChanged(request, changeId)]
    {
      changeId := o.changeId(trace, request);
      trace := trace + [Changed(request, changeId)];
      milestones := milestones + StepOf(Changed(request, changeId));
    }

    method GetChange(changeId: string) returns (status: string)
      modifies this`trace, this`milestones
      ensures status == o.changeStatus(old(trace), changeId)
      ensures trace == old(trace) + [Polled(changeId, status)]
      ensures milestones == old(milestones) + StepOf(Polled(changeId, status))
    {
      status := o.changeStatus(trace, changeId);
      trace := trace + [Polled(changeId, status)];
      milestones := milestones + StepOf(Polled(changeId, status));
    }

    /** `fs.mkdirSync`: fails with EEXIST when the name is taken. */
    method MakeDirectory(path: string) returns (existed: bool)
      modifies this`trace, this`milestones, this`dirs
      ensures existed == (path in old(dirs) || path in files)
      ensures dirs == if existed then old(dirs) else old(dirs) + {path}
      ensures trace == old(trace) + [MadeDirectory(path)]
      ensures milestones == old(milestones) + [DirectoryMade(path)]
    {
      existed := path in dirs || path in files;
      if !existed {
        dirs := dirs + {path};
      }
      trace := trace + [MadeDirectory(path)];
      milestones := milestones + StepOf(MadeDirectory(path));
    }

    /** `fs.readFileSync`: throws when there is no such file. */
    function ReadFile(path: string): (r: Outcome<seq<Byte>>)
      reads this
      ensures r.Ok? <==> path in files
      ensures r.Ok? ==> r.value == files[path]
      ensures r.Threw? ==> r.fault == FileNotFound(path)
    {
      if path in files then Ok(files[path]) else Threw(FileNotFound(path))
    }

    /** `fs.writeFileSync`: the file then holds exactly `data`. */
    method WriteFile(path: string, data: seq<Byte>)
      modifies this`trace, this`milestones, this`files
      ensures files == old(files)[path := data]
      ensures trace == old(trace) + [Wrote(path, data)]
      ensures milestones == old(milestones) + [Saved(path, data)]
    {
      files := files[path := data];
      trace := trace + [Wrote(path, data)];
      milestones := milestones + StepOf(Wrote(path, data));
    }

    method GenerateRsaKey() returns (pem: string)
      modifies this`trace, this`milestones
      ensures pem == o.genrsa(old(trace))
      ensures trace == old(trace) + [GeneratedKey(pem)]
      ensures milestones == old(milestones) + [KeyGenerated(pem)]
    {
      pem := o.genrsa(trace);
      trace := trace + [GeneratedKey(pem)];
      milestones := milestones + StepOf(GeneratedKey(pem));
    }

    method GenerateCsr(key: string, domain: string) returns (csr: Outcome<seq<Byte>>)
      modifies this`trace, this`milestones
      ensures o.csr(key, domain).Some? ==> csr == Ok(o.csr(key, domain).value)
      ensures o.csr(key, domain).None? ==> csr.Threw?
      ensures trace == old(trace) + [GeneratedCsr(key, domain)]
      ensures milestones == old(milestones) + [CsrGenerated(key, domain)]
    {
      var made := o.csr(key, domain);
      csr := if made.Some? then Ok(made.value) else Threw(OpensslFailure("openssl req -new -sha256"));
      trace := trace + [GeneratedCsr(key, domain)];
      milestones := milestones + StepOf(GeneratedCsr(key, domain));
    }

    method Exit(code: int)
      modifies this`trace, this`milestones
      ensures trace == old(trace) + [Exited(code)]
      ensures milestones == old(milestones) + [Ended(code)]
    {
      trace := trace + [Exited(code)];
      milestones := milestones + StepOf(Exited(code));
    }
  }
}
