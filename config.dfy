/** src/Config.js: where the client keeps its files, and the one setting
    it stores, the account email, in `config.json`. */
module Config {
  import opened Outcomes
  import opened Octets
  import opened JsValues
  import opened Paths
  import Utf8
  import opened Environment

  /** The text after a first character: `s.slice(1)`. */
  function Rest(s: string): string {
    if s == [] then [] else s[1..]
  }

  /** `getAccountKeyPath`: the key file in the configuration directory,
      spelled out separately for the two cases. */
  function AccountKeyPath(dir: string, keyFile: string, home: string): string {
    if StartsWithTilde(dir) then PathJoin([home, Rest(dir), keyFile]) else PathJoin([dir, keyFile])
  }

  /** The key file lies in the configuration directory that
      `getConfigDirectory` (`ExpandTilde`) names. */
  lemma AccountKeyPathInConfigDirectory(dir: string, keyFile: string, home: string)
    requires StartsWithTilde(dir) ==> home != "" || |dir| > 1
    ensures AccountKeyPath(dir, keyFile, home) == PathJoin([ExpandTilde(dir, home), keyFile])
  {
    if StartsWithTilde(dir) {
      PathJoinNested(home, Rest(dir), keyFile);
    }
  }

  /** `config.json` and the account key are different files, wherever the
      configuration directory is: their names end in different letters. */
  lemma ConfigFileIsNotKeyFile(dir: string, home: string)
    ensures PathJoin([ExpandTilde(dir, home), "config.json"]) != AccountKeyPath(dir, "accountKey.pem", home)
  {
    var c := PathJoin([ExpandTilde(dir, home)] + ["config.json"]);
    assert [ExpandTilde(dir, home)] + ["config.json"] == [ExpandTilde(dir, home), "config.json"];
    PathJoinEndsWith([ExpandTilde(dir, home)], "config.json");
    var p :| c == p + "config.json";
    assert c[|c| - 1] == 'n';
    var parts := if StartsWithTilde(dir) then [home, Rest(dir)] else [dir];
    assert parts + ["accountKey.pem"] == if StartsWithTilde(dir) then [home, Rest(dir), "accountKey.pem"] else [dir, "accountKey.pem"];
    PathJoinEndsWith(parts, "accountKey.pem");
    var q :| PathJoin(parts + ["accountKey.pem"]) == q + "accountKey.pem";
    assert (q + "accountKey.pem")[|q + "accountKey.pem"| - 1] == 'm';
  }

  /** `getCertDirectory`: without a leading `~`, the first character of
      the directory is dropped as well. */
  function CertDirectory(dir: string, home: string, domain: string): string {
    if StartsWithTilde(dir) then PathJoin([home, Rest(dir), domain]) else PathJoin([Rest(dir), domain])
  }

  /** With a leading `~`, certificates go to a subdirectory of the
      configuration directory named after the domain. */
  lemma CertDirectoryInConfigDirectory(dir: string, home: string, domain: string)
    requires StartsWithTilde(dir) && (home != "" || |dir| > 1)
    ensures CertDirectory(dir, home, domain) == PathJoin([ExpandTilde(dir, home), domain])
  {
    PathJoinNested(home, Rest(dir), domain);
  }

  /** Without one, the certificate directory is not under the
      configuration directory, and is not "certs/example.com" either:
      "certs" puts the certificates for example.com in "erts/example.com". */
  lemma CertDirectoryQuirk()
    ensures CertDirectory("certs", "/root", "example.com") == "erts/example.com"
  {
    assert Rest("certs") == "erts";
    PathJoinTwo("erts", "example.com");
  }

  /** `getConfigJson()`: `{email}`; an undefined email is no member at all
      (JSON.stringify leaves it out). */
  function ConfigJson(email: Option<Json>): (r: Json)
    ensures r.JObject? && Get(Some(r), "email") == Ok(email)
    ensures email.None? ==> r.members == []
  {
    if email.Some? then JObject([Member("email", email.value)]) else JObject([])
  }

  /** The octets `saveConfigFile` writes: `JSON.stringify(config, null, ' ')`. */
  function ConfigBytes(email: Option<Json>): seq<Byte> {
    Utf8.Encode(Stringify(ConfigJson(email), " ", ""))
  }

  /** `JSON.parse(json).email` given what the parse produced (None when
      the text is not JSON). */
  function EmailOf(parsed: Option<Json>): (r: Outcome<Option<Json>>)
    ensures parsed.None? ==> r == Threw(SyntaxError)
    ensures r.Threw? <==> parsed.None? || parsed.value.JNull?
  {
    if parsed.None? then Threw(SyntaxError) else Get(parsed, "email")
  }

  /** An email the configuration file holds is written on a line of its
      own, indented by one space. */
  lemma ConfigFileText(e: string)
    requires forall k :: 0 <= k < |e| ==> NeedsNoEscape(e[k])
    ensures Stringify(ConfigJson(Some(JString(e))), " ", "") == "{\n \"email\": \"" + e + "\"\n}"
  {
    var m := Member("email", JString(e));
    var q := Stringify(JString(e), " ", " ");
    assert q == "\"" + e + "\"";
    PrettySingleMember(m);
    EmailKey();
    EmailLine(Quote("email"), q, e);
  }

  /** The email can be read back from the file text: it sits between the
      13 characters of `{\n "email": "` and the 3 of `"\n}`. */
  lemma ConfigFileEmailAt(e: string)
    requires forall k :: 0 <= k < |e| ==> NeedsNoEscape(e[k])
    ensures var t := Stringify(ConfigJson(Some(JString(e))), " ", "");
      |t| == |e| + 16 && t[13..|t| - 3] == e
  {
    ConfigFileText(e);
    var t := Stringify(ConfigJson(Some(JString(e))), " ", "");
    assert |"{\n \"email\": \""| == 13;
    assert t[13..|t| - 3] == e;
  }

  /** Two emails that need no escaping never give the same file text, so a
      parser that inverts JSON.stringify on this text is well defined. */
  lemma ConfigFileInjective(e1: string, e2: string)
    requires forall k :: 0 <= k < |e1| ==> NeedsNoEscape(e1[k])
    requires forall k :: 0 <= k < |e2| ==> NeedsNoEscape(e2[k])
    requires Stringify(ConfigJson(Some(JString(e1))), " ", "") == Stringify(ConfigJson(Some(JString(e2))), " ", "")
    ensures e1 == e2
  {
    ConfigFileEmailAt(e1);
    ConfigFileEmailAt(e2);
  }

  /** A one-member object printed with a one-space gap. */
  lemma PrettySingleMember(m: Member)
    ensures Stringify(JObject([m]), " ", "") == "{\n " + Quote(m.key) + ": " + Stringify(m.value, " ", " ") + "\n}"
  {
    var v := JObject([m]);
    var part := Quote(m.key) + ": " + Stringify(m.value, " ", " ");
    assert MemberTexts(v, 1, " ", " ") == [];
    assert MemberTexts(v, 0, " ", " ") == [part];
    assert "" + " " == " ";
    assert Stringify(v, " ", "") == Bracket('{', '}', [part], " ", "");
    PrettyOnePart(part);
  }

  lemma PrettyOnePart(part: string)
    ensures Bracket('{', '}', [part], " ", "") == "{\n " + part + "\n}"
  {
    assert Join(",\n" + "" + " ", [part]) == part;
  }

  lemma EmailKey()
    ensures Quote("email") == "\"" + "email" + "\""
  {
    var e := "email";
    forall k | 0 <= k < |e|
      ensures NeedsNoEscape(e[k])
    {
    }
  }

  lemma EmailLine(k: string, q: string, e: string)
    requires k == "\"" + "email" + "\"" && q == "\"" + e + "\""
    ensures "{\n " + k + ": " + q + "\n}" == "{\n \"email\": \"" + e + "\"\n}"
  {
  }

  /** Saving and loading again restores the email, for a parser that reads
      back what JSON.stringify wrote. */
  lemma ConfigFileRoundTrip(parse: seq<Byte> -> Option<Json>, email: Option<Json>)
    requires parse(ConfigBytes(email)) == Some(ConfigJson(email))
    ensures EmailOf(parse(ConfigBytes(email))) == Ok(email)
  {
  }

  class Config {
    const configDirectory: string
    const configFile: string
    const accountKey: string
    var email: Option<Json>
    const world: World

    constructor (world: World)
      ensures configDirectory == "~.letsencrypt-certs" && configFile == "config.json"
      ensures accountKey == "accountKey.pem" && email == None && this.world == world
    {
      configDirectory := "~.letsencrypt-certs";
      configFile := "config.json";
      accountKey := "accountKey.pem";
      email := None;
      this.world := world;
    }

    /** `getConfigDirectory()` */
    function Directory(): string {
      ExpandTilde(configDirectory, world.home)
    }

    /** `path.join(this.getConfigDirectory(), this.configFile)` */
    function ConfigPath(): string {
      PathJoin([Directory(), configFile])
    }

    /** `getAccountKeyPath()` */
    function KeyPath(): string {
      AccountKeyPath(configDirectory, accountKey, world.home)
    }

    /** `getCertDirectory(domain)` */
    function CertDirectoryFor(domain: string): string {
      CertDirectory(configDirectory, world.home, domain)
    }

    /** `setConfigJson(json)`: the email becomes the parsed `email`; a text
        that is not JSON, or is `null`, throws and changes nothing. */
    method SetConfigJson(json: seq<Byte>) returns (r: Outcome<()>)
      modifies this`email
      ensures var e := EmailOf(world.o.parse(json));
        (e.Ok? ==> r == Ok(()) && email == e.value) &&
        (e.Threw? ==> r == Threw(e.fault) && email == old(email))
    {
      var e := EmailOf(world.o.parse(json));
      if e.Threw? {
        return Threw(e.fault);
      }
      email := e.value;
      return Ok(());
    }

    /** `loadConfigFile()`: true exactly when the file could be read and
        its email taken; otherwise false, with the email as it was. */
    method LoadConfigFile() returns (loaded: bool)
      modifies this`email
      ensures loaded <==> ConfigPath() in world.files && EmailOf(world.o.parse(world.files[ConfigPath()])).Ok?
      ensures loaded ==> email == EmailOf(world.o.parse(world.files[ConfigPath()])).value
      ensures !loaded ==> email == old(email)
    {
      var json := world.ReadFile(ConfigPath());
      if json.Threw? {
        return false;
      }
      var parsed := SetConfigJson(json.value);
      loaded := parsed.Ok?;
    }

    /** `validateConfig()`: throws exactly when the email is falsy
        (undefined, null, empty). */
    function ValidateConfig(): (r: Outcome<()>)
      reads this
      ensures r.Threw? <==> !Truthy(email)
      ensures r.Threw? ==> r.fault == InvalidConfig
    {
      if Truthy(email) then Ok(()) else Threw(InvalidConfig)
    }

    /** `saveConfigFile()`: validates first, so nothing is written without
        an email; otherwise `config.json` holds the serialised `{email}`. */
    method SaveConfigFile() returns (r: Outcome<()>)
      modifies world`files, world`trace, world`milestones
      ensures !Truthy(email) ==> r == Threw(InvalidConfig) && world.files == old(world.files)
      ensures !Truthy(email) ==> world.trace == old(world.trace) && world.milestones == old(world.milestones)
      ensures Truthy(email) ==> r == Ok(()) && world.files == old(world.files)[ConfigPath() := ConfigBytes(email)]
      ensures Truthy(email) ==> world.trace == old(world.trace) + [Wrote(ConfigPath(), ConfigBytes(email))]
      ensures Truthy(email) ==> world.milestones == old(world.milestones) + [Saved(ConfigPath(), ConfigBytes(email))]
    {
      r := ValidateConfig();
      if r.Threw? {
        return;
      }
      world.WriteFile(ConfigPath(), ConfigBytes(email));
    }

    /** `setEmail(x)`; `getEmail()` then gives `x`. */
    method SetEmail(e: Option<Json>)
      modifies this`email
      ensures GetEmail() == e
    {
      email := e;
    }

    /** `getEmail()` */
    function GetEmail(): Option<Json>
      reads this
    {
      email
    }
  }
}
