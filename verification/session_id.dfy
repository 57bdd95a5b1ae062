/** Identity-bearing session ids (stateless_http.go): minting, parsing and resolving. */
module SessionIds {
  import opened Wrappers
  import opened SessionParts
  import opened Strings

  datatype ClientInfo = ClientInfo(name: string, version: string)

  /** The groups of a well-formed session id. */
  datatype Groups = Groups(name: string, version: string, uuid: string)

  // ----- Minting -----

  function NameOf(info: Option<ClientInfo>): string {
    if info.Some? then Slug(info.value.name, ANONYMOUS) else ANONYMOUS
  }

  function VersionOf(info: Option<ClientInfo>): string {
    if info.Some? then Slug(info.value.version, "") else ""
  }

  /** The UUID a mint embeds: the seed if it is one, in lower case, else a random one. */
  function SessionUuid(seed: string, random: Bytes16): string {
    var uuid := Lower(Trim(seed, IsSpace));
    if IsSeed(uuid) then uuid else Uuid(random)
  }

  function Render(g: Groups): string {
    "mcp_" + g.name + "_v_" + g.version + "_" + g.uuid
  }

  function MintedGroups(info: Option<ClientInfo>, seed: string, random: Bytes16): Groups {
    Groups(NameOf(info), VersionOf(info), SessionUuid(seed, random))
  }

  function Mint(info: Option<ClientInfo>, seed: string, random: Bytes16): string {
    Render(MintedGroups(info, seed, random))
  }

  // ----- Parsing -----

  /** The language of the session id grammar: mcp_<name>_v_<version>_<uuid>. */
  predicate WellFormed(g: Groups) {
    g.name != "" && AllPartChars(g.name) && AllPartChars(g.version) && IsUuid(g.uuid)
  }

  /** How many part characters `s` begins with. */
  function PartLength(s: string): (n: nat)
    ensures n <= |s|
  {
    if s != "" && IsPartChar(s[0]) then 1 + PartLength(s[1..]) else 0
  }

  /** The match of the grammar against a whole string. */
  function Match(s: string): Option<Groups> {
    if !("mcp_" <= s) then None
    else
      var afterPrefix := s[4..];
      var n := PartLength(afterPrefix);
      var afterName := afterPrefix[n..];
      if n == 0 || !("_v_" <= afterName) then None
      else
        var versionOn := afterName[3..];
        var v := PartLength(versionOn);
        var afterVersion := versionOn[v..];
        if !("_" <= afterVersion) || !IsUuid(afterVersion[1..]) then None
        else Some(Groups(afterPrefix[..n], versionOn[..v], afterVersion[1..]))
  }

  function Parse(s: string): Option<ClientInfo> {
    match Match(s)
    case None => None
    case Some(g) => if g.name == ANONYMOUS then None else Some(ClientInfo(g.name, g.version))
  }

  lemma {:induction false} PartLengthIsAllowed(s: string)
    ensures AllPartChars(s[..PartLength(s)])
    ensures PartLength(s) < |s| ==> !IsPartChar(s[PartLength(s)])
  {
    if s != "" && IsPartChar(s[0]) {
      PartLengthIsAllowed(s[1..]);
      assert s[..PartLength(s)] == [s[0]] + s[1..][..PartLength(s[1..])];
    }
  }

  lemma {:induction false} PartLengthStops(part: string, rest: string)
    requires AllPartChars(part)
    requires rest != "" && rest[0] == '_'
    ensures PartLength(part + rest) == |part|
  {
    if part == "" {
      assert part + rest == rest;
    } else {
      assert part[0] in part;
      assert (part + rest)[1..] == part[1..] + rest;
      PartLengthStops(part[1..], rest);
    }
  }

  lemma MatchIsSound(s: string)
    requires Match(s).Some?
    ensures WellFormed(Match(s).value) && Render(Match(s).value) == s
  {
    hide IsUuid, IsPartChar, AllPartChars, PartLength;
    var afterPrefix := s[4..];
    PartLengthIsAllowed(afterPrefix);
    var afterName := afterPrefix[PartLength(afterPrefix)..];
    var versionOn := afterName[3..];
    PartLengthIsAllowed(versionOn);
    var afterVersion := versionOn[PartLength(versionOn)..];
    var g := Match(s).value;
    assert g == Groups(afterPrefix[..PartLength(afterPrefix)], versionOn[..PartLength(versionOn)], afterVersion[1..]);
    SplitOff("mcp_", s);
    SplitOff(g.name, afterPrefix);
    SplitOff("_v_", afterName);
    SplitOff(g.version, versionOn);
    SplitOff("_", afterVersion);
    Reassociate("mcp_", g.name, "_v_", g.version, "_", g.uuid);
  }

  lemma SplitOff(front: string, s: string)
    requires front <= s
    ensures s == front + s[|front|..]
  {
  }

  lemma Reassociate(a: string, b: string, c: string, d: string, e: string, f: string)
    ensures a + b + c + d + e + f == a + (b + (c + (d + (e + f))))
  {
  }

  lemma MatchIsComplete(g: Groups)
    requires WellFormed(g)
    ensures Match(Render(g)) == Some(g)
  {
    hide IsUuid, IsPartChar, AllPartChars, PartLength;
    var tail := "_" + g.uuid;
    var versionOn := g.version + tail;
    var afterName := "_v_" + versionOn;
    var afterPrefix := g.name + afterName;
    Reassociate("mcp_", g.name, "_v_", g.version, "_", g.uuid);
    var s := Render(g);
    assert s == "mcp_" + afterPrefix;
    assert s[4..] == afterPrefix;
    PartLengthStops(g.name, afterName);
    assert afterPrefix[|g.name|..] == afterName && afterPrefix[..|g.name|] == g.name;
    assert afterName[3..] == versionOn;
    PartLengthStops(g.version, tail);
    assert versionOn[|g.version|..] == tail && versionOn[..|g.version|] == g.version;
    assert tail[1..] == g.uuid;
  }

  /** The parser accepts the language of the grammar, and reads it in one way only. */
  lemma MatchDecides(s: string, g: Groups)
    ensures Match(s) == Some(g) <==> WellFormed(g) && Render(g) == s
  {
    if Match(s) == Some(g) { MatchIsSound(s); }
    if WellFormed(g) && Render(g) == s { MatchIsComplete(g); }
  }

  // ----- Minting and parsing together -----

  lemma SlugsOf(info: Option<ClientInfo>)
    ensures IsSlug(NameOf(info)) && AllPartChars(NameOf(info))
    ensures VersionOf(info) == "" || IsSlug(VersionOf(info))
    ensures AllPartChars(VersionOf(info))
  {
    hide Slug;
    if info.Some? {
      SlugShape(info.value.name, ANONYMOUS);
      SlugShape(info.value.version, "");
    }
  }

  lemma MintIsWellFormed(info: Option<ClientInfo>, seed: string, random: Bytes16)
    ensures var g := MintedGroups(info, seed, random);
      && WellFormed(g) && IsSeed(g.uuid)
      && IsSlug(g.name) && (g.version == "" || IsSlug(g.version))
    ensures |Mint(info, seed, random)| <= 140
  {
    hide NameOf, VersionOf, AllPartChars, Trim, Lower, Uuid;
    SlugsOf(info);
    RandomUuidIsSeed(random);
  }

  /** Parsing a minted id gives back the slugged name and version, unless the name is anonymous. */
  lemma MintThenParse(info: Option<ClientInfo>, seed: string, random: Bytes16)
    ensures Match(Mint(info, seed, random)) == Some(MintedGroups(info, seed, random))
    ensures Parse(Mint(info, seed, random))
         == if NameOf(info) == ANONYMOUS then None else Some(ClientInfo(NameOf(info), VersionOf(info)))
  {
    MintIsWellFormed(info, seed, random);
    MatchIsComplete(MintedGroups(info, seed, random));
  }

  /** Two mints agree exactly when the slugs and the UUID do. */
  lemma MintDeterminesItsParts(info: Option<ClientInfo>, seed: string, random: Bytes16,
                               info': Option<ClientInfo>, seed': string, random': Bytes16)
    ensures Mint(info, seed, random) == Mint(info', seed', random') <==>
      MintedGroups(info, seed, random) == MintedGroups(info', seed', random')
  {
    MintThenParse(info, seed, random);
    MintThenParse(info', seed', random');
  }

  /** Names an id whose client, once parsed, mints the same slugs again. */
  predicate SlugsSurvive(g: Groups) {
    if g.name == ANONYMOUS then g.version == ""
    else IsSlug(g.name) && (g.version == "" || IsSlug(g.version))
  }

  lemma ParsedSlugs(s: string, g: Groups)
    requires Match(s) == Some(g)
    ensures NameOf(Parse(s)) == g.name && VersionOf(Parse(s)) == g.version <==> SlugsSurvive(g)
  {
    hide Slug, IsSlug;
    if g.name != ANONYMOUS {
      SlugKeptExactly(g.name, ANONYMOUS);
      SlugKeptExactly(g.version, "");
    }
  }

  lemma SlugOfNothing()
    ensures Slug("", "") == ""
  {
    hide Trim, IsSpace, Collapse;
    CollapseOfNothing("");
    assert ""[..0] == "";
  }

  lemma SlugKeptExactly(s: string, fallback: string)
    requires fallback == "" || s != fallback
    ensures Slug(s, fallback) == s <==> IsSlug(s) || (s == "" && fallback == "")
  {
    hide Slug;
    SlugShape(s, fallback);
    if IsSlug(s) { SlugKeepsSlug(s, fallback); }
    SlugOfNothing();
  }

  /** For any id, minted here or not: minting again from what it parses to and its UUID gives
      the id back exactly when its parts are slugs, anonymous clients carry no version, and
      the UUID is fit to be a seed. */
  lemma RemintExactly(s: string, g: Groups, random: Bytes16)
    requires Match(s) == Some(g)
    ensures Mint(Parse(s), g.uuid, random) == s <==> SlugsSurvive(g) && IsSeed(g.uuid)
  {
    hide IsSlug, Slug, IsSeed, IsUuid, Uuid, Render, NameOf, VersionOf;
    MatchDecides(s, g);
    var again := MintedGroups(Parse(s), g.uuid, random);
    MintIsWellFormed(Parse(s), g.uuid, random);
    MatchDecides(s, again);
    ParsedSlugs(s, g);
    UuidIsItsOwnSeed(g.uuid);
  }

  lemma UuidIsItsOwnSeed(uuid: string)
    requires IsUuid(uuid)
    ensures Lower(Trim(uuid, IsSpace)) == uuid
  {
    TrimKeeps(uuid, IsSpace);
  }

  /** For a minted id only one thing goes wrong: an anonymous client loses its version. */
  lemma MintThenRemint(info: Option<ClientInfo>, seed: string, random: Bytes16, random': Bytes16)
    ensures var id := Mint(info, seed, random);
      Mint(Parse(id), SessionUuid(seed, random), random') == id <==>
      !(NameOf(info) == ANONYMOUS && VersionOf(info) != "")
  {
    var id := Mint(info, seed, random);
    MintThenParse(info, seed, random);
    MintIsWellFormed(info, seed, random);
    RemintExactly(id, MintedGroups(info, seed, random), random');
  }

  // ----- Resolving a request -----

  /** Header values as http.Header.Get returns them: "" for a header that is absent. */
  datatype Headers = Headers(repair: string, seed: string, echoed: string)

  /** `clientInfo` is None where the source has nil. */
  datatype Session = Session(id: string, clientInfo: Option<ClientInfo>, isInitialize: bool)

  /** `initialize` is the client info of the body's initialize message, if there is one. */
  function Resolve(initialize: Option<Option<ClientInfo>>, headers: Headers, random: Bytes16): Session {
    if initialize.Some? then Session(Mint(initialize.value, headers.seed, random), None, true)
    else
      var echoed := Trim(headers.echoed, IsSpace);
      if echoed == "" then Session("", None, false)
      else Session(echoed, Parse(echoed), false)
  }

  /** Without an initialize message only a request that echoes nothing resolves to the zero
      session; what else the body holds, or whether it is JSON at all, plays no part. */
  lemma ZeroSessionExactly(initialize: Option<Option<ClientInfo>>, headers: Headers, random: Bytes16)
    ensures Resolve(initialize, headers, random) == Session("", None, false) <==>
      initialize.None? && Trim(headers.echoed, IsSpace) == ""
    ensures Resolve(initialize, headers, random).id == "" <==>
      initialize.None? && Trim(headers.echoed, IsSpace) == ""
  {
    hide Trim;
    if initialize.Some? { MintIsWellFormed(initialize.value, headers.seed, random); }
  }

  /** The client of an echoed id is read off the id: it is found exactly where the id has the
      form of a minted one with a name other than "unknown", and the echo is used either way. */
  lemma EchoedClientExactly(headers: Headers, random: Bytes16, name: string, version: string)
    ensures var session := Resolve(None, headers, random);
      && session.id == Trim(headers.echoed, IsSpace) && !session.isInitialize
      && (session.clientInfo == Some(ClientInfo(name, version)) <==>
            name != "unknown"
            && exists uuid :: WellFormed(Groups(name, version, uuid))
                              && "mcp_" + name + "_v_" + version + "_" + uuid == Trim(headers.echoed, IsSpace))
  {
    hide Trim, WellFormed;
    var echoed := Trim(headers.echoed, IsSpace);
    NothingMatchesNothing();
    forall uuid
      ensures Match(echoed) == Some(Groups(name, version, uuid)) <==>
              WellFormed(Groups(name, version, uuid)) && "mcp_" + name + "_v_" + version + "_" + uuid == echoed
    {
      MatchDecides(echoed, Groups(name, version, uuid));
    }
    hide Match;
    if Match(echoed).Some? {
      var g := Match(echoed).value;
      assert g == Groups(g.name, g.version, g.uuid);
    }
  }

  lemma NothingMatchesNothing()
    ensures Match("").None?
  {
  }

  /** A client whose name and version are slugs is named by the id minted for it, with the seed
      if that is a UUID fit for it; and it is the client of every request that echoes the id. */
  lemma MintNamesTheClient(client: ClientInfo, seed: string, random: Bytes16, headers: Headers, random': Bytes16)
    requires IsSlug(client.name) && (client.version == "" || IsSlug(client.version)) && client.name != "unknown"
    ensures var id := Mint(Some(client), seed, random);
      && (IsSeed(seed) ==> id == "mcp_" + client.name + "_v_" + client.version + "_" + seed)
      && (!IsSeed(Lower(Trim(seed, IsSpace))) ==> id == "mcp_" + client.name + "_v_" + client.version + "_" + Uuid(random))
      && Resolve(Some(Some(client)), headers.(seed := seed), random) == Session(id, None, true)
      && (Trim(headers.echoed, IsSpace) == id ==> Resolve(None, headers, random') == Session(id, Some(client), false))
  {
    hide Trim, Slug, IsSlug, IsSeed, Uuid, Match;
    SlugKeepsSlug(client.name, "unknown");
    SlugOfNothing();
    if client.version != "" { SlugKeepsSlug(client.version, ""); }
    MintThenParse(Some(client), seed, random);
    MintIsWellFormed(Some(client), seed, random);
    if IsSeed(seed) {
      SeedIsUuid(seed);
      UuidIsItsOwnSeed(seed);
    }
  }

  lemma SeedIsUuid(seed: string)
    requires IsSeed(seed)
    ensures IsUuid(seed)
  {
  }

  /** Without a client the id says so. */
  lemma MintOfNobody(seed: string, random: Bytes16)
    ensures Mint(None, seed, random) == "mcp_unknown_v__" + SessionUuid(seed, random)
    ensures Parse(Mint(None, seed, random)) == None
  {
    hide Trim, Uuid, IsSeed;
    MintThenParse(None, seed, random);
    assert "mcp_" + "unknown" + "_v_" + "" + "_" + SessionUuid(seed, random) == "mcp_unknown_v__" + SessionUuid(seed, random);
  }
}
