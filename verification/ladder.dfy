/** The ladder by which the official adapter names the session of a request (official.go),
    behind the HTTP wrapper that repairs legacy traffic (stateless_http_handler.go). */
module SessionLadder {
  import opened Wrappers
  import opened SessionParts
  import opened Strings
  import opened SessionIds

  /** An identity of a live connection; `id` is what its ID method returns. */
  datatype Connection = Connection(handle: nat, id: string)

  /** `baggage` is the conversation id of the request's metadata, "" if there is none.
      `headers` is None where the source has a nil header map. */
  datatype Request = Request(baggage: string, headers: Option<Headers>, connection: Option<Connection>, serial: nat)

  /** A key of the table of remembered sessions: a string, a connection or the request itself. */
  datatype Key = ByText(text: string) | ByConnection(handle: nat) | ByRequest(serial: nat)

  datatype Entry = Entry(sessionId: string, handle: nat)

  type Table = map<Key, Entry>

  function Values(r: Request): Headers {
    if r.headers.Some? then r.headers.value else Headers("", "", "")
  }

  function SessionKey(r: Request): Key {
    var echoed := Trim(Values(r).echoed, IsSpace);
    if r.connection.Some? then
      if r.connection.value.id != "" then ByText(r.connection.value.id) else ByConnection(r.connection.value.handle)
    else if echoed != "" then ByText(echoed)
    else ByRequest(r.serial)
  }

  function Remembered(table: Table, key: Key): string {
    if key in table then table[key].sessionId else ""
  }

  /** The fourth rung and below: the transport's own session. */
  function TransportSession(table: Table, r: Request, process: string): string {
    var known := if r.connection.None? then "" else
      if r.connection.value.id != "" then r.connection.value.id else Remembered(table, SessionKey(r));
    var echoed := Trim(Values(r).echoed, IsSpace);
    if known != "" then known
    else if echoed != "" then echoed
    else if r.headers.None? then process
    else ""
  }

  /** Whether the echoed id was minted from the seed the request also carries. */
  predicate EchoNamesSeed(echoed: string, seed: string) {
    echoed != "" && EndsWith(Lower(echoed), "_" + Lower(seed))
  }

  /** The session of a request; None stands for a nil request. */
  function Ladder(table: Table, request: Option<Request>, process: string): string {
    if request.None? then ""
    else
      var r := request.value;
      var repair, seed := Trim(Values(r).repair, IsSpace), Trim(Values(r).seed, IsSpace);
      var echoed := Trim(Values(r).echoed, IsSpace);
      if r.baggage != "" then r.baggage
      else if repair != "" then repair
      else if seed != "" then if EchoNamesSeed(echoed, seed) then echoed else seed
      else TransportSession(table, r, process)
  }

  /** What a request says about its session, strongest first: the conversation id of its
      baggage, the repair header, the seed or an echoed id that ends in it, the connection's
      id, the id remembered for the connection, the echoed id, and the id of the process where
      there are no headers. */
  function Rungs(table: Table, r: Request, process: string): seq<string> {
    var headers := if r.headers.Some? then r.headers.value else Headers("", "", "");
    var seed, echoed := Trim(headers.seed, IsSpace), Trim(headers.echoed, IsSpace);
    [ r.baggage,
      Trim(headers.repair, IsSpace),
      if seed != "" && EndsWith(Lower(echoed), "_" + Lower(seed)) then echoed else seed,
      if r.connection.Some? then r.connection.value.id else "",
      match r.connection
      case Some(c) => if ByConnection(c.handle) in table then table[ByConnection(c.handle)].sessionId else ""
      case None => "",
      echoed,
      if r.headers.None? then process else "" ]
  }

  /** The first that is not empty, or "" if all are. */
  ghost predicate IsFirst(rungs: seq<string>, id: string) {
    if id == "" then forall k :: 0 <= k < |rungs| ==> rungs[k] == ""
    else exists k :: 0 <= k < |rungs| && rungs[k] == id && forall j :: 0 <= j < k ==> rungs[j] == ""
  }

  lemma FirstOfSeven(a: string, b: string, c: string, d: string, e: string, f: string, g: string)
    ensures IsFirst([a, b, c, d, e, f, g],
                    if a != "" then a else if b != "" then b else if c != "" then c else if d != "" then d
                    else if e != "" then e else if f != "" then f else g)
  {
    var rungs := [a, b, c, d, e, f, g];
    assert rungs[0] == a && rungs[1] == b && rungs[2] == c && rungs[3] == d;
    assert rungs[4] == e && rungs[5] == f && rungs[6] == g;
  }

  lemma LadderIsFirst(table: Table, r: Request, process: string)
    ensures IsFirst(Rungs(table, r, process), Ladder(table, Some(r), process))
  {
    EmptyNamesNothing(SeedOf(r));
    hide Trim, Lower, IsFirst, EndsWith;
    var rungs := Rungs(table, r, process);
    FirstOfSeven(rungs[0], rungs[1], rungs[2], rungs[3], rungs[4], rungs[5], rungs[6]);
    assert rungs == [rungs[0], rungs[1], rungs[2], rungs[3], rungs[4], rungs[5], rungs[6]];
  }

  lemma EmptyNamesNothing(seed: string)
    ensures !EndsWith(Lower(""), "_" + Lower(seed))
  {
  }

  // ----- The table of remembered sessions -----

  function Remember(table: Table, key: Key, handle: Option<nat>, sessionId: string): Table {
    if handle.None? || key in table then table else table[key := Entry(sessionId, handle.value)]
  }

  function Forget(table: Table, key: Key, handle: nat): Table {
    if key in table && table[key].handle == handle then table - {key} else table
  }

  class Recorder {
    var sessions: Table
    const process: string

    constructor (process: string)
      ensures sessions == map[] && this.process == process
    {
      sessions := map[];
      this.process := process;
    }

    /** Returns whether the session is to be announced. */
    method RememberSession(key: Key, handle: Option<nat>, sessionId: string) returns (first: bool)
      modifies this
      ensures sessions == Remember(old(sessions), key, handle, sessionId)
      ensures first == (handle.None? || key !in old(sessions))
    {
      if handle.None? {
        return true;
      }
      if key in sessions {
        return false;
      }
      sessions := sessions[key := Entry(sessionId, handle.value)];
      return true;
    }

    method ForgetSession(key: Key, handle: nat)
      modifies this
      ensures sessions == Forget(old(sessions), key, handle)
    {
      if key in sessions && sessions[key].handle == handle {
        sessions := sessions - {key};
      }
    }

    method AnalyticsSessionId(request: Option<Request>) returns (id: string)
      ensures id == Ladder(sessions, request, process)
      ensures if request.None? then id == "" else IsFirst(Rungs(sessions, request.value, process), id)
    {
      hide Rungs, IsFirst;
      if request.Some? { LadderIsFirst(sessions, request.value, process); }
      if request.None? {
        return "";
      }
      var r := request.value;
      if r.baggage != "" {
        return r.baggage;
      }
      var headers := Values(r);
      id := Trim(headers.repair, IsSpace);
      if id != "" {
        return id;
      }
      var echoed := Trim(headers.echoed, IsSpace);
      var seed := Trim(headers.seed, IsSpace);
      if seed != "" {
        if EchoNamesSeed(echoed, seed) {
          return echoed;
        }
        return seed;
      }
      if r.connection.Some? {
        if r.connection.value.id != "" {
          return r.connection.value.id;
        }
        var key := SessionKey(r);
        if key in sessions && sessions[key].sessionId != "" {
          return sessions[key].sessionId;
        }
      }
      if echoed != "" {
        return echoed;
      }
      return if r.headers.None? then process else "";
    }
  }

  // ----- The wrapper -----

  /** What the inner server receives: an inbound repair header never survives, and a resolved
      session becomes the repair header. Only a POST whose body can be read is resolved. */
  function Wrap(r: Request, readable: bool, initialize: Option<Option<ClientInfo>>, random: Bytes16): Request {
    if r.headers.None? then r
    else
      var id := if readable then Resolve(initialize, r.headers.value, random).id else "";
      r.(headers := Some(r.headers.value.(repair := id)))
  }

  // ----- Coherence -----

  lemma LowerJoins(a: string, b: string)
    ensures Lower(a + b) == Lower(a) + Lower(b)
  {
  }

  lemma UuidIsLower(uuid: string)
    requires IsUuid(uuid)
    ensures Lower(uuid) == uuid && '_' !in uuid
  {
  }

  /** A mint survives a header unchanged. */
  lemma MintIsTrimmed(info: Option<ClientInfo>, seed: string, random: Bytes16)
    ensures var id := Mint(info, seed, random);
      id != "" && Trim(id, IsSpace) == id
  {
    hide Slug, Uuid, Lower, Trim;
    MintIsWellFormed(info, seed, random);
    var id := Mint(info, seed, random);
    assert id[0] == 'm' && id[|id| - 1] == SessionUuid(seed, random)[35];
    TrimKeeps(id, IsSpace);
  }

  /** What may follow an underscore of an id in lower case. */
  function Tails(g: Groups): set<string> {
    {g.uuid} + OuterTails(g)
  }

  function OuterTails(g: Groups): set<string> {
    var rest := Lower(g.version) + "_" + g.uuid;
    {rest, "v_" + rest, Lower(g.name) + "_v_" + rest}
  }

  /** Taking off what comes before the first underscore. */
  lemma TailStep(front: string, rest: string, tail: string)
    requires '_' !in front
    ensures EndsWith(front + ("_" + rest), "_" + tail) <==> tail == rest || EndsWith(rest, "_" + tail)
  {
    var s := front + ("_" + rest);
    var end := "_" + tail;
    if EndsWith(s, end) {
      var k := |s| - |end|;
      assert s[k] == end[0] == '_' && s[k + 1..] == end[1..] == tail;
      assert k >= |front|;
      if k == |front| {
        assert s[k + 1..] == rest;
      } else {
        assert rest[k - |front| - 1..] == s[k..];
      }
    }
    if EndsWith(rest, end) {
      assert s[|s| - |end|..] == rest[|rest| - |end|..];
    }
    if tail == rest {
      assert s[|front|..] == end;
    }
  }

  lemma NoTail(s: string, tail: string)
    requires '_' !in s
    ensures !EndsWith(s, "_" + tail)
  {
    if |s| > |tail| { assert s[|s| - |tail| - 1] != '_'; }
  }

  lemma LowerHasNoUnderscore(part: string)
    requires AllPartChars(part)
    ensures '_' !in Lower(part)
  {
    forall i | 0 <= i < |part|
      ensures Lower(part)[i] != '_'
    {
      assert part[i] in part;
    }
  }

  lemma LowerOfRender(g: Groups)
    requires IsUuid(g.uuid)
    ensures Lower(Render(g))
         == "mcp" + ("_" + (Lower(g.name) + ("_" + ("v" + ("_" + (Lower(g.version) + ("_" + g.uuid)))))))
  {
    hide IsUuid;
    UuidIsLower(g.uuid);
    LowerJoins("mcp_" + g.name + "_v_" + g.version + "_", g.uuid);
    LowerJoins("mcp_" + g.name + "_v_" + g.version, "_");
    LowerJoins("mcp_" + g.name + "_v_", g.version);
    LowerJoins("mcp_" + g.name, "_v_");
    LowerJoins("mcp_", g.name);
    hide Lower;
    assert Lower("mcp_") == "mcp_" && Lower("_v_") == "_v_" && Lower("_") == "_" by {
      LowerOfConstants();
    }
    AsOneString(Lower(g.name), Lower(g.version), g.uuid);
  }

  lemma LowerOfConstants()
    ensures Lower("mcp_") == "mcp_" && Lower("_v_") == "_v_" && Lower("_") == "_"
  {
  }

  lemma AsOneString(name: string, version: string, uuid: string)
    ensures "mcp_" + name + "_v_" + version + "_" + uuid
         == "mcp" + ("_" + (name + ("_" + ("v" + ("_" + (version + ("_" + uuid)))))))
  {
  }

  /** An id names a seed exactly when the seed, in lower case, is one of its tails. */
  lemma EchoNamesExactly(g: Groups, seed: string)
    requires WellFormed(g)
    ensures EchoNamesSeed(Render(g), seed) <==> Lower(seed) in Tails(g)
  {
    var tail := Lower(seed);
    LowerOfRender(g);
    LowerHasNoUnderscore(g.name);
    LowerHasNoUnderscore(g.version);
    UuidIsLower(g.uuid);
    var name, version := Lower(g.name), Lower(g.version);
    hide Lower, IsUuid, AllPartChars, EndsWith;
    var fromVersion := version + ("_" + g.uuid);
    var fromV := "v" + ("_" + fromVersion);
    var fromName := name + ("_" + fromV);
    TailStep("mcp", fromName, tail);
    TailStep(name, fromV, tail);
    TailStep("v", fromVersion, tail);
    TailStep(version, g.uuid, tail);
    NoTail(g.uuid, tail);
    TailsInOrder(name, version, g.uuid);
  }

  lemma TailsInOrder(name: string, version: string, uuid: string)
    ensures version + ("_" + uuid) == version + "_" + uuid
    ensures "v" + ("_" + (version + ("_" + uuid))) == "v_" + (version + "_" + uuid)
    ensures name + ("_" + ("v" + ("_" + (version + ("_" + uuid))))) == name + "_v_" + (version + "_" + uuid)
  {
  }

  /** The transport offers no identity but `id`. */
  predicate TransportAgrees(table: Table, r: Request, id: string) {
    || r.connection.None?
    || r.connection.value.id == id
    || (r.connection.value.id == "" && (Remembered(table, SessionKey(r)) == "" || Remembered(table, SessionKey(r)) == id))
  }

  /** A request that bypassed the wrapper and echoes `id`. */
  predicate Echoes(r: Request, id: string) {
    && r.headers.Some? && r.baggage == ""
    && Trim(r.headers.value.repair, IsSpace) == ""
    && Trim(r.headers.value.echoed, IsSpace) == id
  }

  function SeedOf(r: Request): string {
    Trim(Values(r).seed, IsSpace)
  }

  /** An echoed id wins over the seed of the request exactly when the seed is the id itself or,
      in any letter case, one of its tails; without a seed, exactly when the transport knows
      of no other session. */
  lemma EchoExactly(table: Table, r: Request, g: Groups, process: string)
    requires WellFormed(g) && Echoes(r, Render(g))
    ensures Ladder(table, Some(r), process) == Render(g) <==>
      if SeedOf(r) == "" then TransportAgrees(table, r, Render(g))
      else SeedOf(r) == Render(g) || Lower(SeedOf(r)) in Tails(g)
  {
    hide Trim, AllPartChars, IsUuid, EchoNamesSeed, Tails;
    assert Render(g)[3] == '_';
    EchoNamesExactly(g, SeedOf(r));
  }

  /** The seed is longer than a UUID and ends in an underscore and a UUID. */
  predicate EndsInUuid(seed: string) {
    var n := |seed| - 37;
    n >= 0 && seed[n] == '_' && IsUuid(seed[n + 1..])
  }

  lemma OuterTailsEndInUuid(g: Groups)
    requires IsUuid(g.uuid)
    ensures forall tail :: tail in OuterTails(g) ==> EndsInUuid(tail)
  {
    hide Lower, IsUuid, EndsInUuid;
    var version := Lower(g.version);
    JoinEndsInUuid(version, g.uuid);
    JoinEndsInUuid("v_" + version, g.uuid);
    JoinEndsInUuid(Lower(g.name) + "_v_" + version, g.uuid);
    assert "v_" + (version + "_" + g.uuid) == "v_" + version + "_" + g.uuid;
    assert Lower(g.name) + "_v_" + (version + "_" + g.uuid) == Lower(g.name) + "_v_" + version + "_" + g.uuid;
  }

  lemma RenderEndsInUuid(g: Groups)
    requires IsUuid(g.uuid)
    ensures EndsInUuid(Lower(Render(g)))
  {
    var front := "mcp_" + g.name + "_v_" + g.version;
    UuidIsLower(g.uuid);
    LowerJoins(front + "_", g.uuid);
    LowerJoins(front, "_");
    JoinEndsInUuid(Lower(front), g.uuid);
    hide IsUuid, EndsInUuid;
    assert Lower("_") == "_";
  }

  lemma JoinEndsInUuid(front: string, uuid: string)
    requires IsUuid(uuid)
    ensures EndsInUuid(front + "_" + uuid)
  {
    var s := front + "_" + uuid;
    assert |s| - 37 == |front| && s[|front| + 1..] == uuid;
  }

  /** The client keeps sending the seed header it initialized with, and its requests bypass the
      wrapper. The session stays one exactly for a valid seed, and for a seed that happens to be
      the id or one of its outer tails; any other seed, though the mint ignored it, outranks
      the echoed id on every later request. */
  lemma SameSeedExactly(table: Table, r: Request, info: Option<ClientInfo>, random: Bytes16, process: string)
    requires SeedOf(r) != ""
    requires Echoes(r, Mint(info, Values(r).seed, random))
    ensures var g, seed := MintedGroups(info, Values(r).seed, random), SeedOf(r);
      Ladder(table, Some(r), process) == Mint(info, Values(r).seed, random) <==>
        IsSeed(Lower(seed)) || seed == Render(g) || Lower(seed) in OuterTails(g)
  {
    hide Trim, Lower, AllPartChars, IsSlug, IsSeed, Uuid, Ladder, Render, Echoes, NameOf, VersionOf, OuterTails;
    var g := MintedGroups(info, Values(r).seed, random);
    MintIsWellFormed(info, Values(r).seed, random);
    EchoExactly(table, r, g, process);
  }

  /** So for every seed that does not end in an underscore and a UUID it is validity alone
      that decides. */
  lemma SameSeedMustBeValid(table: Table, r: Request, info: Option<ClientInfo>, random: Bytes16, process: string)
    requires SeedOf(r) != "" && !EndsInUuid(Lower(SeedOf(r)))
    requires Echoes(r, Mint(info, Values(r).seed, random))
    ensures Ladder(table, Some(r), process) == Mint(info, Values(r).seed, random) <==> IsSeed(Lower(SeedOf(r)))
  {
    hide Trim, Lower, AllPartChars, IsSlug, IsSeed, Uuid, Ladder, Render, Echoes, NameOf, VersionOf, OuterTails, EndsInUuid;
    MintIsWellFormed(info, Values(r).seed, random);
    OuterTailsEndInUuid(MintedGroups(info, Values(r).seed, random));
    RenderEndsInUuid(MintedGroups(info, Values(r).seed, random));
    SameSeedExactly(table, r, info, random, process);
  }

  /** An invalid seed that the mint happened to complete: the tail of the id itself. */
  lemma TailIsNamedThoughInvalid(table: Table, random: Bytes16, process: string)
    ensures var seed := "v__" + Uuid(random);
      var id := Mint(None, seed, random);
      var later := Request("", Some(Headers("", seed, id)), None, 0);
      !IsSeed(Lower(seed)) && Ladder(table, Some(later), process) == id
  {
    hide Trim, Uuid, Ladder, Mint, Tails;
    var seed := "v__" + Uuid(random);
    var id := Mint(None, seed, random);
    var later := Request("", Some(Headers("", seed, id)), None, 0);
    var g := Groups(ANONYMOUS, "", Uuid(random));
    RandomUuidIsSeed(random);
    MintIsTrimmed(None, seed, random);
    TrimKeeps(seed, IsSpace);
    TrimKeeps("", IsSpace);
    assert |Lower(seed)| == 39;
    TailOfAnonymous(random);
    EchoExactly(table, later, g, process);
  }

  /** The id minted for no client from no valid seed, and its second tail. */
  lemma TailOfAnonymous(random: Bytes16)
    ensures var seed, g := "v__" + Uuid(random), Groups(ANONYMOUS, "", Uuid(random));
      Mint(None, seed, random) == Render(g) && WellFormed(g) && Lower(seed) in Tails(g)
  {
    hide Uuid, Trim;
    var seed := "v__" + Uuid(random);
    RandomUuidIsSeed(random);
    TrimKeeps(seed, IsSpace);
    UuidIsLower(Uuid(random));
    LowerJoins("v__", Uuid(random));
    assert Lower("v__") == "v__" && Lower("") == "";
    assert "v_" + ("" + "_" + Uuid(random)) == "v__" + Uuid(random);
  }

  /** With a valid seed, an echo resolves to the minted id whether the request repeats the seed,
      in any letter case, or leaves it out. */
  lemma ValidSeedIsCoherent(table: Table, r: Request, info: Option<ClientInfo>, seed: string, random: Bytes16, process: string)
    requires IsSeed(Lower(Trim(seed, IsSpace)))
    requires Echoes(r, Mint(info, seed, random)) && TransportAgrees(table, r, Mint(info, seed, random))
    requires SeedOf(r) == "" || Lower(SeedOf(r)) == Lower(Trim(seed, IsSpace))
    ensures Ladder(table, Some(r), process) == Mint(info, seed, random)
  {
    hide Trim, Lower, AllPartChars, IsSlug, Uuid, Ladder, Render, Echoes, NameOf, VersionOf, TransportAgrees;
    var g := MintedGroups(info, seed, random);
    MintIsWellFormed(info, seed, random);
    EchoExactly(table, r, g, process);
  }

  /** Behind the wrapper the seed plays no part: the initialize and every readable request
      that echoes the id resolve to it, whatever else the request carries. */
  lemma WrappedIsCoherent(table: Table, r: Request, initialize: Option<Option<ClientInfo>>, random: Bytes16,
                          info: Option<ClientInfo>, seed: string, drawn: Bytes16, process: string)
    requires r.headers.Some? && r.baggage == ""
    requires if initialize.Some? then
        initialize.value == info && r.headers.value.seed == seed && random == drawn
      else
        Trim(r.headers.value.echoed, IsSpace) == Mint(info, seed, drawn)
    ensures Ladder(table, Some(Wrap(r, true, initialize, random)), process) == Mint(info, seed, drawn)
  {
    hide Trim, Mint;
    MintIsTrimmed(info, seed, drawn);
  }

  /** An invalid seed header splits a conversation of two requests, only the first of which
      went through the wrapper. */
  lemma InvalidSeedSplits(info: Option<ClientInfo>, random: Bytes16, table: Table, process: string)
    ensures var id := Mint(info, "chat-7", random);
      var first := Request("", Some(Headers("", "chat-7", "")), None, 0);
      var later := Request("", Some(Headers("", "chat-7", id)), None, 1);
      && Ladder(table, Some(Wrap(first, true, Some(info), random)), process) == id
      && Ladder(table, Some(later), process) != id
  {
    hide Trim, Mint, Ladder, Wrap;
    var id := Mint(info, "chat-7", random);
    var first := Request("", Some(Headers("", "chat-7", "")), None, 0);
    var later := Request("", Some(Headers("", "chat-7", id)), None, 1);
    MintIsTrimmed(info, "chat-7", random);
    TrimKeeps("chat-7", IsSpace);
    TrimKeeps("", IsSpace);
    WrappedIsCoherent(table, first, Some(info), random, info, "chat-7", random, process);
    SameSeedExactly(table, later, info, random, process);
  }

  // ----- Whole conversations -----

  /** What the adapter does with a request: an initialize is remembered under the connection,
      a modern request under its own session id; a call only reads. A closed connection is
      forgotten. */
  datatype Event =
    | Initialize(request: Request)
    | Modern(request: Request)
    | Call(request: Request)
    | Closed(key: Key, handle: nat)

  function HandleOf(r: Request): Option<nat> {
    if r.connection.Some? then Some(r.connection.value.handle) else None
  }

  function After(table: Table, e: Event, process: string): Table {
    match e
    case Initialize(r) => Remember(table, SessionKey(r), HandleOf(r), Ladder(table, Some(r), process))
    case Modern(r) =>
      var id := Ladder(table, Some(r), process);
      if id == "" then table else Remember(table, ByText(id), HandleOf(r), id)
    case Call(_) => table
    case Closed(key, handle) => Forget(table, key, handle)
  }

  function AfterAll(table: Table, events: seq<Event>, process: string): Table {
    if events == [] then table
    else After(AfterAll(table, events[..|events| - 1], process), events[|events| - 1], process)
  }

  /** A request of the conversation whose minted id has the groups `g`: repaired by the wrapper,
      or echoing the id with no seed or the one the id embeds, on the given connection or none. */
  predicate Belongs(r: Request, g: Groups, handle: nat) {
    && r.headers.Some? && r.baggage == ""
    && (r.connection.Some? ==> r.connection.value == Connection(handle, ""))
    && (Trim(Values(r).repair, IsSpace) == Render(g)
        || (Echoes(r, Render(g)) && (SeedOf(r) == "" || Lower(SeedOf(r)) == g.uuid)))
  }

  predicate IsOurs(e: Event, g: Groups, handle: nat) {
    !e.Closed? && Belongs(e.request, g, handle)
  }

  /** An event that registers no other session under the connection. */
  predicate LeavesConnection(e: Event, handle: nat) {
    e.Initialize? ==> SessionKey(e.request) != ByConnection(handle)
  }

  predicate Agrees(table: Table, handle: nat, id: string) {
    Remembered(table, ByConnection(handle)) == "" || Remembered(table, ByConnection(handle)) == id
  }

  /** The wrapper turns the initialize, and every readable request that echoes the id, into
      requests of the conversation, whatever seed they carry. */
  lemma WrapBelongs(r: Request, initialize: Option<Option<ClientInfo>>, random: Bytes16,
                    info: Option<ClientInfo>, seed: string, drawn: Bytes16, handle: nat)
    requires r.headers.Some? && r.baggage == ""
    requires r.connection.Some? ==> r.connection.value == Connection(handle, "")
    requires if initialize.Some? then
        initialize.value == info && r.headers.value.seed == seed && random == drawn
      else
        Trim(r.headers.value.echoed, IsSpace) == Mint(info, seed, drawn)
    ensures Belongs(Wrap(r, true, initialize, random), MintedGroups(info, seed, drawn), handle)
  {
    hide Trim, MintedGroups, Render;
    MintIsTrimmed(info, seed, drawn);
  }

  lemma OursResolvesToId(table: Table, r: Request, g: Groups, handle: nat, process: string)
    requires WellFormed(g) && Belongs(r, g, handle) && Agrees(table, handle, Render(g))
    ensures Ladder(table, Some(r), process) == Render(g)
  {
    hide Trim, AllPartChars, IsUuid, Lower, EchoNamesSeed;
    assert Render(g)[0] == 'm';
    if Echoes(r, Render(g)) {
      EchoExactly(table, r, g, process);
    }
  }

  lemma EventKeepsAgreement(table: Table, e: Event, g: Groups, handle: nat, process: string)
    requires WellFormed(g) && Agrees(table, handle, Render(g))
    requires IsOurs(e, g, handle) || LeavesConnection(e, handle)
    ensures Agrees(After(table, e, process), handle, Render(g))
  {
    hide Trim, WellFormed, Lower, Ladder, Belongs;
    if IsOurs(e, g, handle) { OursResolvesToId(table, e.request, g, handle, process); }
  }

  lemma {:induction false} AgreementHolds(table: Table, events: seq<Event>, g: Groups, handle: nat, process: string)
    requires WellFormed(g) && Agrees(table, handle, Render(g))
    requires forall e :: e in events ==> IsOurs(e, g, handle) || LeavesConnection(e, handle)
    ensures Agrees(AfterAll(table, events, process), handle, Render(g))
    decreases |events|
  {
    hide Agrees, WellFormed, IsOurs, LeavesConnection, After;
    if events != [] {
      var before, last := events[..|events| - 1], events[|events| - 1];
      AgreementHolds(table, before, g, handle, process);
      EventKeepsAgreement(AfterAll(table, before, process), last, g, handle, process);
    }
  }

  /** However the conversation's requests interleave with other traffic and with closing
      connections, each of them resolves to the one minted id. */
  lemma ConversationHasOneSession(table: Table, events: seq<Event>, g: Groups, handle: nat, process: string, i: nat)
    requires WellFormed(g) && Agrees(table, handle, Render(g))
    requires forall e :: e in events ==> IsOurs(e, g, handle) || LeavesConnection(e, handle)
    requires i < |events| && IsOurs(events[i], g, handle)
    ensures Ladder(AfterAll(table, events[..i], process), Some(events[i].request), process) == Render(g)
  {
    hide Agrees, WellFormed, Belongs, LeavesConnection, After, Ladder;
    AgreementHolds(table, events[..i], g, handle, process);
    OursResolvesToId(AfterAll(table, events[..i], process), events[i].request, g, handle, process);
  }

  predicate ForgetsEntry(e: Event, key: Key, entry: Entry) {
    e.Closed? && e.key == key && e.handle == entry.handle
  }

  lemma EntryOutlivesEvent(table: Table, e: Event, key: Key, process: string)
    requires key in table && !ForgetsEntry(e, key, table[key])
    ensures key in After(table, e, process) && After(table, e, process)[key] == table[key]
  {
    hide Ladder, SessionKey;
  }

  lemma {:induction false} EntryOutlivesEvents(table: Table, events: seq<Event>, key: Key, process: string)
    requires key in table && forall e :: e in events ==> !ForgetsEntry(e, key, table[key])
    ensures key in AfterAll(table, events, process) && AfterAll(table, events, process)[key] == table[key]
    decreases |events|
  {
    hide After, ForgetsEntry;
    if events != [] {
      EntryOutlivesEvents(table, events[..|events| - 1], key, process);
      EntryOutlivesEvent(AfterAll(table, events[..|events| - 1], process), events[|events| - 1], key, process);
    }
  }

  /** Once an initialize named a connection, every request on it without a stronger signal
      carries that name until the connection is forgotten. */
  lemma ConnectionKeepsItsSession(table: Table, events: seq<Event>, handle: nat, r: Request, process: string)
    requires ByConnection(handle) in table && table[ByConnection(handle)].sessionId != ""
    requires forall e :: e in events ==> !ForgetsEntry(e, ByConnection(handle), table[ByConnection(handle)])
    requires r.baggage == "" && Trim(Values(r).repair, IsSpace) == "" && SeedOf(r) == ""
    requires r.connection == Some(Connection(handle, ""))
    ensures Ladder(AfterAll(table, events, process), Some(r), process) == table[ByConnection(handle)].sessionId
  {
    hide Trim, AfterAll;
    EntryOutlivesEvents(table, events, ByConnection(handle), process);
  }
}
