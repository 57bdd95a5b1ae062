/** One session_init per (actor, session): the two build paths of recorder.go share one
    bounded key set. */
module SessionInits {
  import opened BoundedKeys
  import opened Wrappers

  const LAZY_SESSIONS: nat := 10_000

  /** An actor id is a hex SHA-256: 64 characters. */
  const ACTOR_LENGTH: nat := 64

  datatype Event =
    | SessionInit(actor: string, session: string)
    | ToolCall(actor: string, session: string)

  /** How building a tool-call event ends: the RedactEvent hook may drop the event, and a
      panic, say of a customer's Error method, loses everything the build produced. */
  datatype Outcome = Kept | Redacted | Panicked

  /** One run of a finalizer from the point where the actor is known: of a tool call or of an
      explicit session init. */
  datatype Build =
    | OfToolCall(actor: string, session: string, outcome: Outcome)
    | OfSessionInit(actor: string, session: string)

  predicate WellFormed(b: Build) {
    |b.actor| == ACTOR_LENGTH
  }

  predicate Panics(b: Build) {
    b.OfToolCall? && b.outcome == Panicked
  }

  function KeyOf(actor: string, session: string): string {
    actor + ":" + session
  }

  function EventsOf(order: seq<string>, b: Build): seq<Event> {
    var isNew := KeyOf(b.actor, b.session) !in order;
    match b
    case OfToolCall(actor, session, outcome) =>
      if outcome == Panicked then []
      else
        (if session != "" && isNew then [SessionInit(actor, session)] else [])
        + if outcome == Kept then [ToolCall(actor, session)] else []
    case OfSessionInit(actor, session) =>
      if session != "" && !isNew then [] else [SessionInit(actor, session)]
  }

  /** The key is added before the tool call is built, panic or not. */
  function OrderAfter(order: seq<string>, b: Build, max: nat): seq<string>
    requires max >= 1
  {
    if b.session == "" then order else Insert(order, KeyOf(b.actor, b.session), max)
  }

  class Builder {
    const lazySessions: BoundedKeySet<string>

    constructor ()
      ensures fresh(lazySessions) && lazySessions.Valid()
      ensures lazySessions.max == 10_000 && lazySessions.order == []
    {
      lazySessions := new BoundedKeySet(LAZY_SESSIONS);
    }

    /** Together with safelyFinalize, which turns a panic into no events. */
    method BuildToolCallEvents(actor: string, session: string, outcome: Outcome) returns (events: seq<Event>)
      requires lazySessions.Valid()
      modifies lazySessions
      ensures lazySessions.Valid()
      ensures events == EventsOf(old(lazySessions.order), OfToolCall(actor, session, outcome))
      ensures lazySessions.order == OrderAfter(old(lazySessions.order), OfToolCall(actor, session, outcome), lazySessions.max)
    {
      events := [];
      if session != "" {
        var added := lazySessions.Add(actor + ":" + session);
        if added {
          events := events + [SessionInit(actor, session)];
        }
      }
      if outcome == Panicked {
        return [];
      }
      if outcome == Kept {
        events := events + [ToolCall(actor, session)];
      }
    }

    method BuildSessionInitEvents(actor: string, session: string) returns (events: seq<Event>)
      requires lazySessions.Valid()
      modifies lazySessions
      ensures lazySessions.Valid()
      ensures events == EventsOf(old(lazySessions.order), OfSessionInit(actor, session))
      ensures lazySessions.order == OrderAfter(old(lazySessions.order), OfSessionInit(actor, session), lazySessions.max)
    {
      if session != "" {
        var added := lazySessions.Add(actor + ":" + session);
        if !added {
          return [];
        }
      }
      return [SessionInit(actor, session)];
    }
  }

  /** All events of a sequence of builds, in build order, and the key set they leave. */
  function Log(max: nat, builds: seq<Build>): (seq<Event>, seq<string>)
    requires max >= 1
  {
    if builds == [] then ([], [])
    else
      var (events, order) := Log(max, builds[..|builds| - 1]);
      var b := builds[|builds| - 1];
      (events + EventsOf(order, b), OrderAfter(order, b, max))
  }

  /** The keys the builds look up, in order. */
  function Lookups(builds: seq<Build>): seq<string> {
    if builds == [] then []
    else
      var b := builds[|builds| - 1];
      Lookups(builds[..|builds| - 1]) + if b.session == "" then [] else [KeyOf(b.actor, b.session)]
  }

  /** The separator is unambiguous because actor ids have one length. */
  lemma KeysAreUnambiguous(a: string, s: string, b: string, t: string)
    requires |a| == |b| && KeyOf(a, s) == KeyOf(b, t)
    ensures a == b && s == t
  {
    assert a == KeyOf(a, s)[..|a|] && b == KeyOf(b, t)[..|b|];
    assert s == KeyOf(a, s)[|a| + 1..] && t == KeyOf(b, t)[|b| + 1..];
  }

  lemma LookupsNext(max: nat, builds: seq<Build>)
    requires max >= 1 && builds != []
    ensures var front, b := builds[..|builds| - 1], builds[|builds| - 1];
      var (order, log), key := Adds(max, Lookups(front)), KeyOf(b.actor, b.session);
      Adds(max, Lookups(builds)) ==
        if b.session == "" then (order, log) else (Insert(order, key, max), if key in order then log else log + [key])
  {
    var front, b := builds[..|builds| - 1], builds[|builds| - 1];
    if b.session == "" {
      assert Lookups(builds) == Lookups(front);
    } else {
      assert Lookups(builds)[..|Lookups(front)|] == Lookups(front);
    }
  }

  lemma CountsAdd<T>(xs: seq<T>, ys: seq<T>, x: T)
    ensures multiset(xs + ys)[x] == multiset(xs)[x] + multiset(ys)[x]
  {
  }

  /** A pair gets as many session_inits as its key was newly added to the set, less those
      whose build panicked. */
  lemma {:induction false} InitsCountAdditions(max: nat, builds: seq<Build>, actor: string, session: string)
    requires max >= 1 && session != "" && |actor| == ACTOR_LENGTH
    requires forall b :: b in builds ==> WellFormed(b)
    ensures Log(max, builds).1 == Adds(max, Lookups(builds)).0
    ensures multiset(Log(max, builds).0)[SessionInit(actor, session)]
            <= multiset(Adds(max, Lookups(builds)).1)[KeyOf(actor, session)]
    ensures (forall b :: b in builds ==> !Panics(b)) ==>
      multiset(Log(max, builds).0)[SessionInit(actor, session)] == multiset(Adds(max, Lookups(builds)).1)[KeyOf(actor, session)]
  {
    if builds != [] {
      var front, b := builds[..|builds| - 1], builds[|builds| - 1];
      assert b in builds && forall x :: x in front ==> x in builds;
      InitsCountAdditions(max, front, actor, session);
      var (events, order) := Log(max, front);
      LookupsNext(max, builds);
      hide WellFormed, Lookups, Adds, EventsOf, Panics;
      BuildCounts(order, b, actor, session);
      CountsAdd(events, EventsOf(order, b), SessionInit(actor, session));
      CountsAdd(Adds(max, Lookups(front)).1, [KeyOf(b.actor, b.session)], KeyOf(actor, session));
    }
  }

  lemma BuildCounts(order: seq<string>, b: Build, actor: string, session: string)
    requires session != "" && |actor| == ACTOR_LENGTH && WellFormed(b)
    ensures KeyOf(b.actor, b.session) == KeyOf(actor, session) <==> IsOfPair(b, actor, session)
    ensures multiset(EventsOf(order, b))[SessionInit(actor, session)] ==
      if IsOfPair(b, actor, session) && KeyOf(actor, session) !in order && !Panics(b) then 1 else 0
  {
    if KeyOf(b.actor, b.session) == KeyOf(actor, session) {
      KeysAreUnambiguous(b.actor, b.session, actor, session);
    }
  }

  // ----- Exactly one, and first -----

  predicate IsOfPair(b: Build, actor: string, session: string) {
    b.actor == actor && b.session == session
  }

  /** The first build of a pair. */
  function FirstOf(builds: seq<Build>, actor: string, session: string): Option<Build> {
    if builds == [] then None
    else
      var earlier, b := FirstOf(builds[..|builds| - 1], actor, session), builds[|builds| - 1];
      if earlier.Some? then earlier
      else if IsOfPair(b, actor, session) then Some(b)
      else None
  }

  /** No key is ever evicted. */
  ghost predicate Fits(max: nat, builds: seq<Build>) {
    max >= 1 && |set k | k in Lookups(builds)| <= max
  }

  lemma FrontFits(max: nat, builds: seq<Build>)
    requires builds != [] && Fits(max, builds)
    ensures Fits(max, builds[..|builds| - 1])
  {
    var front := builds[..|builds| - 1];
    SubsetSize(set k | k in Lookups(front), set k | k in Lookups(builds));
  }

  /** The set then holds exactly the pairs built so far. */
  lemma {:induction false} KnownExactlyIfBuilt(max: nat, builds: seq<Build>, actor: string, session: string)
    requires Fits(max, builds) && session != "" && |actor| == ACTOR_LENGTH
    requires forall b :: b in builds ==> WellFormed(b)
    ensures KeyOf(actor, session) in Log(max, builds).1 <==> FirstOf(builds, actor, session).Some?
  {
    InitsCountAdditions(max, builds, actor, session);
    FewKeysAddedOnce(max, Lookups(builds));
    HoldsTheNewest(max, Lookups(builds));
    NewKeysAreAdded(max, Lookups(builds));
    AllNewAreHeld(max, Lookups(builds));
    LookupsAreBuilds(builds, actor, session);
  }

  lemma AllNewAreHeld(max: nat, ops: seq<string>)
    requires max >= 1 && |set k | k in ops| <= max
    ensures Adds(max, ops).0 == Adds(max, ops).1
  {
    var log := Adds(max, ops).1;
    HoldsTheNewest(max, ops);
    NewKeysAreAdded(max, ops);
    FewKeysAddedOnce(max, ops);
    DistinctCount(log);
    assert (set k | k in log) == (set k | k in ops);
  }

  lemma {:induction false} LookupsAreBuilds(builds: seq<Build>, actor: string, session: string)
    requires session != "" && |actor| == ACTOR_LENGTH
    requires forall b :: b in builds ==> WellFormed(b)
    ensures KeyOf(actor, session) in Lookups(builds) <==> FirstOf(builds, actor, session).Some?
  {
    if builds != [] {
      var front, b := builds[..|builds| - 1], builds[|builds| - 1];
      assert b in builds && forall x :: x in front ==> x in builds;
      LookupsAreBuilds(front, actor, session);
      BuildCounts([], b, actor, session);
    }
  }

  /** With no key evicted, a pair that occurs gets exactly one session_init, unless its first
      build panics: then it gets none, however many builds follow. */
  lemma {:induction false} OneInitUnlessFirstPanics(max: nat, builds: seq<Build>, actor: string, session: string)
    requires Fits(max, builds) && session != "" && |actor| == ACTOR_LENGTH
    requires forall b :: b in builds ==> WellFormed(b)
    ensures var first := FirstOf(builds, actor, session);
      multiset(Log(max, builds).0)[SessionInit(actor, session)] == if first.Some? && !Panics(first.value) then 1 else 0
  {
    if builds != [] {
      var front, b := builds[..|builds| - 1], builds[|builds| - 1];
      assert b in builds && forall x :: x in front ==> x in builds;
      FrontFits(max, builds);
      OneInitUnlessFirstPanics(max, front, actor, session);
      KnownExactlyIfBuilt(max, front, actor, session);
      BuildCounts(Log(max, front).1, b, actor, session);
    }
  }

  /** In build order that session_init precedes every tool_call of the pair. */
  lemma {:induction false} InitComesFirst(max: nat, builds: seq<Build>, i: nat)
    requires Fits(max, builds)
    requires forall b :: b in builds ==> WellFormed(b)
    requires var events := Log(max, builds).0; i < |events| && events[i].ToolCall? && events[i].session != ""
    ensures var events := Log(max, builds).0;
      var first := FirstOf(builds, events[i].actor, events[i].session);
      first.Some? && (SessionInit(events[i].actor, events[i].session) in events[..i] <==> !Panics(first.value))
  {
    var front := builds[..|builds| - 1];
    var earlier, events := Log(max, front).0, Log(max, builds).0;
    FrontFits(max, builds);
    if i < |earlier| {
      hide Log, FirstOf, Fits, EventsOf;
      InitComesFirst(max, front, i);
      FirstOfGrows(builds, events[i].actor, events[i].session);
      LogGrows(max, builds);
      assert events[..i] == earlier[..i] && events[i] == earlier[i];
    } else {
      LastInitComesFirst(max, builds, i);
    }
  }

  lemma FirstOfGrows(builds: seq<Build>, actor: string, session: string)
    requires builds != []
    ensures var earlier := FirstOf(builds[..|builds| - 1], actor, session);
      earlier.Some? ==> FirstOf(builds, actor, session) == earlier
  {
  }

  lemma LogGrows(max: nat, builds: seq<Build>)
    requires max >= 1 && builds != []
    ensures Log(max, builds[..|builds| - 1]).0 <= Log(max, builds).0
  {
  }

  lemma InitInBuild(order: seq<string>, b: Build, k: nat)
    requires k < |EventsOf(order, b)| && EventsOf(order, b)[k].ToolCall?
    ensures EventsOf(order, b)[k] == ToolCall(b.actor, b.session) && !Panics(b)
    ensures SessionInit(b.actor, b.session) in EventsOf(order, b)[..k] <==> b.session != "" && KeyOf(b.actor, b.session) !in order
  {
  }

  lemma LastInitComesFirst(max: nat, builds: seq<Build>, i: nat)
    requires builds != [] && Fits(max, builds) && forall b :: b in builds ==> WellFormed(b)
    requires |Log(max, builds[..|builds| - 1]).0| <= i < |Log(max, builds).0|
    requires var event := Log(max, builds).0[i]; event.ToolCall? && event.session != ""
    ensures var events := Log(max, builds).0;
      var first := FirstOf(builds, events[i].actor, events[i].session);
      first.Some? && (SessionInit(events[i].actor, events[i].session) in events[..i] <==> !Panics(first.value))
  {
    var front, b := builds[..|builds| - 1], builds[|builds| - 1];
    var (earlier, order) := Log(max, front);
    var init := SessionInit(b.actor, b.session);
    assert b in builds && forall x :: x in front ==> x in builds;
    FrontFits(max, builds);
    assert Log(max, builds).0 == earlier + EventsOf(order, b);
    hide EventsOf, Fits, Log;
    InitInBuild(order, b, i - |earlier|);
    OneInitUnlessFirstPanics(max, front, b.actor, b.session);
    KnownExactlyIfBuilt(max, front, b.actor, b.session);
    assert init in earlier <==> multiset(earlier)[init] > 0;
    assert Log(max, builds).0[..i] == earlier + EventsOf(order, b)[..i - |earlier|];
  }

  // ----- Nothing kept is lost, nothing redacted is sent -----

  /** The tool calls whose events were kept, in build order. */
  function KeptCalls(builds: seq<Build>): seq<Event> {
    if builds == [] then []
    else
      var b := builds[|builds| - 1];
      KeptCalls(builds[..|builds| - 1]) + if b.OfToolCall? && b.outcome == Kept then [ToolCall(b.actor, b.session)] else []
  }

  function ToolCallsIn(events: seq<Event>): seq<Event> {
    if events == [] then []
    else ToolCallsIn(events[..|events| - 1]) + if events[|events| - 1].ToolCall? then [events[|events| - 1]] else []
  }

  lemma {:induction false} ToolCallsJoin(xs: seq<Event>, ys: seq<Event>)
    ensures ToolCallsIn(xs + ys) == ToolCallsIn(xs) + ToolCallsIn(ys)
  {
    if ys == [] {
      assert xs + ys == xs;
    } else {
      assert (xs + ys)[..|xs + ys| - 1] == xs + ys[..|ys| - 1];
      ToolCallsJoin(xs, ys[..|ys| - 1]);
    }
  }

  lemma ToolCallsOfBuild(order: seq<string>, b: Build)
    ensures ToolCallsIn(EventsOf(order, b)) ==
      if b.OfToolCall? && b.outcome == Kept then [ToolCall(b.actor, b.session)] else []
  {
    var events := EventsOf(order, b);
    if |events| == 2 {
      assert events[..1] == [events[0]] && [events[0]][..0] == [];
      assert ToolCallsIn([events[0]]) == [];
    } else if |events| == 1 {
      assert events[..0] == [];
    }
  }

  /** The tool_calls that come out are those of the builds that were kept, each once and in
      build order, with or without a session. */
  lemma {:induction false} ToolCallsAreTheKept(max: nat, builds: seq<Build>)
    requires max >= 1
    ensures ToolCallsIn(Log(max, builds).0) == KeptCalls(builds)
  {
    if builds != [] {
      var front, b := builds[..|builds| - 1], builds[|builds| - 1];
      ToolCallsAreTheKept(max, front);
      var (events, order) := Log(max, front);
      hide EventsOf, ToolCallsIn;
      ToolCallsOfBuild(order, b);
      ToolCallsJoin(events, EventsOf(order, b));
    }
  }

  lemma BuildMultiplicities(order: seq<string>, b: Build, actor: string, session: string)
    ensures multiset(EventsOf(order, b))[ToolCall(actor, session)] == if b == OfToolCall(actor, session, Kept) then 1 else 0
    ensures multiset(EventsOf(order, b))[SessionInit(actor, "")] == if b == OfSessionInit(actor, "") then 1 else 0
  {
  }

  lemma LogNext(max: nat, builds: seq<Build>) returns (order: seq<string>)
    requires max >= 1 && builds != []
    ensures Log(max, builds).0 == Log(max, builds[..|builds| - 1]).0 + EventsOf(order, builds[|builds| - 1])
    ensures builds == builds[..|builds| - 1] + [builds[|builds| - 1]]
  {
    hide EventsOf, OrderAfter;
    order := Log(max, builds[..|builds| - 1]).1;
  }

  /** So a pair has as many tool_calls as kept builds, and an actor as many session_inits
      without a session as were asked for. */
  lemma {:induction false} EventsAreCounted(max: nat, builds: seq<Build>, actor: string, session: string)
    requires max >= 1
    ensures multiset(Log(max, builds).0)[ToolCall(actor, session)] == multiset(builds)[OfToolCall(actor, session, Kept)]
    ensures multiset(Log(max, builds).0)[SessionInit(actor, "")] == multiset(builds)[OfSessionInit(actor, "")]
  {
    if builds != [] {
      var front, b := builds[..|builds| - 1], builds[|builds| - 1];
      EventsAreCounted(max, front, actor, session);
      var order := LogNext(max, builds);
      hide Log, EventsOf;
      BuildMultiplicities(order, b, actor, session);
      CountsAdd(front, [b], OfToolCall(actor, session, Kept));
      CountsAdd(front, [b], OfSessionInit(actor, ""));
      CountsAdd(Log(max, front).0, EventsOf(order, b), ToolCall(actor, session));
      CountsAdd(Log(max, front).0, EventsOf(order, b), SessionInit(actor, ""));
    }
  }
}
