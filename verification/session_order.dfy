/** What decides the session of a request, and what the table of sessions comes to hold. */
module SessionOrder {
  import opened Wrappers
  import opened SessionParts
  import opened Strings
  import opened SessionIds
  import opened SessionLadder

  // ----- The rungs -----

  lemma FirstIsUnique(rungs: seq<string>, other: seq<string>, k: nat, id: string, id': string)
    requires k < |rungs| && k < |other| && rungs[k] != "" && rungs[..k + 1] == other[..k + 1]
    requires IsFirst(rungs, id) && IsFirst(other, id')
    ensures id == id'
  {
    assert forall j :: 0 <= j <= k ==> rungs[j] == rungs[..k + 1][j] == other[j];
  }

  /** Requests that agree on the rungs down to one that is not empty share a session, whatever
      else they carry and whatever is remembered meanwhile. */
  lemma AgreementSharesTheSession(table: Table, r: Request, table': Table, r': Request, process: string, k: nat)
    requires k < 7 && Rungs(table, r, process)[k] != ""
    requires Rungs(table, r, process)[..k + 1] == Rungs(table', r', process)[..k + 1]
    ensures Ladder(table, Some(r), process) == Ladder(table', Some(r'), process)
  {
    LadderIsFirst(table, r, process);
    LadderIsFirst(table', r', process);
    hide IsFirst, Ladder;
    FirstIsUnique(Rungs(table, r, process), Rungs(table', r', process), k,
                  Ladder(table, Some(r), process), Ladder(table', Some(r'), process));
  }

  /** A conversation id outranks everything: all requests that carry it share one session. */
  lemma BaggageSharesTheSession(table: Table, r: Request, table': Table, r': Request, process: string)
    requires r.baggage != "" && r'.baggage == r.baggage
    ensures Ladder(table, Some(r), process) == Ladder(table', Some(r'), process) == r.baggage
  {
    LadderIsFirst(table, r, process);
    LadderIsFirst(table', r', process);
    hide Ladder;
    assert Rungs(table, r, process)[0] == Rungs(table', r', process)[0] == r.baggage;
  }

  // ----- The wrapper -----

  /** Behind the wrapper the repair header is the wrapper's own: it is set exactly for a readable
      HTTP request that initializes or echoes an id, and what the client sent there is gone. */
  lemma RepairIsOwned(r: Request, readable: bool, initialize: Option<Option<ClientInfo>>, random: Bytes16, forged: string)
    requires r.headers.Some?
    ensures var wrapped := Wrap(r, readable, initialize, random);
      && wrapped.headers.Some?
      && (wrapped.headers.value.repair != "" <==>
            readable && (initialize.Some? || Trim(r.headers.value.echoed, IsSpace) != ""))
      && Wrap(r.(headers := Some(r.headers.value.(repair := forged))), readable, initialize, random) == wrapped
      && wrapped.(headers := r.headers) == r
      && wrapped.headers.value.seed == r.headers.value.seed && wrapped.headers.value.echoed == r.headers.value.echoed
  {
    hide Trim, Mint;
    ZeroSessionExactly(initialize, r.headers.value, random);
  }

  // ----- The table -----

  /** An initialize on a connection that has no id of its own. */
  predicate Names(e: Event, handle: nat) {
    e.Initialize? && e.request.connection == Some(Connection(handle, ""))
  }

  /** The connection is open, as far as the table is told: it was initialized and not closed
      since. */
  ghost predicate NamedSince(events: seq<Event>, handle: nat) {
    exists i :: 0 <= i < |events| && Names(events[i], handle)
                && forall j :: i < j < |events| ==> events[j] != Closed(ByConnection(handle), handle)
  }

  lemma NamedNext(events: seq<Event>, handle: nat)
    requires events != []
    ensures var front, last := events[..|events| - 1], events[|events| - 1];
      NamedSince(events, handle) <==>
        Names(last, handle) || (NamedSince(front, handle) && last != Closed(ByConnection(handle), handle))
  {
    var n := |events| - 1;
    var front, last := events[..n], events[n];
    if NamedSince(events, handle) {
      var i :| 0 <= i < |events| && Names(events[i], handle)
               && forall j :: i < j < |events| ==> events[j] != Closed(ByConnection(handle), handle);
      if i < n {
        assert Names(front[i], handle);
        assert forall j :: i < j < n ==> front[j] == events[j];
      }
    }
    if NamedSince(front, handle) && last != Closed(ByConnection(handle), handle) {
      var i :| 0 <= i < |front| && Names(front[i], handle)
               && forall j :: i < j < |front| ==> front[j] != Closed(ByConnection(handle), handle);
      assert Names(events[i], handle);
      assert forall j :: i < j < n ==> events[j] == front[j];
    }
  }

  lemma RememberedStep(table: Table, e: Event, handle: nat, process: string)
    requires ByConnection(handle) in table ==> table[ByConnection(handle)].handle == handle
    ensures var key, table' := ByConnection(handle), After(table, e, process);
      && (key in table' ==> table'[key].handle == handle)
      && (key in table' <==> Names(e, handle) || (key in table && e != Closed(key, handle)))
      && (key in table && key in table' ==> table'[key] == table[key])
      && (key !in table && key in table' && e.Initialize? ==> table'[key].sessionId == Ladder(table, Some(e.request), process))
  {
    hide Ladder, Trim;
  }

  /** The table holds a session for a connection exactly while the connection is initialized. */
  lemma {:induction false} RememberedExactly(events: seq<Event>, handle: nat, process: string)
    ensures var key, table := ByConnection(handle), AfterAll(map[], events, process);
      && (key in table <==> NamedSince(events, handle))
      && (key in table ==> table[key].handle == handle)
  {
    hide After, NamedSince, Names;
    if events == [] {
      NothingNamed(handle);
    } else {
      var front, last := events[..|events| - 1], events[|events| - 1];
      RememberedExactly(front, handle, process);
      RememberedStep(AfterAll(map[], front, process), last, handle, process);
      NamedNext(events, handle);
    }
  }

  lemma NothingNamed(handle: nat)
    ensures !NamedSince([], handle)
  {
  }

  /** The first initialize on a connection names it: from then on every request on it without a
      stronger signal resolves to what the initialize resolved to, until the connection closes. */
  lemma InitializeNamesTheConnection(before: seq<Event>, e: Event, after: seq<Event>, handle: nat, r: Request, process: string)
    requires Names(e, handle) && !NamedSince(before, handle)
    requires Closed(ByConnection(handle), handle) !in after
    requires r.baggage == "" && Trim(Values(r).repair, IsSpace) == "" && SeedOf(r) == ""
    requires r.connection == Some(Connection(handle, ""))
    requires Ladder(AfterAll(map[], before, process), Some(e.request), process) != ""
    ensures Ladder(AfterAll(After(AfterAll(map[], before, process), e, process), after, process), Some(r), process)
         == Ladder(AfterAll(map[], before, process), Some(e.request), process)
  {
    var table := AfterAll(map[], before, process);
    RememberedExactly(before, handle, process);
    RememberedStep(table, e, handle, process);
    hide NamedSince, After, AfterAll, Ladder, Trim;
    ConnectionKeepsItsSession(After(table, e, process), after, handle, r, process);
  }
}
