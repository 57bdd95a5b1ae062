/** The official adapter's handling of a capability reservation during one tools/call:
    handlers attach, the middleware takes, and whatever is left is released on the way out.
    Of a release or a delivery only the claim is kept here; Recorders has what follows it. */
module Middleware {
  import opened Recorders

  class CapabilityCallState {
    var reservation: CapabilityReservation?

    constructor ()
      ensures reservation == null
    {
      reservation := null;
    }

    method Attach(r: CapabilityReservation) returns (attached: bool)
      modifies this
      ensures attached == (old(reservation) == null)
      ensures reservation == if attached then r else old(reservation)
    {
      if reservation != null {
        return false;
      }
      reservation := r;
      return true;
    }

    method Take() returns (r: CapabilityReservation?)
      modifies this
      ensures r == old(reservation) && reservation == null
    {
      r := reservation;
      reservation := null;
    }
  }

  /** What the surroundings of one tools/call do. `during` and `late` are the reservations
      that handlers try to attach before `next` is done and after the middleware has taken
      one, in that order; a handler that fails to attach releases its reservation. */
  datatype Script = Script(
    during: seq<CapabilityReservation>,
    nextPanics: bool,
    paramsValid: bool,
    actorSeedPanics: bool,
    late: seq<CapabilityReservation>)

  ghost predicate NewReservations(rs: seq<CapabilityReservation>)
    reads rs
  {
    && (forall i, j :: 0 <= i < j < |rs| ==> rs[i] != rs[j])
    && (forall i :: 0 <= i < |rs| ==> rs[i].Valid() && !rs[i].claimed)
  }

  /** The reservation taken for recording is lost: the actor-seed resolver panics between
      the take and the claim, or the reservation belongs to another recorder. */
  predicate Loses(recorder: nat, script: Script) {
    && !script.nextPanics && script.paramsValid && script.during != []
    && (script.actorSeedPanics || script.during[0].owner != recorder)
  }

  method AttachAll(state: CapabilityCallState, rs: seq<CapabilityReservation>)
    requires NewReservations(rs) && (state.reservation != null ==> state.reservation !in rs)
    modifies state, rs
    ensures state.reservation == if old(state.reservation) == null && rs != [] then rs[0] else old(state.reservation)
    ensures forall i :: 0 <= i < |rs| ==> rs[i].Valid() && rs[i].claimed == (rs[i] != state.reservation)
  {
    for i := 0 to |rs|
      invariant state.reservation == if old(state.reservation) == null && i > 0 then rs[0] else old(state.reservation)
      invariant forall k :: 0 <= k < i ==> rs[k].Valid() && rs[k].claimed == (rs[k] != state.reservation)
      invariant forall k :: i <= k < |rs| ==> rs[k].Valid() && !rs[k].claimed
    {
      var attached := state.Attach(rs[i]);
      if !attached {
        var _ := rs[i].Claim();
      }
    }
  }

  /** recordToolCall as far as the reservation is concerned. */
  method RecordToolCall(recorder: nat, script: Script, taken: CapabilityReservation?) returns (panicked: bool)
    requires taken != null ==> taken.Valid()
    modifies taken
    ensures panicked == (script.paramsValid && script.actorSeedPanics)
    ensures taken != null ==> taken.Valid()
    ensures taken != null ==>
      (taken.claimed <==> old(taken.claimed) || !script.paramsValid || (!script.actorSeedPanics && taken.owner == recorder))
  {
    if !script.paramsValid {
      if taken != null {
        var _ := taken.Claim();
      }
      return false;
    }
    if script.actorSeedPanics {
      return true;
    }
    if taken != null && taken.owner == recorder {
      var _ := taken.Claim();
    }
    return false;
  }

  /** Up to the point where only the deferred release is left. */
  method CallAndRecord(recorder: nat, script: Script, state: CapabilityCallState)
    requires NewReservations(script.during) && state.reservation == null
    modifies state, script.during
    ensures state.reservation == if script.nextPanics && script.during != [] then script.during[0] else null
    ensures forall i :: 0 <= i < |script.during| ==> script.during[i].Valid()
    ensures forall i :: 0 <= i < |script.during| ==>
      (script.during[i].claimed <==> i > 0 || !(script.nextPanics || Loses(recorder, script)))
  {
    AttachAll(state, script.during);
    if !script.nextPanics {
      var taken := state.Take();
      assert script.during != [] ==> taken == script.during[0];
      var _ := RecordToolCall(recorder, script, taken);
    }
  }

  /** The deferred release, with the handlers that attach just before it. */
  method ReleaseRest(script: Script, state: CapabilityCallState)
    requires NewReservations(script.late)
    requires state.reservation != null ==> state.reservation.Valid() && state.reservation !in script.late
    modifies state, state.reservation, script.late
    ensures forall i :: 0 <= i < |script.late| ==> script.late[i].Valid() && script.late[i].claimed
    ensures old(state.reservation) != null ==> old(state.reservation).Valid() && old(state.reservation).claimed
  {
    AttachAll(state, script.late);
    var rest := state.Take();
    if rest != null {
      var _ := rest.Claim();
    }
  }

  /** One tools/call through the middleware, up to its return or re-panic. Every
      reservation attached during the call, and every one that failed to attach, has been
      claimed exactly once by then, except that one is lost exactly under Loses. */
  method ToolsCall(recorder: nat, script: Script)
    requires NewReservations(script.during) && NewReservations(script.late)
    requires forall r :: r in script.late ==> r !in script.during
    modifies script.during, script.late
    ensures forall i :: 0 <= i < |script.late| ==> script.late[i].claims == 1
    ensures forall i :: 0 <= i < |script.during| ==>
      script.during[i].claims == if i == 0 && Loses(recorder, script) then 0 else 1
    ensures (forall r :: r in script.during + script.late ==> r.claims == 1) <==> !Loses(recorder, script)
  {
    assert forall i :: 0 <= i < |script.late| ==> script.late[i] !in script.during;
    var state := new CapabilityCallState();
    CallAndRecord(recorder, script, state);
    ReleaseRest(script, state);
    if Loses(recorder, script) {
      assert script.during[0] in script.during + script.late;
    }
  }
}
