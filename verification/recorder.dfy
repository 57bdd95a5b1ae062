/** The recorder's own bookkeeping (recorder.go) as an object: each method below is made of
    critical sections, and each section is one step of RecorderProtocol. */
module Recorders {
  import opened Wrappers
  import QP = QueueProtocol
  import opened RecorderProtocol
  import opened RecorderTheorems

  /** A reservation of the recorder named `owner`. `claims` counts successful claims; each
      of them leads to exactly one inflight.Done. */
  class CapabilityReservation {
    const owner: nat
    ghost const id: ReservationId
    var claimed: bool
    ghost var claims: nat

    ghost predicate Valid()
      reads this
    {
      claims == if claimed then 1 else 0
    }

    constructor (owner: nat, ghost id: ReservationId)
      ensures Valid() && !claimed && this.owner == owner && this.id == id
    {
      this.owner, this.id := owner, id;
      claimed, claims := false, 0;
    }

    /** claimed.CompareAndSwap(false, true). */
    method Claim() returns (won: bool)
      requires Valid()
      modifies this
      ensures Valid() && claimed && won == !old(claimed)
      ensures claims == old(claims) + if won then 1 else 0
    {
      won := !claimed;
      if won {
        claimed, claims := true, claims + 1;
      }
    }
  }

  /** The steps of RecordReservedCapability once it has won the claim. `events` is how many
      events were built, None when building panicked. In background mode the delivery of
      events is left to a goroutine. */
  function Handling(r: ReservationId, events: Option<nat>, await: bool): seq<Step> {
    match events
    case None => [Record(r), BuildPanics(r), Settle(r)]
    case Some(n) =>
      if n == 0 then [Record(r), BuildEvents(r, false), Settle(r)]
      else [Record(r), BuildEvents(r, true)] + if await then Delivery(r) else []
  }

  function Delivery(r: ReservationId): seq<Step> {
    [StartReservedSend(r), ReservedSendReturns(r), Settle(r)]
  }

  predicate LeftToGoroutine(events: Option<nat>, await: bool) {
    !await && events.Some? && events.value > 0
  }

  lemma RunExtends(states: seq<State>, steps: seq<Step>, step: Step)
    requires Run(states, steps) && Enabled(states[|steps|], step)
    ensures Run(states + [Apply(states[|steps|], step)], steps + [step])
  {
    hide Enabled, Apply;
  }

  /** `states` and `steps` record the run so far. */
  class Recorder {
    const name: nat
    var closed: bool
    var inflight: int
    var dropped: nat
    var pendingCalls: map<Key, ToolCall>
    ghost var states: seq<State>
    ghost var steps: seq<Step>

    ghost predicate Valid()
      reads this
    {
      && |states| == |steps| + 1 && Run(states, steps)
      && closed == Now().closed
      && inflight == Now().inflight
      && pendingCalls == Now().pending
    }

    ghost function Now(): State
      requires |states| == |steps| + 1
      reads this
    {
      states[|steps|]
    }

    /** The reservation is known to the run, claimed or not as its flag says. */
    ghost predicate Holds(reservation: CapabilityReservation)
      requires |states| == |steps| + 1
      reads this, reservation
    {
      && reservation.Valid() && reservation.owner == name
      && reservation.id in Now().reservations
      && (reservation.claimed <==> Now().reservations[reservation.id] != Unclaimed)
    }

    constructor (name: nat)
      ensures Valid() && this.name == name && steps == []
    {
      this.name := name;
      closed, inflight, dropped, pendingCalls := false, 0, 0, map[];
      states, steps := [INITIAL], [];
    }

    ghost method Advance(step: Step)
      requires Run(states, steps) && Enabled(Now(), step)
      modifies this`states, this`steps
      ensures |states| == |steps| + 1 && Run(states, steps)
      ensures steps == old(steps) + [step] && Now() == Apply(old(Now()), step)
    {
      hide Enabled, Apply;
      RunExtends(states, steps, step);
      states, steps := states + [Apply(Now(), step)], steps + [step];
    }

    method ReserveCapabilityRequest(ghost id: ReservationId) returns (reservation: CapabilityReservation?)
      requires Valid() && id !in Now().reservations
      modifies this
      ensures Valid() && steps == old(steps) + [Reserve(id)] && closed == old(closed)
      ensures (reservation == null) == old(closed)
      ensures reservation != null ==> fresh(reservation) && Holds(reservation) && !reservation.claimed
      ensures dropped == old(dropped) + if old(closed) then 1 else 0
    {
      Advance(Reserve(id));
      if closed {
        dropped := dropped + 1;
        return null;
      }
      inflight := inflight + 1;
      reservation := new CapabilityReservation(name, id);
    }

    /** inflight.Done. */
    method Done(ghost id: ReservationId)
      requires Valid() && PhaseIs(Now(), id, Settling)
      modifies this
      ensures Valid() && steps == old(steps) + [Settle(id)] && Now() == Apply(old(Now()), Settle(id))
      ensures inflight == old(inflight) - 1
    {
      inflight := inflight - 1;
      Advance(Settle(id));
    }

    /** Discharges the reservation unless that has been done or begun. */
    method ReleaseReservation(reservation: CapabilityReservation)
      requires Valid() && Holds(reservation)
      modifies this, reservation
      ensures Valid() && Holds(reservation) && reservation.claimed
      ensures inflight == old(inflight) - if old(reservation.claimed) then 0 else 1
      ensures steps == old(steps) + [Release(reservation.id)]
              + if old(reservation.claimed) then [] else [Settle(reservation.id)]
    {
      Advance(Release(reservation.id));
      var won := reservation.Claim();
      if won {
        Done(reservation.id);
      }
    }

    /** `events` stands for what building yields: a number of events, or a panic. */
    method RecordReservedCapability(reservation: CapabilityReservation?, events: Option<nat>, await: bool)
      returns (panicked: bool)
      requires Valid()
      requires reservation != null && reservation.owner == name ==> Holds(reservation)
      modifies this, reservation
      ensures Valid()
      ensures reservation == null || reservation.owner != name ==>
        !panicked && steps == old(steps) && inflight == old(inflight) && (reservation != null ==> reservation.claimed == old(reservation.claimed))
      ensures reservation != null && reservation.owner == name ==>
        && Holds(reservation) && reservation.claimed
        && if old(reservation.claimed) then !panicked && steps == old(steps) + [Record(reservation.id)] && inflight == old(inflight)
           else
             && panicked == events.None? && steps == old(steps) + Handling(reservation.id, events, await)
             && inflight == old(inflight) - (if LeftToGoroutine(events, await) then 0 else 1)
             && PhaseIs(Now(), reservation.id, if LeftToGoroutine(events, await) then Scheduled else Discharged)
    {
      hide Run, QP.Apply, QP.Enabled, ApplyToCall, ApplyToCloser;
      if reservation == null || reservation.owner != name {
        return false;
      }
      Advance(Record(reservation.id));
      var won := reservation.Claim();
      if !won {
        return false;
      }
      panicked := BuildAndEmit(reservation.id, events, await);
    }

    /** The part under the deferred inflight.Done, which runs unless the events were handed off. */
    method BuildAndEmit(ghost id: ReservationId, events: Option<nat>, await: bool) returns (panicked: bool)
      requires Valid() && PhaseIs(Now(), id, Building)
      modifies this
      ensures Valid() && panicked == events.None? && steps == old(steps) + Handling(id, events, await)[1..]
      ensures inflight == old(inflight) - (if LeftToGoroutine(events, await) then 0 else 1)
      ensures Now().reservations
           == old(Now()).reservations[id := if LeftToGoroutine(events, await) then Scheduled else Discharged]
    {
      hide Run, QP.Apply, QP.Enabled, ApplyToCall, ApplyToCloser;
      if events.None? {
        Advance(BuildPanics(id));
        Done(id);
        return true;
      }
      EmitReserved(id, events.value, await);
      return false;
    }

    method EmitReserved(ghost id: ReservationId, events: nat, await: bool)
      requires Valid() && PhaseIs(Now(), id, Building)
      modifies this
      ensures Valid() && steps == old(steps) + Handling(id, Some(events), await)[1..]
      ensures inflight == old(inflight) - (if LeftToGoroutine(Some(events), await) then 0 else 1)
      ensures Now().reservations
           == old(Now()).reservations[id := if LeftToGoroutine(Some(events), await) then Scheduled else Discharged]
    {
      hide Run, QP.Apply, QP.Enabled;
      Advance(BuildEvents(id, events > 0));
      if events == 0 {
        Done(id);
        return;
      }
      if await {
        RunDelivery(id);
      }
    }

    /** What emitReserved runs, on its own goroutine in background mode: the send, and
        inflight.Done whatever comes of it. */
    method RunDelivery(ghost id: ReservationId)
      requires Valid() && PhaseIs(Now(), id, Scheduled)
      modifies this
      ensures Valid() && steps == old(steps) + Delivery(id) && inflight == old(inflight) - 1
      ensures Now().reservations == old(Now()).reservations[id := Discharged]
    {
      Send(id);
      Done(id);
    }

    ghost method Send(id: ReservationId)
      requires Valid() && PhaseIs(Now(), id, Scheduled)
      modifies this`states, this`steps
      ensures Valid() && steps == old(steps) + [StartReservedSend(id), ReservedSendReturns(id)]
      ensures Now().reservations == old(Now()).reservations[id := Settling]
    {
      hide Run, QP.Apply, QP.Enabled;
      Advance(StartReservedSend(id));
      Advance(ReservedSendReturns(id));
    }

    /** Runs under closeMu, as the closed transition does. */
    method StorePendingCall(key: Key, call: ToolCall) returns (registered: bool)
      requires Valid() && call !in Now().fates
      modifies this
      ensures Valid() && steps == old(steps) + [Register(key, call)]
      ensures registered == !old(closed) && closed == old(closed)
      ensures pendingCalls == if registered then old(pendingCalls)[key := call] else old(pendingCalls)
      ensures dropped == old(dropped) + if registered then 0 else 1
    {
      Advance(Register(key, call));
      if closed {
        dropped := dropped + 1;
        return false;
      }
      pendingCalls := pendingCalls[key := call];
      return true;
    }

    /** LoadAndDelete on behalf of a completion hook or a cancellation callback. */
    method TakeCall(key: Key, ghost step: Step) returns (call: Option<ToolCall>)
      requires Valid() && Enabled(Now(), step)
      requires (step.Complete? && step.key == key) || (step.Abandon? && Now().keys[step.a] == key)
      modifies this
      ensures Valid() && steps == old(steps) + [step]
      ensures call == if key in old(pendingCalls) then Some(old(pendingCalls)[key]) else None
      ensures pendingCalls == old(pendingCalls) - {key}
      ensures call.Some? ==> call.value in Now().fates && Now().fates[call.value].Removed?
    {
      Advance(step);
      if key in pendingCalls {
        call := Some(pendingCalls[key]);
        pendingCalls := pendingCalls - {key};
      } else {
        call := None;
      }
    }

    /** The first section of Close. */
    method SetClosed(ghost k: nat)
      requires Valid() && Enabled(Now(), MarkClosed(k))
      modifies this
      ensures Valid() && closed && steps == old(steps) + [MarkClosed(k)]
    {
      closed := true;
      Advance(MarkClosed(k));
    }

    ghost predicate CloserIs(k: nat, closer: Closer)
      requires |states| == |steps| + 1
      reads this
    {
      k in Now().closers && Now().closers[k] == closer
    }

    method SweepOne(ghost k: nat, ghost ok: bool, key: Key)
      requires Valid() && key in pendingCalls && CloserIs(k, Sweeping(ok, pendingCalls.Keys))
      modifies this
      ensures Valid() && pendingCalls == old(pendingCalls) - {key}
      ensures CloserIs(k, Sweeping(ok, pendingCalls.Keys))
    {
      hide Run, QP.Apply, QP.Enabled;
      Advance(SweepKey(k, key));
      pendingCalls := pendingCalls - {key};
    }

    ghost method EndSweep(k: nat, ok: bool)
      requires Valid() && CloserIs(k, Sweeping(ok, {}))
      modifies this`states, this`steps
      ensures Valid() && CloserIs(k, Closed(ok))
    {
      hide Run, QP.Apply, QP.Enabled;
      Advance(SweepEnds(k));
    }

    /** The sweep at the end of Close, over the keys present when it starts. */
    method Sweep(ghost k: nat, ghost ok: bool)
      requires Valid() && CloserIs(k, Sweeping(ok, pendingCalls.Keys))
      modifies this
      ensures Valid() && pendingCalls == map[] && CloserIs(k, Closed(ok))
    {
      hide Run, CloserIs;
      while pendingCalls.Keys != {}
        invariant Valid() && CloserIs(k, Sweeping(ok, pendingCalls.Keys))
        decreases |pendingCalls|
      {
        var key :| key in pendingCalls;
        SweepOne(k, ok, key);
      }
      EndSweep(k, ok);
    }
  }
}
