/** Why each call, each reservation and the recorder are where they are: for every state of a
    run, the steps that brought them there. */
module RecorderHooks {
  import QP = QueueProtocol
  import opened RecorderProtocol
  import opened RecorderTheorems

  // ----- How a call left the pending map -----

  ghost predicate LeftBy(s: State, c: ToolCall, exit: Exit) {
    c in s.fates && !s.fates[c].Waiting? && ExitOf(s.fates[c]) == exit
  }

  /** The key that `step` removes leads to c. */
  ghost predicate FindsAt(s: State, key: Key, c: ToolCall) {
    key in s.pending && s.pending[key] == c
  }

  /** The step by which c goes that way. */
  ghost predicate Leaves(s: State, step: Step, c: ToolCall, exit: Exit) {
    match exit
    case ByOverwrite => step.Register? && !s.closed && FindsAt(s, step.key, c)
    case ByHook(Success) => step.Complete? && step.ok && FindsAt(s, step.key, c)
    case ByHook(Failure) => step.Complete? && !step.ok && FindsAt(s, step.key, c)
    case ByHook(Abandonment(a)) => step == Abandon(a) && a in s.keys && FindsAt(s, s.keys[a], c)
    case BySweep => step.SweepKey? && FindsAt(s, step.key, c)
  }

  lemma ExitStep(s: State, step: Step, c: ToolCall, exit: Exit)
    requires Inv(s) && Enabled(s, step)
    ensures LeftBy(Apply(s, step), c, exit) <==> LeftBy(s, c, exit) || Leaves(s, step, c, exit)
  {
    assert PendingOk(s.pending, s.fates);
    hide Inv, PendingOk, QP.Apply, QP.Enabled, Enabled, Apply, ApplyToCall, Leaves, LeftBy;
    if OfCall(step) {
      CallStepApplies(s, step);
      if step.Register? {
        ExitByRegister(s, step, c, exit);
      } else if step.Complete? || step.Abandon? {
        ExitByRemoval(s, step, c, exit);
      } else {
        NoExit(s, step, c, exit);
      }
    } else if step.SweepKey? {
      SweepStepApplies(s, step);
      ExitBySweep(s, step, c, exit);
    } else {
      FatesStay(s, step);
      NoExitElsewhere(s, step, Apply(s, step), c, exit);
    }
  }

  lemma NoExitElsewhere(s: State, step: Step, s': State, c: ToolCall, exit: Exit)
    requires !OfCall(step) && !step.SweepKey? && s'.fates == s.fates
    ensures LeftBy(s', c, exit) <==> LeftBy(s, c, exit)
    ensures !Leaves(s, step, c, exit)
  {
  }

  lemma ExitByRegister(s: State, step: Step, c: ToolCall, exit: Exit)
    requires PendingOk(s.pending, s.fates) && Enabled(s, step) && step.Register?
    ensures LeftBy(ApplyToCall(s, step), c, exit) <==> LeftBy(s, c, exit) || Leaves(s, step, c, exit)
  {
    hide QP.Apply, QP.Enabled;
  }

  lemma ExitByRemoval(s: State, step: Step, c: ToolCall, exit: Exit)
    requires PendingOk(s.pending, s.fates) && Enabled(s, step) && (step.Complete? || step.Abandon?)
    ensures LeftBy(ApplyToCall(s, step), c, exit) <==> LeftBy(s, c, exit) || Leaves(s, step, c, exit)
  {
    hide QP.Apply, QP.Enabled;
  }

  lemma NoExit(s: State, step: Step, c: ToolCall, exit: Exit)
    requires Enabled(s, step) && (step.CheckActive? || step.Enqueue? || step.RecordFor?)
    ensures LeftBy(ApplyToCall(s, step), c, exit) <==> LeftBy(s, c, exit)
    ensures !Leaves(s, step, c, exit)
  {
    hide QP.Apply, QP.Enabled;
  }

  lemma ExitBySweep(s: State, step: Step, c: ToolCall, exit: Exit)
    requires PendingOk(s.pending, s.fates) && Enabled(s, step) && step.SweepKey?
    requires Apply(s, step).fates == if step.key in s.pending then s.fates[s.pending[step.key] := Swept] else s.fates
    ensures LeftBy(Apply(s, step), c, exit) <==> LeftBy(s, c, exit) || Leaves(s, step, c, exit)
  {
    hide QP.Apply, QP.Enabled, Apply;
  }

  /** Each call left the way it did because of one kind of step only: a completion hook with
      that outcome, a cancellation, another registration or a sweep that found its key leading
      to it. */
  lemma {:induction false} ExitExactly(states: seq<State>, steps: seq<Step>, i: nat, c: ToolCall, exit: Exit)
    requires Run(states, steps) && i < |states|
    ensures LeftBy(states[i], c, exit) <==> exists m :: 0 <= m < i && Leaves(states[m], steps[m], c, exit)
  {
    hide Inv, Apply, Enabled, Leaves;
    if i > 0 {
      hide LeftBy;
      ExitExactly(states, steps, i - 1, c, exit);
      RunHolds(states, steps, i - 1);
      ExitStep(states[i - 1], steps[i - 1], c, exit);
      if m :| 0 <= m < i && Leaves(states[m], steps[m], c, exit) {
        assert m < i - 1 || m == i - 1;
      }
    }
  }

  // ----- What the hook made of it -----

  ghost predicate Decided(s: State, c: ToolCall, next: Disposition) {
    c in s.fates && s.fates[c].Removed? && s.fates[c].next == next
  }

  predicate IsFinal(next: Disposition) {
    next.Enqueued? || next.Reserved? || next.Silent?
  }

  /** The step that decides it: an enqueue, a claim that won, a claim that came too late, or a
      check that found the recorder closed. */
  ghost predicate Decides(s: State, step: Step, c: ToolCall, next: Disposition) {
    match next
    case Enqueued(t) => step.Enqueue? && step.c == c && step.t == t
    case Reserved(r) => step == RecordFor(c, r) && PhaseIs(s, r, Unclaimed)
    case Silent =>
      (step == CheckActive(c) && s.closed)
      || (step.RecordFor? && step.c == c && !PhaseIs(s, step.r, Unclaimed))
    case _ => false
  }

  lemma DecidedStep(s: State, step: Step, c: ToolCall, next: Disposition)
    requires Inv(s) && Enabled(s, step) && IsFinal(next)
    ensures Decided(Apply(s, step), c, next) <==> Decided(s, c, next) || Decides(s, step, c, next)
  {
    assert PendingOk(s.pending, s.fates);
    hide Inv, PendingOk, QP.Apply, QP.Enabled, Enabled, Apply, ApplyToCall, Decides, Decided;
    if OfCall(step) {
      CallStepApplies(s, step);
      if step.Register? || step.Complete? || step.Abandon? {
        NotDecided(s, step, c, next);
      } else {
        DecidedByHook(s, step, c, next);
      }
    } else if step.SweepKey? {
      SweepStepApplies(s, step);
      NotDecidedBySweep(s, step, c, next);
    } else {
      FatesStay(s, step);
      NotDecidedElsewhere(s, step, Apply(s, step), c, next);
    }
  }

  lemma NotDecidedElsewhere(s: State, step: Step, s': State, c: ToolCall, next: Disposition)
    requires !OfCall(step) && s'.fates == s.fates && IsFinal(next)
    ensures Decided(s', c, next) <==> Decided(s, c, next)
    ensures !Decides(s, step, c, next)
  {
  }

  lemma NotDecided(s: State, step: Step, c: ToolCall, next: Disposition)
    requires PendingOk(s.pending, s.fates) && Enabled(s, step) && IsFinal(next)
    requires step.Register? || step.Complete? || step.Abandon?
    ensures Decided(ApplyToCall(s, step), c, next) <==> Decided(s, c, next)
    ensures !Decides(s, step, c, next)
  {
    hide QP.Apply, QP.Enabled;
  }

  lemma DecidedByHook(s: State, step: Step, c: ToolCall, next: Disposition)
    requires Enabled(s, step) && IsFinal(next) && (step.CheckActive? || step.Enqueue? || step.RecordFor?)
    ensures Decided(ApplyToCall(s, step), c, next) <==> Decided(s, c, next) || Decides(s, step, c, next)
  {
    hide QP.Apply, QP.Enabled;
  }

  lemma NotDecidedBySweep(s: State, step: Step, c: ToolCall, next: Disposition)
    requires PendingOk(s.pending, s.fates) && Enabled(s, step) && step.SweepKey? && IsFinal(next)
    requires Apply(s, step).fates == if step.key in s.pending then s.fates[s.pending[step.key] := Swept] else s.fates
    ensures Decided(Apply(s, step), c, next) <==> Decided(s, c, next)
    ensures !Decides(s, step, c, next)
  {
    hide QP.Apply, QP.Enabled, Apply;
  }

  /** What became of a call that a hook took out: it went to the queue, to a reservation or
      nowhere exactly if a step of that kind said so. */
  lemma {:induction false} DecidedExactly(states: seq<State>, steps: seq<Step>, i: nat, c: ToolCall, next: Disposition)
    requires Run(states, steps) && i < |states| && IsFinal(next)
    ensures Decided(states[i], c, next) <==> exists m :: 0 <= m < i && Decides(states[m], steps[m], c, next)
  {
    hide Inv, Apply, Enabled, Decides;
    if i > 0 {
      hide Decided;
      DecidedExactly(states, steps, i - 1, c, next);
      RunHolds(states, steps, i - 1);
      DecidedStep(states[i - 1], steps[i - 1], c, next);
      if m :| 0 <= m < i && Decides(states[m], steps[m], c, next) {
        assert m < i - 1 || m == i - 1;
      }
    }
  }

  ghost predicate MayEnqueue(s: State, c: ToolCall) {
    c in s.fates && s.fates[c].Removed? && (s.fates[c].next.Cleared? || s.fates[c].next.Enqueued?)
  }

  lemma ClearedStep(s: State, step: Step, c: ToolCall)
    requires Enabled(s, step) && MayEnqueue(Apply(s, step), c) && !MayEnqueue(s, c)
    ensures step == CheckActive(c) && !s.closed
  {
    hide QP.Apply, QP.Enabled, Enabled, Apply, ApplyToCall;
    if OfCall(step) {
      CallStepApplies(s, step);
      ClearedByCheck(s, step, c);
    } else if step.SweepKey? {
      SweepStepApplies(s, step);
    } else {
      FatesStay(s, step);
    }
  }

  lemma ClearedByCheck(s: State, step: Step, c: ToolCall)
    requires Enabled(s, step) && OfCall(step) && MayEnqueue(ApplyToCall(s, step), c) && !MayEnqueue(s, c)
    ensures step == CheckActive(c) && !s.closed
  {
    hide QP.Apply, QP.Enabled;
  }

  /** Nothing is enqueued unless a check found the recorder open first. */
  lemma {:induction false} EnqueuedAfterCheck(states: seq<State>, steps: seq<Step>, i: nat, c: ToolCall) returns (m: nat)
    requires Run(states, steps) && i < |states| && MayEnqueue(states[i], c)
    ensures m < i && steps[m] == CheckActive(c) && !states[m].closed
  {
    hide Apply, Enabled;
    if i == 0 {
      assert false;
    } else if MayEnqueue(states[i - 1], c) {
      m := EnqueuedAfterCheck(states, steps, i - 1, c);
    } else {
      hide MayEnqueue;
      ClearedStep(states[i - 1], steps[i - 1], c);
      m := i - 1;
    }
  }

  // ----- Who was let in -----

  lemma ClosedStep(s: State, step: Step)
    requires Enabled(s, step)
    ensures Apply(s, step).closed <==> s.closed || step.MarkClosed?
  {
    hide QP.Apply, QP.Enabled;
    if OfReservation(step) || OfCall(step) { hide ApplyToCloser; }
    hide ApplyToReservation, ApplyToCall;
  }

  lemma {:induction false} ClosedExactly(states: seq<State>, steps: seq<Step>, i: nat)
    requires Run(states, steps) && i < |states|
    ensures states[i].closed <==> exists m :: 0 <= m < i && steps[m].MarkClosed?
  {
    hide Apply, Enabled;
    if i > 0 {
      ClosedExactly(states, steps, i - 1);
      ClosedStep(states[i - 1], steps[i - 1]);
      if m :| 0 <= m < i && steps[m].MarkClosed? {
        assert m < i - 1 || m == i - 1;
      }
    }
  }

  ghost predicate Accepts(s: State, step: Step, key: Key, c: ToolCall) {
    step == Register(key, c) && !s.closed
  }

  ghost predicate KnownUnder(s: State, key: Key, c: ToolCall) {
    c in s.keys && s.keys[c] == key
  }

  lemma KeysStay(s: State, step: Step)
    requires Enabled(s, step) && !step.Register?
    ensures Apply(s, step).keys == s.keys
  {
    hide QP.Apply, QP.Enabled, Apply;
    if OfReservation(step) {
      ReservationStepApplies(s, step);
    } else if OfCall(step) {
      CallStepApplies(s, step);
      KeysStayInCall(s, step);
    } else {
      OtherStepApplies(s, step);
    }
  }

  lemma KeysStayInCall(s: State, step: Step)
    requires Enabled(s, step) && OfCall(step) && !step.Register?
    ensures ApplyToCall(s, step).keys == s.keys
  {
    hide QP.Apply, QP.Enabled;
  }

  lemma OtherStepApplies(s: State, step: Step)
    requires Enabled(s, step) && !OfReservation(step) && !OfCall(step)
    ensures Apply(s, step).keys == s.keys
  {
    hide QP.Apply, QP.Enabled, ApplyToReservation, ApplyToCall, ApplyToCloser;
  }

  lemma RegisterApplies(s: State, key: Key, c: ToolCall)
    requires Enabled(s, Register(key, c))
    ensures c !in s.fates
    ensures ApplyToCall(s, Register(key, c)).keys == if s.closed then s.keys else s.keys[c := key]
  {
  }

  lemma RegisteredStep(s: State, step: Step, key: Key, c: ToolCall)
    requires Inv(s) && Enabled(s, step)
    ensures KnownUnder(Apply(s, step), key, c) <==> KnownUnder(s, key, c) || Accepts(s, step, key, c)
  {
    assert s.fates.Keys == s.keys.Keys;
    hide Inv, Enabled, Apply, ApplyToCall;
    if step.Register? {
      CallStepApplies(s, step);
      RegisterApplies(s, step.key, step.c);
    } else {
      KeysStay(s, step);
    }
  }

  /** A call is known under a key exactly if it was registered there while the recorder was
      open. */
  lemma {:induction false} RegisteredExactly(states: seq<State>, steps: seq<Step>, i: nat, key: Key, c: ToolCall)
    requires Run(states, steps) && i < |states|
    ensures KnownUnder(states[i], key, c) <==> exists m :: 0 <= m < i && Accepts(states[m], steps[m], key, c)
  {
    hide Inv, Apply, Enabled, Accepts;
    if i > 0 {
      hide KnownUnder;
      RegisteredExactly(states, steps, i - 1, key, c);
      RunHolds(states, steps, i - 1);
      RegisteredStep(states[i - 1], steps[i - 1], key, c);
      if m :| 0 <= m < i && Accepts(states[m], steps[m], key, c) {
        assert m < i - 1 || m == i - 1;
      }
    }
  }

  // ----- Reservations -----

  ghost predicate Grants(s: State, step: Step, r: ReservationId) {
    step == Reserve(r) && !s.closed
  }

  /** An attempt to claim r. */
  predicate Claims(s: State, step: Step, r: ReservationId) {
    r in s.reservations && (step == Release(r) || step == Record(r) || (step.RecordFor? && step.r == r))
  }

  ghost predicate Claimed(s: State, r: ReservationId) {
    r in s.reservations && s.reservations[r] != Unclaimed
  }

  ghost predicate HasEvents(s: State, r: ReservationId) {
    PhaseIs(s, r, Scheduled) || r in s.reservedSends
  }

  lemma ReservationStep(s: State, step: Step, r: ReservationId)
    requires Enabled(s, step)
    ensures r in Apply(s, step).reservations <==> r in s.reservations || Grants(s, step, r)
    ensures Claimed(Apply(s, step), r) <==> Claimed(s, r) || Claims(s, step, r)
    ensures HasEvents(Apply(s, step), r) <==> HasEvents(s, r) || step == BuildEvents(r, true)
  {
    hide Apply, QP.Apply, QP.Enabled;
    if OfReservation(step) {
      ReservationStepApplies(s, step);
      OwnReservationStep(s, step, r);
    } else if step.RecordFor? {
      RecordForApplies(s, step);
    } else {
      ReservationsStay(s, step);
    }
  }

  lemma OwnReservationStep(s: State, step: Step, r: ReservationId)
    requires Enabled(s, step) && OfReservation(step)
    ensures var s' := ApplyToReservation(s, step);
      && (r in s'.reservations <==> r in s.reservations || Grants(s, step, r))
      && (Claimed(s', r) <==> Claimed(s, r) || Claims(s, step, r))
      && (HasEvents(s', r) <==> HasEvents(s, r) || step == BuildEvents(r, true))
  {
    hide QP.Apply, QP.Enabled;
    if step.Reserve? {
      ReserveStep(s, step, r);
    } else if step.Release? || step.Record? {
      ClaimStep(s, step, r);
    } else {
      DeliveryStep(s, step, r);
    }
    hide Grants, Claims, Claimed, HasEvents, ApplyToReservation, Enabled;
  }

  lemma ReserveStep(s: State, step: Step, r: ReservationId)
    requires Enabled(s, step) && step.Reserve?
    ensures var s' := ApplyToReservation(s, step);
      && (r in s'.reservations <==> r in s.reservations || Grants(s, step, r))
      && (Claimed(s', r) <==> Claimed(s, r) || Claims(s, step, r))
      && (HasEvents(s', r) <==> HasEvents(s, r) || step == BuildEvents(r, true))
  {
    hide QP.Apply, QP.Enabled;
  }

  lemma ClaimStep(s: State, step: Step, r: ReservationId)
    requires Enabled(s, step) && (step.Release? || step.Record?)
    ensures var s' := ApplyToReservation(s, step);
      && (r in s'.reservations <==> r in s.reservations || Grants(s, step, r))
      && (Claimed(s', r) <==> Claimed(s, r) || Claims(s, step, r))
      && (HasEvents(s', r) <==> HasEvents(s, r) || step == BuildEvents(r, true))
  {
    hide QP.Apply, QP.Enabled;
  }

  lemma DeliveryStep(s: State, step: Step, r: ReservationId)
    requires Enabled(s, step) && OfReservation(step) && !step.Reserve? && !step.Release? && !step.Record?
    ensures var s' := ApplyToReservation(s, step);
      && (r in s'.reservations <==> r in s.reservations || Grants(s, step, r))
      && (Claimed(s', r) <==> Claimed(s, r) || Claims(s, step, r))
      && (HasEvents(s', r) <==> HasEvents(s, r) || step == BuildEvents(r, true))
  {
    hide QP.Apply, QP.Enabled;
  }

  /** A reservation exists exactly if it was made while the recorder was open, it is claimed
      exactly if someone tried to, and its events are or were on their way out exactly if its
      build produced some. */
  lemma {:induction false} ReservationExactly(states: seq<State>, steps: seq<Step>, i: nat, r: ReservationId)
    requires Run(states, steps) && i < |states|
    ensures r in states[i].reservations <==> exists m :: 0 <= m < i && Grants(states[m], steps[m], r)
    ensures Claimed(states[i], r) <==> exists m :: 0 <= m < i && Claims(states[m], steps[m], r)
    ensures HasEvents(states[i], r) <==> exists m :: 0 <= m < i && steps[m] == BuildEvents(r, true)
  {
    hide Apply, Enabled, Grants, Claims;
    if i > 0 {
      ReservationExactly(states, steps, i - 1, r);
      ReservationStep(states[i - 1], steps[i - 1], r);
      hide Claimed, HasEvents;
      if m :| 0 <= m < i && Grants(states[m], steps[m], r) {
        assert m < i - 1 || m == i - 1;
      }
      if m :| 0 <= m < i && Claims(states[m], steps[m], r) {
        assert m < i - 1 || m == i - 1;
      }
      if m :| 0 <= m < i && steps[m] == BuildEvents(r, true) {
        assert m < i - 1 || m == i - 1;
      }
    }
  }

  /** The claim that wins r for recording. */
  ghost predicate WinsToRecord(s: State, step: Step, r: ReservationId) {
    PhaseIs(s, r, Unclaimed) && (step == Record(r) || (step.RecordFor? && step.r == r))
  }

  predicate EndsBuild(step: Step, r: ReservationId) {
    step == BuildEvents(r, true) || step == BuildEvents(r, false) || step == BuildPanics(r)
  }

  lemma BuildingStep(s: State, step: Step, r: ReservationId)
    requires Enabled(s, step)
    ensures PhaseIs(Apply(s, step), r, Building) <==>
      WinsToRecord(s, step, r) || (PhaseIs(s, r, Building) && !EndsBuild(step, r))
  {
    hide Apply, QP.Apply, QP.Enabled;
    if OfReservation(step) {
      ReservationStepApplies(s, step);
      OwnBuildingStep(s, step, r);
    } else if step.RecordFor? {
      RecordForApplies(s, step);
    } else {
      ReservationsStay(s, step);
    }
  }

  lemma OwnBuildingStep(s: State, step: Step, r: ReservationId)
    requires Enabled(s, step) && OfReservation(step)
    ensures PhaseIs(ApplyToReservation(s, step), r, Building) <==>
      WinsToRecord(s, step, r) || (PhaseIs(s, r, Building) && !EndsBuild(step, r))
  {
    hide QP.Apply, QP.Enabled;
  }

  /** It was won for recording at step m and its build has not ended since. */
  ghost predicate WonAt(states: seq<State>, steps: seq<Step>, i: nat, r: ReservationId, m: nat)
    requires i < |states| == |steps| + 1
  {
    m < i && WinsToRecord(states[m], steps[m], r) && forall n :: m < n < i ==> !EndsBuild(steps[n], r)
  }

  /** The events of a reservation are being built exactly from the claim that won it for
      recording to the end of the build. */
  lemma {:induction false} BuildingExactly(states: seq<State>, steps: seq<Step>, i: nat, r: ReservationId)
    requires Run(states, steps) && i < |states|
    ensures PhaseIs(states[i], r, Building) <==> exists m: nat :: WonAt(states, steps, i, r, m)
  {
    hide Apply, Enabled, WinsToRecord, EndsBuild, PhaseIs;
    if i == 0 {
      NothingReserved(r);
    } else {
      var last := i - 1;
      BuildingExactly(states, steps, last, r);
      BuildingStep(states[last], steps[last], r);
      if WinsToRecord(states[last], steps[last], r) {
        assert WonAt(states, steps, i, r, last);
      } else if m: nat :| WonAt(states, steps, last, r, m) {
        assert !EndsBuild(steps[last], r) ==> WonAt(states, steps, i, r, m);
      }
      if m: nat :| WonAt(states, steps, i, r, m) {
        assert m < last ==> WonAt(states, steps, last, r, m);
      }
    }
  }

  lemma NothingReserved(r: ReservationId)
    ensures !PhaseIs(INITIAL, r, Building)
  {
  }
}
