/** What shutting the recorder down promises, over every interleaving. */
module RecorderTheorems {
  import QP = QueueProtocol
  import QT = QueueTheorems
  import opened RecorderProtocol
  import opened Wrappers

  ghost predicate Run(states: seq<State>, steps: seq<Step>) {
    && |states| == |steps| + 1
    && states[0] == INITIAL
    && forall i :: 0 <= i < |steps| ==> Enabled(states[i], steps[i]) && states[i + 1] == Apply(states[i], steps[i])
  }

  lemma InitialHolds()
    ensures Inv(INITIAL)
  {
    QP.InitialHolds();
    assert Outstanding(INITIAL.reservations) == {};
  }

  lemma {:induction false} RunHolds(states: seq<State>, steps: seq<Step>, i: nat)
    requires Run(states, steps) && i < |states|
    ensures Inv(states[i])
  {
    hide Inv, Apply, Enabled, Advances;
    if i == 0 {
      InitialHolds();
    } else {
      RunHolds(states, steps, i - 1);
      StepKeeps(states[i - 1], steps[i - 1]);
    }
  }

  // ----- Close -----

  ghost predicate SendInProgress(s: State) {
    || (exists w :: 0 <= w < |s.q.workers| && s.q.workers[w].Sending?)
    || (exists r :: PhaseIs(s, r, Sending))
  }

  lemma QuietMeansNoSend(s: State)
    requires Inv(s) && Quiet(s)
    ensures !SendInProgress(s)
  {
    assert forall r :: PhaseIs(s, r, Sending) ==> r in Outstanding(s.reservations);
    hide QP.CallsOk;
    QT.IdleIsSettled(s.q);
  }

  lemma QuietStays(s: State, step: Step)
    requires Inv(s) && Enabled(s, step) && s.closed && Quiet(s)
    ensures var s' := Apply(s, step);
      s'.closed && Quiet(s') && s'.q.sent == s.q.sent && s'.reservedSends == s.reservedSends
  {
    hide QP.Inv, Accounting, PendingOk, KeysOk, RoutesOk, ClosersOk, QP.Apply, QP.Enabled, QT.ClosedForGood;
    StepKeeps(s, step);
    SentStays(s, step);
    hide Apply, Enabled, Inv;
  }

  /** A step of the system is at most one step of the queue. */
  lemma QueueMove(s: State, step: Step) returns (qs: QP.Step)
    requires Enabled(s, step)
    ensures Apply(s, step).q == s.q || (QP.Enabled(s.q, qs) && Apply(s, step).q == QP.Apply(s.q, qs))
    ensures if step.QueueStep? then qs == step.step && QP.Enabled(s.q, qs) && Apply(s, step).q == QP.Apply(s.q, qs)
            else qs.StartEnqueue? || qs.StartClose? || qs.StartFlush?
  {
    hide QP.Apply, QP.Enabled, ApplyToReservation;
    if step.QueueStep? {
      hide ApplyToCall, ApplyToCloser;
      qs := step.step;
    } else if step.Enqueue? {
      hide ApplyToCloser;
      qs := QP.StartEnqueue(step.t, step.await);
    } else if step.CloseQueue? || step.QueueClosed? {
      hide ApplyToCall;
      qs := if step.CloseQueue? then QP.StartClose(step.t) else QP.StartFlush(step.t);
    } else {
      hide ApplyToCall, ApplyToCloser;
      qs := QP.StartFlush(0);
    }
  }

  lemma SentStays(s: State, step: Step)
    requires Inv(s) && Enabled(s, step) && Quiet(s)
    ensures Apply(s, step).q.sent == s.q.sent && Apply(s, step).reservedSends == s.reservedSends
  {
    var qs := QueueMove(s, step);
    ReservedSendsStay(s, step);
    hide QP.Inv, QP.Apply, QP.Enabled, QT.ClosedForGood, Outstanding;
    hide Accounting, PendingOk, KeysOk, RoutesOk, ClosersOk, Apply, Enabled;
    if Apply(s, step).q != s.q { QueueKeeps(s.q, qs); }
  }

  lemma ReservedSendsStay(s: State, step: Step)
    requires Enabled(s, step) && Quiet(s)
    ensures Apply(s, step).reservedSends == s.reservedSends
  {
    hide QP.Apply, QP.Enabled, QT.ClosedForGood, ApplyToCall, ApplyToCloser;
    if OfReservation(step) {
      assert step.r !in Outstanding(s.reservations);
    }
  }

  /** After Close has returned nil no send is in progress and none ever starts, neither
      from the queue nor for a reservation, whatever hooks, handlers and callers do. */
  lemma {:induction false} NoSendAfterClose(states: seq<State>, steps: seq<Step>, i: nat, j: nat, k: nat)
    requires Run(states, steps) && i <= j < |states|
    requires k in states[i].closers && states[i].closers[k] == Closed(true)
    ensures !SendInProgress(states[j])
    ensures states[j].q.sent == states[i].q.sent && states[j].reservedSends == states[i].reservedSends
    ensures states[j].closed && Quiet(states[j])
  {
    hide Inv, Apply, Enabled, Quiet, SendInProgress;
    RunHolds(states, steps, j);
    if i == j {
      ClosedMeansQuiet(states[i], k);
    } else {
      RunHolds(states, steps, j - 1);
      NoSendAfterClose(states, steps, i, j - 1, k);
      QuietStays(states[j - 1], steps[j - 1]);
    }
    QuietMeansNoSend(states[j]);
  }

  lemma ClosedMeansQuiet(s: State, k: nat)
    requires Inv(s) && k in s.closers && s.closers[k].Closed?
    ensures s.closed && s.pending == map[] && (s.closers[k].ok ==> Quiet(s))
  {
    assert CloserOk(s, s.closers[k]);
  }

  // ----- Reservations -----

  /** The WaitGroup counts exactly the reservations that are unclaimed or claimed with
      their delivery unfinished; it is never negative, and no reservation is discharged
      twice. */
  lemma InflightIsTheDebt(states: seq<State>, steps: seq<Step>, i: nat)
    requires Run(states, steps) && i < |states|
    ensures var s := states[i];
      && s.inflight == |set r | r in s.reservations && s.reservations[r] != Discharged|
      && s.inflight >= 0
      && Distinct(s.discharged)
      && (forall r :: r in s.discharged <==> PhaseIs(s, r, Discharged))
  {
    RunHolds(states, steps, i);
    var s := states[i];
    assert Outstanding(s.reservations) == set r | r in s.reservations && s.reservations[r] != Discharged;
  }

  /** Once claimed a reservation is never claimed again: later attempts by either side
      change nothing. */
  lemma ClaimedOnce(s: State, step: Step, r: ReservationId)
    requires Enabled(s, step) && r in s.reservations && s.reservations[r] != Unclaimed
    ensures r in Apply(s, step).reservations && Apply(s, step).reservations[r] != Unclaimed
    ensures (step == Release(r) || step == Record(r)) ==> Apply(s, step) == s
    ensures step.RecordFor? && step.r == r ==>
      Apply(s, step).reservations == s.reservations && Apply(s, step).fates[step.c].next == Silent
  {
    if OfReservation(step) {
      ReservationStepApplies(s, step);
      ClaimedStays(s, step, r);
    } else if step.RecordFor? {
      RecordForApplies(s, step);
    } else {
      ReservationsStay(s, step);
    }
    hide QP.Apply, QP.Enabled, Apply;
  }

  lemma ClaimedStays(s: State, step: Step, r: ReservationId)
    requires Enabled(s, step) && OfReservation(step) && r in s.reservations && s.reservations[r] != Unclaimed
    ensures var s' := ApplyToReservation(s, step);
      && r in s'.reservations && s'.reservations[r] != Unclaimed
      && ((step == Release(r) || step == Record(r)) ==> s' == s)
  {
    hide QP.Apply, QP.Enabled;
  }

  // ----- Pending calls -----

  /** After any Close has returned, with or without an error, the pending map is empty and
      stays empty: a registration is either seen by the sweep or refused. */
  lemma {:induction false} PendingStaysEmpty(states: seq<State>, steps: seq<Step>, i: nat, j: nat, k: nat)
    requires Run(states, steps) && i <= j < |states|
    requires k in states[i].closers && states[i].closers[k].Closed?
    ensures states[j].closed && states[j].pending == map[]
    ensures forall c :: c in states[j].fates ==> !states[j].fates[c].Waiting?
  {
    hide Inv, Apply, Enabled;
    RunHolds(states, steps, j);
    if i == j {
      ClosedMeansQuiet(states[i], k);
    } else {
      PendingStaysEmpty(states, steps, i, j - 1, k);
      RunHolds(states, steps, j - 1);
      StepKeeps(states[j - 1], steps[j - 1]);
    }
    NothingWaits(states[j]);
  }

  lemma NothingWaits(s: State)
    requires Inv(s) && s.pending == map[]
    ensures forall c :: c in s.fates ==> !s.fates[c].Waiting?
  {
  }

  /** How a call left the pending map, once it has. */
  datatype Exit = ByOverwrite | ByHook(cause: Cause) | BySweep

  function ExitOf(fate: Fate): Exit
    requires !fate.Waiting?
  {
    match fate
    case Overwritten => ByOverwrite
    case Removed(cause, _) => ByHook(cause)
    case Swept => BySweep
  }

  lemma FateStep(s: State, step: Step, c: ToolCall)
    requires Inv(s) && Enabled(s, step) && c in s.fates
    ensures c in Apply(s, step).fates
    ensures !s.fates[c].Waiting? ==>
      !Apply(s, step).fates[c].Waiting? && ExitOf(Apply(s, step).fates[c]) == ExitOf(s.fates[c])
    ensures Carries(s.fates[c]) ==> Apply(s, step).fates[c] == s.fates[c]
  {
    hide QP.Inv, Accounting, KeysOk, RoutesOk, ClosersOk, QP.Apply, QP.Enabled, Enabled, Apply, ApplyToCall;
    if OfCall(step) {
      CallStepApplies(s, step);
    } else if step.SweepKey? {
      SweepStepApplies(s, step);
    } else {
      FatesStay(s, step);
    }
    if step.Register? {
      FateRegisterStep(s, step, c);
    } else if OfCall(step) {
      FateCallStep(s, step, c);
    }
  }

  lemma FateRegisterStep(s: State, step: Step, c: ToolCall)
    requires PendingOk(s.pending, s.fates) && Enabled(s, step) && step.Register? && c in s.fates
    ensures c in ApplyToCall(s, step).fates
    ensures !s.fates[c].Waiting? ==>
      !ApplyToCall(s, step).fates[c].Waiting? && ExitOf(ApplyToCall(s, step).fates[c]) == ExitOf(s.fates[c])
    ensures Carries(s.fates[c]) ==> ApplyToCall(s, step).fates[c] == s.fates[c]
  {
    hide QP.Apply, QP.Enabled;
  }

  lemma FateCallStep(s: State, step: Step, c: ToolCall)
    requires PendingOk(s.pending, s.fates) && Enabled(s, step) && OfCall(step) && !step.Register? && c in s.fates
    ensures c in ApplyToCall(s, step).fates
    ensures !s.fates[c].Waiting? ==>
      !ApplyToCall(s, step).fates[c].Waiting? && ExitOf(ApplyToCall(s, step).fates[c]) == ExitOf(s.fates[c])
    ensures Carries(s.fates[c]) ==> ApplyToCall(s, step).fates[c] == s.fates[c]
  {
    hide QP.Apply, QP.Enabled;
  }

  /** A call leaves the pending map once: the way it went never changes, and once a hook
      has routed it, to a queue item or to a reservation, that route is its only one. */
  lemma {:induction false} ExitIsFinal(states: seq<State>, steps: seq<Step>, i: nat, j: nat, c: ToolCall)
    requires Run(states, steps) && i <= j < |states|
    requires c in states[i].fates
    ensures c in states[j].fates
    ensures !states[i].fates[c].Waiting? ==>
      !states[j].fates[c].Waiting? && ExitOf(states[j].fates[c]) == ExitOf(states[i].fates[c])
    ensures Carries(states[i].fates[c]) ==> states[j].fates[c] == states[i].fates[c]
  {
    hide Inv, Apply, Enabled;
    if i < j {
      ExitIsFinal(states, steps, i, j - 1, c);
      RunHolds(states, steps, j - 1);
      FateStep(states[j - 1], steps[j - 1], c);
    }
  }

  predicate PastScheduled(phase: Phase) {
    phase == Sending || phase == Settling || phase == Discharged
  }

  /** A reservation is sent at most once: it is past Scheduled from then on. */
  ghost predicate SendsOk(reservations: map<ReservationId, Phase>, sends: seq<ReservationId>) {
    && Distinct(sends)
    && forall r :: r in sends ==> r in reservations && PastScheduled(reservations[r])
  }

  lemma SendsPhase(reservations: map<ReservationId, Phase>, sends: seq<ReservationId>, r: ReservationId, phase: Phase)
    requires SendsOk(reservations, sends)
    requires r in reservations && PastScheduled(reservations[r]) ==> PastScheduled(phase)
    ensures SendsOk(reservations[r := phase], sends)
  {
  }

  lemma SendsStart(reservations: map<ReservationId, Phase>, sends: seq<ReservationId>, r: ReservationId)
    requires SendsOk(reservations, sends) && r in reservations && reservations[r] == Scheduled
    ensures SendsOk(reservations[r := Sending], sends + [r])
  {
  }

  lemma SendsStep(s: State, step: Step)
    requires SendsOk(s.reservations, s.reservedSends) && Enabled(s, step)
    ensures SendsOk(Apply(s, step).reservations, Apply(s, step).reservedSends)
  {
    hide SendsOk;
    if OfReservation(step) {
      ReservationStepApplies(s, step);
      SendsReservationStep(s, step);
    } else if step.RecordFor? {
      RecordForApplies(s, step);
      if s.reservations[step.r] == Unclaimed { SendsPhase(s.reservations, s.reservedSends, step.r, Building); }
    } else {
      ReservationsStay(s, step);
    }
    hide QP.Apply, QP.Enabled, Apply;
  }

  lemma SendsReservationStep(s: State, step: Step)
    requires SendsOk(s.reservations, s.reservedSends) && Enabled(s, step) && OfReservation(step)
    ensures var s' := ApplyToReservation(s, step); SendsOk(s'.reservations, s'.reservedSends)
  {
    hide QP.Apply, QP.Enabled, SendsOk;
    if step.StartReservedSend? {
      SendsStart(s.reservations, s.reservedSends, step.r);
    } else if ApplyToReservation(s, step).reservations != s.reservations {
      SendsPhase(s.reservations, s.reservedSends, step.r, ApplyToReservation(s, step).reservations[step.r]);
    }
  }

  lemma {:induction false} RunSendsOk(states: seq<State>, steps: seq<Step>, i: nat)
    requires Run(states, steps) && i < |states|
    ensures SendsOk(states[i].reservations, states[i].reservedSends)
  {
    hide Apply, Enabled;
    if i > 0 {
      RunSendsOk(states, steps, i - 1);
      SendsStep(states[i - 1], steps[i - 1]);
    }
  }

  /** No two calls share a queue item or a reservation, no item is finalized twice and no
      reservation is sent twice. */
  lemma AtMostOneToolCall(states: seq<State>, steps: seq<Step>, i: nat, c: ToolCall, d: ToolCall)
    requires Run(states, steps) && i < |states|
    requires c in states[i].fates && d in states[i].fates && c != d
    requires Carries(states[i].fates[c]) && Carries(states[i].fates[d])
    ensures states[i].fates[c].next != states[i].fates[d].next
    ensures Distinct(states[i].q.appended) && Distinct(QP.TakenItems(states[i].q.removed))
    ensures Distinct(QP.FinalizedItems(states[i].q.finalized)) && Distinct(states[i].reservedSends)
  {
    RunHolds(states, steps, i);
    RunSendsOk(states, steps, i);
    FinalizedOnce(states[i].q);
  }

  lemma FinalizedOnce(q: QP.State)
    requires QP.Inv(q)
    ensures Distinct(QP.TakenItems(q.removed)) && Distinct(QP.FinalizedItems(q.finalized))
  {
    QT.TakenDistinct(q.appended, q.removed, q.queue.pending);
    hide QP.CallsOk, QP.DropsNeedBackground;
    var taken, finalized := QP.TakenItems(q.removed), QP.FinalizedItems(q.finalized);
    assert forall k :: 0 <= k < |finalized| ==> finalized[k] == taken[k];
  }

  /** An item that is pending or was dropped has not been finalized. */
  lemma FinalizedWasTaken(q: QP.State, t: QP.CallId)
    requires QP.Inv(q)
    ensures t in QP.FinalizedItems(q.finalized) ==> t !in q.queue.pending && QP.Dropped(t) !in q.removed
  {
    hide QP.CallsOk, QP.DropsNeedBackground, QP.OneWorker, QP.DoneOk;
    QT.FateIsUnique(q.appended, q.removed, q.queue.pending, t);
    hide QP.Fifo;
    if t in QP.FinalizedItems(q.finalized) {
      assert t in QP.TakenItems(q.removed);
      QP.TakenItemsHas(q.removed, t);
    }
  }

  /** How often the tool_call of a routed call has been produced: by finalizations of its
      queue item, or by sends of its reservation. */
  function Deliveries(s: State, c: ToolCall): nat
    requires c in s.fates && Carries(s.fates[c])
  {
    match s.fates[c].next
    case Enqueued(t) => multiset(QP.FinalizedItems(s.q.finalized))[t]
    case Reserved(r) => multiset(s.reservedSends)[r]
  }

  /** At most once; never while its item is pending or after it was dropped, and never while
      its reservation is being built. */
  lemma DeliveredAtMostOnce(states: seq<State>, steps: seq<Step>, i: nat, c: ToolCall)
    requires Run(states, steps) && i < |states|
    requires c in states[i].fates && Carries(states[i].fates[c])
    ensures Deliveries(states[i], c) <= 1
    ensures var s, next := states[i], states[i].fates[c].next;
      next.Reserved? && (PhaseIs(s, next.r, Building) || PhaseIs(s, next.r, Scheduled)) ==> Deliveries(s, c) == 0
    ensures var s, next := states[i], states[i].fates[c].next;
      next.Enqueued? && (next.t in s.q.queue.pending || QP.Dropped(next.t) in s.q.removed) ==> Deliveries(s, c) == 0
  {
    var s := states[i];
    RunHolds(states, steps, i);
    RunSendsOk(states, steps, i);
    FinalizedOnce(s.q);
    match s.fates[c].next
    case Enqueued(t) =>
      FinalizedWasTaken(s.q, t);
      hide Inv;
      OccursAtMostOnce(QP.FinalizedItems(s.q.finalized), t);
    case Reserved(r) => OccursAtMostOnce(s.reservedSends, r);
  }

  /** A registration that finds its key in use. */
  ghost predicate ReusesKey(s: State, step: Step) {
    step.Register? && !s.closed && step.key in s.pending
  }

  ghost predicate Lost(s: State, c: ToolCall) {
    c in s.fates && s.fates[c] == Overwritten
  }

  /** A registration under the key at which c waits. */
  ghost predicate Overwrites(s: State, step: Step, c: ToolCall) {
    ReusesKey(s, step) && s.pending[step.key] == c
  }

  lemma OverwriteStep(s: State, step: Step, c: ToolCall)
    requires Inv(s) && Enabled(s, step)
    ensures Lost(Apply(s, step), c) <==> Lost(s, c) || Overwrites(s, step, c)
  {
    hide QP.Inv, Accounting, KeysOk, RoutesOk, ClosersOk, QP.Apply, QP.Enabled, Enabled, Apply, ApplyToCall;
    if OfCall(step) {
      CallStepApplies(s, step);
      OverwriteCallStep(s, step, c);
    } else if step.SweepKey? {
      SweepStepApplies(s, step);
    } else {
      FatesStay(s, step);
    }
  }

  lemma OverwriteCallStep(s: State, step: Step, c: ToolCall)
    requires PendingOk(s.pending, s.fates) && Enabled(s, step) && OfCall(step)
    ensures Lost(ApplyToCall(s, step), c) <==> Lost(s, c) || Overwrites(s, step, c)
  {
    hide QP.Apply, QP.Enabled;
  }

  /** A registered call is lost without a hook or the sweep seeing it exactly when its key
      is registered again while the call is pending. */
  lemma {:induction false} LostExactly(states: seq<State>, steps: seq<Step>, i: nat, c: ToolCall)
    requires Run(states, steps) && i < |states|
    ensures Lost(states[i], c) <==> exists k :: 0 <= k < i && Overwrites(states[k], steps[k], c)
  {
    hide Inv, Apply, Enabled, Overwrites;
    if i > 0 {
      hide Lost;
      LostExactly(states, steps, i - 1, c);
      RunHolds(states, steps, i - 1);
      OverwriteStep(states[i - 1], steps[i - 1], c);
      if k :| 0 <= k < i && Overwrites(states[k], steps[k], c) {
        assert k < i - 1 || k == i - 1;
      }
    }
  }

  /** So some call is lost in a run exactly when some registration finds its key in use. */
  lemma LostExactlyByKeyReuse(states: seq<State>, steps: seq<Step>, i: nat)
    requires Run(states, steps) && i < |states|
    ensures (exists c :: Lost(states[i], c)) <==> (exists k :: 0 <= k < i && ReusesKey(states[k], steps[k]))
  {
    hide Lost, Apply, Enabled;
    if c :| Lost(states[i], c) {
      LostExactly(states, steps, i, c);
      var k :| 0 <= k < i && Overwrites(states[k], steps[k], c);
      assert ReusesKey(states[k], steps[k]);
    }
    if k :| 0 <= k < i && ReusesKey(states[k], steps[k]) {
      var c := states[k].pending[steps[k].key];
      assert Overwrites(states[k], steps[k], c);
      LostExactly(states, steps, i, c);
    }
  }

  /** A cancellation callback looks its call up by key. It removes the call that armed it,
      and no other, in every run that registers each key at most once. */
  lemma CancellationRemovesItsOwnCall(states: seq<State>, steps: seq<Step>, i: nat, c: ToolCall)
    requires Run(states, steps) && i < |states|
    requires c in states[i].fates && states[i].fates[c].Removed? && states[i].fates[c].cause.Abandonment?
    requires forall d, e :: d in states[i].keys && e in states[i].keys && d != e ==> states[i].keys[d] != states[i].keys[e]
    ensures states[i].fates[c].cause.armedBy == c
  {
    RunHolds(states, steps, i);
  }

  /** Call c was removed by the cancellation callback that call a armed. */
  ghost predicate RemovedBy(s: State, c: ToolCall, a: ToolCall) {
    c in s.fates && s.fates[c].Removed? && s.fates[c].cause == Abandonment(a)
  }

  /** The callback that a armed fires while a's key leads to c. */
  ghost predicate Strikes(s: State, step: Step, c: ToolCall, a: ToolCall) {
    step == Abandon(a) && a in s.keys && s.keys[a] in s.pending && s.pending[s.keys[a]] == c
  }

  lemma StrikeStep(s: State, step: Step, c: ToolCall, a: ToolCall)
    requires Inv(s) && Enabled(s, step)
    ensures RemovedBy(Apply(s, step), c, a) <==> RemovedBy(s, c, a) || Strikes(s, step, c, a)
  {
    hide QP.Inv, Accounting, KeysOk, RoutesOk, ClosersOk, QP.Apply, QP.Enabled, Enabled, Apply, ApplyToCall;
    if OfCall(step) {
      CallStepApplies(s, step);
      StrikeCallStep(s, step, c, a);
    } else if step.SweepKey? {
      SweepStepApplies(s, step);
    } else {
      FatesStay(s, step);
    }
  }

  lemma StrikeCallStep(s: State, step: Step, c: ToolCall, a: ToolCall)
    requires PendingOk(s.pending, s.fates) && Enabled(s, step) && OfCall(step)
    ensures RemovedBy(ApplyToCall(s, step), c, a) <==> RemovedBy(s, c, a) || Strikes(s, step, c, a)
  {
    hide QP.Apply, QP.Enabled;
  }

  /** Which callback removed which call, exactly: at some earlier step it fired while its key
      led to that call. */
  lemma {:induction false} RemovedByExactly(states: seq<State>, steps: seq<Step>, i: nat, c: ToolCall, a: ToolCall)
    requires Run(states, steps) && i < |states|
    ensures RemovedBy(states[i], c, a) <==> exists k :: 0 <= k < i && Strikes(states[k], steps[k], c, a)
  {
    hide Inv, Apply, Enabled, Strikes;
    if i == 0 {
      hide RemovedBy;
      assert !RemovedBy(INITIAL, c, a) by { NothingRemoved(c, a); }
    } else {
      hide RemovedBy;
      RemovedByExactly(states, steps, i - 1, c, a);
      RunHolds(states, steps, i - 1);
      StrikeStep(states[i - 1], steps[i - 1], c, a);
      if k :| 0 <= k < i && Strikes(states[k], steps[k], c, a) {
        assert k < i - 1 || k == i - 1;
      }
    }
  }

  lemma NothingRemoved(c: ToolCall, a: ToolCall)
    ensures !RemovedBy(INITIAL, c, a)
  {
  }

  /** A callback that fires while its key leads to another call than the one that armed it. */
  ghost predicate StrikesAnother(s: State, step: Step) {
    step.Abandon? && step.a in s.keys && s.keys[step.a] in s.pending && s.pending[s.keys[step.a]] != step.a
  }

  /** In a run some call is removed by another call's cancellation exactly when some callback
      fired while its key led to another call. */
  lemma WrongCallRemovedExactly(states: seq<State>, steps: seq<Step>, i: nat)
    requires Run(states, steps) && i < |states|
    ensures (exists c, a :: c != a && RemovedBy(states[i], c, a))
            <==> (exists k :: 0 <= k < i && StrikesAnother(states[k], steps[k]))
  {
    hide RemovedBy, Apply, Enabled;
    if c, a :| c != a && RemovedBy(states[i], c, a) {
      RemovedByExactly(states, steps, i, c, a);
      var k :| 0 <= k < i && Strikes(states[k], steps[k], c, a);
      assert StrikesAnother(states[k], steps[k]);
    }
    if k :| 0 <= k < i && StrikesAnother(states[k], steps[k]) {
      var a := steps[k].a;
      var c := states[k].pending[states[k].keys[a]];
      assert Strikes(states[k], steps[k], c, a);
      RemovedByExactly(states, steps, i, c, a);
    }
  }

  ghost predicate Moves(s: State, step: Step, s': State) {
    Enabled(s, step) && s' == Apply(s, step)
  }

  /** The hypothesis is needed: once call c has completed and its key is registered again
      for call d, the cancellation of c's context records d as abandoned. */
  lemma StaleCancellation(s: State, key: Key, c: ToolCall, d: ToolCall)
    returns (s1: State, s2: State, s3: State, s4: State)
    requires Inv(s) && !s.closed && key !in s.pending && c !in s.fates && d !in s.fates && c != d
    ensures Moves(s, Register(key, c), s1) && Moves(s1, Complete(key, true), s2)
    ensures Moves(s2, Register(key, d), s3) && Moves(s3, Abandon(c), s4)
    ensures d in s4.fates && s4.fates[d] == Removed(Abandonment(c), Undecided)
  {
    hide Inv;
    s1 := Registered(s, key, c);
    s2 := Completed(s1, key, c);
    s3 := Registered(s2, key, d);
    s4 := AbandonedBy(s3, c, d);
  }

  lemma Registered(s: State, key: Key, c: ToolCall) returns (s': State)
    requires !s.closed && key !in s.pending && c !in s.fates
    ensures Moves(s, Register(key, c), s') && !s'.closed && s'.pending == s.pending[key := c]
    ensures s'.fates == s.fates[c := Waiting(key)] && s'.keys == s.keys[c := key]
  {
    s' := Apply(s, Register(key, c));
  }

  lemma Completed(s: State, key: Key, c: ToolCall) returns (s': State)
    requires key in s.pending && s.pending[key] == c
    ensures Moves(s, Complete(key, true), s') && s'.closed == s.closed && s'.pending == s.pending - {key}
    ensures s'.fates == s.fates[c := Removed(Success, Undecided)] && s'.keys == s.keys
  {
    s' := Apply(s, Complete(key, true));
  }

  lemma AbandonedBy(s: State, c: ToolCall, d: ToolCall) returns (s': State)
    requires c in s.keys && s.keys[c] in s.pending && s.pending[s.keys[c]] == d
    ensures Moves(s, Abandon(c), s') && d in s'.fates && s'.fates[d] == Removed(Abandonment(c), Undecided)
  {
    s' := Apply(s, Abandon(c));
  }

  // ----- Progress -----

  /** Claimed reservations that are not discharged yet. */
  function InDelivery(reservations: map<ReservationId, Phase>): set<ReservationId> {
    set r | r in reservations && reservations[r] != Unclaimed && reservations[r] != Discharged
  }

  function UnclaimedIn(reservations: map<ReservationId, Phase>): set<ReservationId> {
    set r | r in reservations && reservations[r] == Unclaimed
  }

  function StepsLeft(phase: Phase): nat {
    match phase
    case Building => 4
    case Scheduled => 3
    case Sending => 2
    case Settling => 1
    case _ => 0
  }

  predicate IsDelivery(step: Step, rs: set<ReservationId>) {
    match step
    case BuildEvents(r, _) => r in rs
    case StartReservedSend(r) => r in rs
    case ReservedSendReturns(r) => r in rs
    case Settle(r) => r in rs
    case _ => false
  }

  /** Nothing but reservations, their counter and their histories differs. */
  predicate SameButDeliveries(s: State, s': State) {
    && s'.q == s.q && s'.closed == s.closed && s'.pending == s.pending
    && s'.fates == s.fates && s'.keys == s.keys && s'.closers == s.closers
  }

  /** A claimed reservation always has a step of its own that brings it nearer to being
      discharged, whatever the rest of the system does. */
  lemma DeliveryCanMove(s: State, r: ReservationId) returns (step: Step, phase: Phase)
    requires r in InDelivery(s.reservations)
    ensures IsDelivery(step, {r}) && Enabled(s, step)
    ensures Apply(s, step).reservations == s.reservations[r := phase]
    ensures phase != Unclaimed && StepsLeft(phase) < StepsLeft(s.reservations[r])
    ensures SameButDeliveries(s, Apply(s, step))
  {
    hide QP.Apply, QP.Enabled, Apply, ApplyToReservation, ApplyToCall, ApplyToCloser;
    match s.reservations[r] {
      case Building =>
        step, phase := BuildEvents(r, true), Scheduled;
        BuildApplies(s, r);
      case Scheduled =>
        step, phase := StartReservedSend(r), Sending;
        SendApplies(s, r);
      case Sending =>
        step, phase := ReservedSendReturns(r), Settling;
        ReturnApplies(s, r);
      case Settling =>
        step, phase := Settle(r), Discharged;
        SettleApplies(s, r);
    }
    ReservationStepApplies(s, step);
  }

  lemma BuildApplies(s: State, r: ReservationId)
    requires PhaseIs(s, r, Building)
    ensures Enabled(s, BuildEvents(r, true))
    ensures ApplyToReservation(s, BuildEvents(r, true)).reservations == s.reservations[r := Scheduled]
  {
  }

  lemma SendApplies(s: State, r: ReservationId)
    requires PhaseIs(s, r, Scheduled)
    ensures Enabled(s, StartReservedSend(r))
    ensures ApplyToReservation(s, StartReservedSend(r)).reservations == s.reservations[r := Sending]
  {
  }

  lemma ReturnApplies(s: State, r: ReservationId)
    requires PhaseIs(s, r, Sending)
    ensures Enabled(s, ReservedSendReturns(r))
    ensures ApplyToReservation(s, ReservedSendReturns(r)).reservations == s.reservations[r := Settling]
  {
  }

  lemma SettleApplies(s: State, r: ReservationId)
    requires PhaseIs(s, r, Settling)
    ensures Enabled(s, Settle(r))
    ensures ApplyToReservation(s, Settle(r)).reservations == s.reservations[r := Discharged]
  {
  }

  ghost predicate Executes(s: State, steps: seq<Step>, s': State)
    decreases |steps|
  {
    if steps == [] then s' == s
    else Enabled(s, steps[0]) && Executes(Apply(s, steps[0]), steps[1..], s')
  }

  lemma ExecutesFirst(s: State, step: Step, steps: seq<Step>, s': State)
    requires Enabled(s, step) && Executes(Apply(s, step), steps, s')
    ensures Executes(s, [step] + steps, s')
  {
    hide Enabled, Apply;
    assert ([step] + steps)[1..] == steps;
  }

  lemma {:induction false} ExecutesAppend(s: State, xs: seq<Step>, s': State, ys: seq<Step>, s'': State)
    requires Executes(s, xs, s') && Executes(s', ys, s'')
    ensures Executes(s, xs + ys, s'')
    decreases |xs|
  {
    hide Enabled, Apply;
    if xs == [] {
      assert xs + ys == ys;
    } else {
      ExecutesAppend(Apply(s, xs[0]), xs[1..], s', ys, s'');
      assert (xs + ys)[1..] == xs[1..] + ys;
    }
  }

  ghost predicate AllDeliver(steps: seq<Step>, rs: set<ReservationId>) {
    forall i :: 0 <= i < |steps| ==> IsDelivery(steps[i], rs)
  }

  lemma {:induction false} Discharge(s: State, r: ReservationId) returns (steps: seq<Step>, s': State)
    requires Inv(s) && r in InDelivery(s.reservations)
    ensures Executes(s, steps, s') && Inv(s') && AllDeliver(steps, {r})
    ensures s'.reservations == s.reservations[r := Discharged] && SameButDeliveries(s, s')
    decreases StepsLeft(s.reservations[r])
  {
    hide Inv, Apply, Enabled, Advances, IsDelivery;
    var step, phase := DeliveryCanMove(s, r);
    StepKeeps(s, step);
    var after := Apply(s, step);
    if phase == Discharged {
      steps, s' := [], after;
    } else {
      steps, s' := Discharge(after, r);
    }
    hide StepsLeft, InDelivery;
    ExecutesFirst(s, step, steps, s');
    steps := [step] + steps;
  }

  /** Every claimed reservation can be discharged by delivery steps alone, and then inflight
      counts the unclaimed ones. */
  lemma {:induction false} DeliveriesDrain(s: State) returns (steps: seq<Step>, s': State)
    requires Inv(s)
    ensures Executes(s, steps, s') && Inv(s') && AllDeliver(steps, InDelivery(s.reservations))
    ensures InDelivery(s'.reservations) == {} && SameButDeliveries(s, s')
    ensures s'.inflight == |UnclaimedIn(s.reservations)|
    decreases |InDelivery(s.reservations)|
  {
    hide Inv, Apply, Enabled, IsDelivery;
    var claimed := InDelivery(s.reservations);
    if claimed == {} {
      OnlyUnclaimedLeft(s);
      steps, s' := [], s;
    } else {
      var r :| r in claimed;
      var first, after := Discharge(s, r);
      assert InDelivery(after.reservations) == claimed - {r};
      assert UnclaimedIn(after.reservations) == UnclaimedIn(s.reservations);
      hide InDelivery, UnclaimedIn;
      steps, s' := DeliveriesDrain(after);
      ExecutesAppend(s, first, after, steps, s');
      DeliverWithin(first, {r}, claimed);
      DeliverWithin(steps, claimed - {r}, claimed);
      steps := first + steps;
    }
  }

  lemma DeliverWithin(steps: seq<Step>, few: set<ReservationId>, many: set<ReservationId>)
    requires AllDeliver(steps, few) && few <= many
    ensures AllDeliver(steps, many)
  {
  }

  lemma OnlyUnclaimedLeft(s: State)
    requires Inv(s) && InDelivery(s.reservations) == {}
    ensures s.inflight == |UnclaimedIn(s.reservations)|
  {
    forall r | r in Outstanding(s.reservations)
      ensures r in UnclaimedIn(s.reservations)
    {
      assert r !in InDelivery(s.reservations);
    }
    assert Outstanding(s.reservations) == UnclaimedIn(s.reservations);
  }
}
