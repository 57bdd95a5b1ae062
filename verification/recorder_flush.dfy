/** What Flush and Close promise about deliveries already begun, on both paths. */
module RecorderFlush {
  import QueueCore
  import QP = QueueProtocol
  import QT = QueueTheorems
  import opened RecorderProtocol
  import opened RecorderTheorems
  import opened Wrappers

  // ----- What lasts -----

  lemma QueueAdvances(s: State, step: Step)
    requires Inv(s) && Enabled(s, step)
    ensures QP.Advances(s.q, Apply(s, step).q)
  {
    var qs := QueueMove(s, step);
    hide QP.Inv, QP.Apply, QP.Enabled, QP.Advances, Accounting, PendingOk, KeysOk, RoutesOk, ClosersOk, Apply, Enabled;
    if Apply(s, step).q == s.q {
      QueueStays(s.q);
    } else {
      QP.StepKeeps(s.q, qs);
    }
  }

  lemma QueueStays(q: QP.State)
    ensures QP.Advances(q, q)
  {
  }

  lemma {:induction false} RunQueueAdvances(states: seq<State>, steps: seq<Step>, i: nat, j: nat)
    requires Run(states, steps) && i <= j < |states|
    ensures QP.Advances(states[i].q, states[j].q)
  {
    hide Inv, Apply, Enabled, QP.Advances;
    if i == j {
      QueueStays(states[i].q);
    } else {
      RunQueueAdvances(states, steps, i, j - 1);
      RunHolds(states, steps, j - 1);
      QueueAdvances(states[j - 1], steps[j - 1]);
      QT.AdvancesTransitive(states[i].q, states[j - 1].q, states[j].q);
    }
  }

  lemma ReservationStays(s: State, step: Step, r: ReservationId)
    requires Enabled(s, step) && r in s.reservations
    ensures r in Apply(s, step).reservations
    ensures s.reservations[r] == Discharged ==> Apply(s, step).reservations[r] == Discharged
  {
    hide QP.Apply, QP.Enabled, Apply;
    if OfReservation(step) {
      ReservationStepApplies(s, step);
    } else if step.RecordFor? {
      RecordForApplies(s, step);
    } else {
      ReservationsStay(s, step);
    }
  }

  /** A reservation is never forgotten, and once discharged it stays so. */
  lemma {:induction false} DischargedForGood(states: seq<State>, steps: seq<Step>, i: nat, j: nat, r: ReservationId)
    requires Run(states, steps) && i <= j < |states| && r in states[i].reservations
    ensures r in states[j].reservations
    ensures PhaseIs(states[i], r, Discharged) ==> PhaseIs(states[j], r, Discharged)
  {
    hide Apply, Enabled;
    if i < j {
      DischargedForGood(states, steps, i, j - 1, r);
      ReservationStays(states[j - 1], steps[j - 1], r);
    }
  }

  // ----- Flush -----

  /** Flush first sees the queue idle, at step p, and then the counter at zero, at moment j.
      By then every item accepted before it was dropped by overflow or delivered, and every
      reservation made before it is discharged. */
  lemma FlushIsABarrier(states: seq<State>, steps: seq<Step>, i: nat, p: nat, j: nat, t: QP.CallId)
    requires Run(states, steps) && i <= p < |steps| && p < j < |states|
    requires steps[p] == QueueStep(QP.Poll(t)) && t in states[p + 1].q.calls && states[p + 1].q.calls[t].PollDone?
    requires states[j].inflight == 0
    ensures QT.AllSettled(states[p + 1].q)
    ensures forall x :: x in states[i].q.appended ==>
      var q := states[p + 1].q;
      QP.Dropped(x) in q.removed || (x in QP.FinalizedItems(q.finalized) && x in q.done)
    ensures forall r :: r in states[i].reservations ==> PhaseIs(states[j], r, Discharged)
  {
    hide Inv, Apply, Enabled;
    PollSeesIdle(states[p], t);
    RunHolds(states, steps, p + 1);
    RunHolds(states, steps, j);
    RunQueueAdvances(states, steps, i, p + 1);
    BothPathsSettled(states[p + 1], states[j]);
    forall r | r in states[i].reservations
      ensures PhaseIs(states[j], r, Discharged)
    {
      DischargedForGood(states, steps, i, j, r);
    }
  }

  lemma PollSeesIdle(s: State, t: QP.CallId)
    requires Enabled(s, QueueStep(QP.Poll(t)))
    requires t in Apply(s, QueueStep(QP.Poll(t))).q.calls && Apply(s, QueueStep(QP.Poll(t))).q.calls[t].PollDone?
    ensures QueueCore.Idle(Apply(s, QueueStep(QP.Poll(t))).q.queue)
  {
  }

  lemma BothPathsSettled(s: State, s': State)
    requires Inv(s) && QueueCore.Idle(s.q.queue) && Inv(s') && s'.inflight == 0
    ensures QT.AllSettled(s.q)
    ensures forall r :: r in s'.reservations ==> s'.reservations[r] == Discharged
  {
    hide QP.Inv, QT.AllSettled, PendingOk, KeysOk, RoutesOk, ClosersOk;
    QT.IdleIsSettled(s.q);
    assert Outstanding(s'.reservations) == {};
    assert forall r :: r in s'.reservations && s'.reservations[r] != Discharged ==> r in Outstanding(s'.reservations);
  }

  lemma FreshReservation(reservations: map<ReservationId, Phase>) returns (r: ReservationId)
    ensures r !in reservations
  {
    r := Above(reservations.Keys);
  }

  lemma {:induction false} Above(s: set<nat>) returns (n: nat)
    ensures forall x :: x in s ==> x < n
    decreases |s|
  {
    if s == {} {
      n := 0;
    } else {
      var x :| x in s;
      n := Above(s - {x});
      n := if n <= x then x + 1 else n;
      assert forall y :: y in s ==> y == x || y in s - {x};
    }
  }

  /** A Flush of its own can find the counter at zero and see it rise again before its Wait has
      returned, which a WaitGroup forbids. That can happen exactly while the recorder is open. */
  lemma ZeroCanRiseExactlyWhileOpen(s: State)
    requires Inv(s) && s.inflight == 0
    ensures (exists step :: Enabled(s, step) && Apply(s, step).inflight > 0) <==> !s.closed
  {
    if s.closed {
      forall step | Enabled(s, step)
        ensures Apply(s, step).inflight <= 0
      {
        ClosedInflightFalls(s, step);
      }
    } else {
      var r := FreshReservation(s.reservations);
      hide QP.Inv;
      assert Enabled(s, Reserve(r)) && Apply(s, Reserve(r)).inflight > 0;
    }
  }

  lemma ClosedInflightFalls(s: State, step: Step)
    requires Inv(s) && s.closed && Enabled(s, step)
    ensures Apply(s, step).closed && Apply(s, step).inflight <= s.inflight
  {
    hide Apply, Enabled, QP.Inv, PendingOk, KeysOk, RoutesOk, ClosersOk;
    StepKeeps(s, step);
    SubsetSize(Outstanding(Apply(s, step).reservations), Outstanding(s.reservations));
  }

  /** The Wait inside Close is safe: from the closed transition on the counter only falls. */
  lemma {:induction false} CloseWaitsOnAFallingCounter(states: seq<State>, steps: seq<Step>, i: nat, j: nat, k: nat)
    requires Run(states, steps) && i <= j < |states|
    requires k in states[i].closers && states[i].closers[k] == AwaitingInflight
    ensures states[j].closed && states[j].inflight <= states[i].inflight
  {
    hide Inv, Apply, Enabled;
    RunHolds(states, steps, i);
    if i == j {
      AwaitingMeansClosed(states[i], k);
    } else {
      CloseWaitsOnAFallingCounter(states, steps, i, j - 1, k);
      RunHolds(states, steps, j - 1);
      ClosedInflightFalls(states[j - 1], steps[j - 1]);
    }
  }

  lemma AwaitingMeansClosed(s: State, k: nat)
    requires Inv(s) && k in s.closers && s.closers[k] == AwaitingInflight
    ensures s.closed
  {
    hide QP.Inv, Accounting, PendingOk, KeysOk, RoutesOk;
    assert CloserOk(s, s.closers[k]);
  }

  // ----- Close -----

  /** A reservation that is not discharged, claimed or not, keeps every Close from returning nil. */
  lemma UndischargedBlocksClose(states: seq<State>, steps: seq<Step>, i: nat, r: ReservationId, k: nat)
    requires Run(states, steps) && i < |states|
    requires r in states[i].reservations && states[i].reservations[r] != Discharged
    ensures k in states[i].closers ==> states[i].closers[k] != Closed(true)
  {
    RunHolds(states, steps, i);
    assert r in Outstanding(states[i].reservations);
    if k in states[i].closers && states[i].closers[k] == Closed(true) {
      ClosedMeansQuiet(states[i], k);
    }
  }

  /** A routed call that made it into the queue was dropped by overflow or delivered once; one
      that was routed to a reservation has it discharged. */
  ghost predicate Dealt(s: State, c: ToolCall)
    requires c in s.fates && Carries(s.fates[c])
  {
    match s.fates[c].next
    case Enqueued(t) => t in s.q.appended ==> QP.Dropped(t) in s.q.removed || Deliveries(s, c) == 1
    case Reserved(r) => PhaseIs(s, r, Discharged)
  }

  /** Close loses nothing: once one has returned nil, every routed call has been dealt with,
      and this never changes. */
  lemma CloseLosesNothing(states: seq<State>, steps: seq<Step>, i: nat, j: nat, k: nat, c: ToolCall)
    requires Run(states, steps) && i <= j < |states|
    requires k in states[i].closers && states[i].closers[k] == Closed(true)
    requires c in states[j].fates && Carries(states[j].fates[c])
    ensures Dealt(states[j], c)
  {
    NoSendAfterClose(states, steps, i, j, k);
    RunHolds(states, steps, j);
    QuietMeansDealt(states[j], c);
  }

  lemma QuietMeansDealt(s: State, c: ToolCall)
    requires Inv(s) && Quiet(s) && c in s.fates && Carries(s.fates[c])
    ensures Dealt(s, c)
  {
    hide Accounting, PendingOk, KeysOk, ClosersOk, QP.Inv;
    match s.fates[c].next
    case Enqueued(t) =>
      QT.IdleIsSettled(s.q);
      FinalizedOnce(s.q);
      OccursAtMostOnce(QP.FinalizedItems(s.q.finalized), t);
    case Reserved(r) =>
      assert r in s.reservations && r !in Outstanding(s.reservations);
  }
}
