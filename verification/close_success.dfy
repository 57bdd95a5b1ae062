/** When Close succeeds: once its context lives and every reservation is claimed, it can. */
module CloseSuccess {
  import QueueCore
  import QP = QueueProtocol
  import QT = QueueTheorems
  import QA = QueueAdmission
  import opened RecorderProtocol
  import opened RecorderTheorems
  import opened RecorderFlush
  import opened RecorderClose

  predicate IsPoll(calls: map<QP.CallId, QP.Call>, t: QP.CallId) {
    t in calls && (calls[t].Polling? || calls[t].PollParked? || calls[t].PollDone?)
  }

  /** A closer that flushes has a flush call of its own in the queue. */
  ghost predicate FlushesPoll(s: State) {
    forall k :: k in s.closers && s.closers[k].FlushingQueue? ==> IsPoll(s.q.calls, s.closers[k].t)
  }

  lemma PollStays(q: QP.State, qs: QP.Step, t: QP.CallId)
    requires QP.Enabled(q, qs) && IsPoll(q.calls, t)
    ensures IsPoll(QP.Apply(q, qs).calls, t)
  {
    hide QueueCore.TakeBatch, QueueCore.Admit, QP.AllTaken;
  }

  lemma PollStarts(q: QP.State, t: QP.CallId)
    requires QP.Enabled(q, QP.StartFlush(t))
    ensures IsPoll(QP.Apply(q, QP.StartFlush(t)).calls, t)
  {
  }

  lemma FlushesPollStep(s: State, step: Step)
    requires Enabled(s, step) && FlushesPoll(s)
    ensures FlushesPoll(Apply(s, step))
  {
    var s' := Apply(s, step);
    forall k | k in s'.closers && s'.closers[k].FlushingQueue?
      ensures IsPoll(s'.q.calls, s'.closers[k].t)
    {
      FlushPolls(s, step, k);
    }
  }

  lemma FlushPolls(s: State, step: Step, k: nat)
    requires Enabled(s, step) && FlushesPoll(s)
    requires k in Apply(s, step).closers && Apply(s, step).closers[k].FlushingQueue?
    ensures IsPoll(Apply(s, step).q.calls, Apply(s, step).closers[k].t)
  {
    hide QP.Apply, QP.Enabled, IsPoll, Apply, Enabled;
    if OfCloser(step, k) {
      NewFlushPolls(s, step, k);
    } else {
      OtherClosersStay(s, step, k);
      var qs := QueueMove(s, step);
      if Apply(s, step).q != s.q { PollStays(s.q, qs, s.closers[k].t); }
    }
  }

  lemma NewFlushPolls(s: State, step: Step, k: nat)
    requires Enabled(s, step) && OfCloser(step, k)
    requires k in Apply(s, step).closers && Apply(s, step).closers[k].FlushingQueue?
    ensures IsPoll(Apply(s, step).q.calls, Apply(s, step).closers[k].t)
  {
    hide QP.Apply, ApplyToReservation, ApplyToCall, IsPoll;
    if step.QueueClosed? { PollStarts(s.q, step.t); }
  }

  lemma {:induction false} RunFlushesPoll(states: seq<State>, steps: seq<Step>, i: nat)
    requires Run(states, steps) && i < |states|
    ensures FlushesPoll(states[i])
  {
    hide Apply, Enabled;
    if i > 0 {
      RunFlushesPoll(states, steps, i - 1);
      FlushesPollStep(states[i - 1], steps[i - 1]);
    }
  }

  /** The steps that Close k relies on: its own short of an expiry, those of its calls in the
      queue, of the queue's worker, and of deliveries. */
  predicate Helps(step: Step, k: nat) {
    (OfCloser(step, k) && !step.StartClose? && !step.InflightExpires?)
    || step.BuildEvents? || step.StartReservedSend? || step.ReservedSendReturns? || step.Settle?
    || (step.QueueStep? && (QT.WorkerStep(step.step) || step.step.CloseLock? || step.step.Poll? || step.step.PollWake?))
  }

  predicate AllHelp(steps: seq<Step>, k: nat) {
    forall i :: 0 <= i < |steps| ==> Helps(steps[i], k)
  }

  /** Where closer k stands before the sweep. Larger is earlier. */
  function Stage(s: State, k: nat): nat
    requires k in s.closers
  {
    match s.closers[k]
    case Marking => 12
    case ClosingQueue => 11
    case DrainingQueue(t) => 6 + CallStage(s.q.calls, t)
    case FlushingQueue(t) => 2 + CallStage(s.q.calls, t)
    case AwaitingInflight => 1
    case _ => 0
  }

  function CallStage(calls: map<QP.CallId, QP.Call>, t: QP.CallId): nat {
    if t !in calls then 0
    else
      match calls[t]
      case Closing => 3
      case PollParked(_, _) => 3
      case Polling(_) => 2
      case _ => 0
  }

  function KeysLeft(s: State, k: nat): nat
    requires k in s.closers
  {
    match s.closers[k]
    case Sweeping(_, left) => 1 + |left|
    case _ => 0
  }

  /** Nothing is in flight and closer k has not failed. */
  ghost predicate Ready(s: State, k: nat) {
    && Inv(s) && FlushesPoll(s) && k in s.closers && !Failing(s, k)
    && QueueCore.Idle(s.q.queue) && Outstanding(s.reservations) == {}
  }

  /** Closer k may take `step`, and is ready again and further on after it. */
  ghost predicate Leads(s: State, step: Step, k: nat) {
    && Enabled(s, step) && Helps(step, k) && Ready(Apply(s, step), k)
    && (Stage(Apply(s, step), k) < Stage(s, k)
        || (Stage(Apply(s, step), k) == Stage(s, k) && KeysLeft(Apply(s, step), k) < KeysLeft(s, k)))
  }

  predicate LooksOnly(qs: QP.Step) {
    qs.CloseLock? || qs.Poll? || qs.PollWake? || qs.StartEnqueue? || qs.StartClose? || qs.StartFlush?
  }

  lemma IdleStays(q: QP.State, qs: QP.Step)
    requires QP.Enabled(q, qs) && LooksOnly(qs) && QueueCore.Idle(q.queue)
    ensures QueueCore.Idle(QP.Apply(q, qs).queue)
  {
  }

  /** A step of the closer itself, or of its calls in the queue. */
  predicate OwnStep(step: Step, k: nat) {
    (OfCloser(step, k) && !step.StartClose? && !step.InflightExpires?)
    || (step.QueueStep? && (step.step.CloseLock? || step.step.Poll? || step.step.PollWake?))
  }

  lemma OwnStepIsHarmless(s: State, step: Step, k: nat)
    requires OwnStep(step, k)
    ensures !OfReservation(step) && !step.RecordFor? && !Expires(s, step, k) && !step.Enqueue?
    ensures step.QueueStep? ==> LooksOnly(step.step)
  {
  }

  lemma StaysIdle(s: State, step: Step, k: nat)
    requires Enabled(s, step) && OwnStep(step, k) && QueueCore.Idle(s.q.queue)
    ensures QueueCore.Idle(Apply(s, step).q.queue)
  {
    OwnStepIsHarmless(s, step, k);
    var qs := QueueMove(s, step);
    hide QP.Apply, QP.Enabled, Apply, Enabled, QueueCore.Idle, OwnStep;
    if Apply(s, step).q != s.q { IdleStays(s.q, qs); }
  }

  lemma StaysReady(s: State, step: Step, k: nat)
    requires Ready(s, k) && Enabled(s, step) && OwnStep(step, k)
    requires k in Apply(s, step).closers
    ensures Ready(Apply(s, step), k)
  {
    hide Inv, Advances, FlushesPoll, Failing, Expires, QP.Apply, QP.Enabled, Apply, Enabled, OwnStep, Outstanding;
    OwnStepIsHarmless(s, step, k);
    StepKeeps(s, step);
    FlushesPollStep(s, step);
    FailStep(s, step, k);
    ReservationsStay(s, step);
    StaysIdle(s, step, k);
  }

  // Where each step of a closer leads.

  lemma MarkingMoves(s: State, k: nat)
    requires k in s.closers && s.closers[k].Marking?
    ensures Enabled(s, MarkClosed(k)) && Apply(s, MarkClosed(k)).closers == s.closers[k := ClosingQueue]
  {
    hide QP.Apply, QP.Enabled, ApplyToReservation, ApplyToCall;
  }

  lemma CloseQueueEnabled(s: State, k: nat, t: QP.CallId)
    requires k in s.closers && s.closers[k].ClosingQueue? && QP.Enabled(s.q, QP.StartClose(t))
    ensures Enabled(s, CloseQueue(k, t))
  {
    hide QP.Enabled;
  }

  lemma QueueClosedEnabled(s: State, k: nat, t: QP.CallId, u: QP.CallId)
    requires k in s.closers && s.closers[k] == DrainingQueue(u) && u in s.q.calls && s.q.calls[u].PollDone?
    requires QP.Enabled(s.q, QP.StartFlush(t))
    ensures Enabled(s, QueueClosed(k, t))
  {
    hide QP.Enabled;
  }

  lemma QueueFlushedEnabled(s: State, k: nat, u: QP.CallId)
    requires k in s.closers && s.closers[k] == FlushingQueue(u) && u in s.q.calls && s.q.calls[u].PollDone?
    ensures Enabled(s, QueueFlushed(k))
  {
    hide QP.Enabled;
  }

  lemma AwaitingMoves(s: State, k: nat)
    requires k in s.closers && s.closers[k].AwaitingInflight? && s.inflight == 0
    ensures Enabled(s, InflightZero(k))
    ensures Apply(s, InflightZero(k)).closers == s.closers[k := Sweeping(true, s.pending.Keys)]
  {
    hide QP.Apply, QP.Enabled, ApplyToReservation, ApplyToCall;
  }

  lemma SweepingMoves(s: State, k: nat, key: Key)
    requires k in s.closers && s.closers[k].Sweeping? && key in s.closers[k].left
    ensures Enabled(s, SweepKey(k, key))
    ensures Apply(s, SweepKey(k, key)).closers == s.closers[k := Sweeping(s.closers[k].ok, s.closers[k].left - {key})]
  {
    hide QP.Apply, QP.Enabled, ApplyToReservation, ApplyToCall;
  }

  lemma SweepEndMoves(s: State, k: nat)
    requires k in s.closers && s.closers[k].Sweeping? && s.closers[k].left == {}
    ensures Enabled(s, SweepEnds(k))
    ensures Apply(s, SweepEnds(k)).closers == s.closers[k := Closed(s.closers[k].ok)]
  {
    hide QP.Apply, QP.Enabled, ApplyToReservation, ApplyToCall;
  }

  // Calls of the queue.

  /** Calls can always be started; where they then stand. */
  lemma CallStarts(q: QP.State, t: QP.CallId)
    requires t !in q.calls
    ensures QP.Enabled(q, QP.StartClose(t)) && CallStage(QP.Apply(q, QP.StartClose(t)).calls, t) == 3
    ensures QP.Enabled(q, QP.StartFlush(t)) && CallStage(QP.Apply(q, QP.StartFlush(t)).calls, t) == 2
  {
  }

  lemma LockLeads(q: QP.State, t: QP.CallId)
    requires t in q.calls && q.calls[t].Closing?
    ensures QP.Enabled(q, QP.CloseLock(t))
    ensures CallStage(QP.Apply(q, QP.CloseLock(t)).calls, t) < CallStage(q.calls, t)
  {
  }

  lemma PollLeads(q: QP.State, t: QP.CallId)
    requires t in q.calls && q.calls[t].Polling? && QueueCore.Idle(q.queue)
    ensures QP.Enabled(q, QP.Poll(t))
    ensures CallStage(QP.Apply(q, QP.Poll(t)).calls, t) < CallStage(q.calls, t)
  {
    hide QueueCore.Idle;
  }

  lemma WakeLeads(q: QP.State, t: QP.CallId)
    requires t in q.calls && q.calls[t].PollParked? && q.calls[t].generation < q.queue.generation
    ensures QP.Enabled(q, QP.PollWake(t))
    ensures CallStage(QP.Apply(q, QP.PollWake(t)).calls, t) < CallStage(q.calls, t)
  {
  }

  lemma ParkedMayWake(q: QP.State, t: QP.CallId)
    requires QP.Inv(q) && t in q.calls && q.calls[t].PollParked? && QueueCore.Idle(q.queue)
    ensures q.calls[t].generation < q.queue.generation
  {
    hide QP.Histories, QP.DropsNeedBackground, QueueCore.Idle;
    assert QP.CallOk(q, t, q.calls[t]);
  }

  /** With the queue idle, a call that waits for that can go on until it is done. */
  lemma CallStep(q: QP.State, t: QP.CallId) returns (qs: QP.Step)
    requires QP.Inv(q) && QueueCore.Idle(q.queue) && t in q.calls
    requires q.calls[t].Closing? || q.calls[t].Polling? || q.calls[t].PollParked?
    ensures QP.Enabled(q, qs) && (qs.CloseLock? || qs.Poll? || qs.PollWake?)
    ensures CallStage(QP.Apply(q, qs).calls, t) < CallStage(q.calls, t)
  {
    hide QP.Inv, QP.Enabled, QP.Apply, CallStage, QueueCore.Idle;
    if q.calls[t].Closing? {
      qs := QP.CloseLock(t);
      LockLeads(q, t);
    } else if q.calls[t].Polling? {
      qs := QP.Poll(t);
      PollLeads(q, t);
    } else {
      qs := QP.PollWake(t);
      ParkedMayWake(q, t);
      WakeLeads(q, t);
    }
  }

  // The next step of a closer that is ready.

  lemma MarkingStep(s: State, k: nat) returns (step: Step)
    requires Ready(s, k) && s.closers[k].Marking?
    ensures Leads(s, step, k)
  {
    hide Inv, FlushesPoll, Failing, QP.Apply, QP.Enabled, Apply, Enabled, Outstanding;
    step := MarkClosed(k);
    MarkingMoves(s, k);
    StaysReady(s, step, k);
  }

  lemma ClosingStep(s: State, k: nat) returns (step: Step)
    requires Ready(s, k) && s.closers[k].ClosingQueue?
    ensures Leads(s, step, k)
  {
    hide Inv, FlushesPoll, Failing, QP.Apply, QP.Enabled, Apply, Enabled, Outstanding;
    var t := Above(s.q.calls.Keys);
    CallStarts(s.q, t);
    step := CloseQueue(k, t);
    CloseQueueEnabled(s, k, t);
    CloseQueueStarts(s, k, t);
    StaysReady(s, step, k);
  }

  lemma WaitingMoves(s: State, k: nat, t: QP.CallId, qs: QP.Step)
    requires k in s.closers && (s.closers[k] == DrainingQueue(t) || s.closers[k] == FlushingQueue(t))
    requires QP.Enabled(s.q, qs) && CallStage(QP.Apply(s.q, qs).calls, t) < CallStage(s.q.calls, t)
    ensures Enabled(s, QueueStep(qs)) && Apply(s, QueueStep(qs)).closers == s.closers
    ensures Stage(Apply(s, QueueStep(qs)), k) < Stage(s, k)
  {
    hide QP.Apply, QP.Enabled, CallStage, Apply, Enabled;
    QueueStepApplies(s, qs);
  }

  lemma WaitingStep(s: State, k: nat, t: QP.CallId) returns (step: Step)
    requires Ready(s, k) && (s.closers[k] == DrainingQueue(t) || s.closers[k] == FlushingQueue(t))
    requires t in s.q.calls && (s.q.calls[t].Closing? || s.q.calls[t].Polling? || s.q.calls[t].PollParked?)
    ensures Leads(s, step, k)
  {
    QueueHolds(s);
    hide Inv, QP.Inv, FlushesPoll, Failing, QP.Apply, QP.Enabled, Outstanding, CallStage, QueueCore.Idle;
    hide Stage, KeysLeft, Apply, Enabled;
    var qs := CallStep(s.q, t);
    step := QueueStep(qs);
    WaitingMoves(s, k, t, qs);
    StaysReady(s, step, k);
  }

  lemma QueueStepApplies(s: State, qs: QP.Step)
    requires QP.Enabled(s.q, qs)
    ensures Enabled(s, QueueStep(qs))
    ensures Apply(s, QueueStep(qs)) == s.(q := QP.Apply(s.q, qs))
  {
    hide QP.Apply, QP.Enabled;
  }

  lemma QueueHolds(s: State)
    requires Inv(s)
    ensures QP.Inv(s.q)
  {
  }

  lemma DrainedMoves(s: State, k: nat, u: QP.CallId, t: QP.CallId)
    requires k in s.closers && s.closers[k] == DrainingQueue(u) && u in s.q.calls && s.q.calls[u].PollDone?
    requires !QA.PollFailed(s.q, u) && t !in s.q.calls
    ensures Enabled(s, QueueClosed(k, t)) && k in Apply(s, QueueClosed(k, t)).closers
    ensures Stage(Apply(s, QueueClosed(k, t)), k) == 4 && Stage(s, k) >= 6
  {
    hide QP.Apply, QP.Enabled, QA.PollFailed, Apply, Enabled, CallStage;
    CallStarts(s.q, t);
    QueueClosedEnabled(s, k, t, u);
    QueueClosedMoves(s, k, t);
  }

  lemma DrainedStep(s: State, k: nat, u: QP.CallId) returns (step: Step)
    requires Ready(s, k) && s.closers[k] == DrainingQueue(u) && u in s.q.calls && s.q.calls[u].PollDone?
    ensures Leads(s, step, k)
  {
    assert !QA.PollFailed(s.q, u);
    hide Inv, FlushesPoll, Failing, QP.Apply, QP.Enabled, Apply, Enabled, Outstanding, Stage, KeysLeft, QueueCore.Idle, QA.PollFailed;
    var t := Above(s.q.calls.Keys);
    step := QueueClosed(k, t);
    DrainedMoves(s, k, u, t);
    StaysReady(s, step, k);
  }

  lemma FlushedMoves(s: State, k: nat, u: QP.CallId)
    requires k in s.closers && s.closers[k] == FlushingQueue(u) && u in s.q.calls && s.q.calls[u].PollDone?
    requires !QA.PollFailed(s.q, u)
    ensures Enabled(s, QueueFlushed(k)) && k in Apply(s, QueueFlushed(k)).closers
    ensures Stage(Apply(s, QueueFlushed(k)), k) == 1 && Stage(s, k) >= 2
  {
    hide QP.Apply, QP.Enabled, QA.PollFailed, Apply, Enabled, CallStage;
    QueueFlushedEnabled(s, k, u);
    QueueFlushedMoves(s, k);
  }

  lemma FlushedStep(s: State, k: nat, u: QP.CallId) returns (step: Step)
    requires Ready(s, k) && s.closers[k] == FlushingQueue(u) && u in s.q.calls && s.q.calls[u].PollDone?
    ensures Leads(s, step, k)
  {
    assert !QA.PollFailed(s.q, u);
    hide Inv, FlushesPoll, Failing, QP.Apply, QP.Enabled, Apply, Enabled, Outstanding, Stage, KeysLeft, QueueCore.Idle, QA.PollFailed;
    step := QueueFlushed(k);
    FlushedMoves(s, k, u);
    StaysReady(s, step, k);
  }

  lemma AwaitingStep(s: State, k: nat) returns (step: Step)
    requires Ready(s, k) && s.closers[k].AwaitingInflight?
    ensures Leads(s, step, k)
  {
    CounterIsZero(s);
    hide Inv, FlushesPoll, Failing, QP.Apply, QP.Enabled, Apply, Enabled, Outstanding;
    step := InflightZero(k);
    AwaitingMoves(s, k);
    StaysReady(s, step, k);
  }

  lemma CounterIsZero(s: State)
    requires Inv(s) && Outstanding(s.reservations) == {}
    ensures s.inflight == 0
  {
    hide QP.Inv, PendingOk, KeysOk, RoutesOk, ClosersOk;
  }

  lemma SweepStep(s: State, k: nat) returns (step: Step)
    requires Ready(s, k) && s.closers[k].Sweeping? && s.closers[k].left != {}
    ensures Leads(s, step, k)
  {
    hide Inv, FlushesPoll, Failing, QP.Apply, QP.Enabled, Apply, Enabled, Outstanding;
    var key :| key in s.closers[k].left;
    step := SweepKey(k, key);
    SweepingMoves(s, k, key);
    StaysReady(s, step, k);
  }

  lemma SweepOverMoves(s: State, k: nat)
    requires Ready(s, k) && s.closers[k].Sweeping? && s.closers[k].left == {}
    ensures Enabled(s, SweepEnds(k)) && Apply(s, SweepEnds(k)).closers == s.closers[k := Closed(true)]
  {
    hide Inv, FlushesPoll, QP.Apply, QP.Enabled, Apply, Enabled, Outstanding;
    SweepEndMoves(s, k);
  }

  lemma DrainingCall(s: State, k: nat)
    requires Inv(s) && k in s.closers && s.closers[k].DrainingQueue?
    ensures var t := s.closers[k].t;
      t in s.q.calls && (s.q.calls[t].Closing? || IsPoll(s.q.calls, t))
  {
    hide QP.Inv, PendingOk, KeysOk, RoutesOk, Accounting;
    assert CloserOk(s, s.closers[k]);
  }

  lemma NextStep(s: State, k: nat) returns (step: Step)
    requires Ready(s, k) && !s.closers[k].Closed? && !(s.closers[k].Sweeping? && s.closers[k].left == {})
    ensures Leads(s, step, k)
  {
    if s.closers[k].DrainingQueue? { DrainingCall(s, k); }
    assert s.closers[k].FlushingQueue? ==> IsPoll(s.q.calls, s.closers[k].t);
    hide Ready, Leads, Inv;
    match s.closers[k] {
      case Marking => step := MarkingStep(s, k);
      case ClosingQueue => step := ClosingStep(s, k);
      case DrainingQueue(t) =>
        if s.q.calls[t].PollDone? { step := DrainedStep(s, k, t); } else { step := WaitingStep(s, k, t); }
      case FlushingQueue(t) =>
        if s.q.calls[t].PollDone? { step := FlushedStep(s, k, t); } else { step := WaitingStep(s, k, t); }
      case AwaitingInflight => step := AwaitingStep(s, k);
      case Sweeping(_, _) => step := SweepStep(s, k);
    }
  }

  // ----- From any state to a nil return -----

  lemma HelpFirst(step: Step, steps: seq<Step>, k: nat)
    requires Helps(step, k) && AllHelp(steps, k)
    ensures AllHelp([step] + steps, k)
  {
    hide Helps;
  }

  lemma HelpAppend(xs: seq<Step>, ys: seq<Step>, k: nat)
    requires AllHelp(xs, k) && AllHelp(ys, k)
    ensures AllHelp(xs + ys, k)
  {
    hide Helps;
  }

  /** With nothing in flight, a Close that has not failed goes on to return nil. */
  lemma {:induction false} ReadyMeansCloses(s: State, k: nat) returns (steps: seq<Step>, s': State)
    requires Ready(s, k)
    ensures Executes(s, steps, s') && AllHelp(steps, k)
    ensures k in s'.closers && s'.closers[k] == Closed(true)
    decreases Stage(s, k), KeysLeft(s, k)
  {
    hide Inv, FlushesPoll, QueueCore.Idle, Outstanding, WaitFailed, Apply, Enabled, Helps, Stage, KeysLeft;
    if s.closers[k].Closed? {
      steps, s' := [], s;
    } else if s.closers[k].Sweeping? && s.closers[k].left == {} {
      SweepOverMoves(s, k);
      s' := Apply(s, SweepEnds(k));
      ExecutesFirst(s, SweepEnds(k), [], s');
      assert Helps(SweepEnds(k), k) by { OwnStepsHelp(k); }
      steps := [SweepEnds(k)];
      assert [SweepEnds(k)] + [] == steps;
    } else {
      var step := NextStep(s, k);
      hide Ready, Failing;
      steps, s' := ReadyMeansCloses(Apply(s, step), k);
      ExecutesFirst(s, step, steps, s');
      HelpFirst(step, steps, k);
      steps := [step] + steps;
    }
  }

  lemma OwnStepsHelp(k: nat)
    ensures Helps(SweepEnds(k), k)
  {
  }

  /** What steps of the worker alone leave as it is for closer k. */
  ghost predicate Untouched(s: State, s': State, k: nat) {
    && Inv(s') && FlushesPoll(s')
    && s'.closers == s.closers && s'.reservations == s.reservations
    && (Failing(s', k) <==> Failing(s, k))
  }

  lemma WorkerTouchesNothing(s: State, qs: QP.Step, k: nat)
    requires Inv(s) && FlushesPoll(s) && QP.Enabled(s.q, qs) && QT.WorkerStep(qs)
    ensures Enabled(s, QueueStep(qs)) && Apply(s, QueueStep(qs)).q == QP.Apply(s.q, qs)
    ensures Untouched(s, Apply(s, QueueStep(qs)), k)
  {
    hide Inv, Advances, FlushesPoll, Failing, QP.Apply, QP.Enabled, Apply, Enabled;
    QueueStepApplies(s, qs);
    StepKeeps(s, QueueStep(qs));
    FlushesPollStep(s, QueueStep(qs));
    FailStep(s, QueueStep(qs), k);
  }

  lemma {:induction false} QueueDrains(s: State, k: nat) returns (steps: seq<Step>, s': State)
    requires Inv(s) && FlushesPoll(s)
    ensures Executes(s, steps, s') && AllHelp(steps, k)
    ensures Untouched(s, s', k) && QueueCore.Idle(s'.q.queue)
    decreases QT.Work(s.q)
  {
    QueueHolds(s);
    hide Inv, QP.Inv, FlushesPoll, Failing, QP.Apply, QP.Enabled, Apply, Enabled, QT.Work, QT.WorkerStep, QueueCore.Idle;
    if QueueCore.Idle(s.q.queue) {
      steps, s' := [], s;
    } else {
      var qs := QT.WorkerCanMove(s.q);
      WorkerTouchesNothing(s, qs, k);
      steps, s' := QueueDrains(Apply(s, QueueStep(qs)), k);
      ExecutesFirst(s, QueueStep(qs), steps, s');
      HelpFirst(QueueStep(qs), steps, k);
      steps := [QueueStep(qs)] + steps;
    }
  }

  lemma DeliverersHelp(steps: seq<Step>, rs: set<ReservationId>, k: nat)
    requires AllDeliver(steps, rs)
    ensures AllHelp(steps, k)
  {
    forall i | 0 <= i < |steps|
      ensures Helps(steps[i], k)
    {
      assert IsDelivery(steps[i], rs);
    }
  }

  lemma DebtIsPaid(s: State)
    requires Inv(s) && s.inflight == 0
    ensures Outstanding(s.reservations) == {}
  {
    hide QP.Inv, PendingOk, KeysOk, RoutesOk, ClosersOk;
  }

  lemma DeliveriesTouchNothing(s: State, s': State, k: nat)
    requires FlushesPoll(s) && SameButDeliveries(s, s')
    ensures FlushesPoll(s') && (Failing(s', k) <==> Failing(s, k))
  {
    hide QA.PollFailed, IsPoll;
  }

  /** Close can always get through: if no wait of its own has expired and every reservation has
      been claimed, then steps of its own, of the worker and of deliveries, no expiry among
      them, lead to a state in which it has returned nil. */
  lemma CloseCanSucceed(states: seq<State>, steps: seq<Step>, i: nat, k: nat) returns (more: seq<Step>, s': State)
    requires Run(states, steps) && i < |states| && k in states[i].closers
    requires forall m :: 0 <= m < i ==> !Expires(states[m], steps[m], k)
    requires forall r :: r in states[i].reservations ==> states[i].reservations[r] != Unclaimed
    ensures Executes(states[i], more, s') && AllHelp(more, k)
    ensures k in s'.closers && s'.closers[k] == Closed(true)
  {
    var s := states[i];
    RunHolds(states, steps, i);
    RunFlushesPoll(states, steps, i);
    FailingExactly(states, steps, i, k);
    assert UnclaimedIn(s.reservations) == {};
    hide Run;
    more, s' := SucceedsFrom(s, k);
  }

  lemma SucceedsFrom(s: State, k: nat) returns (steps: seq<Step>, s': State)
    requires Inv(s) && FlushesPoll(s) && k in s.closers && !Failing(s, k) && UnclaimedIn(s.reservations) == {}
    ensures Executes(s, steps, s') && AllHelp(steps, k)
    ensures k in s'.closers && s'.closers[k] == Closed(true)
  {
    hide Inv, FlushesPoll, Failing, QueueCore.Idle, Helps, Executes, AllHelp, AllDeliver, InDelivery, UnclaimedIn, Outstanding;
    var first, idle := QueueDrains(s, k);
    var second, paid := DeliveriesDrain(idle);
    DeliverersHelp(second, InDelivery(idle.reservations), k);
    DeliveriesTouchNothing(idle, paid, k);
    DebtIsPaid(paid);
    var third, s'' := ReadyMeansCloses(paid, k);
    ExecutesAppend(s, first, idle, second, paid);
    ExecutesAppend(s, first + second, paid, third, s'');
    HelpAppend(first, second, k);
    HelpAppend(first + second, third, k);
    steps, s' := first + second + third, s'';
  }
}
