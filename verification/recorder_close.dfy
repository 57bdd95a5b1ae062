/** When Close fails. */
module RecorderClose {
  import QP = QueueProtocol
  import QA = QueueAdmission
  import opened RecorderProtocol
  import opened RecorderTheorems

  // ----- Failing -----

  /** The wait of closer k in the queue has failed. */
  ghost predicate WaitFailed(s: State, closer: Closer) {
    match closer
    case DrainingQueue(t) => QA.PollFailed(s.q, t)
    case FlushingQueue(t) => QA.PollFailed(s.q, t)
    case _ => false
  }

  /** Closer k has failed or is bound to. */
  ghost predicate Failing(s: State, k: nat) {
    k in s.closers &&
    (WaitFailed(s, s.closers[k])
     || (s.closers[k].Sweeping? && !s.closers[k].ok)
     || s.closers[k] == Closed(false))
  }

  /** The context of closer k expires in one of its waits. */
  ghost predicate Expires(s: State, step: Step, k: nat) {
    step == InflightExpires(k)
    || (k in s.closers && s.closers[k].DrainingQueue? && step == QueueStep(QP.PollGiveUp(s.closers[k].t)))
    || (k in s.closers && s.closers[k].FlushingQueue? && step == QueueStep(QP.PollGiveUp(s.closers[k].t)))
  }

  lemma WaitStep(s: State, step: Step, t: QP.CallId)
    requires Enabled(s, step)
    ensures QA.PollFailed(Apply(s, step).q, t) <==> QA.PollFailed(s.q, t) || step == QueueStep(QP.PollGiveUp(t))
  {
    var qs := QueueMove(s, step);
    hide QP.Apply, QP.Enabled, QA.PollFailed, Apply, Enabled;
    if Apply(s, step).q != s.q || step.QueueStep? { QA.PollFailStep(s.q, qs, t); }
  }

  predicate OfCloser(step: Step, k: nat) {
    match step
    case StartClose(x) => x == k
    case MarkClosed(x) => x == k
    case CloseQueue(x, _) => x == k
    case QueueClosed(x, _) => x == k
    case QueueFlushed(x) => x == k
    case InflightZero(x) => x == k
    case InflightExpires(x) => x == k
    case SweepKey(x, _) => x == k
    case SweepEnds(x) => x == k
    case _ => false
  }

  lemma OtherClosersStay(s: State, step: Step, k: nat)
    requires Enabled(s, step) && !OfCloser(step, k)
    ensures k in Apply(s, step).closers <==> k in s.closers
    ensures k in s.closers ==> Apply(s, step).closers[k] == s.closers[k]
  {
    hide QP.Apply, QP.Enabled, Apply, Enabled, OfCloser;
    if OfReservation(step) {
      ReservationStepApplies(s, step);
    } else if OfCall(step) {
      CallStepApplies(s, step);
    } else if step.QueueStep? {
      QueueStepLeavesClosers(s, step);
    } else {
      CloserStepLeavesOthers(s, step, k);
    }
  }

  lemma QueueStepLeavesClosers(s: State, step: Step)
    requires Enabled(s, step) && step.QueueStep?
    ensures Apply(s, step).closers == s.closers
  {
    hide QP.Apply, QP.Enabled, ApplyToReservation, ApplyToCall, ApplyToCloser;
  }

  lemma CloserStepLeavesOthers(s: State, step: Step, k: nat)
    requires Enabled(s, step) && !OfReservation(step) && !OfCall(step) && !step.QueueStep? && !OfCloser(step, k)
    ensures k in Apply(s, step).closers <==> k in s.closers
    ensures k in s.closers ==> Apply(s, step).closers[k] == s.closers[k]
  {
    hide QP.Apply, QP.Enabled, ApplyToReservation, ApplyToCall;
  }

  lemma OtherStepFails(s: State, step: Step, k: nat)
    requires Enabled(s, step) && !OfCloser(step, k)
    ensures Failing(Apply(s, step), k) <==> Failing(s, k) || Expires(s, step, k)
  {
    hide QP.Apply, QP.Enabled, QA.PollFailed, Apply, Enabled;
    OtherClosersStay(s, step, k);
    if k in s.closers && (s.closers[k].DrainingQueue? || s.closers[k].FlushingQueue?) {
      WaitStep(s, step, s.closers[k].t);
    } else {
      NotWaiting(s, step, Apply(s, step), k);
    }
  }

  lemma NotWaiting(s: State, step: Step, s': State, k: nat)
    requires !OfCloser(step, k) && (k in s'.closers <==> k in s.closers)
    requires k in s.closers ==> s'.closers[k] == s.closers[k]
    requires k in s.closers ==> !s.closers[k].DrainingQueue? && !s.closers[k].FlushingQueue?
    ensures Failing(s', k) <==> Failing(s, k) || Expires(s, step, k)
  {
    hide QA.PollFailed;
  }

  /** What each step of a closer makes of it. */
  lemma StartsFresh(s: State, step: Step, k: nat)
    requires Enabled(s, step) && OfCloser(step, k) && (step.StartClose? || step.MarkClosed?)
    ensures !Failing(s, k) && !Failing(Apply(s, step), k)
  {
    hide QP.Apply, QP.Enabled, ApplyToReservation, ApplyToCall, QA.PollFailed;
  }

  lemma FreshIsNotFailed(q: QP.State, t: QP.CallId)
    requires t !in q.calls
    ensures !QA.PollFailed(q, t)
  {
  }

  lemma CloseQueueStarts(s: State, k: nat, t: QP.CallId)
    requires Enabled(s, CloseQueue(k, t))
    ensures k in s.closers && s.closers[k] == ClosingQueue && t !in s.q.calls
    ensures k in Apply(s, CloseQueue(k, t)).closers && Apply(s, CloseQueue(k, t)).closers[k] == DrainingQueue(t)
    ensures Apply(s, CloseQueue(k, t)).q == QP.Apply(s.q, QP.StartClose(t))
  {
    hide QP.Apply, ApplyToReservation, ApplyToCall;
  }

  lemma QueueClosedMoves(s: State, k: nat, t: QP.CallId)
    requires Enabled(s, QueueClosed(k, t))
    ensures k in s.closers && s.closers[k].DrainingQueue? && t !in s.q.calls
    ensures k in Apply(s, QueueClosed(k, t)).closers
    ensures var u, closer := s.closers[k].t, Apply(s, QueueClosed(k, t)).closers[k];
      if QA.PollFailed(s.q, u) then closer.Sweeping? && !closer.ok
      else closer == FlushingQueue(t) && Apply(s, QueueClosed(k, t)).q == QP.Apply(s.q, QP.StartFlush(t))
  {
    hide QP.Apply, ApplyToReservation, ApplyToCall;
  }

  lemma QueueFlushedMoves(s: State, k: nat)
    requires Enabled(s, QueueFlushed(k))
    ensures k in s.closers && s.closers[k].FlushingQueue? && k in Apply(s, QueueFlushed(k)).closers
    ensures var u, closer := s.closers[k].t, Apply(s, QueueFlushed(k)).closers[k];
      if QA.PollFailed(s.q, u) then closer.Sweeping? && !closer.ok else closer == AwaitingInflight
  {
    hide QP.Apply, QP.Enabled, ApplyToReservation, ApplyToCall;
  }

  lemma SweepMoves(s: State, step: Step, k: nat)
    requires Enabled(s, step) && OfCloser(step, k)
    requires step.InflightZero? || step.InflightExpires? || step.SweepKey? || step.SweepEnds?
    ensures Failing(Apply(s, step), k) <==> Failing(s, k) || Expires(s, step, k)
  {
    hide QP.Apply, QP.Enabled, ApplyToReservation, ApplyToCall, QA.PollFailed;
  }

  lemma FailStep(s: State, step: Step, k: nat)
    requires Enabled(s, step)
    ensures Failing(Apply(s, step), k) <==> Failing(s, k) || Expires(s, step, k)
  {
    hide QP.Apply, QP.Enabled, QA.PollFailed, Apply, Enabled;
    if !OfCloser(step, k) {
      OtherStepFails(s, step, k);
    } else if step.StartClose? || step.MarkClosed? {
      StartsFresh(s, step, k);
    } else if step.CloseQueue? {
      CloseQueueStarts(s, k, step.t);
      FreshIsNotFailed(s.q, step.t);
      WaitStep(s, step, step.t);
    } else if step.QueueClosed? {
      QueueClosedMoves(s, k, step.t);
      FreshIsNotFailed(s.q, step.t);
      WaitStep(s, step, step.t);
    } else if step.QueueFlushed? {
      QueueFlushedMoves(s, k);
    } else {
      SweepMoves(s, step, k);
    }
  }

  /** A Close is failing exactly if its context expired in one of its own waits. */
  lemma {:induction false} FailingExactly(states: seq<State>, steps: seq<Step>, i: nat, k: nat)
    requires Run(states, steps) && i < |states|
    ensures Failing(states[i], k) <==> exists m :: 0 <= m < i && Expires(states[m], steps[m], k)
  {
    hide Apply, Enabled, Expires;
    if i > 0 {
      FailingExactly(states, steps, i - 1, k);
      FailStep(states[i - 1], steps[i - 1], k);
      hide Failing;
      if m :| 0 <= m < i && Expires(states[m], steps[m], k) {
        assert m < i - 1 || m == i - 1;
      }
    }
  }

  /** So a Close that sweeps or has returned does so without an error exactly if none of its
      waits expired. */
  lemma ReturnsNilExactly(states: seq<State>, steps: seq<Step>, i: nat, k: nat)
    requires Run(states, steps) && i < |states|
    requires k in states[i].closers && (states[i].closers[k].Sweeping? || states[i].closers[k].Closed?)
    ensures states[i].closers[k].ok <==> forall m :: 0 <= m < i ==> !Expires(states[m], steps[m], k)
  {
    FailingExactly(states, steps, i, k);
    hide Expires;
  }
}
