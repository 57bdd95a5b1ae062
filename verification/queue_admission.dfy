/** Which items the queue lets in, drops and hands out, step by step of a run. */
module QueueAdmission {
  import opened Wrappers
  import opened QueueCore
  import opened QueueProtocol
  import opened QueueTheorems

  // ----- The enqueue section -----

  /** What a pass of call t through the lock decides: turned away by a closed queue, parked by a
      full one if it awaits, let in otherwise. */
  lemma EnqueueDecides(states: seq<State>, steps: seq<Step>, k: nat, t: CallId)
    requires Run(states, steps) && k < |steps| && steps[k] == EnqueueLock(t)
    ensures t in states[k].calls && states[k].calls[t].Entering? && t in states[k + 1].calls
    ensures var s, s', await := states[k], states[k + 1], states[k].calls[t].await;
      && (s'.calls[t] == Left(await, TurnedAway) <==> !s.queue.accepting)
      && (s'.calls[t].Parked? <==> await && s.queue.accepting && |s.queue.pending| == 1000)
      && (if !s.queue.accepting || (await && |s.queue.pending| == 1000) then
            s'.appended == s.appended && s'.queue.pending == s.queue.pending
          else
            && s'.appended == s.appended + [t]
            && s'.queue.pending == (if |s.queue.pending| == 1000 then s.queue.pending[1..] else s.queue.pending) + [t])
  {
    RunHolds(states, steps, k);
    NeverOverfull(states[k]);
    hide Inv;
    EnqueueSection(states[k], t, states[k].calls[t].await);
    hide ApplyEnqueue;
  }

  lemma NeverOverfull(s: State)
    requires Inv(s)
    ensures |s.queue.pending| <= 1000
  {
    hide Pipeline, DoneOk, OneWorker, CallsOk, DropsNeedBackground;
  }

  lemma EnqueueSection(s: State, t: CallId, await: bool)
    requires |s.queue.pending| <= 1000
    ensures var s' := ApplyEnqueue(s, t, await);
      && t in s'.calls
      && (s'.calls[t] == Left(await, TurnedAway) <==> !s.queue.accepting)
      && (s'.calls[t].Parked? <==> await && s.queue.accepting && |s.queue.pending| == 1000)
      && (if !s.queue.accepting || (await && |s.queue.pending| == 1000) then
            s'.appended == s.appended && s'.queue.pending == s.queue.pending
          else
            && s'.appended == s.appended + [t]
            && s'.queue.pending == (if |s.queue.pending| == 1000 then s.queue.pending[1..] else s.queue.pending) + [t])
  {
  }

  lemma NothingElseAppends(s: State, step: Step)
    requires Enabled(s, step) && !step.EnqueueLock?
    ensures Apply(s, step).appended == s.appended
    ensures forall x :: Dropped(x) in Apply(s, step).removed ==> Dropped(x) in s.removed
  {
    if step.WorkerLock? {
      hide TakeBatch;
      assert forall r :: r in AllTaken(TakeBatch(s.queue).1) ==> r.Taken?;
    }
  }

  lemma EnqueueDrops(s: State, t: CallId, x: CallId)
    requires Enabled(s, EnqueueLock(t)) && |s.queue.pending| <= 1000
    ensures Dropped(x) in Apply(s, EnqueueLock(t)).removed <==>
      Dropped(x) in s.removed
      || (!s.calls[t].await && s.queue.accepting && |s.queue.pending| == 1000 && x == s.queue.pending[0])
  {
  }

  /** An item is dropped at a step exactly when a background call meets an accepting queue of
      1,000 items and it is the oldest of them. */
  lemma DroppedExactly(states: seq<State>, steps: seq<Step>, k: nat, x: CallId)
    requires Run(states, steps) && k < |steps|
    ensures Dropped(x) in states[k + 1].removed <==>
      Dropped(x) in states[k].removed
      || (steps[k].EnqueueLock? && states[k].calls[steps[k].t] == Entering(false) && states[k].queue.accepting
          && |states[k].queue.pending| == 1000 && x == states[k].queue.pending[0])
  {
    RunHolds(states, steps, k);
    if steps[k].EnqueueLock? {
      EnqueueDrops(states[k], steps[k].t, x);
    } else {
      NothingElseAppends(states[k], steps[k]);
      RemovedGrows(states, steps, k);
    }
    hide Inv, Apply;
  }

  lemma RemovedGrows(states: seq<State>, steps: seq<Step>, k: nat)
    requires Run(states, steps) && k < |steps|
    ensures forall r :: r in states[k].removed ==> r in states[k + 1].removed
  {
    hide Inv, Apply, Enabled;
    RunAdvances(states, steps, k, k + 1);
  }

  lemma AcceptingStep(s: State, step: Step)
    requires Enabled(s, step)
    ensures Apply(s, step).queue.accepting <==> s.queue.accepting && !step.CloseLock?
  {
    hide AllTaken;
  }

  /** The queue accepts until the first close passes through the lock. */
  lemma {:induction false} AcceptingExactly(states: seq<State>, steps: seq<Step>, i: nat)
    requires Run(states, steps) && i < |states|
    ensures states[i].queue.accepting <==> forall k :: 0 <= k < i ==> !steps[k].CloseLock?
  {
    hide Apply, Enabled;
    if i > 0 {
      AcceptingExactly(states, steps, i - 1);
      AcceptingStep(states[i - 1], steps[i - 1]);
    }
  }

  // ----- How enqueue returns -----

  /** Call t has returned with that outcome. */
  ghost predicate Returned(s: State, t: CallId, outcome: Outcome) {
    t in s.calls && s.calls[t].Left? && s.calls[t].outcome == outcome
  }

  /** The step with which it returns so. */
  ghost predicate Returns(s: State, step: Step, t: CallId, outcome: Outcome) {
    match outcome
    case Delivered => step == SeeDone(t)
    case GaveUp => step == EnqueueGiveUp(t)
    case TurnedAway => step == EnqueueLock(t) && !s.queue.accepting
    case Queued =>
      step == FinishDropped(t)
      || (step == EnqueueLock(t) && t in s.calls && s.calls[t] == Entering(false)
          && s.queue.accepting && |s.queue.pending| < 1000)
  }

  lemma ReturnStep(s: State, step: Step, t: CallId, outcome: Outcome)
    requires Enabled(s, step)
    ensures Returned(Apply(s, step), t, outcome) <==> Returned(s, t, outcome) || Returns(s, step, t, outcome)
  {
    hide TakeBatch, AllTaken;
  }

  /** An enqueue returned the way it did because of a step of that kind: it saw its item done,
      its context expired, the queue was closed, or, in background mode, its item was let in. */
  lemma {:induction false} ReturnedExactly(states: seq<State>, steps: seq<Step>, i: nat, t: CallId, outcome: Outcome)
    requires Run(states, steps) && i < |states|
    ensures Returned(states[i], t, outcome) <==> exists k :: 0 <= k < i && Returns(states[k], steps[k], t, outcome)
  {
    hide Apply, Enabled, Returns;
    if i > 0 {
      ReturnedExactly(states, steps, i - 1, t, outcome);
      ReturnStep(states[i - 1], steps[i - 1], t, outcome);
      hide Returned;
      if k :| 0 <= k < i && Returns(states[k], steps[k], t, outcome) {
        assert k < i - 1 || k == i - 1;
      }
    }
  }

  /** An awaited item that was not dropped is delivered without any other call's help: steps of
      the worker alone lead to where the call can return. */
  lemma AwaitedIsDelivered(s: State, t: CallId) returns (steps: seq<Step>, s': State)
    requires Inv(s) && t in s.calls && s.calls[t].Awaiting? && Dropped(t) !in s.removed
    ensures Executes(s, steps, s') && forall i :: 0 <= i < |steps| ==> WorkerStep(steps[i])
    ensures t in FinalizedItems(s'.finalized) && Enabled(s', SeeDone(t))
  {
    AwaitedIsIn(s, t);
    hide Inv, Executes, WorkerStep, Enabled, Apply, FinalizedItems, Idle;
    steps, s' := WorkerDrains(s);
    SettledCanReturn(s', t);
  }

  lemma SettledCanReturn(s: State, t: CallId)
    requires Inv(s) && Idle(s.queue)
    requires t in s.calls && s.calls[t].Awaiting? && t in s.appended && Dropped(t) !in s.removed
    ensures t in FinalizedItems(s.finalized) && Enabled(s, SeeDone(t))
  {
    IdleIsSettled(s);
    hide Inv, FinalizedItems, Idle, Flatten, Produced;
  }

  lemma AwaitedIsIn(s: State, t: CallId)
    requires Inv(s) && t in s.calls && s.calls[t].Awaiting?
    ensures t in s.appended
  {
    hide Histories, DropsNeedBackground;
    assert CallOk(s, t, s.calls[t]);
  }

  /** A dropped item's channel is closed, or the call that dropped it is about to close it. */
  ghost predicate Released(s: State, x: CallId) {
    Dropped(x) in s.removed ==> x in s.done || exists t :: t in s.calls && s.calls[t] == Discarding(x)
  }

  lemma ReleasedStep(s: State, step: Step, x: CallId)
    requires Enabled(s, step) && Released(s, x)
    ensures Released(Apply(s, step), x)
  {
    if step.EnqueueLock? {
      ReleasedByEnqueue(s, step.t, x);
    } else {
      NothingElseAppends(s, step);
      DiscardingStays(s, step, x);
    }
  }

  lemma ReleasedByEnqueue(s: State, t: CallId, x: CallId)
    requires Enabled(s, EnqueueLock(t)) && Released(s, x)
    ensures Released(Apply(s, EnqueueLock(t)), x)
  {
    var s' := Apply(s, EnqueueLock(t));
    if u :| u in s.calls && s.calls[u] == Discarding(x) {
      assert u in s'.calls && s'.calls[u] == Discarding(x);
    } else if Dropped(x) in s'.removed && Dropped(x) !in s.removed {
      assert s'.calls[t] == Discarding(x);
    }
  }

  lemma DiscardingStays(s: State, step: Step, x: CallId)
    requires Enabled(s, step) && !step.EnqueueLock?
    ensures x in s.done ==> x in Apply(s, step).done
    ensures (exists t :: t in s.calls && s.calls[t] == Discarding(x)) ==>
      x in Apply(s, step).done || exists t :: t in Apply(s, step).calls && Apply(s, step).calls[t] == Discarding(x)
  {
    hide TakeBatch, AllTaken;
    var s' := Apply(s, step);
    if t :| t in s.calls && s.calls[t] == Discarding(x) {
      assert x in s'.done || (t in s'.calls && s'.calls[t] == Discarding(x));
    }
  }

  /** A call that waits for an item that was dropped is not forgotten: the item's channel is
      closed, or the call that dropped it can close it. */
  lemma {:induction false} DroppedIsReleased(states: seq<State>, steps: seq<Step>, i: nat, x: CallId)
    requires Run(states, steps) && i < |states| && Dropped(x) in states[i].removed
    ensures x in states[i].done
            || exists t :: Enabled(states[i], FinishDropped(t)) && x in Apply(states[i], FinishDropped(t)).done
  {
    hide Inv;
    RunReleased(states, steps, i, x);
    if x !in states[i].done {
      var t :| t in states[i].calls && states[i].calls[t] == Discarding(x);
      assert Enabled(states[i], FinishDropped(t));
    }
  }

  lemma {:induction false} RunReleased(states: seq<State>, steps: seq<Step>, i: nat, x: CallId)
    requires Run(states, steps) && i < |states|
    ensures Released(states[i], x)
  {
    hide Apply, Enabled;
    if i > 0 {
      RunReleased(states, steps, i - 1, x);
      hide Released;
      ReleasedStep(states[i - 1], steps[i - 1], x);
    }
  }

  // ----- The warning -----

  ghost predicate HasDropped(s: State) {
    exists x :: Dropped(x) in s.removed
  }

  lemma WarnedStep(s: State, step: Step)
    requires Enabled(s, step) && (s.queue.warnedDrop <==> HasDropped(s))
    ensures Apply(s, step).queue.warnedDrop <==> HasDropped(Apply(s, step))
  {
    if step.EnqueueLock? {
      WarnedEnqueue(s, step.t);
    } else {
      NothingElseAppends(s, step);
      KeepsDropped(s, step);
    }
  }

  lemma WarnedEnqueue(s: State, t: CallId)
    requires Enabled(s, EnqueueLock(t)) && (s.queue.warnedDrop <==> HasDropped(s))
    ensures Apply(s, EnqueueLock(t)).queue.warnedDrop <==> HasDropped(Apply(s, EnqueueLock(t)))
  {
    var s' := Apply(s, EnqueueLock(t));
    if Admit(s.queue, t, s.calls[t].await).1.Admitted? && Admit(s.queue, t, s.calls[t].await).1.dropped.Some? {
      assert Dropped(s.queue.pending[0]) in s'.removed;
    } else {
      assert s'.removed == s.removed;
    }
  }

  lemma KeepsDropped(s: State, step: Step)
    requires Enabled(s, step) && !step.EnqueueLock?
    ensures Apply(s, step).queue.warnedDrop == s.queue.warnedDrop
    ensures HasDropped(s) ==> HasDropped(Apply(s, step))
  {
    if x :| Dropped(x) in s.removed {
      assert Dropped(x) in Apply(s, step).removed;
    }
  }

  /** The queue has warned exactly if an item has been dropped, so the warning of an overflow
      comes with the first drop of the run and with no other. */
  lemma {:induction false} WarnedExactlyIfDropped(states: seq<State>, steps: seq<Step>, i: nat)
    requires Run(states, steps) && i < |states|
    ensures states[i].queue.warnedDrop <==> HasDropped(states[i])
  {
    hide Apply, Enabled;
    if i > 0 {
      WarnedExactlyIfDropped(states, steps, i - 1);
      WarnedStep(states[i - 1], steps[i - 1]);
    }
  }

  lemma WarningComesWithTheFirstDrop(states: seq<State>, steps: seq<Step>, k: nat, t: CallId)
    requires Run(states, steps) && k < |steps| && steps[k] == EnqueueLock(t)
    ensures t in states[k].calls && states[k].calls[t].Entering?
    ensures var admission := Admit(states[k].queue, t, states[k].calls[t].await).1;
      admission.Admitted? && admission.warn <==> !HasDropped(states[k]) && HasDropped(states[k + 1])
  {
    WarnedExactlyIfDropped(states, steps, k);
    WarnedExactlyIfDropped(states, steps, k + 1);
    hide HasDropped;
  }

  // ----- The worker -----

  /** A batch is all that is pending, up to the 20 oldest; a worker that finds nothing exits. */
  lemma BatchIsFull(states: seq<State>, steps: seq<Step>, k: nat, w: nat)
    requires Run(states, steps) && k < |steps| && steps[k] == WorkerLock(w)
    ensures w < |states[k].workers| == |states[k + 1].workers|
    ensures var s, s' := states[k], states[k + 1];
      var n := if |s.queue.pending| < 20 then |s.queue.pending| else 20;
      && s'.queue.pending == s.queue.pending[n..]
      && s'.workers[w] == (if n == 0 then Exited else Finalizing(s.queue.pending[..n], 0, []))
      && s'.queue.running == (if n == 0 then false else s.queue.running)
  {
  }

  /** The results that the finalizers returned, in the order in which they ran. */
  function Results(steps: seq<Step>): seq<Option<seq<Event>>> {
    if steps == [] then []
    else
      var last := steps[|steps| - 1];
      Results(steps[..|steps| - 1]) + if last.Finalize? then [last.result] else []
  }

  function ResultsOf(finalized: seq<Finalized>): seq<Option<seq<Event>>> {
    seq(|finalized|, i requires 0 <= i < |finalized| => finalized[i].result)
  }

  lemma FinalizeRecords(s: State, step: Step)
    requires Enabled(s, step)
    ensures ResultsOf(Apply(s, step).finalized) == ResultsOf(s.finalized) + if step.Finalize? then [step.result] else []
  {
    hide TakeBatch, Admit, AllTaken;
    if step.Finalize? {
      assert Apply(s, step).finalized[..|s.finalized|] == s.finalized;
    }
  }

  /** What counts as produced is what the finalizers returned, each result once and in order. */
  lemma {:induction false} FinalizedAreTheResults(states: seq<State>, steps: seq<Step>, i: nat)
    requires Run(states, steps) && i < |states|
    ensures ResultsOf(states[i].finalized) == Results(steps[..i])
  {
    hide Apply, Enabled;
    if i > 0 {
      FinalizedAreTheResults(states, steps, i - 1);
      FinalizeRecords(states[i - 1], steps[i - 1]);
      assert steps[..i][..i - 1] == steps[..i - 1];
    } else {
      assert ResultsOf([]) == [];
    }
  }

  ghost predicate NoEmptySend(s: State) {
    forall b :: b in s.sent ==> b != []
  }

  lemma {:induction false} SendsAreNotEmpty(states: seq<State>, steps: seq<Step>, i: nat)
    requires Run(states, steps) && i < |states|
    ensures NoEmptySend(states[i])
  {
    if i > 0 {
      SendsAreNotEmpty(states, steps, i - 1);
      SendIsNotEmpty(states[i - 1], steps[i - 1]);
      hide NoEmptySend, Apply, Enabled;
    }
  }

  lemma SendIsNotEmpty(s: State, step: Step)
    requires Enabled(s, step) && NoEmptySend(s)
    ensures NoEmptySend(Apply(s, step))
  {
    hide TakeBatch, Admit, AllTaken;
  }

  // ----- Waits that expire -----

  ghost predicate PollFailed(s: State, t: CallId) {
    t in s.calls && s.calls[t].PollDone? && !s.calls[t].ok
  }

  lemma PollFailStep(s: State, step: Step, t: CallId)
    requires Enabled(s, step)
    ensures PollFailed(Apply(s, step), t) <==> PollFailed(s, t) || step == PollGiveUp(t)
  {
    hide TakeBatch, Admit, AllTaken;
  }

  /** A flush or close fails exactly if its context expired while it was waiting. */
  lemma {:induction false} PollFailedExactly(states: seq<State>, steps: seq<Step>, i: nat, t: CallId)
    requires Run(states, steps) && i < |states|
    ensures PollFailed(states[i], t) <==> exists k :: 0 <= k < i && steps[k] == PollGiveUp(t)
  {
    hide Apply, Enabled;
    if i > 0 {
      PollFailedExactly(states, steps, i - 1, t);
      PollFailStep(states[i - 1], steps[i - 1], t);
      hide PollFailed;
      if k :| 0 <= k < i && steps[k] == PollGiveUp(t) {
        assert k < i - 1 || k == i - 1;
      }
    }
  }
}
