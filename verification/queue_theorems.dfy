/** What the privacy queue promises over whole runs. */
module QueueTheorems {
  import opened Wrappers
  import opened QueueCore
  import opened QueueProtocol

  /** A run: every state but the first comes from the one before it by an enabled step. */
  ghost predicate Run(states: seq<State>, steps: seq<Step>) {
    && |states| == |steps| + 1
    && states[0] == INITIAL
    && forall i :: 0 <= i < |steps| ==> Enabled(states[i], steps[i]) && states[i + 1] == Apply(states[i], steps[i])
  }

  lemma {:induction false} RunHolds(states: seq<State>, steps: seq<Step>, i: nat)
    requires Run(states, steps) && i < |states|
    ensures Inv(states[i])
  {
    if i == 0 {
      InitialHolds();
    } else {
      RunHolds(states, steps, i - 1);
      StepKeeps(states[i - 1], steps[i - 1]);
    }
  }

  lemma {:induction false} RunAdvances(states: seq<State>, steps: seq<Step>, i: nat, j: nat)
    requires Run(states, steps) && i <= j < |states|
    ensures Advances(states[i], states[j])
  {
    hide Inv, Apply, Enabled;
    if i < j {
      RunHolds(states, steps, j - 1);
      StepKeeps(states[j - 1], steps[j - 1]);
      hide Advances;
      RunAdvances(states, steps, i, j - 1);
      AdvancesTransitive(states[i], states[j - 1], states[j]);
    }
  }

  lemma AdvancesTransitive(s: State, s': State, s'': State)
    requires Advances(s, s') && Advances(s', s'')
    ensures Advances(s, s'')
  {
  }

  // ----- Wake-ups -----

  /** No lost wake-up: once what a parked call waits for has come true, the channel it is
      parked on is closed, so its wake-up is enabled. */
  lemma NoLostWakeup(states: seq<State>, steps: seq<Step>, i: nat, t: CallId)
    requires Run(states, steps) && i < |states| && t in states[i].calls
    ensures states[i].calls[t].PollParked? && Idle(states[i].queue) ==> Enabled(states[i], PollWake(t))
    ensures states[i].calls[t].Parked? && !Full(states[i].queue) ==> Enabled(states[i], EnqueueWake(t))
  {
    RunHolds(states, steps, i);
    assert CallOk(states[i], t, states[i].calls[t]);
  }

  /** A waiter that is not woken sees nothing change: within one generation the queue
      looks the same at every moment. */
  lemma GenerationFixesTheQueue(states: seq<State>, steps: seq<Step>, i: nat, j: nat)
    requires Run(states, steps) && i <= j < |states|
    requires states[i].queue.generation == states[j].queue.generation
    ensures states[j].queue.pending == states[i].queue.pending
    ensures states[j].queue.running == states[i].queue.running
    ensures states[j].queue.accepting == states[i].queue.accepting
  {
    RunAdvances(states, steps, i, j);
  }

  // ----- Conservation and order -----

  /** Every appended item is accounted for once: still pending, dropped by an overflow, or
      handed to a worker; removal goes strictly in the order of arrival. */
  lemma Conservation(states: seq<State>, steps: seq<Step>, i: nat, x: CallId)
    requires Run(states, steps) && i < |states|
    ensures var s := states[i];
      && |s.queue.pending| <= CAPACITY
      && s.appended == Items(s.removed) + s.queue.pending
      && (x in s.appended <==> x in s.queue.pending || Dropped(x) in s.removed || Taken(x) in s.removed)
      && !(x in s.queue.pending && (Dropped(x) in s.removed || Taken(x) in s.removed))
      && !(Dropped(x) in s.removed && Taken(x) in s.removed)
  {
    RunHolds(states, steps, i);
    var s := states[i];
    FateIsUnique(s.appended, s.removed, s.queue.pending, x);
  }

  lemma FateIsUnique(appended: seq<CallId>, removed: seq<Removal>, pending: seq<CallId>, x: CallId)
    requires Fifo(appended, removed, pending)
    ensures x in appended <==> x in pending || Dropped(x) in removed || Taken(x) in removed
    ensures !(x in pending && (Dropped(x) in removed || Taken(x) in removed))
    ensures !(Dropped(x) in removed && Taken(x) in removed)
  {
    var items := Items(removed);
    ItemsAt(removed);
    forall i, j | 0 <= i < j < |removed| && removed[i].item == x
      ensures removed[j].item != x
    {
      assert appended[i] == items[i] && appended[j] == items[j];
    }
    forall i, j | 0 <= i < |removed| && 0 <= j < |pending| && removed[i].item == x
      ensures pending[j] != x
    {
      assert appended[i] == items[i] && appended[|items| + j] == pending[j];
    }
    if x in appended {
      var k :| 0 <= k < |appended| && appended[k] == x;
      if k < |items| {
        assert removed[k] == Dropped(x) || removed[k] == Taken(x);
      } else {
        assert pending[k - |items|] == x;
      }
    }
    forall k | 0 <= k < |removed| && removed[k].item == x
      ensures x in appended
    {
      assert appended[k] == x;
    }
  }

  lemma {:induction false} ItemsAt(removed: seq<Removal>)
    ensures |Items(removed)| == |removed|
    ensures forall k :: 0 <= k < |removed| ==> Items(removed)[k] == removed[k].item
  {
    if removed != [] {
      ItemsAt(removed[..|removed| - 1]);
    }
  }

  ghost predicate Subsequence<T>(xs: seq<T>, ys: seq<T>) {
    xs == [] || (ys != [] && (Subsequence(xs, ys[..|ys| - 1])
                              || (xs[|xs| - 1] == ys[|ys| - 1] && Subsequence(xs[..|xs| - 1], ys[..|ys| - 1]))))
  }

  lemma {:induction false} TakenInOrder(removed: seq<Removal>)
    ensures Subsequence(TakenItems(removed), Items(removed))
  {
    if removed != [] {
      var n := |removed| - 1;
      TakenInOrder(removed[..n]);
      ItemsAt(removed);
      ItemsAt(removed[..n]);
      assert Items(removed)[..n] == Items(removed[..n]);
      var taken := TakenItems(removed[..n]);
      if removed[n].Taken? {
        assert TakenItems(removed) == taken + [removed[n].item];
        assert (taken + [removed[n].item])[..|taken|] == taken;
      } else {
        assert TakenItems(removed) == taken;
      }
    }
  }

  /** The delivered stream: what the started sends carried, put end to end, is what the
      finalizers produced, in finalization order, short only of the batch being built;
      items are finalized in the order of arrival, the dropped ones left out. */
  lemma DeliveredStream(states: seq<State>, steps: seq<Step>, i: nat)
    requires Run(states, steps) && i < |states|
    ensures var s := states[i];
      && Flatten(s.sent) + Unsent(Live(s)) == Produced(s.finalized)
      && FinalizedItems(s.finalized) <= TakenItems(s.removed)
      && Subsequence(TakenItems(s.removed), Items(s.removed))
      && Items(s.removed) <= s.appended
  {
    RunHolds(states, steps, i);
    TakenInOrder(states[i].removed);
  }

  /** One worker at most, and it never holds more than a batch. */
  lemma OneWorkerAtATime(states: seq<State>, steps: seq<Step>, i: nat, v: nat, w: nat)
    requires Run(states, steps) && i < |states| && v < |states[i].workers| && w < |states[i].workers|
    requires !states[i].workers[v].Exited? && !states[i].workers[w].Exited?
    ensures v == w && states[i].queue.running
    ensures |Unfinished(states[i].workers[v])| <= BATCH_SIZE
    ensures states[i].workers[v].Sending? ==> 1 <= |states[i].workers[v].items|
  {
    hide Run;
    RunHolds(states, steps, i);
    LiveOnly(states[i], v);
    LiveOnly(states[i], w);
    hide Fifo, Pipeline, DoneOk, CallsOk, DropsNeedBackground;
  }

  // ----- Flush and close -----

  /** Nothing is in flight: every accepted item was dropped by an overflow, or it went
      through its finalizer, everything produced was handed to a send that has returned,
      and its done channel is closed. */
  ghost predicate AllSettled(s: State) {
    && (forall w :: 0 <= w < |s.workers| ==> s.workers[w].Exited?)
    && Flatten(s.sent) == Produced(s.finalized)
    && (forall x :: x in s.appended ==>
          Dropped(x) in s.removed || (x in FinalizedItems(s.finalized) && x in s.done))
  }

  lemma IdleIsSettled(s: State)
    requires Inv(s) && Idle(s.queue)
    ensures AllSettled(s)
  {
    hide Fifo, Pipeline, DoneOk, CallsOk, DropsNeedBackground;
    assert Live(s) == Exited && Unfinished(Live(s)) == [];
    NothingUnsent(TakenItems(s.removed), s.finalized, s.sent);
    forall x | x in s.appended && Dropped(x) !in s.removed
      ensures x in FinalizedItems(s.finalized) && x in s.done
    {
      TakenWhenIdle(s.appended, s.removed, s.done, x);
    }
    hide TakenItems, FinalizedItems;
    AllExited(s);
  }

  lemma AllExited(s: State)
    requires OneWorker(s.workers, Live(s), s.queue) && !s.queue.running
    ensures forall w :: 0 <= w < |s.workers| ==> s.workers[w].Exited?
  {
    hide WorkerOk;
  }

  lemma NothingUnsent(taken: seq<CallId>, finalized: seq<Finalized>, sent: seq<seq<Event>>)
    requires Pipeline(taken, finalized, sent, Exited)
    ensures taken == FinalizedItems(finalized) && Flatten(sent) == Produced(finalized)
  {
    hide FinalizedItems, Flatten, Produced;
  }

  lemma TakenWhenIdle(appended: seq<CallId>, removed: seq<Removal>, done: set<CallId>, x: CallId)
    requires Fifo(appended, removed, []) && DoneOk(removed, [], done)
    requires x in appended && Dropped(x) !in removed
    ensures x in TakenItems(removed) && x in done
  {
    FateIsUnique(appended, removed, [], x);
    hide Fifo;
    TakenItemsHas(removed, x);
    hide TakenItems;
    assert Settled(TakenItems(removed), []) == TakenItems(removed);
  }

  /** Flush is a barrier: the moment it sees the queue idle, every item accepted before
      that moment, at any earlier point of the run, has been dealt with. */
  lemma FlushIsABarrier(states: seq<State>, steps: seq<Step>, i: nat, k: nat, t: CallId)
    requires Run(states, steps) && i <= k < |steps|
    requires steps[k] == Poll(t) && states[k + 1].calls[t].PollDone?
    ensures AllSettled(states[k + 1])
    ensures forall x :: x in states[i].appended ==>
      Dropped(x) in states[k + 1].removed || (x in FinalizedItems(states[k + 1].finalized) && x in states[k + 1].done)
  {
    RunHolds(states, steps, k + 1);
    RunAdvances(states, steps, i, k + 1);
    PollSeesIdle(states[k], t);
    hide Inv, Idle, Apply, Enabled;
    IdleIsSettled(states[k + 1]);
  }

  lemma PollSeesIdle(s: State, t: CallId)
    requires Enabled(s, Poll(t))
    ensures t in Apply(s, Poll(t)).calls
    ensures Apply(s, Poll(t)).calls[t].PollDone? ==> Idle(Apply(s, Poll(t)).queue)
  {
  }

  ghost predicate ClosedForGood(s: State) {
    !s.queue.accepting && Idle(s.queue)
  }

  lemma ClosedStaysClosed(s: State, step: Step)
    requires Inv(s) && Enabled(s, step) && ClosedForGood(s)
    ensures var s' := Apply(s, step);
      ClosedForGood(s') && s'.sent == s.sent && s'.appended == s.appended && s'.finalized == s.finalized
  {
    hide Fifo, Pipeline, DoneOk, CallsOk, DropsNeedBackground;
    forall w | 0 <= w < |s.workers|
      ensures s.workers[w].Exited?
    {
      if !s.workers[w].Exited? { LiveOnly(s, w); }
    }
  }

  /** Once a close has returned nil the queue is idle forever: no item is accepted, no
      finalizer runs and no send starts, whatever the callers go on to do. */
  lemma {:induction false} CloseIsFinal(states: seq<State>, steps: seq<Step>, i: nat, j: nat, t: CallId)
    requires Run(states, steps) && i <= j < |states|
    requires t in states[i].calls && states[i].calls[t] == PollDone(true, true)
    ensures AllSettled(states[j]) && ClosedForGood(states[j])
    ensures states[j].sent == states[i].sent && states[j].appended == states[i].appended
    ensures states[j].finalized == states[i].finalized
  {
    hide AllSettled, Inv, Apply, Enabled;
    RunHolds(states, steps, j);
    if i == j {
      ClosedCallMeansClosed(states[i], t);
    } else {
      RunHolds(states, steps, j - 1);
      CloseIsFinal(states, steps, i, j - 1, t);
      ClosedStaysClosed(states[j - 1], steps[j - 1]);
    }
    IdleIsSettled(states[j]);
  }

  lemma ClosedCallMeansClosed(s: State, t: CallId)
    requires Inv(s) && t in s.calls && s.calls[t] == PollDone(true, true)
    ensures ClosedForGood(s)
  {
    assert CallOk(s, t, s.calls[t]);
  }

  // ----- Await mode -----

  /** Only a background call can push an item out: in a queue used only in await mode
      every removed item went to the worker. */
  lemma AwaitNeverDrops(states: seq<State>, steps: seq<Step>, i: nat)
    requires Run(states, steps) && i < |states| && AwaitOnly(states[i])
    ensures TakenItems(states[i].removed) == Items(states[i].removed)
    ensures forall x :: Dropped(x) !in states[i].removed
  {
    RunHolds(states, steps, i);
    NoDropsMeansAllTaken(states[i].removed);
  }

  lemma {:induction false} NoDropsMeansAllTaken(removed: seq<Removal>)
    requires forall r :: r in removed ==> r.Taken?
    ensures TakenItems(removed) == Items(removed)
  {
    if removed != [] {
      var n := |removed| - 1;
      assert removed[n] in removed;
      NoDropsMeansAllTaken(removed[..n]);
    }
  }

  /** When an awaiting enqueue returns with a live context after its item was appended,
      the item was dropped by a background overflow, or it is finalized and the worker is
      past the send of its batch; await-only use rules the first case out. */
  lemma AwaitReturnsAfterDelivery(states: seq<State>, steps: seq<Step>, i: nat, t: CallId)
    requires Run(states, steps) && i < |states|
    requires t in states[i].calls && states[i].calls[t] == Left(true, Delivered)
    ensures var s := states[i];
      && t in s.appended
      && (Dropped(t) in s.removed || (t in FinalizedItems(s.finalized) && !SendPending(s, t)))
      && (AwaitOnly(s) ==> t in FinalizedItems(s.finalized) && !SendPending(s, t))
  {
    RunHolds(states, steps, i);
    var s := states[i];
    assert CallOk(s, t, s.calls[t]);
    if Dropped(t) !in s.removed {
      DoneIsDelivered(s, t);
    }
  }

  /** The item is in the worker's batch and the send of that batch is still to return. */
  predicate SendPending(s: State, x: CallId) {
    var live := Live(s);
    (live.Finalizing? || live.Sending?) && x in live.items
  }

  lemma DoneIsDelivered(s: State, x: CallId)
    requires Inv(s) && x in s.done && Dropped(x) !in s.removed
    ensures x in FinalizedItems(s.finalized) && !SendPending(s, x)
  {
    hide CallsOk, DropsNeedBackground;
    var taken := TakenItems(s.removed);
    var unfinished := Unfinished(Live(s));
    var settled := Settled(taken, unfinished);
    assert x in settled;
    TakenDistinct(s.appended, s.removed, s.queue.pending);
    var k :| 0 <= k < |settled| && settled[k] == x;
    assert taken[k] == x;
    forall m | 0 <= m < |unfinished|
      ensures unfinished[m] != x
    {
      assert taken[|settled| + m] == unfinished[m];
    }
    SettledIsFinalized(taken, s.finalized, s.sent, Live(s), k);
  }

  lemma SettledIsFinalized(taken: seq<CallId>, finalized: seq<Finalized>, sent: seq<seq<Event>>, live: Worker, k: nat)
    requires Pipeline(taken, finalized, sent, live) && WorkerOk(live)
    requires k < |Settled(taken, Unfinished(live))|
    ensures taken[k] in FinalizedItems(finalized)
  {
    assert |NotFinalized(live)| <= |Unfinished(live)|;
    assert taken[k] == FinalizedItems(finalized)[k];
  }

  lemma {:induction false} TakenDistinct(appended: seq<CallId>, removed: seq<Removal>, pending: seq<CallId>)
    requires Fifo(appended, removed, pending)
    ensures Distinct(TakenItems(removed))
  {
    ItemsAt(removed);
    assert Distinct(Items(removed)) by {
      forall i, j | 0 <= i < j < |removed|
        ensures Items(removed)[i] != Items(removed)[j]
      {
        assert appended[i] == Items(removed)[i] && appended[j] == Items(removed)[j];
      }
    }
    TakenDistinctIn(removed);
  }

  lemma {:induction false} TakenDistinctIn(removed: seq<Removal>)
    requires Distinct(Items(removed))
    ensures Distinct(TakenItems(removed))
  {
    if removed != [] {
      var n := |removed| - 1;
      ItemsAt(removed);
      ItemsAt(removed[..n]);
      assert Items(removed)[..n] == Items(removed[..n]);
      assert Distinct(Items(removed[..n]));
      TakenDistinctIn(removed[..n]);
      var taken := TakenItems(removed[..n]);
      forall k | 0 <= k < |taken|
        ensures taken[k] != removed[n].item
      {
        TakenItemsHas(removed[..n], taken[k]);
        var m :| 0 <= m < n && removed[..n][m] == Taken(taken[k]);
        assert Items(removed)[m] == taken[k] && Items(removed)[n] == removed[n].item;
      }
      assert TakenItems(removed) == if removed[n].Taken? then taken + [removed[n].item] else taken;
    }
  }

  // ----- Progress -----

  predicate WorkerStep(step: Step) {
    step.WorkerLock? || step.Finalize? || step.StartSend? || step.SendReturns? || step.Finish? || step.WorkerNotify?
  }

  ghost predicate Executes(s: State, steps: seq<Step>, s': State)
    decreases |steps|
  {
    if steps == [] then s' == s
    else Enabled(s, steps[0]) && Executes(Apply(s, steps[0]), steps[1..], s')
  }

  /** Steps the worker still has to take before it exits, if nothing is enqueued. */
  function Work(s: State): nat {
    var later := 6 * |s.queue.pending|;
    match Live(s)
    case AtTop => 1 + later
    case Finalizing(items, next, _) => (if next <= |items| then |items| - next else 0) + |items| + 4 + later
    case Sending(items) => |items| + 3 + later
    case Finishing(items, next) => (if next <= |items| then |items| - next else 0) + 2 + later
    case Exited => 0
  }

  /** Some worker step is enabled while the queue is not idle, and it leaves less to do. */
  lemma WorkerCanMove(s: State) returns (step: Step)
    requires Inv(s) && !Idle(s.queue)
    ensures WorkerStep(step) && Enabled(s, step) && Work(Apply(s, step)) < Work(s)
  {
    LiveWorkerExists(s);
    hide Inv;
    var w := |s.workers| - 1;
    if s.workers[w].AtTop? {
      step := WorkerLock(w);
      LockLeavesLess(s, w);
    } else {
      step := BatchCanMove(s, w);
    }
  }

  lemma LiveWorkerExists(s: State)
    requires Inv(s) && !Idle(s.queue)
    ensures s.workers != [] && !Live(s).Exited? && WorkerOk(Live(s))
  {
    hide Fifo, Pipeline, DoneOk, CallsOk, DropsNeedBackground;
  }

  lemma LockLeavesLess(s: State, w: nat)
    requires w == |s.workers| - 1 && s.workers[w].AtTop?
    ensures Enabled(s, WorkerLock(w)) && Work(Apply(s, WorkerLock(w))) < Work(s)
  {
    hide AllTaken;
    assert Live(s) == AtTop;
    var count := |TakeBatch(s.queue).1|;
    assert |TakeBatch(s.queue).0.pending| == |s.queue.pending| - count;
  }

  /** A worker within its batch. */
  lemma BatchCanMove(s: State, w: nat) returns (step: Step)
    requires w == |s.workers| - 1 && WorkerOk(s.workers[w]) && !s.workers[w].AtTop? && !s.workers[w].Exited?
    ensures WorkerStep(step) && Enabled(s, step) && Work(Apply(s, step)) < Work(s)
  {
    hide AllTaken, TakeBatch;
    match s.workers[w]
    case Finalizing(items, next, _) => step := if next < |items| then Finalize(w, None) else StartSend(w);
    case Sending(_) => step := SendReturns(w);
    case Finishing(items, next) => step := if next < |items| then Finish(w) else WorkerNotify(w);
  }

  lemma WorkerLeavesCalls(s: State, step: Step)
    requires Enabled(s, step) && WorkerStep(step)
    ensures Apply(s, step).calls == s.calls && Apply(s, step).appended == s.appended
    ensures forall x :: Dropped(x) in Apply(s, step).removed ==> Dropped(x) in s.removed
  {
    hide TakeBatch;
    if step.WorkerLock? {
      assert forall r :: r in AllTaken(TakeBatch(s.queue).1) ==> r.Taken?;
    }
  }

  /** The queue cannot get stuck: from any reachable state the worker's own steps alone
      lead to an idle queue, where every parked flush can wake and return. */
  lemma {:induction false} WorkerDrains(s: State) returns (steps: seq<Step>, s': State)
    requires Inv(s)
    ensures Executes(s, steps, s') && Inv(s') && Idle(s'.queue)
    ensures forall i :: 0 <= i < |steps| ==> WorkerStep(steps[i])
    ensures s'.calls == s.calls && s'.appended == s.appended
    ensures forall x :: Dropped(x) in s'.removed ==> Dropped(x) in s.removed
    decreases Work(s)
  {
    hide Inv, Enabled, Apply, Advances, Work;
    if Idle(s.queue) {
      steps, s' := [], s;
    } else {
      var step := WorkerCanMove(s);
      StepKeeps(s, step);
      WorkerLeavesCalls(s, step);
      hide Executes, Idle;
      steps, s' := WorkerDrains(Apply(s, step));
      ExecutesFirst(s, step, steps, s');
      steps := [step] + steps;
    }
  }

  lemma ExecutesFirst(s: State, step: Step, steps: seq<Step>, s': State)
    requires Enabled(s, step) && Executes(Apply(s, step), steps, s')
    ensures Executes(s, [step] + steps, s')
  {
    hide Enabled, Apply;
    assert ([step] + steps)[1..] == steps;
  }
}
