/** The privacy queue under concurrency: any number of enqueue, flush and close calls
    interleaved with the workers that enqueue starts. A step is one critical section
    under `mu`, or one action taken outside it (a finalizer, a send, a wake-up). */
module QueueProtocol {
  import opened Wrappers
  import opened QueueCore

  /** One call of enqueue, flush or close. An enqueue call makes exactly one queue item,
      which goes by the name of the call. */
  type CallId = nat

  type Event = nat

  datatype Worker =
    | AtTop
    | Finalizing(items: seq<CallId>, next: nat, events: seq<Event>)
    | Sending(items: seq<CallId>)
    | Finishing(items: seq<CallId>, next: nat)
    | Exited

  datatype Outcome = Queued | Delivered | TurnedAway | GaveUp

  datatype Call =
    | Entering(await: bool)
    | Parked(generation: nat)
    | Discarding(dropped: CallId)
    | Awaiting
    | Left(await: bool, outcome: Outcome)
    | Closing
    | Polling(closing: bool)
    | PollParked(closing: bool, generation: nat)
    | PollDone(closing: bool, ok: bool)

  datatype Removal = Dropped(item: CallId) | Taken(item: CallId)

  /** What a finalizer produced; None when it panicked. */
  datatype Finalized = Finalized(item: CallId, result: Option<seq<Event>>)

  /** `appended`, `removed`, `finalized` and `sent` are histories; `sent` has one entry
      for each send that was started. `done` holds the items whose channel is closed. */
  datatype State = State(
    queue: Queue<CallId>,
    workers: seq<Worker>,
    calls: map<CallId, Call>,
    done: set<CallId>,
    appended: seq<CallId>,
    removed: seq<Removal>,
    finalized: seq<Finalized>,
    sent: seq<seq<Event>>)

  const INITIAL: State := State(NewQueue(), [], map[], {}, [], [], [], [])

  datatype Step =
    | StartEnqueue(t: CallId, await: bool)
    | EnqueueLock(t: CallId)
    | EnqueueWake(t: CallId)
    | EnqueueGiveUp(t: CallId)
    | FinishDropped(t: CallId)
    | SeeDone(t: CallId)
    | StartFlush(t: CallId)
    | StartClose(t: CallId)
    | CloseLock(t: CallId)
    | Poll(t: CallId)
    | PollWake(t: CallId)
    | PollGiveUp(t: CallId)
    | WorkerLock(w: nat)
    | Finalize(w: nat, result: Option<seq<Event>>)
    | StartSend(w: nat)
    | SendReturns(w: nat)
    | Finish(w: nat)
    | WorkerNotify(w: nat)

  predicate Enabled(s: State, step: Step) {
    match step
    case StartEnqueue(t, _) => t !in s.calls
    case EnqueueLock(t) => t in s.calls && s.calls[t].Entering?
    case EnqueueWake(t) => t in s.calls && s.calls[t].Parked? && s.calls[t].generation < s.queue.generation
    case EnqueueGiveUp(t) => t in s.calls && (s.calls[t].Parked? || s.calls[t].Awaiting?)
    case FinishDropped(t) => t in s.calls && s.calls[t].Discarding?
    case SeeDone(t) => t in s.calls && s.calls[t].Awaiting? && t in s.done
    case StartFlush(t) => t !in s.calls
    case StartClose(t) => t !in s.calls
    case CloseLock(t) => t in s.calls && s.calls[t].Closing?
    case Poll(t) => t in s.calls && s.calls[t].Polling?
    case PollWake(t) => t in s.calls && s.calls[t].PollParked? && s.calls[t].generation < s.queue.generation
    case PollGiveUp(t) => t in s.calls && s.calls[t].PollParked?
    case WorkerLock(w) => w < |s.workers| && s.workers[w].AtTop?
    case Finalize(w, _) =>
      w < |s.workers| && s.workers[w].Finalizing? && s.workers[w].next < |s.workers[w].items|
    case StartSend(w) =>
      w < |s.workers| && s.workers[w].Finalizing? && s.workers[w].next >= |s.workers[w].items|
    case SendReturns(w) => w < |s.workers| && s.workers[w].Sending?
    case Finish(w) =>
      w < |s.workers| && s.workers[w].Finishing? && s.workers[w].next < |s.workers[w].items|
    case WorkerNotify(w) =>
      w < |s.workers| && s.workers[w].Finishing? && s.workers[w].next >= |s.workers[w].items|
  }

  function Apply(s: State, step: Step): State
    requires Enabled(s, step)
  {
    match step
    case StartEnqueue(t, await) => SetCall(s, t, Entering(await))
    case EnqueueLock(t) => ApplyEnqueue(s, t, s.calls[t].await)
    case EnqueueWake(t) => SetCall(s, t, Entering(true))
    case EnqueueGiveUp(t) => SetCall(s, t, Left(true, GaveUp))
    case FinishDropped(t) =>
      SetCall(s.(done := s.done + {s.calls[t].dropped}), t, Left(false, Queued))
    case SeeDone(t) => SetCall(s, t, Left(true, Delivered))
    case StartFlush(t) => SetCall(s, t, Polling(false))
    case StartClose(t) => SetCall(s, t, Closing)
    case CloseLock(t) => SetCall(s.(queue := StopAccepting(s.queue)), t, Polling(true))
    case Poll(t) =>
      var closing := s.calls[t].closing;
      SetCall(s, t, if Idle(s.queue) then PollDone(closing, true) else PollParked(closing, s.queue.generation))
    case PollWake(t) => SetCall(s, t, Polling(s.calls[t].closing))
    case PollGiveUp(t) => SetCall(s, t, PollDone(s.calls[t].closing, false))
    case WorkerLock(w) =>
      var (queue', items) := TakeBatch(s.queue);
      SetWorker(
        s.(queue := queue', removed := s.removed + AllTaken(items)),
        w, if items == [] then Exited else Finalizing(items, 0, []))
    case Finalize(w, result) =>
      var worker := s.workers[w];
      var events := if result.Some? then worker.events + result.value else worker.events;
      SetWorker(
        s.(finalized := s.finalized + [Finalized(worker.items[worker.next], result)]),
        w, Finalizing(worker.items, worker.next + 1, events))
    case StartSend(w) =>
      var worker := s.workers[w];
      if worker.events == [] then SetWorker(s, w, Finishing(worker.items, 0))
      else SetWorker(s.(sent := s.sent + [worker.events]), w, Sending(worker.items))
    case SendReturns(w) => SetWorker(s, w, Finishing(s.workers[w].items, 0))
    case Finish(w) =>
      var worker := s.workers[w];
      SetWorker(s.(done := s.done + {worker.items[worker.next]}), w, worker.(next := worker.next + 1))
    case WorkerNotify(w) => SetWorker(s.(queue := Notify(s.queue)), w, AtTop)
  }

  function SetCall(s: State, t: CallId, call: Call): State {
    s.(calls := s.calls[t := call])
  }

  function SetWorker(s: State, w: nat, worker: Worker): State
    requires w < |s.workers|
  {
    s.(workers := s.workers[w := worker])
  }

  /** Everything enqueue does before it lets go of the lock, and the first move after. */
  function ApplyEnqueue(s: State, t: CallId, await: bool): State {
    var (queue', admission) := Admit(s.queue, t, await);
    match admission
    case MustWait(generation) => SetCall(s, t, Parked(generation))
    case Refused => SetCall(s, t, Left(await, TurnedAway))
    case Admitted(dropped, _, spawn) =>
      SetCall(
        s.(queue := queue',
           appended := s.appended + [t],
           removed := if dropped.Some? then s.removed + [Dropped(dropped.value)] else s.removed,
           workers := if spawn then s.workers + [AtTop] else s.workers),
        t,
        if dropped.Some? then Discarding(dropped.value)
        else if await then Awaiting
        else Left(false, Queued))
  }

  // ----- What the histories say -----

  function AllTaken(items: seq<CallId>): (r: seq<Removal>)
    ensures |r| == |items| && forall k :: 0 <= k < |r| ==> r[k] == Taken(items[k])
  {
    seq(|items|, k requires 0 <= k < |items| => Taken(items[k]))
  }

  /** The items of a removal history, oldest removal first. */
  function Items(removed: seq<Removal>): seq<CallId> {
    if removed == [] then []
    else Items(removed[..|removed| - 1]) + [removed[|removed| - 1].item]
  }

  /** The items that went to a worker, in the order in which they were taken. */
  function TakenItems(removed: seq<Removal>): seq<CallId> {
    if removed == [] then []
    else
      var last := removed[|removed| - 1];
      TakenItems(removed[..|removed| - 1]) + if last.Taken? then [last.item] else []
  }

  function FinalizedItems(finalized: seq<Finalized>): seq<CallId> {
    if finalized == [] then []
    else FinalizedItems(finalized[..|finalized| - 1]) + [finalized[|finalized| - 1].item]
  }

  /** Everything the finalizers produced, in order; a panicking one contributes nothing. */
  function Produced(finalized: seq<Finalized>): seq<Event> {
    if finalized == [] then []
    else
      var last := finalized[|finalized| - 1];
      Produced(finalized[..|finalized| - 1]) + if last.result.Some? then last.result.value else []
  }

  function Flatten(batches: seq<seq<Event>>): seq<Event> {
    if batches == [] then [] else Flatten(batches[..|batches| - 1]) + batches[|batches| - 1]
  }

  lemma TakenItemsNext(removed: seq<Removal>, item: CallId)
    ensures TakenItems(removed + [Taken(item)]) == TakenItems(removed) + [item]
  {
    assert (removed + [Taken(item)])[..|removed|] == removed;
  }

  lemma AllTakenNext(items: seq<CallId>, n: nat)
    requires n == |items| - 1
    ensures AllTaken(items) == AllTaken(items[..n]) + [Taken(items[n])]
  {
  }

  lemma {:induction false} TakenItemsAppend(removed: seq<Removal>, items: seq<CallId>)
    ensures TakenItems(removed + AllTaken(items)) == TakenItems(removed) + items
    decreases |items|
  {
    hide TakenItems, AllTaken;
    if items == [] {
      assert removed + AllTaken(items) == removed;
    } else {
      var n := |items| - 1;
      var front := items[..n];
      TakenItemsAppend(removed, front);
      AllTakenNext(items, n);
      assert removed + AllTaken(items) == (removed + AllTaken(front)) + [Taken(items[n])];
      TakenItemsNext(removed + AllTaken(front), items[n]);
      assert items == front + [items[n]];
    }
  }

  lemma {:induction false} ItemsAppend(removed: seq<Removal>, more: seq<Removal>, items: seq<CallId>)
    requires |more| == |items| && forall k :: 0 <= k < |more| ==> more[k].item == items[k]
    ensures Items(removed + more) == Items(removed) + items
  {
    if more == [] {
      assert removed + more == removed;
    } else {
      var n := |more| - 1;
      ItemsAppend(removed, more[..n], items[..n]);
      assert (removed + more)[..|removed| + n] == removed + more[..n];
      assert items[..n] + [items[n]] == items;
    }
  }

  lemma {:induction false} TakenItemsHas(removed: seq<Removal>, x: CallId)
    ensures x in TakenItems(removed) <==> Taken(x) in removed
  {
    if removed != [] {
      var front := removed[..|removed| - 1];
      TakenItemsHas(front, x);
      assert removed == front + [removed[|removed| - 1]];
    }
  }

  // ----- The invariant -----

  /** The newest worker: the only one that may still be running. */
  function Live(s: State): Worker {
    if s.workers == [] then Exited else s.workers[|s.workers| - 1]
  }

  /** Items of the current batch whose done channel the worker has yet to close. */
  function Unfinished(worker: Worker): seq<CallId> {
    match worker
    case Finalizing(items, _, _) => items
    case Sending(items) => items
    case Finishing(items, next) => if next <= |items| then items[next..] else []
    case _ => []
  }

  function NotFinalized(worker: Worker): seq<CallId> {
    if worker.Finalizing? && worker.next <= |worker.items| then worker.items[worker.next..] else []
  }

  function Unsent(worker: Worker): seq<Event> {
    if worker.Finalizing? then worker.events else []
  }

  predicate WorkerOk(worker: Worker) {
    match worker
    case Finalizing(items, next, _) => 1 <= |items| <= BATCH_SIZE && next <= |items|
    case Sending(items) => 1 <= |items| <= BATCH_SIZE
    case Finishing(items, next) => 1 <= |items| <= BATCH_SIZE && next <= |items|
    case _ => true
  }

  /** At most one worker runs, it runs exactly when `running` says so, and items wait
      only while it runs. */
  ghost predicate OneWorker(workers: seq<Worker>, live: Worker, queue: Queue<CallId>) {
    && (forall k :: 0 <= k < |workers| - 1 ==> workers[k].Exited?)
    && (queue.running <==> !live.Exited?)
    && (!queue.running ==> queue.pending == [])
    && WorkerOk(live)
  }

  ghost predicate Fifo(appended: seq<CallId>, removed: seq<Removal>, pending: seq<CallId>) {
    && |pending| <= CAPACITY
    && Distinct(appended)
    && appended == Items(removed) + pending
  }

  ghost predicate Pipeline(taken: seq<CallId>, finalized: seq<Finalized>, sent: seq<seq<Event>>, live: Worker) {
    && taken == FinalizedItems(finalized) + NotFinalized(live)
    && Produced(finalized) == Flatten(sent) + Unsent(live)
  }

  /** Taken items that are finished with: all but the unfinished part of the batch. */
  function Settled(taken: seq<CallId>, unfinished: seq<CallId>): seq<CallId> {
    if |taken| >= |unfinished| then taken[..|taken| - |unfinished|] else []
  }

  ghost predicate DoneOk(removed: seq<Removal>, unfinished: seq<CallId>, done: set<CallId>) {
    var taken := TakenItems(removed);
    && taken == Settled(taken, unfinished) + unfinished
    && (forall x :: x in Settled(taken, unfinished) ==> x in done)
    && (forall x :: x in done ==> x in Settled(taken, unfinished) || Dropped(x) in removed)
  }

  predicate Full(q: Queue<CallId>) {
    q.accepting && |q.pending| >= CAPACITY
  }

  ghost predicate CallOk(s: State, t: CallId, call: Call) {
    match call
    case Entering(_) => t !in s.appended
    case Parked(g) =>
      t !in s.appended && g <= s.queue.generation && (g == s.queue.generation ==> Full(s.queue))
    case Discarding(dropped) => t in s.appended && Dropped(dropped) in s.removed
    case Awaiting => t in s.appended
    case Left(await, outcome) =>
      && (outcome == Queued ==> !await && t in s.appended)
      && (outcome == Delivered ==> await && t in s.appended && t in s.done)
    case Closing => true
    case Polling(closing) => closing ==> !s.queue.accepting
    case PollParked(closing, g) =>
      && (closing ==> !s.queue.accepting)
      && g <= s.queue.generation && (g == s.queue.generation ==> !Idle(s.queue))
    case PollDone(closing, ok) => closing ==> !s.queue.accepting && (ok ==> Idle(s.queue))
  }

  ghost predicate CallsOk(s: State) {
    && (forall t :: t in s.calls ==> CallOk(s, t, s.calls[t]))
    && (forall t :: t in s.appended ==> t in s.calls)
  }

  predicate Background(call: Call) {
    match call
    case Entering(await) => !await
    case Discarding(_) => true
    case Left(await, _) => !await
    case _ => false
  }

  ghost predicate AwaitOnly(s: State) {
    forall t :: t in s.calls ==> !Background(s.calls[t])
  }

  ghost predicate DropsNeedBackground(s: State) {
    AwaitOnly(s) ==> forall r :: r in s.removed ==> r.Taken?
  }

  ghost predicate Histories(s: State) {
    && OneWorker(s.workers, Live(s), s.queue)
    && Fifo(s.appended, s.removed, s.queue.pending)
    && Pipeline(TakenItems(s.removed), s.finalized, s.sent, Live(s))
    && DoneOk(s.removed, Unfinished(Live(s)), s.done)
  }

  ghost predicate Inv(s: State) {
    Histories(s) && CallsOk(s) && DropsNeedBackground(s)
  }

  // ----- Every step keeps the invariant -----

  /** What one step may change as far as the other calls can see. The third line is the
      wake-up discipline: what a waiter looks at never changes within a generation. */
  ghost predicate Advances(s: State, s': State) {
    && s.queue.generation <= s'.queue.generation
    && s.done <= s'.done
    && (s'.queue.generation == s.queue.generation ==>
          s'.queue.pending == s.queue.pending && s'.queue.running == s.queue.running
          && s'.queue.accepting == s.queue.accepting)
    && (!s.queue.accepting ==> !s'.queue.accepting)
    && (!s.queue.accepting && Idle(s.queue) ==> Idle(s'.queue))
    && s.removed <= s'.removed
    && s.appended <= s'.appended
  }

  lemma OtherCallsKept(s: State, s': State, t: CallId, call: Call)
    requires CallsOk(s) && Advances(s, s')
    requires s'.calls == s.calls[t := call]
    requires s'.appended == s.appended || s'.appended == s.appended + [t]
    requires CallOk(s', t, call)
    ensures CallsOk(s')
  {
    assert forall r :: r in s.removed ==> r in s'.removed;
    forall u | u in s'.calls
      ensures CallOk(s', u, s'.calls[u])
    {
      if u != t {
        assert CallOk(s, u, s.calls[u]);
      }
    }
  }

  lemma CallsKept(s: State, s': State)
    requires CallsOk(s) && Advances(s, s')
    requires s'.calls == s.calls && s'.appended == s.appended
    ensures CallsOk(s')
  {
    assert forall r :: r in s.removed ==> r in s'.removed;
    forall u | u in s'.calls
      ensures CallOk(s', u, s'.calls[u])
    {
      assert CallOk(s, u, s.calls[u]);
    }
  }

  lemma InitialHolds()
    ensures Inv(INITIAL)
  {
  }

  /** A worker step, which leaves the calls alone. */
  lemma WorkerStepKeeps(s: State, s': State, items: seq<CallId>)
    requires Inv(s) && Histories(s') && Advances(s, s')
    requires s'.calls == s.calls && s'.appended == s.appended
    requires s'.removed == s.removed + AllTaken(items)
    ensures Inv(s')
  {
    CallsKept(s, s');
  }

  lemma LiveOnly(s: State, w: nat)
    requires Inv(s) && w < |s.workers| && !s.workers[w].Exited?
    ensures w == |s.workers| - 1 && s.workers[w] == Live(s)
  {
    hide Fifo, Pipeline, DoneOk, CallsOk, DropsNeedBackground, WorkerOk;
  }

  lemma LockKeeps(s: State, w: nat)
    requires Inv(s) && Enabled(s, WorkerLock(w))
    ensures Inv(Apply(s, WorkerLock(w)))
    ensures Advances(s, Apply(s, WorkerLock(w)))
  {
    hide Fifo, Pipeline, DoneOk, CallsOk, DropsNeedBackground;
    LiveOnly(s, w);
    LockHistories(s, w);
    LockAdvances(s, w);
    hide Apply, Histories, Advances;
    WorkerStepKeeps(s, Apply(s, WorkerLock(w)), TakeBatch(s.queue).1);
  }

  lemma LockHistories(s: State, w: nat)
    requires Histories(s) && Enabled(s, WorkerLock(w)) && w == |s.workers| - 1 && Live(s) == AtTop
    ensures Histories(Apply(s, WorkerLock(w)))
  {
    hide Fifo, Pipeline, DoneOk, AllTaken;
    var items := TakeBatch(s.queue).1;
    FifoTake(s.appended, s.removed, s.queue.pending, |items|);
    PipelineTake(s.removed, s.finalized, s.sent, items);
    DoneTake(s.removed, s.done, items);
  }

  lemma LockAdvances(s: State, w: nat)
    requires Enabled(s, WorkerLock(w)) && s.queue.running
    ensures var s' := Apply(s, WorkerLock(w));
      && Advances(s, s') && s'.calls == s.calls && s'.appended == s.appended
      && s'.removed == s.removed + AllTaken(TakeBatch(s.queue).1)
  {
    hide AllTaken;
  }

  lemma FifoTake(appended: seq<CallId>, removed: seq<Removal>, pending: seq<CallId>, n: nat)
    requires n <= |pending| && Fifo(appended, removed, pending)
    ensures Fifo(appended, removed + AllTaken(pending[..n]), pending[n..])
  {
    ItemsAppend(removed, AllTaken(pending[..n]), pending[..n]);
    assert pending == pending[..n] + pending[n..];
  }

  lemma PipelineTake(removed: seq<Removal>, finalized: seq<Finalized>, sent: seq<seq<Event>>, items: seq<CallId>)
    requires Pipeline(TakenItems(removed), finalized, sent, AtTop)
    ensures Pipeline(TakenItems(removed + AllTaken(items)), finalized, sent,
                     if items == [] then Exited else Finalizing(items, 0, []))
  {
    TakenItemsAppend(removed, items);
  }

  lemma DoneTake(removed: seq<Removal>, done: set<CallId>, items: seq<CallId>)
    requires DoneOk(removed, [], done)
    ensures DoneOk(removed + AllTaken(items), items, done)
  {
    TakenItemsAppend(removed, items);
    assert Settled(TakenItems(removed) + items, items) == Settled(TakenItems(removed), []);
  }

  lemma FinalizeKeeps(s: State, w: nat, result: Option<seq<Event>>)
    requires Inv(s) && Enabled(s, Finalize(w, result))
    ensures Inv(Apply(s, Finalize(w, result)))
    ensures Advances(s, Apply(s, Finalize(w, result)))
  {
    hide Fifo, Pipeline, DoneOk, CallsOk, DropsNeedBackground;
    LiveOnly(s, w);
    var s' := Apply(s, Finalize(w, result));
    PipelineFinalize(TakenItems(s.removed), s.finalized, s.sent, Live(s), result);
    WorkerStepKeeps(s, s', []);
  }

  lemma PipelineFinalize(taken: seq<CallId>, finalized: seq<Finalized>, sent: seq<seq<Event>>, live: Worker, result: Option<seq<Event>>)
    requires live.Finalizing? && live.next < |live.items|
    requires Pipeline(taken, finalized, sent, live)
    ensures Pipeline(taken, finalized + [Finalized(live.items[live.next], result)], sent,
                     Finalizing(live.items, live.next + 1,
                                if result.Some? then live.events + result.value else live.events))
  {
    hide FinalizedItems, Produced, Flatten;
    var f := Finalized(live.items[live.next], result);
    FinalizedAdvance(taken, finalized, live.items, live.next, f);
    ProducedAdvance(finalized, sent, live.events, f);
  }

  lemma FinalizedAdvance(taken: seq<CallId>, finalized: seq<Finalized>, items: seq<CallId>, next: nat, f: Finalized)
    requires next < |items| && f.item == items[next]
    requires taken == FinalizedItems(finalized) + items[next..]
    ensures taken == FinalizedItems(finalized + [f]) + items[next + 1..]
  {
    assert (finalized + [f])[..|finalized|] == finalized;
    assert items[next..] == [f.item] + items[next + 1..];
  }

  lemma ProducedAdvance(finalized: seq<Finalized>, sent: seq<seq<Event>>, events: seq<Event>, f: Finalized)
    requires Produced(finalized) == Flatten(sent) + events
    ensures Produced(finalized + [f]) == Flatten(sent) + if f.result.Some? then events + f.result.value else events
  {
    assert (finalized + [f])[..|finalized|] == finalized;
  }

  lemma SendKeeps(s: State, w: nat)
    requires Inv(s) && Enabled(s, StartSend(w))
    ensures Inv(Apply(s, StartSend(w)))
    ensures Advances(s, Apply(s, StartSend(w)))
  {
    hide Fifo, Pipeline, DoneOk, CallsOk, DropsNeedBackground;
    LiveOnly(s, w);
    PipelineSend(TakenItems(s.removed), s.finalized, s.sent, Live(s));
    WorkerStepKeeps(s, Apply(s, StartSend(w)), []);
  }

  lemma PipelineSend(taken: seq<CallId>, finalized: seq<Finalized>, sent: seq<seq<Event>>, live: Worker)
    requires live.Finalizing? && live.next == |live.items|
    requires Pipeline(taken, finalized, sent, live)
    ensures live.events == [] ==> Pipeline(taken, finalized, sent, Finishing(live.items, 0))
    ensures Pipeline(taken, finalized, sent + [live.events], Sending(live.items))
  {
    assert (sent + [live.events])[..|sent|] == sent;
  }

  lemma FinishKeeps(s: State, w: nat)
    requires Inv(s) && Enabled(s, Finish(w))
    ensures Inv(Apply(s, Finish(w)))
    ensures Advances(s, Apply(s, Finish(w)))
  {
    hide Fifo, Pipeline, DoneOk, CallsOk, DropsNeedBackground;
    LiveOnly(s, w);
    var Finishing(items, next) := Live(s);
    assert items[next..] == [items[next]] + items[next + 1..];
    DoneFinish(s.removed, s.done, items[next], items[next + 1..]);
    PipelineFinishing(TakenItems(s.removed), s.finalized, s.sent, Live(s), Finishing(items, next + 1));
    WorkerStepKeeps(s, Apply(s, Finish(w)), []);
  }

  lemma DoneFinish(removed: seq<Removal>, done: set<CallId>, item: CallId, rest: seq<CallId>)
    requires DoneOk(removed, [item] + rest, done)
    ensures DoneOk(removed, rest, done + {item})
  {
    var taken := TakenItems(removed);
    assert taken == Settled(taken, [item] + rest) + [item] + rest;
    assert Settled(taken, rest) == Settled(taken, [item] + rest) + [item];
  }

  /** Past the send the pipeline only depends on what has been produced. */
  lemma PipelineFinishing(taken: seq<CallId>, finalized: seq<Finalized>, sent: seq<seq<Event>>, live: Worker, live': Worker)
    requires !live.Finalizing? && !live'.Finalizing?
    requires Pipeline(taken, finalized, sent, live)
    ensures Pipeline(taken, finalized, sent, live')
  {
  }

  lemma SendReturnsKeeps(s: State, w: nat)
    requires Inv(s) && Enabled(s, SendReturns(w))
    ensures Inv(Apply(s, SendReturns(w))) && Advances(s, Apply(s, SendReturns(w)))
  {
    hide Fifo, Pipeline, DoneOk, CallsOk, DropsNeedBackground;
    LiveOnly(s, w);
    PipelineFinishing(TakenItems(s.removed), s.finalized, s.sent, Live(s), Finishing(Live(s).items, 0));
    WorkerStepKeeps(s, Apply(s, SendReturns(w)), []);
  }

  lemma NotifyKeeps(s: State, w: nat)
    requires Inv(s) && Enabled(s, WorkerNotify(w))
    ensures Inv(Apply(s, WorkerNotify(w))) && Advances(s, Apply(s, WorkerNotify(w)))
  {
    hide Fifo, Pipeline, DoneOk, CallsOk, DropsNeedBackground;
    LiveOnly(s, w);
    assert Unfinished(Live(s)) == [];
    PipelineFinishing(TakenItems(s.removed), s.finalized, s.sent, Live(s), AtTop);
    WorkerStepKeeps(s, Apply(s, WorkerNotify(w)), []);
  }

  /** A step of call t. Whether a call runs in the background never changes, so a run
      that is await-only after the step was await-only before. */
  lemma CallStepKeeps(s: State, s': State, t: CallId)
    requires Inv(s) && Histories(s') && Advances(s, s')
    requires t in s'.calls && s'.calls == s.calls[t := s'.calls[t]]
    requires t in s.calls && Background(s.calls[t]) ==> Background(s'.calls[t])
    requires s'.appended == s.appended || s'.appended == s.appended + [t]
    requires CallOk(s', t, s'.calls[t])
    requires s'.removed == s.removed || Background(s'.calls[t])
    ensures Inv(s')
  {
    OtherCallsKept(s, s', t, s'.calls[t]);
    if AwaitOnly(s') {
      forall u | u in s.calls
        ensures !Background(s.calls[u])
      {
        assert !Background(s'.calls[u]);
      }
    }
  }

  lemma EnqueueKeeps(s: State, t: CallId)
    requires Inv(s) && Enabled(s, EnqueueLock(t))
    ensures Inv(Apply(s, EnqueueLock(t)))
    ensures Advances(s, Apply(s, EnqueueLock(t)))
  {
    hide Fifo, Pipeline, DoneOk, OneWorker, DropsNeedBackground;
    var await := s.calls[t].await;
    assert CallOk(s, t, s.calls[t]);
    hide CallsOk;
    if Admit(s.queue, t, await).1.Admitted? {
      AppendKeeps(s, t, await);
      AppendAdvances(s, t, await);
    } else {
      hide Admit;
      TurnAwayAdvances(s, t, await);
    }
    hide Histories, Advances, Admit, ApplyEnqueue;
    CallStepKeeps(s, Apply(s, EnqueueLock(t)), t);
  }

  /** What a step of call t that appends its item looks like from outside. */
  lemma AppendAdvances(s: State, t: CallId, await: bool)
    requires Histories(s) && t in s.calls && s.calls[t] == Entering(await) && Admit(s.queue, t, await).1.Admitted?
    ensures var s' := ApplyEnqueue(s, t, await);
      && Advances(s, s') && s'.calls == s.calls[t := s'.calls[t]] && s'.appended == s.appended + [t]
      && CallOk(s', t, s'.calls[t]) && (s'.removed == s.removed || Background(s'.calls[t]))
      && (Background(s.calls[t]) ==> Background(s'.calls[t]))
  {
    hide Fifo, Pipeline, DoneOk, OneWorker;
  }

  lemma TurnAwayAdvances(s: State, t: CallId, await: bool)
    requires Histories(s) && t in s.calls && s.calls[t] == Entering(await) && !Admit(s.queue, t, await).1.Admitted?
    requires CallOk(s, t, s.calls[t])
    ensures var s' := ApplyEnqueue(s, t, await);
      && Histories(s') && Advances(s, s') && s'.calls == s.calls[t := s'.calls[t]] && s'.appended == s.appended
      && CallOk(s', t, s'.calls[t]) && s'.removed == s.removed
      && (Background(s.calls[t]) ==> Background(s'.calls[t]))
  {
    hide Fifo, Pipeline, DoneOk, OneWorker;
  }

  /** What an admitted item changes. */
  lemma AppendApplies(s: State, t: CallId, await: bool)
    requires Admit(s.queue, t, await).1.Admitted?
    ensures var s' := ApplyEnqueue(s, t, await);
      var overflow := !await && |s.queue.pending| >= CAPACITY;
      && s'.appended == s.appended + [t] && s'.finalized == s.finalized && s'.sent == s.sent && s'.done == s.done
      && s'.removed == (if overflow then s.removed + [Dropped(s.queue.pending[0])] else s.removed)
      && s'.queue.pending == (if overflow then s.queue.pending[1..] else s.queue.pending) + [t]
      && (overflow || |s.queue.pending| < CAPACITY)
      && s'.queue.running
      && s'.workers == (if s.queue.running then s.workers else s.workers + [AtTop])
  {
  }

  lemma WorkerStarts(workers: seq<Worker>, live: Worker, queue: Queue<CallId>, workers': seq<Worker>, live': Worker, queue': Queue<CallId>)
    requires OneWorker(workers, live, queue) && queue'.running
    requires live == if workers == [] then Exited else workers[|workers| - 1]
    requires workers' == if queue.running then workers else workers + [AtTop]
    requires live' == if workers' == [] then Exited else workers'[|workers'| - 1]
    ensures OneWorker(workers', live', queue')
    ensures live' == live || (live == Exited && live' == AtTop)
  {
  }

  lemma FifoAdmits(appended: seq<CallId>, removed: seq<Removal>, pending: seq<CallId>, unfinished: seq<CallId>, done: set<CallId>, t: CallId, overflow: bool)
    requires Fifo(appended, removed, pending) && DoneOk(removed, unfinished, done) && t !in appended
    requires if overflow then |pending| > 0 else |pending| < CAPACITY
    ensures var removed' := if overflow then removed + [Dropped(pending[0])] else removed;
      && Fifo(appended + [t], removed', (if overflow then pending[1..] else pending) + [t])
      && TakenItems(removed') == TakenItems(removed)
      && DoneOk(removed', unfinished, done)
  {
    hide Fifo, DoneOk, TakenItems;
    if overflow {
      DropKeeps(appended, removed, pending, unfinished, done);
      FifoAppend(appended, removed + [Dropped(pending[0])], pending[1..], t);
    } else {
      FifoAppend(appended, removed, pending, t);
    }
  }

  lemma AppendKeeps(s: State, t: CallId, await: bool)
    requires Histories(s) && t !in s.appended && Admit(s.queue, t, await).1.Admitted?
    ensures Histories(ApplyEnqueue(s, t, await))
  {
    AppendApplies(s, t, await);
    hide Fifo, Pipeline, DoneOk, OneWorker, ApplyEnqueue, Admit, TakenItems;
    var s' := ApplyEnqueue(s, t, await);
    WorkerStarts(s.workers, Live(s), s.queue, s'.workers, Live(s'), s'.queue);
    FifoAdmits(s.appended, s.removed, s.queue.pending, Unfinished(Live(s)), s.done, t, !await && |s.queue.pending| >= CAPACITY);
    if Live(s) != Live(s') {
      PipelineFinishing(TakenItems(s.removed), s.finalized, s.sent, Live(s), Live(s'));
    }
  }

  lemma DropKeeps(appended: seq<CallId>, removed: seq<Removal>, pending: seq<CallId>, unfinished: seq<CallId>, done: set<CallId>)
    requires |pending| > 0 && Fifo(appended, removed, pending) && DoneOk(removed, unfinished, done)
    ensures Fifo(appended, removed + [Dropped(pending[0])], pending[1..]) && |pending| <= CAPACITY
    ensures TakenItems(removed + [Dropped(pending[0])]) == TakenItems(removed)
    ensures DoneOk(removed + [Dropped(pending[0])], unfinished, done)
  {
    var removed' := removed + [Dropped(pending[0])];
    assert removed'[..|removed|] == removed;
    assert Items(removed') == Items(removed) + [pending[0]];
    assert pending == [pending[0]] + pending[1..];
  }

  lemma FifoAppend(appended: seq<CallId>, removed: seq<Removal>, pending: seq<CallId>, t: CallId)
    requires Fifo(appended, removed, pending) && t !in appended && |pending| < CAPACITY
    ensures Fifo(appended + [t], removed, pending + [t])
  {
  }

  /** A step of an enqueue call that touches no history. */
  lemma QuietEnqueueKeeps(s: State, step: Step)
    requires Inv(s) && Enabled(s, step)
    requires step.StartEnqueue? || step.EnqueueWake? || step.EnqueueGiveUp? || step.SeeDone?
    ensures Inv(Apply(s, step)) && Advances(s, Apply(s, step))
  {
    hide Fifo, Pipeline, DoneOk, OneWorker, DropsNeedBackground;
    assert step.t in s.calls ==> CallOk(s, step.t, s.calls[step.t]);
    assert step.t !in s.calls ==> step.t !in s.appended;
    hide CallsOk;
    CallStepKeeps(s, Apply(s, step), step.t);
  }

  /** A step of a flush or close call up to its first look at the queue. */
  lemma QuietStartKeeps(s: State, step: Step)
    requires Inv(s) && Enabled(s, step)
    requires step.StartFlush? || step.StartClose? || step.PollWake? || step.PollGiveUp?
    ensures Inv(Apply(s, step)) && Advances(s, Apply(s, step))
  {
    hide Fifo, Pipeline, DoneOk, OneWorker, DropsNeedBackground;
    assert step.t in s.calls ==> CallOk(s, step.t, s.calls[step.t]);
    assert step.t !in s.calls ==> step.t !in s.appended;
    hide CallsOk;
    CallStepKeeps(s, Apply(s, step), step.t);
  }

  lemma LookKeeps(s: State, step: Step)
    requires Inv(s) && Enabled(s, step)
    requires step.CloseLock? || step.Poll?
    ensures Inv(Apply(s, step)) && Advances(s, Apply(s, step))
  {
    hide Fifo, Pipeline, DoneOk, DropsNeedBackground;
    assert CallOk(s, step.t, s.calls[step.t]);
    hide CallsOk;
    CallStepKeeps(s, Apply(s, step), step.t);
  }

  lemma FinishDroppedKeeps(s: State, t: CallId)
    requires Inv(s) && Enabled(s, FinishDropped(t))
    ensures Inv(Apply(s, FinishDropped(t))) && Advances(s, Apply(s, FinishDropped(t)))
  {
    hide Fifo, Pipeline, DoneOk, DropsNeedBackground;
    assert CallOk(s, t, s.calls[t]);
    hide CallsOk;
    DoneDropped(s.removed, Unfinished(Live(s)), s.done, s.calls[t].dropped);
    CallStepKeeps(s, Apply(s, FinishDropped(t)), t);
  }

  lemma DoneDropped(removed: seq<Removal>, unfinished: seq<CallId>, done: set<CallId>, item: CallId)
    requires DoneOk(removed, unfinished, done) && Dropped(item) in removed
    ensures DoneOk(removed, unfinished, done + {item})
  {
  }

  lemma StepKeeps(s: State, step: Step)
    requires Inv(s) && Enabled(s, step)
    ensures Inv(Apply(s, step)) && Advances(s, Apply(s, step))
  {
    hide Inv, Advances, Apply;
    match step
    case EnqueueLock(t) => EnqueueKeeps(s, t);
    case FinishDropped(t) => FinishDroppedKeeps(s, t);
    case WorkerLock(w) => LockKeeps(s, w);
    case Finalize(w, result) => FinalizeKeeps(s, w, result);
    case StartSend(w) => SendKeeps(s, w);
    case Finish(w) => FinishKeeps(s, w);
    case SendReturns(w) => SendReturnsKeeps(s, w);
    case WorkerNotify(w) => NotifyKeeps(s, w);
    case CloseLock(_) => LookKeeps(s, step);
    case Poll(_) => LookKeeps(s, step);
    case StartEnqueue(_, _) => QuietEnqueueKeeps(s, step);
    case EnqueueWake(_) => QuietEnqueueKeeps(s, step);
    case EnqueueGiveUp(_) => QuietEnqueueKeeps(s, step);
    case SeeDone(_) => QuietEnqueueKeeps(s, step);
    case _ => QuietStartKeeps(s, step);
  }
}
