/** The recorder's shutdown: Close racing with reservations, with calls that are being
    registered, completed or cancelled, and with everything the queue does. The queue is
    the whole system of QueueProtocol; one of its steps is one step here. */
module RecorderProtocol {
  import opened Wrappers
  import QP = QueueProtocol
  import QT = QueueTheorems

  type ReservationId = nat

  /** A (session key, request id) pair. */
  type Key = nat

  /** One pass of onBeforeAny. The pending map knows it by its key only. */
  type ToolCall = nat

  /** A reservation from ReserveCapabilityRequest on. It is claimed once it has left
      Unclaimed; Settling is the time between the end of its delivery and inflight.Done. */
  datatype Phase = Unclaimed | Building | Scheduled | Sending | Settling | Discharged

  /** Why a hook removed a call: its completion hooks, or a cancellation callback, which is
      armed by one call and looks the call to remove up by key. */
  datatype Cause = Success | Failure | Abandonment(armedBy: ToolCall)

  /** What the hook that removed a call does with it. */
  datatype Disposition = Undecided | Cleared | Enqueued(t: QP.CallId) | Reserved(r: ReservationId) | Silent

  datatype Fate =
    | Waiting(key: Key)
    | Overwritten
    | Removed(cause: Cause, next: Disposition)
    | Swept

  datatype Closer =
    | Marking
    | ClosingQueue
    | DrainingQueue(t: QP.CallId)
    | FlushingQueue(t: QP.CallId)
    | AwaitingInflight
    | Sweeping(ok: bool, left: set<Key>)
    | Closed(ok: bool)

  /** `inflight` is the WaitGroup counter. `discharged`, `reservedSends` and `keys` are
      histories: an entry for each inflight.Done, for each send on the reserved path, and
      for each accepted registration. */
  datatype State = State(
    q: QP.State,
    closed: bool,
    inflight: int,
    reservations: map<ReservationId, Phase>,
    discharged: seq<ReservationId>,
    reservedSends: seq<ReservationId>,
    pending: map<Key, ToolCall>,
    fates: map<ToolCall, Fate>,
    keys: map<ToolCall, Key>,
    closers: map<nat, Closer>)

  const INITIAL: State := State(QP.INITIAL, false, 0, map[], [], [], map[], map[], map[], map[])

  datatype Step =
    | QueueStep(step: QP.Step)
    | Reserve(r: ReservationId)
    | Release(r: ReservationId)
    | Record(r: ReservationId)
    | BuildEvents(r: ReservationId, some: bool)
    | BuildPanics(r: ReservationId)
    | StartReservedSend(r: ReservationId)
    | ReservedSendReturns(r: ReservationId)
    | Settle(r: ReservationId)
    | Register(key: Key, c: ToolCall)
    | Complete(key: Key, ok: bool)
    | Abandon(a: ToolCall)
    | CheckActive(c: ToolCall)
    | Enqueue(c: ToolCall, t: QP.CallId, await: bool)
    | RecordFor(c: ToolCall, r: ReservationId)
    | StartClose(k: nat)
    | MarkClosed(k: nat)
    | CloseQueue(k: nat, t: QP.CallId)
    | QueueClosed(k: nat, t: QP.CallId)
    | QueueFlushed(k: nat)
    | InflightZero(k: nat)
    | InflightExpires(k: nat)
    | SweepKey(k: nat, key: Key)
    | SweepEnds(k: nat)

  predicate PhaseIs(s: State, r: ReservationId, phase: Phase) {
    r in s.reservations && s.reservations[r] == phase
  }

  predicate Enabled(s: State, step: Step) {
    match step
    case QueueStep(qs) => QP.Enabled(s.q, qs)
    case Reserve(r) => r !in s.reservations
    case Release(r) => r in s.reservations
    case Record(r) => r in s.reservations
    case BuildEvents(r, _) => PhaseIs(s, r, Building)
    case BuildPanics(r) => PhaseIs(s, r, Building)
    case StartReservedSend(r) => PhaseIs(s, r, Scheduled)
    case ReservedSendReturns(r) => PhaseIs(s, r, Sending)
    case Settle(r) => PhaseIs(s, r, Settling)
    case Register(_, c) => c !in s.fates
    case Complete(_, _) => true
    case Abandon(a) => a in s.keys
    case CheckActive(c) =>
      c in s.fates && s.fates[c].Removed? && (s.fates[c].next == Undecided || s.fates[c].next == Cleared)
    case Enqueue(c, t, await) =>
      c in s.fates && s.fates[c].Removed? && s.fates[c].next == Cleared
      && QP.Enabled(s.q, QP.StartEnqueue(t, await))
    case RecordFor(c, r) =>
      c in s.fates && s.fates[c] == Removed(Success, Undecided) && r in s.reservations
    case StartClose(k) => k !in s.closers
    case MarkClosed(k) => k in s.closers && s.closers[k].Marking?
    case CloseQueue(k, t) => k in s.closers && s.closers[k].ClosingQueue? && QP.Enabled(s.q, QP.StartClose(t))
    case QueueClosed(k, t) =>
      && k in s.closers && s.closers[k].DrainingQueue?
      && s.closers[k].t in s.q.calls && s.q.calls[s.closers[k].t].PollDone?
      && QP.Enabled(s.q, QP.StartFlush(t))
    case QueueFlushed(k) =>
      && k in s.closers && s.closers[k].FlushingQueue?
      && s.closers[k].t in s.q.calls && s.q.calls[s.closers[k].t].PollDone?
    case InflightZero(k) => k in s.closers && s.closers[k].AwaitingInflight? && s.inflight == 0
    case InflightExpires(k) => k in s.closers && s.closers[k].AwaitingInflight?
    case SweepKey(k, key) => k in s.closers && s.closers[k].Sweeping? && key in s.closers[k].left
    case SweepEnds(k) => k in s.closers && s.closers[k].Sweeping? && s.closers[k].left == {}
  }

  predicate OfReservation(step: Step) {
    match step
    case Reserve(_) | Release(_) | Record(_) | BuildEvents(_, _) | BuildPanics(_) => true
    case StartReservedSend(_) | ReservedSendReturns(_) | Settle(_) => true
    case _ => false
  }

  predicate OfCall(step: Step) {
    match step
    case Register(_, _) | Complete(_, _) | Abandon(_) | CheckActive(_) | Enqueue(_, _, _) | RecordFor(_, _) => true
    case _ => false
  }

  function Apply(s: State, step: Step): State
    requires Enabled(s, step)
  {
    if OfReservation(step) then ApplyToReservation(s, step)
    else if OfCall(step) then ApplyToCall(s, step)
    else if step.QueueStep? then s.(q := QP.Apply(s.q, step.step))
    else ApplyToCloser(s, step)
  }

  function ApplyToReservation(s: State, step: Step): (s': State)
    requires Enabled(s, step) && OfReservation(step)
    ensures s' == s.(inflight := s'.inflight, reservations := s'.reservations,
                     discharged := s'.discharged, reservedSends := s'.reservedSends)
  {
    match step
    case Reserve(r) =>
      if s.closed then s
      else s.(inflight := s.inflight + 1, reservations := s.reservations[r := Unclaimed])
    case Release(r) => Claim(s, r, Settling)
    case Record(r) => Claim(s, r, Building)
    case BuildEvents(r, some) => SetPhase(s, r, if some then Scheduled else Settling)
    case BuildPanics(r) => SetPhase(s, r, Settling)
    case StartReservedSend(r) => SetPhase(s, r, Sending).(reservedSends := s.reservedSends + [r])
    case ReservedSendReturns(r) => SetPhase(s, r, Settling)
    case Settle(r) =>
      SetPhase(s, r, Discharged).(inflight := s.inflight - 1, discharged := s.discharged + [r])
  }

  function ApplyToCall(s: State, step: Step): (s': State)
    requires Enabled(s, step) && OfCall(step)
    ensures s' == s.(q := s'.q, reservations := s'.reservations, pending := s'.pending, fates := s'.fates, keys := s'.keys)
    ensures !step.Enqueue? ==> s'.q == s.q
    ensures !step.RecordFor? ==> s'.reservations == s.reservations
  {
    match step
    case Register(key, c) =>
      if s.closed then s
      else
        s.(pending := s.pending[key := c],
           keys := s.keys[c := key],
           fates := (if key in s.pending then s.fates[s.pending[key] := Overwritten] else s.fates)[c := Waiting(key)])
    case Complete(key, ok) => RemoveCall(s, key, Removed(if ok then Success else Failure, Undecided))
    case Abandon(a) => RemoveCall(s, s.keys[a], Removed(Abandonment(a), Undecided))
    case CheckActive(c) =>
      s.(fates := s.fates[c := s.fates[c].(next := if s.closed then Silent else Cleared)])
    case Enqueue(c, t, await) =>
      s.(q := QP.Apply(s.q, QP.StartEnqueue(t, await)), fates := s.fates[c := s.fates[c].(next := Enqueued(t))])
    case RecordFor(c, r) =>
      var won := s.reservations[r] == Unclaimed;
      Claim(s, r, Building).(fates := s.fates[c := s.fates[c].(next := if won then Reserved(r) else Silent)])
  }

  function ApplyToCloser(s: State, step: Step): (s': State)
    requires Enabled(s, step) && !OfReservation(step) && !OfCall(step) && !step.QueueStep?
    ensures s' == s.(q := s'.q, closed := s'.closed, pending := s'.pending, fates := s'.fates, closers := s'.closers)
    ensures !step.SweepKey? ==> s'.pending == s.pending && s'.fates == s.fates
    ensures !step.CloseQueue? && !step.QueueClosed? ==> s'.q == s.q
  {
    match step
    case StartClose(k) => SetCloser(s, k, Marking)
    case MarkClosed(k) => SetCloser(s.(closed := true), k, ClosingQueue)
    case CloseQueue(k, t) => SetCloser(s.(q := QP.Apply(s.q, QP.StartClose(t))), k, DrainingQueue(t))
    case QueueClosed(k, t) =>
      if s.q.calls[s.closers[k].t].ok
      then SetCloser(s.(q := QP.Apply(s.q, QP.StartFlush(t))), k, FlushingQueue(t))
      else BeginSweep(s, k, false)
    case QueueFlushed(k) =>
      if s.q.calls[s.closers[k].t].ok then SetCloser(s, k, AwaitingInflight) else BeginSweep(s, k, false)
    case InflightZero(k) => BeginSweep(s, k, true)
    case InflightExpires(k) => BeginSweep(s, k, false)
    case SweepKey(k, key) =>
      RemoveCall(SetCloser(s, k, Sweeping(s.closers[k].ok, s.closers[k].left - {key})), key, Swept)
    case SweepEnds(k) => SetCloser(s, k, Closed(s.closers[k].ok))
  }

  function SetPhase(s: State, r: ReservationId, phase: Phase): State {
    s.(reservations := s.reservations[r := phase])
  }

  /** claimed.CompareAndSwap(false, true): only the first claim has an effect. */
  function Claim(s: State, r: ReservationId, phase: Phase): State
    requires r in s.reservations
  {
    if s.reservations[r] == Unclaimed then SetPhase(s, r, phase) else s
  }

  function SetCloser(s: State, k: nat, closer: Closer): State {
    s.(closers := s.closers[k := closer])
  }

  /** Range visits every key present when it starts; each is then deleted on its own. */
  function BeginSweep(s: State, k: nat, ok: bool): State {
    SetCloser(s, k, Sweeping(ok, s.pending.Keys))
  }

  /** LoadAndDelete. */
  function RemoveCall(s: State, key: Key, fate: Fate): State {
    if key in s.pending
    then s.(pending := s.pending - {key}, fates := s.fates[s.pending[key] := fate])
    else s
  }

  // ----- What a step leaves alone -----

  lemma CallStepApplies(s: State, step: Step)
    requires Enabled(s, step) && OfCall(step)
    ensures Apply(s, step) == ApplyToCall(s, step)
  {
    hide ApplyToReservation, ApplyToCall, ApplyToCloser, QP.Apply, QP.Enabled;
  }

  lemma ReservationStepApplies(s: State, step: Step)
    requires Enabled(s, step) && OfReservation(step)
    ensures Apply(s, step) == ApplyToReservation(s, step)
  {
    hide ApplyToReservation, ApplyToCall, ApplyToCloser, QP.Apply, QP.Enabled;
  }

  lemma SweepStepApplies(s: State, step: Step)
    requires Enabled(s, step) && step.SweepKey?
    ensures Apply(s, step).fates == if step.key in s.pending then s.fates[s.pending[step.key] := Swept] else s.fates
  {
    hide ApplyToReservation, ApplyToCall, QP.Apply, QP.Enabled;
  }

  lemma FatesStay(s: State, step: Step)
    requires Enabled(s, step) && !OfCall(step) && !step.SweepKey?
    ensures Apply(s, step).fates == s.fates
  {
    hide ApplyToReservation, ApplyToCall, ApplyToCloser, QP.Apply, QP.Enabled;
  }

  lemma ReservationsStay(s: State, step: Step)
    requires Enabled(s, step) && !OfReservation(step) && !step.RecordFor?
    ensures Apply(s, step).reservations == s.reservations && Apply(s, step).reservedSends == s.reservedSends
  {
    hide ApplyToReservation, ApplyToCall, ApplyToCloser, QP.Apply, QP.Enabled;
  }

  lemma RecordForApplies(s: State, step: Step)
    requires Enabled(s, step) && step.RecordFor?
    ensures var s' := Apply(s, step);
      && s'.reservations == (if s.reservations[step.r] == Unclaimed then s.reservations[step.r := Building] else s.reservations)
      && s'.reservedSends == s.reservedSends
      && step.c in s'.fates && s'.fates[step.c].Removed?
      && s'.fates[step.c].next == (if s.reservations[step.r] == Unclaimed then Reserved(step.r) else Silent)
  {
    hide ApplyToReservation, ApplyToCloser, QP.Apply, QP.Enabled;
  }

  // ----- The invariant -----

  /** Reservations the recorder still owes an inflight.Done: the unclaimed ones and the
      claimed ones whose delivery has not finished. */
  function Outstanding(reservations: map<ReservationId, Phase>): set<ReservationId> {
    set r | r in reservations && reservations[r] != Discharged
  }

  ghost predicate Accounting(inflight: int, reservations: map<ReservationId, Phase>, discharged: seq<ReservationId>) {
    && inflight == |Outstanding(reservations)|
    && Distinct(discharged)
    && (forall r :: r in discharged <==> r in reservations && reservations[r] == Discharged)
  }

  /** The pending map and the fates agree: a call waits exactly while its key leads to it. */
  ghost predicate PendingOk(pending: map<Key, ToolCall>, fates: map<ToolCall, Fate>) {
    && (forall k :: k in pending ==> pending[k] in fates && fates[pending[k]] == Waiting(k))
    && (forall c :: c in fates && fates[c].Waiting? ==> fates[c].key in pending && pending[fates[c].key] == c)
  }

  /** Calls keep the key they were registered under; a cancellation callback removes only
      calls registered under the key of the call that armed it. */
  ghost predicate KeysOk(fates: map<ToolCall, Fate>, keys: map<ToolCall, Key>) {
    && fates.Keys == keys.Keys
    && (forall c :: c in fates && fates[c].Waiting? ==> keys[c] == fates[c].key)
    && (forall c :: c in fates && fates[c].Removed? && fates[c].cause.Abandonment? ==>
          fates[c].cause.armedBy in keys && keys[fates[c].cause.armedBy] == keys[c])
  }

  predicate Carries(fate: Fate) {
    fate.Removed? && (fate.next.Enqueued? || fate.next.Reserved?)
  }

  /** No queue item and no reservation carries two tool calls. */
  ghost predicate RoutesOk(fates: map<ToolCall, Fate>, calls: set<QP.CallId>, reservations: map<ReservationId, Phase>) {
    && (forall c :: c in fates && fates[c].Removed? && fates[c].next.Enqueued? ==> fates[c].next.t in calls)
    && (forall c :: c in fates && fates[c].Removed? && fates[c].next.Reserved? ==>
          fates[c].next.r in reservations && reservations[fates[c].next.r] != Unclaimed)
    && (forall c, d :: c in fates && d in fates && c != d && Carries(fates[c]) && Carries(fates[d]) ==>
          fates[c].next != fates[d].next)
  }

  predicate IsClose(calls: map<QP.CallId, QP.Call>, t: QP.CallId) {
    t in calls &&
    match calls[t]
    case Closing => true
    case Polling(closing) => closing
    case PollParked(closing, _) => closing
    case PollDone(closing, _) => closing
    case _ => false
  }

  ghost predicate CloserOk(s: State, closer: Closer) {
    match closer
    case Marking => true
    case ClosingQueue => s.closed
    case DrainingQueue(t) => s.closed && IsClose(s.q.calls, t)
    case FlushingQueue(_) => s.closed && QT.ClosedForGood(s.q)
    case AwaitingInflight => s.closed && QT.ClosedForGood(s.q)
    case Sweeping(ok, left) => s.closed && s.pending.Keys <= left && (ok ==> Quiet(s))
    case Closed(ok) => s.closed && s.pending == map[] && (ok ==> Quiet(s))
  }

  /** Nothing is being sent and nothing is left to send. */
  ghost predicate Quiet(s: State) {
    QT.ClosedForGood(s.q) && Outstanding(s.reservations) == {}
  }

  ghost predicate ClosersOk(s: State) {
    forall k :: k in s.closers ==> CloserOk(s, s.closers[k])
  }

  ghost predicate Inv(s: State) {
    && QP.Inv(s.q)
    && Accounting(s.inflight, s.reservations, s.discharged)
    && PendingOk(s.pending, s.fates)
    && KeysOk(s.fates, s.keys)
    && RoutesOk(s.fates, s.q.calls.Keys, s.reservations)
    && ClosersOk(s)
  }

  // ----- Every step keeps the invariant -----

  /** What a step may change as far as a closer can see. */
  ghost predicate Advances(s: State, s': State) {
    && (s.closed ==> s'.closed && s'.pending.Keys <= s.pending.Keys && Outstanding(s'.reservations) <= Outstanding(s.reservations))
    && (QT.ClosedForGood(s.q) ==> QT.ClosedForGood(s'.q))
    && (forall t :: IsClose(s.q.calls, t) ==> IsClose(s'.q.calls, t))
  }

  lemma ClosersKept(s: State, s': State)
    requires ClosersOk(s) && Advances(s, s') && s'.closers == s.closers
    ensures ClosersOk(s')
  {
    forall k | k in s'.closers
      ensures CloserOk(s', s'.closers[k])
    {
      CloserKept(s, s', s.closers[k]);
    }
  }

  lemma CloserKept(s: State, s': State, closer: Closer)
    requires CloserOk(s, closer) && Advances(s, s')
    ensures CloserOk(s', closer)
  {
  }

  lemma CloserStepKeeps(s: State, s': State, k: nat)
    requires ClosersOk(s) && Advances(s, s')
    requires k in s'.closers && s'.closers == s.closers[k := s'.closers[k]] && CloserOk(s', s'.closers[k])
    ensures ClosersOk(s')
  {
    forall j | j in s'.closers && j != k
      ensures CloserOk(s', s'.closers[j])
    {
      CloserKept(s, s', s.closers[j]);
    }
  }

  lemma QueueKeeps(q: QP.State, step: QP.Step)
    requires QP.Inv(q) && QP.Enabled(q, step)
    ensures QP.Inv(QP.Apply(q, step))
    ensures QT.ClosedForGood(q) ==> QT.ClosedForGood(QP.Apply(q, step)) && QP.Apply(q, step).sent == q.sent
    ensures q.calls.Keys <= QP.Apply(q, step).calls.Keys
    ensures forall t :: IsClose(q.calls, t) ==> IsClose(QP.Apply(q, step).calls, t)
  {
    QP.StepKeeps(q, step);
    if QT.ClosedForGood(q) { QT.ClosedStaysClosed(q, step); }
    hide QP.Inv, QP.Advances;
    CloseCallsStay(q, step);
  }

  lemma CloseCallsStay(q: QP.State, step: QP.Step)
    requires QP.Enabled(q, step)
    ensures q.calls.Keys <= QP.Apply(q, step).calls.Keys
    ensures forall t :: IsClose(q.calls, t) ==> IsClose(QP.Apply(q, step).calls, t)
  {
  }

  lemma QueueStepKeeps(s: State, qs: QP.Step)
    requires Inv(s) && QP.Enabled(s.q, qs)
    ensures Inv(Apply(s, QueueStep(qs))) && Advances(s, Apply(s, QueueStep(qs)))
  {
    hide QP.Inv, QP.Apply, QP.Enabled, Accounting, PendingOk, KeysOk, ClosersOk;
    QueueKeeps(s.q, qs);
    ClosersKept(s, Apply(s, QueueStep(qs)));
  }

  /** A phase change that is not a discharge leaves the debt alone. */
  lemma PhaseKeeps(s: State, r: ReservationId, phase: Phase)
    requires Inv(s) && r in s.reservations && s.reservations[r] != Discharged
    requires phase != Discharged && phase != Unclaimed
    ensures Inv(SetPhase(s, r, phase)) && Advances(s, SetPhase(s, r, phase))
  {
    hide QP.Inv, PendingOk, KeysOk, ClosersOk, Accounting;
    assert Outstanding(s.reservations[r := phase]) == Outstanding(s.reservations);
    AccountingPhase(s.inflight, s.reservations, s.discharged, r, phase);
    ClosersKept(s, SetPhase(s, r, phase));
  }

  lemma AccountingPhase(inflight: int, reservations: map<ReservationId, Phase>, discharged: seq<ReservationId>, r: ReservationId, phase: Phase)
    requires Accounting(inflight, reservations, discharged)
    requires r in reservations && reservations[r] != Discharged && phase != Discharged
    ensures Accounting(inflight, reservations[r := phase], discharged)
  {
    assert Outstanding(reservations[r := phase]) == Outstanding(reservations);
  }

  lemma ClaimKeeps(s: State, r: ReservationId, phase: Phase)
    requires Inv(s) && r in s.reservations && (phase == Building || phase == Settling)
    ensures Inv(Claim(s, r, phase)) && Advances(s, Claim(s, r, phase))
  {
    hide QP.Inv, PendingOk, KeysOk, ClosersOk, Accounting, RoutesOk;
    if s.reservations[r] == Unclaimed { PhaseKeeps(s, r, phase); }
  }

  lemma SettleKeeps(s: State, r: ReservationId)
    requires Inv(s) && Enabled(s, Settle(r))
    ensures Inv(Apply(s, Settle(r))) && Advances(s, Apply(s, Settle(r)))
  {
    hide QP.Inv, PendingOk, KeysOk, ClosersOk, Accounting;
    assert Outstanding(s.reservations[r := Discharged]) == Outstanding(s.reservations) - {r};
    AccountingSettle(s.inflight, s.reservations, s.discharged, r);
    ClosersKept(s, Apply(s, Settle(r)));
  }

  lemma AccountingSettle(inflight: int, reservations: map<ReservationId, Phase>, discharged: seq<ReservationId>, r: ReservationId)
    requires Accounting(inflight, reservations, discharged)
    requires r in reservations && reservations[r] != Discharged
    ensures Accounting(inflight - 1, reservations[r := Discharged], discharged + [r])
  {
    assert Outstanding(reservations[r := Discharged]) == Outstanding(reservations) - {r};
  }

  lemma ReserveKeeps(s: State, r: ReservationId)
    requires Inv(s) && Enabled(s, Reserve(r))
    ensures Inv(Apply(s, Reserve(r))) && Advances(s, Apply(s, Reserve(r)))
  {
    hide QP.Inv, PendingOk, KeysOk, ClosersOk, Accounting;
    AccountingReserve(s.inflight, s.reservations, s.discharged, r);
    ClosersKept(s, Apply(s, Reserve(r)));
  }

  lemma AccountingReserve(inflight: int, reservations: map<ReservationId, Phase>, discharged: seq<ReservationId>, r: ReservationId)
    requires Accounting(inflight, reservations, discharged) && r !in reservations
    ensures Accounting(inflight + 1, reservations[r := Unclaimed], discharged)
  {
    assert r !in Outstanding(reservations);
    assert Outstanding(reservations[r := Unclaimed]) == Outstanding(reservations) + {r};
  }

  lemma ReservedSendKeeps(s: State, r: ReservationId)
    requires Inv(s) && Enabled(s, StartReservedSend(r))
    ensures Inv(Apply(s, StartReservedSend(r))) && Advances(s, Apply(s, StartReservedSend(r)))
  {
    hide QP.Inv, PendingOk, KeysOk, RoutesOk, Accounting, ClosersOk;
    PhaseKeeps(s, r, Sending);
    ClosersKept(s, Apply(s, StartReservedSend(r)));
  }

  lemma RegisterKeeps(s: State, key: Key, c: ToolCall)
    requires Inv(s) && Enabled(s, Register(key, c))
    ensures Inv(Apply(s, Register(key, c))) && Advances(s, Apply(s, Register(key, c)))
  {
    hide QP.Inv, Accounting, ClosersOk, PendingOk, RoutesOk, KeysOk;
    if !s.closed {
      PendingRegister(s.pending, s.fates, key, c);
      if key in s.pending {
        PendingNames(s.pending, s.fates, s.keys, key);
        KeysRemove(s.fates, s.keys, s.pending[key], Overwritten);
        KeysRegister(s.fates[s.pending[key] := Overwritten], s.keys, c, key);
        RoutesIdle(s.fates, s.q.calls.Keys, s.reservations, s.pending[key], Overwritten);
        RoutesIdle(s.fates[s.pending[key] := Overwritten], s.q.calls.Keys, s.reservations, c, Waiting(key));
      } else {
        KeysRegister(s.fates, s.keys, c, key);
        RoutesIdle(s.fates, s.q.calls.Keys, s.reservations, c, Waiting(key));
      }
    }
    ClosersKept(s, Apply(s, Register(key, c)));
  }

  lemma PendingNames(pending: map<Key, ToolCall>, fates: map<ToolCall, Fate>, keys: map<ToolCall, Key>, key: Key)
    requires PendingOk(pending, fates) && KeysOk(fates, keys) && key in pending
    ensures pending[key] in fates && fates[pending[key]] == Waiting(key)
    ensures pending[key] in keys && keys[pending[key]] == key
  {
  }

  lemma PendingRegister(pending: map<Key, ToolCall>, fates: map<ToolCall, Fate>, key: Key, c: ToolCall)
    requires PendingOk(pending, fates) && c !in fates
    ensures PendingOk(pending[key := c],
                      (if key in pending then fates[pending[key] := Overwritten] else fates)[c := Waiting(key)])
  {
  }

  lemma PendingRemove(pending: map<Key, ToolCall>, fates: map<ToolCall, Fate>, key: Key, fate: Fate)
    requires PendingOk(pending, fates) && key in pending && !fate.Waiting?
    ensures PendingOk(pending - {key}, fates[pending[key] := fate])
  {
  }

  lemma PendingOther(pending: map<Key, ToolCall>, fates: map<ToolCall, Fate>, c: ToolCall, fate: Fate)
    requires PendingOk(pending, fates) && c in fates && !fates[c].Waiting? && !fate.Waiting?
    ensures PendingOk(pending, fates[c := fate])
  {
  }

  lemma KeysRemove(fates: map<ToolCall, Fate>, keys: map<ToolCall, Key>, c: ToolCall, fate: Fate)
    requires KeysOk(fates, keys) && c in fates && !fate.Waiting?
    requires fate.Removed? && fate.cause.Abandonment? ==> fate.cause.armedBy in keys && keys[fate.cause.armedBy] == keys[c]
    ensures KeysOk(fates[c := fate], keys)
  {
  }

  lemma KeysRegister(fates: map<ToolCall, Fate>, keys: map<ToolCall, Key>, c: ToolCall, key: Key)
    requires KeysOk(fates, keys) && c !in fates
    ensures KeysOk(fates[c := Waiting(key)], keys[c := key])
  {
  }

  /** The next move of the hook that removed a call. */
  lemma KeysNext(fates: map<ToolCall, Fate>, keys: map<ToolCall, Key>, c: ToolCall, next: Disposition)
    requires KeysOk(fates, keys) && c in fates && fates[c].Removed?
    ensures KeysOk(fates[c := fates[c].(next := next)], keys)
  {
  }

  /** A call that carries no item does not disturb the routes. */
  lemma RoutesIdle(fates: map<ToolCall, Fate>, calls: set<QP.CallId>, reservations: map<ReservationId, Phase>, c: ToolCall, fate: Fate)
    requires RoutesOk(fates, calls, reservations) && !Carries(fate)
    ensures RoutesOk(fates[c := fate], calls, reservations)
  {
  }

  lemma RemoveKeeps(s: State, key: Key, fate: Fate)
    requires Inv(s) && (fate == Swept || (fate.Removed? && fate.next == Undecided))
    requires fate.Removed? && fate.cause.Abandonment? ==> fate.cause.armedBy in s.keys && s.keys[fate.cause.armedBy] == key
    ensures Inv(RemoveCall(s, key, fate)) && Advances(s, RemoveCall(s, key, fate))
  {
    hide QP.Inv, Accounting, ClosersOk, PendingOk, RoutesOk, KeysOk;
    if key in s.pending {
      PendingNames(s.pending, s.fates, s.keys, key);
      KeysRemove(s.fates, s.keys, s.pending[key], fate);
      PendingRemove(s.pending, s.fates, key, fate);
      RoutesIdle(s.fates, s.q.calls.Keys, s.reservations, s.pending[key], fate);
    }
    ClosersKept(s, RemoveCall(s, key, fate));
  }

  lemma CheckActiveKeeps(s: State, c: ToolCall)
    requires Inv(s) && Enabled(s, CheckActive(c))
    ensures Inv(Apply(s, CheckActive(c))) && Advances(s, Apply(s, CheckActive(c)))
  {
    hide QP.Inv, Accounting, ClosersOk, PendingOk, RoutesOk, KeysOk;
    var s' := Apply(s, CheckActive(c));
    KeysNext(s.fates, s.keys, c, s'.fates[c].next);
    PendingOther(s.pending, s.fates, c, s'.fates[c]);
    RoutesIdle(s.fates, s.q.calls.Keys, s.reservations, c, s'.fates[c]);
    ClosersKept(s, s');
  }

  lemma EnqueueKeeps(s: State, c: ToolCall, t: QP.CallId, await: bool)
    requires Inv(s) && Enabled(s, Enqueue(c, t, await))
    ensures Inv(Apply(s, Enqueue(c, t, await))) && Advances(s, Apply(s, Enqueue(c, t, await)))
  {
    hide QP.Inv, Accounting, ClosersOk, PendingOk, RoutesOk, KeysOk, QT.ClosedForGood;
    var s' := Apply(s, Enqueue(c, t, await));
    KeysNext(s.fates, s.keys, c, Enqueued(t));
    QueueKeeps(s.q, QP.StartEnqueue(t, await));
    PendingOther(s.pending, s.fates, c, s'.fates[c]);
    assert s'.q.calls.Keys == s.q.calls.Keys + {t};
    RoutesEnqueue(s.fates, s.q.calls.Keys, s.reservations, c, t, s'.fates[c]);
    ClosersKept(s, s');
  }

  lemma RoutesEnqueue(fates: map<ToolCall, Fate>, calls: set<QP.CallId>, reservations: map<ReservationId, Phase>, c: ToolCall, t: QP.CallId, fate: Fate)
    requires RoutesOk(fates, calls, reservations) && t !in calls
    requires fate.Removed? && fate.next == Enqueued(t)
    ensures RoutesOk(fates[c := fate], calls + {t}, reservations)
  {
  }

  lemma RecordForKeeps(s: State, c: ToolCall, r: ReservationId)
    requires Inv(s) && Enabled(s, RecordFor(c, r))
    ensures Inv(Apply(s, RecordFor(c, r))) && Advances(s, Apply(s, RecordFor(c, r)))
  {
    hide QP.Inv, Accounting, ClosersOk, PendingOk, RoutesOk, KeysOk;
    ClaimKeeps(s, r, Building);
    var s' := Apply(s, RecordFor(c, r));
    KeysNext(s.fates, s.keys, c, s'.fates[c].next);
    PendingOther(s.pending, s.fates, c, s'.fates[c]);
    if s.reservations[r] == Unclaimed {
      RoutesReserve(s.fates, s.q.calls.Keys, s.reservations, c, r, s'.fates[c]);
    } else {
      RoutesIdle(s.fates, s.q.calls.Keys, s.reservations, c, s'.fates[c]);
    }
    ClosersKept(s, s');
  }

  lemma RoutesReserve(fates: map<ToolCall, Fate>, calls: set<QP.CallId>, reservations: map<ReservationId, Phase>, c: ToolCall, r: ReservationId, fate: Fate)
    requires RoutesOk(fates, calls, reservations) && r in reservations && reservations[r] == Unclaimed
    requires fate.Removed? && fate.next == Reserved(r)
    ensures RoutesOk(fates[c := fate], calls, reservations[r := Building])
  {
  }

  lemma CloseStepsKeep(s: State, step: Step)
    requires Inv(s) && Enabled(s, step)
    requires step.StartClose? || step.MarkClosed?
    ensures Inv(Apply(s, step)) && Advances(s, Apply(s, step))
  {
    hide QP.Inv, QP.Apply, QP.Enabled, PendingOk, KeysOk, RoutesOk, Accounting, QT.ClosedForGood;
    assert step.k in s.closers ==> CloserOk(s, s.closers[step.k]);
    hide ClosersOk;
    CloserStepKeeps(s, Apply(s, step), step.k);
  }

  lemma SweepEndsKeeps(s: State, step: Step)
    requires Inv(s) && Enabled(s, step)
    requires step.SweepEnds?
    ensures Inv(Apply(s, step)) && Advances(s, Apply(s, step))
  {
    hide QP.Inv, QP.Apply, QP.Enabled, PendingOk, KeysOk, RoutesOk, Accounting, QT.ClosedForGood;
    assert step.k in s.closers ==> CloserOk(s, s.closers[step.k]);
    hide ClosersOk;
    CloserStepKeeps(s, Apply(s, step), step.k);
  }

  lemma WaitsEndKeeps(s: State, step: Step)
    requires Inv(s) && Enabled(s, step)
    requires step.QueueFlushed? || step.InflightExpires?
    ensures Inv(Apply(s, step)) && Advances(s, Apply(s, step))
  {
    hide QP.Inv, QP.Apply, QP.Enabled, PendingOk, KeysOk, RoutesOk, Accounting, QT.ClosedForGood;
    assert step.k in s.closers ==> CloserOk(s, s.closers[step.k]);
    hide ClosersOk;
    CloserStepKeeps(s, Apply(s, step), step.k);
  }

  lemma InflightZeroKeeps(s: State, k: nat)
    requires Inv(s) && Enabled(s, InflightZero(k))
    ensures Inv(Apply(s, InflightZero(k))) && Advances(s, Apply(s, InflightZero(k)))
  {
    hide QP.Inv, PendingOk, KeysOk, RoutesOk, QT.ClosedForGood;
    assert CloserOk(s, s.closers[k]);
    hide ClosersOk;
    assert Outstanding(s.reservations) == {};
    CloserStepKeeps(s, Apply(s, InflightZero(k)), k);
  }

  lemma CloseQueueKeeps(s: State, k: nat, t: QP.CallId)
    requires Inv(s) && Enabled(s, CloseQueue(k, t))
    ensures Inv(Apply(s, CloseQueue(k, t))) && Advances(s, Apply(s, CloseQueue(k, t)))
  {
    hide QP.Inv, PendingOk, KeysOk, Accounting, QT.ClosedForGood, ApplyToReservation, ApplyToCall;
    assert CloserOk(s, s.closers[k]);
    hide ClosersOk;
    QueueKeeps(s.q, QP.StartClose(t));
    CloserStepKeeps(s, Apply(s, CloseQueue(k, t)), k);
  }

  lemma QueueClosedKeeps(s: State, k: nat, t: QP.CallId)
    requires Inv(s) && Enabled(s, QueueClosed(k, t))
    ensures Inv(Apply(s, QueueClosed(k, t))) && Advances(s, Apply(s, QueueClosed(k, t)))
  {
    hide Inv, Advances, Apply, QP.Apply, QP.Enabled;
    var u := s.closers[k].t;
    var done := s.q.calls[u];
    if done.ok {
      QueueClosedInTime(s, k, t, u, done.closing);
    } else {
      QueueCloseExpired(s, k, t, u, done.closing);
    }
  }

  /** The queue's close, call u of the queue, has returned nil. */
  lemma QueueClosedInTime(s: State, k: nat, t: QP.CallId, u: QP.CallId, closing: bool)
    requires Inv(s) && Enabled(s, QueueClosed(k, t))
    requires k in s.closers && s.closers[k] == DrainingQueue(u)
    requires u in s.q.calls && s.q.calls[u] == QP.PollDone(closing, true)
    ensures Inv(Apply(s, QueueClosed(k, t))) && Advances(s, Apply(s, QueueClosed(k, t)))
  {
    hide PendingOk, KeysOk, Accounting, QP.Inv, QT.ClosedForGood, QP.Apply, ApplyToReservation, ApplyToCall;
    assert CloserOk(s, s.closers[k]);
    hide ClosersOk;
    QT.ClosedCallMeansClosed(s.q, u);
    QueueKeeps(s.q, QP.StartFlush(t));
    hide QP.Enabled;
    CloserStepKeeps(s, Apply(s, QueueClosed(k, t)), k);
  }

  lemma QueueCloseExpired(s: State, k: nat, t: QP.CallId, u: QP.CallId, closing: bool)
    requires Inv(s) && Enabled(s, QueueClosed(k, t))
    requires k in s.closers && s.closers[k] == DrainingQueue(u)
    requires u in s.q.calls && s.q.calls[u] == QP.PollDone(closing, false)
    ensures Inv(Apply(s, QueueClosed(k, t))) && Advances(s, Apply(s, QueueClosed(k, t)))
  {
    hide PendingOk, KeysOk, RoutesOk, Accounting, QP.Inv, QT.ClosedForGood, QP.Apply, QP.Enabled, ApplyToReservation, ApplyToCall;
    assert CloserOk(s, s.closers[k]);
    hide ClosersOk;
    CloserStepKeeps(s, Apply(s, QueueClosed(k, t)), k);
  }

  lemma SweepKeyKeeps(s: State, k: nat, key: Key)
    requires Inv(s) && Enabled(s, SweepKey(k, key))
    ensures Inv(Apply(s, SweepKey(k, key))) && Advances(s, Apply(s, SweepKey(k, key)))
  {
    hide QP.Inv, PendingOk, KeysOk, Accounting, RoutesOk, QT.ClosedForGood;
    RemoveKeeps(s, key, Swept);
    assert CloserOk(s, s.closers[k]);
    hide ClosersOk;
    CloserStepKeeps(s, Apply(s, SweepKey(k, key)), k);
  }

  lemma StepKeeps(s: State, step: Step)
    requires Inv(s) && Enabled(s, step)
    ensures Inv(Apply(s, step)) && Advances(s, Apply(s, step))
  {
    hide Inv, Advances, QP.Apply, QP.Enabled;
    match step
    case QueueStep(qs) => QueueStepKeeps(s, qs);
    case Reserve(r) => ReserveKeeps(s, r);
    case Release(r) => ClaimKeeps(s, r, Settling);
    case Record(r) => ClaimKeeps(s, r, Building);
    case BuildEvents(r, some) => PhaseKeeps(s, r, if some then Scheduled else Settling);
    case BuildPanics(r) => PhaseKeeps(s, r, Settling);
    case StartReservedSend(r) => ReservedSendKeeps(s, r);
    case ReservedSendReturns(r) => PhaseKeeps(s, r, Settling);
    case Settle(r) => SettleKeeps(s, r);
    case Register(key, c) => RegisterKeeps(s, key, c);
    case Complete(key, ok) => RemoveKeeps(s, key, Removed(if ok then Success else Failure, Undecided));
    case Abandon(a) => RemoveKeeps(s, s.keys[a], Removed(Abandonment(a), Undecided));
    case CheckActive(c) => CheckActiveKeeps(s, c);
    case Enqueue(c, t, await) => EnqueueKeeps(s, c, t, await);
    case RecordFor(c, r) => RecordForKeeps(s, c, r);
    case InflightZero(k) => InflightZeroKeeps(s, k);
    case QueueFlushed(_) => WaitsEndKeeps(s, step);
    case InflightExpires(_) => WaitsEndKeeps(s, step);
    case CloseQueue(k, t) => CloseQueueKeeps(s, k, t);
    case QueueClosed(k, t) => QueueClosedKeeps(s, k, t);
    case SweepKey(k, key) => SweepKeyKeeps(s, k, key);
    case SweepEnds(_) => SweepEndsKeeps(s, step);
    case _ => CloseStepsKeep(s, step);
  }
}
