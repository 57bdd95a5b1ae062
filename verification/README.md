# Verification of the Armature MCP analytics SDK

A Dafny model of the parts of the SDK whose correctness does not follow from reading one
function: a delivery queue shared by many goroutines, a shutdown that races with everything
else, a budgeted copy of arbitrary object graphs, and a session identity that two code paths
must agree on. `dafny verify dfyconfig.toml` checks all of it.

## How it is built

| file | what it models |
|---|---|
| `queue.dfy` | the critical sections of the privacy queue, as functions on values and as a class over an array that is proved to compute them |
| `queue_protocol.dfy`, `queue_theorems.dfy`, `queue_admission.dfy` | any number of callers and workers interleaving these sections; the invariant, what follows for whole runs, and what each section decides, said of runs |
| `recorder_protocol.dfy`, `recorder_theorems.dfy`, `recorder_flush.dfy` | Close, reservations, pending calls, hooks and cancellation, composed with the whole queue system; what Flush and Close guarantee over both delivery paths |
| `recorder_close.dfy`, `close_success.dfy`, `recorder_hooks.dfy` | when exactly Close fails, that it can always succeed otherwise, and the steps behind each call, reservation and outcome of a run |
| `recorder.dfy` | the recorder as an object whose critical sections are steps of that system; it carries its own run |
| `middleware.dfy` | one tools/call in the official adapter |
| `bounded_keys.dfy`, `session_init.dfy` | the bounded FIFO set and the session_init deduplication over it |
| `utf8.dfy`, `hints.dfy`, `sanitize_text.dfy`, `sanitize_payload.dfy` | string algorithms |
| `sanitize.dfy`, `sanitize_copy.dfy`, `sanitize_fields.dfy`, `sanitize_size.dfy`, `sanitize_cycles.dfy`, `sanitize_state.dfy` | the sanitizer's walk as a function, what its copy shows, which fields it replaces and how large it gets, its theory of cycles, and the object that performs it in place |
| `session_parts.dfy`, `session_id.dfy`, `ladder.dfy`, `session_order.dfy` | slugs, UUIDs, minting, parsing, and the identity ladder |
| `strings.dfy`, `wrappers.dfy` | shared helpers |

A goroutine is modelled by the atomic actions it takes: a critical section, a finalizer, the
start and the return of a send, a wake-up, a context that expires. A run is a sequence of
enabled steps from the initial state, so a statement about all runs covers every interleaving.
The signal channel is a number that counts the channels closed so far.

## Where the code falls short of a property

Each of these is stated exactly, with the condition under which the property holds and, where
noted, a lemma that exhibits a failing input.

- `reflectedString` (sanitize.go:385-396) keeps no record of the pointers it follows. A pointer
  that leads back to itself, held in a map entry or struct field, makes it loop forever, before
  the visit set is consulted. The walk ends under every budget exactly on graphs without such a
  chain (`SanitizeCycles.EndsExactlyUnlessStuck`, `AmpleBudget`, `SelfPointerInFieldHangs`).
- The visit set knows an object by type and pointer. A slice and a shorter slice of the same
  array share both, so an acyclic value can be marked circular. A marker appears exactly where an
  object is recognised again (`MarkedExactlyIfRevisited`, `RevisitIsAncestor`, `AliasedSliceIsMarked`).
- The middleware takes the reservation before it resolves the actor seed. A panic of that
  resolver, or a reservation of another recorder, leaves the reservation unclaimed, and Close then
  waits for its context (`Middleware.ToolsCall`, `RecorderFlush.UndischargedBlocksClose`).
- Pending calls are known by (session key, request id) alone. Registering a live key again loses
  the first call, and a late cancellation callback can remove a later call under the same key
  (`LostExactly`, `RemovedByExactly`, `WrongCallRemovedExactly`, `StaleCancellation`).
- The key of a session is added before the tool-call event is built. If that first build panics,
  its events are discarded, the key stays, and the pair never gets a session_init
  (`OneInitUnlessFirstPanics`).
- A seed header that is no valid seed is ignored by the mint but not by the ladder: without the
  wrapper's repair header it outranks the echoed id, unless it happens to be the id or a tail of it
  (`SameSeedExactly`, `SameSeedMustBeValid`, `InvalidSeedSplits`, `TailIsNamedThoughInvalid`).
- A client whose name slugs to "unknown" but has a version is parsed back as anonymous, so a new
  mint loses the version (`MintThenRemint`).
- The comment on `SanitizeValue` says that the copied content is bounded by the budget. A map whose
  keys are no strings (sanitize.go:224-226), and a json.Number of any length, are passed through
  uncharged (`SanitizeSizes.SizeIsBounded`, `VerbatimIsUncharged`).
- A Flush of its own can see a reservation added between the moment the counter is zero and the
  return of its Wait, a use that sync.WaitGroup rules out. Only the closed flag prevents it
  (`RecorderFlush.ZeroCanRiseExactlyWhileOpen`, `CloseWaitsOnAFallingCounter`).
- The comment on `truncateUTF8` says that the result is always valid UTF-8. Every truncation
  of a text is valid exactly if the text is; short invalid input is returned as it is, and long
  invalid input keeps what precedes the cut (`AlwaysValidExactly`, `LongInvalidInput`).
- The comment on `resolveWrappedStatelessRequest` says that non-JSON bodies resolve to the zero
  session. The code resolves them from the echoed header: only a request that echoes nothing and
  initializes nothing gets the zero session (`ZeroSessionExactly`).

## Model

| member | source | states |
|---|---|---|
| QueueCore.PrivacyQueue.constructor | armatureanalytics/queue.go:43-61 | A new queue accepts, is empty and has no worker. |
| QueueCore.PrivacyQueue.DropFront | armatureanalytics/queue.go:134-137 | The in-place copy, clear and reslice drop exactly the first n items, keep the order of the rest and leave no item behind in the freed slots. |
| QueueCore.PrivacyQueue.Append | armatureanalytics/queue.go:97 | Appending, in place or into a larger array, adds exactly one item at the end. |
| QueueCore.PrivacyQueue.Enter | armatureanalytics/queue.go:71-103 | One pass of enqueue through its critical section does to the array-backed queue what the specification does to sequences: wait, refuse, or admit with drop-oldest, one warning, a lazily started worker and a new signal. |
| QueueCore.PrivacyQueue.NextBatch | armatureanalytics/queue.go:123-139 | The worker takes the oldest items, at most 20, in order; on an empty queue it stops; both signal. |
| QueueCore.PrivacyQueue.CloseGate | armatureanalytics/queue.go:202-205 | Closing refuses further items and signals, nothing else changes. |
| QueueProtocol.StepKeeps | armatureanalytics/queue.go:63-212 | Every step of every interleaving of enqueue, flush, close and workers keeps the invariant, and whatever a waiter looks at changes only together with the signal generation. |
| QueueTheorems.RunHolds | armatureanalytics/queue.go:63-212 | The invariant holds in every state of every run. |
| QueueTheorems.RunAdvances | armatureanalytics/queue.go:209-212 | Between any two moments of a run: generations, histories and closed channels only grow, the gate never reopens, an idle closed queue stays idle. |
| QueueTheorems.NoLostWakeup | armatureanalytics/queue.go:63-212 | No lost wake-up: whenever the queue is idle a parked flush can wake, whenever it is not full or no longer accepting a parked enqueue can wake. |
| QueueTheorems.GenerationFixesTheQueue | armatureanalytics/queue.go:188-192 | While the signal generation is unchanged, pending, running and accepting are unchanged. |
| QueueTheorems.Conservation | armatureanalytics/queue.go:87-97 | In every run appended = removed, in removal order, followed by pending; each item has exactly one fate among pending, dropped, taken; at most 1,000 are pending. |
| QueueTheorems.TakenInOrder | armatureanalytics/queue.go:134 | What the workers take is a subsequence of what was removed: order of arrival, dropped items left out. |
| QueueTheorems.DeliveredStream | armatureanalytics/queue.go:141-158 | The events of all started sends put end to end, plus the batch being built, are exactly what the finalizers produced in finalization order; a panicking finalizer contributes nothing and stops nothing. |
| QueueTheorems.OneWorkerAtATime | armatureanalytics/queue.go:98-101 | Never two live workers; a live worker means running is set; a batch has at most 20 items and a send at least one. |
| QueueTheorems.IdleIsSettled | armatureanalytics/queue.go:184-187 | When the queue is idle every accepted item was dropped or finalized with its send returned and its channel closed. |
| QueueTheorems.FlushIsABarrier | armatureanalytics/queue.go:178-196 | When flush returns nil, every item accepted at any earlier point of the run was dropped by overflow or is finalized, delivered and done. |
| QueueTheorems.ClosedStaysClosed | armatureanalytics/queue.go:198-207 | No step starts a send, accepts an item or runs a finalizer once the queue is closed and idle. |
| QueueTheorems.CloseIsFinal | armatureanalytics/queue.go:198-207 | After close returned nil the histories of sends, items and finalizers never change again. |
| QueueTheorems.AwaitNeverDrops | armatureanalytics/queue.go:87-96 | In a queue used only in await mode no accepted item is ever discarded. |
| QueueTheorems.AwaitReturnsAfterDelivery | armatureanalytics/queue.go:112-118 | An await enqueue that returns with a live context after appending returns only once its item is finalized and any send of its batch has returned (or, with background callers about, was dropped). |
| QueueTheorems.WorkerCanMove | armatureanalytics/queue.go:121-166 | While the queue is not idle some worker step is enabled, and it leaves strictly less work. |
| QueueTheorems.WorkerDrains | armatureanalytics/queue.go:121-166 | From every reachable state the worker alone can reach an idle queue. |
| QueueAdmission.EnqueueDecides | armatureanalytics/queue.go:71-103 | In every run a pass of enqueue through the lock turns the call away if and only if the queue is closed, and parks it if and only if it awaits and 1,000 items are pending; otherwise exactly its item is added, and the oldest of 1,000 goes. |
| QueueAdmission.DroppedExactly | armatureanalytics/queue.go:87-96 | An item is dropped at a step if and only if a background call meets an accepting queue with 1,000 pending, and it is the oldest of them. |
| QueueAdmission.AcceptingExactly | armatureanalytics/queue.go:198-207 | The queue accepts if and only if no close has passed through the lock. |
| QueueAdmission.ReturnedExactly | armatureanalytics/queue.go:71-119 | How an enqueue returned, exactly: it saw its item done, its context expired, it met a closed queue, or in background mode its item was let in. |
| QueueAdmission.AwaitedIsDelivered | armatureanalytics/queue.go:112-118 | From every state steps of the worker alone finalize an awaited item that was not dropped, and its call can then return. |
| QueueAdmission.DroppedIsReleased | armatureanalytics/queue.go:105-106 | The channel of a dropped item is closed, or the call that dropped it can close it: nobody waits for it in vain. |
| QueueAdmission.WarnedExactlyIfDropped | armatureanalytics/queue.go:92-95 | The queue has warned of an overflow if and only if it has dropped an item. |
| QueueAdmission.WarningComesWithTheFirstDrop | armatureanalytics/queue.go:92-95 | So a pass warns if and only if it makes the first drop of the run. |
| QueueAdmission.BatchIsFull | armatureanalytics/queue.go:122-139 | A batch is all that is pending, or the 20 oldest if more are; the worker exits if and only if nothing is. |
| QueueAdmission.FinalizedAreTheResults | armatureanalytics/queue.go:141-149 | What counts as produced is what the finalizers returned, each result once and in order. |
| QueueAdmission.SendsAreNotEmpty | armatureanalytics/queue.go:150-158 | No send is started without events. |
| QueueAdmission.PollFailedExactly | armatureanalytics/queue.go:190-194 | A flush or close of the queue fails if and only if its context expired while it was parked. |
| RecorderProtocol.StepKeeps | armatureanalytics/recorder.go:298-383 | Every step of Close, reservations, pending calls, hooks, cancellation callbacks and the composed queue keeps the invariant. |
| RecorderTheorems.RunHolds | armatureanalytics/recorder.go:298-383 | That invariant holds in every state of every run of the composed system. |
| RecorderTheorems.NoSendAfterClose | armatureanalytics/recorder.go:298-311 | After Close returned nil no send is in progress and none ever starts, through the queue or for a reservation, in any interleaving. |
| RecorderTheorems.QuietMeansNoSend | armatureanalytics/recorder.go:302-305 | Idle closed queue and no outstanding reservation mean that no send is in progress on either path. |
| RecorderTheorems.InflightIsTheDebt | armatureanalytics/recorder.go:338-383 | inflight always equals the number of reservations that are unclaimed or claimed and undelivered, never goes negative, and each reservation is discharged at most once. |
| RecorderTheorems.ClaimedOnce | armatureanalytics/recorder.go:358-360 | A claimed reservation stays claimed; a later Release or Record changes nothing, whichever way they race. |
| RecorderTheorems.PendingStaysEmpty | armatureanalytics/recorder.go:763-772 | Once any Close has returned, with or without an error, the pending map is empty and stays empty. |
| RecorderTheorems.ExitIsFinal | armatureanalytics/recorder.go:752-796 | A registered call leaves the pending map in one way only, and once routed its route never changes. |
| RecorderTheorems.AtMostOneToolCall | armatureanalytics/recorder.go:512-590 | Distinct calls never share a queue item or a reservation; no item is enqueued, taken or finalized twice and no reservation is sent twice. |
| RecorderTheorems.DeliveredAtMostOnce | armatureanalytics/recorder.go:512-590 | The tool_call of a routed call is produced at most once: its item is finalized, or its reservation sent, at most once; not while the item is pending or after it was dropped, and not before the reservation is built. |
| RecorderTheorems.RunSendsOk | armatureanalytics/recorder.go:835-854 | In every run the sends on the reserved path are of distinct reservations, each past being scheduled. |
| RecorderTheorems.DeliveryCanMove | armatureanalytics/recorder.go:354-372 | A claimed, undischarged reservation always has an enabled step of its own that brings it nearer to its discharge. |
| RecorderTheorems.DeliveriesDrain | armatureanalytics/recorder.go:338-383 | From every state of every run delivery steps alone discharge every claimed reservation, and then inflight is the number of unclaimed ones. |
| RecorderTheorems.LostExactly | armatureanalytics/recorder.go:770 | A given call is lost unseen in a run if and only if some registration came under its key while it waited there. |
| RecorderTheorems.LostExactlyByKeyReuse | armatureanalytics/recorder.go:770 | Some registered call is lost unseen in a run exactly when some registration found its key in use. |
| RecorderTheorems.RemovedByExactly | armatureanalytics/recorder.go:774-778 | In every run the cancellation callback of a call has removed a given call if and only if at some earlier step it fired while its key led to that call. |
| RecorderTheorems.WrongCallRemovedExactly | armatureanalytics/recorder.go:774-778 | Some call is removed by the cancellation of another one if and only if some callback fired while its key led to another call than its own. |
| RecorderTheorems.CancellationRemovesItsOwnCall | armatureanalytics/recorder.go:774-778 | A consequence: in runs that use each (session, request id) once, a callback removes the call that armed it and no other. |
| RecorderTheorems.StaleCancellation | armatureanalytics/recorder.go:774-778 | Counterexample without that hypothesis: the cancellation of a completed call abandons a later call under the same key. |
| RecorderFlush.FlushIsABarrier | armatureanalytics/recorder.go:276-294 | Flush on its own: when it has seen the queue idle and then the counter at zero, every item accepted before it was dropped by overflow or is finalized, delivered and done, and every reservation made before it is discharged. |
| RecorderFlush.DischargedForGood | armatureanalytics/recorder.go:338-383 | A reservation is never forgotten, and once discharged it stays so. |
| RecorderFlush.ZeroCanRiseExactlyWhileOpen | armatureanalytics/recorder.go:282-286 | The counter can rise from zero again, under a Wait that is about to return, if and only if the recorder is not closed. |
| RecorderFlush.CloseWaitsOnAFallingCounter | armatureanalytics/recorder.go:298-305 | While Close waits, and ever after, the counter only falls. |
| RecorderFlush.UndischargedBlocksClose | armatureanalytics/recorder.go:302-310 | As long as some reservation is not discharged, claimed or not, no Close has returned nil. |
| RecorderFlush.CloseLosesNothing | armatureanalytics/recorder.go:295-311 | Once a Close has returned nil, every call routed to the queue that was accepted there was dropped by overflow or delivered exactly once, and every call routed to a reservation has it discharged; this never changes. |
| RecorderClose.FailingExactly | armatureanalytics/recorder.go:298-311 | In every run a Close fails, or is bound to, if and only if its context expired in one of its own waits: for the closing queue, for the flushed queue, or for inflight. |
| RecorderClose.ReturnsNilExactly | armatureanalytics/recorder.go:302-310 | A Close that sweeps or has returned is without an error if and only if none of its waits expired. |
| CloseSuccess.CloseCanSucceed | armatureanalytics/recorder.go:298-311 | Close can always get through: in every run, while none of its waits has expired and every reservation is claimed, steps of its own, of the worker and of deliveries, no expiry among them, lead to a nil return. |
| CloseSuccess.ReadyMeansCloses | armatureanalytics/recorder.go:298-311 | With the queue idle and nothing outstanding its own steps are enough for that. |
| CloseSuccess.QueueDrains | armatureanalytics/queue.go:121-166 | Inside the whole system the worker drains the queue without disturbing closers or reservations. |
| RecorderHooks.ExitExactly | armatureanalytics/recorder.go:752-796 | How a call left the pending map, exactly: a success or error hook, a cancellation, another registration or a sweep found its key leading to it. |
| RecorderHooks.DecidedExactly | armatureanalytics/recorder.go:512-588 | What a hook made of its call, exactly: it went to the queue, to the reservation it won, or nowhere, because the reservation was claimed already or a check found the recorder closed. |
| RecorderHooks.EnqueuedAfterCheck | armatureanalytics/recorder.go:544-546 | No tool call is enqueued unless a check of active() found the recorder open first. |
| RecorderHooks.ClosedExactly | armatureanalytics/recorder.go:299-301 | The recorder is closed if and only if some Close has passed its closed transition. |
| RecorderHooks.RegisteredExactly | armatureanalytics/recorder.go:763-772 | A call is known under a key if and only if it was registered there while the recorder was open. |
| RecorderHooks.ReservationExactly | armatureanalytics/recorder.go:338-383 | A reservation exists if and only if it was asked for while the recorder was open; it is claimed if and only if some claim was tried; it has events on the way or sent if and only if its build produced some. |
| RecorderHooks.BuildingExactly | armatureanalytics/recorder.go:354-372 | The events of a reservation are being built exactly from the claim that won it for recording to the end of the build. |
| Recorders.CapabilityReservation.Claim | armatureanalytics/recorder.go:358-360 | Exactly the first claim wins. |
| Recorders.Recorder.ReserveCapabilityRequest | armatureanalytics/recorder.go:338-350 | Reserves one unit of inflight, or returns nil and counts a drop exactly when closed; one step of the protocol. |
| Recorders.Recorder.ReleaseReservation | armatureanalytics/recorder.go:376-383 | Discharges an unclaimed reservation and leaves a claimed one alone. |
| Recorders.Recorder.RecordReservedCapability | armatureanalytics/recorder.go:354-372 | Of a foreign recorder or already claimed: no effect. Otherwise the reservation is discharged on every path (events, no events, a panic while building), except that in background mode events are left to a goroutine, with inflight still held. |
| Recorders.Recorder.EmitReserved | armatureanalytics/recorder.go:835-854 | Without events discharges at once; with events delivers in await mode and schedules the delivery in background mode. |
| Recorders.Recorder.RunDelivery | armatureanalytics/recorder.go:841-848 | What the goroutine runs: the send, then the discharge, in either mode. |
| Recorders.Recorder.StorePendingCall | armatureanalytics/recorder.go:763-772 | Registers a call, or refuses it and counts a drop exactly when closed. |
| Recorders.Recorder.TakeCall | armatureanalytics/recorder.go:752-758 | Load-and-delete: yields the call under the key if there is one, and removes just that key. |
| Recorders.Recorder.SetClosed | armatureanalytics/recorder.go:299-301 | The closed transition is one step of the protocol. |
| Recorders.Recorder.Sweep | armatureanalytics/recorder.go:306-310 | The sweep empties the pending map and finishes that Close. |
| Middleware.CapabilityCallState.Attach | armatureanalytics/official/official.go:55-66 | Only the first reservation attaches. |
| Middleware.CapabilityCallState.Take | armatureanalytics/official/official.go:68-77 | Hands out what is attached and clears it. |
| Middleware.AttachAll | armatureanalytics/official/send_feedback.go:62-71 | Of the reservations of several handlers the first attaches and each other one is claimed by its own handler. |
| Middleware.RecordToolCall | armatureanalytics/official/official.go:326-387 | The taken reservation is claimed unless the actor-seed resolver panics or it belongs to another recorder. |
| Middleware.ToolsCall | armatureanalytics/official/official.go:205-265 | For every order of attaching, panics and results: each reservation has been claimed exactly once when the middleware is left, if and only if the actor-seed resolver did not panic and the reservation taken is of this recorder. |
| BoundedKeys.BoundedKeySet.constructor | armatureanalytics/bounded_keys.go:12-14 | A new set is empty. |
| BoundedKeys.BoundedKeySet.Add | armatureanalytics/bounded_keys.go:19-32 | Refines a plain FIFO set with oldest-first eviction; map and order agree, no duplicates, never above max; true exactly for a new key. |
| BoundedKeys.BoundedKeySet.Delete | armatureanalytics/bounded_keys.go:36-49 | Removes that key wherever it stands and keeps map and order in agreement. |
| BoundedKeys.WithoutIsRemoval | armatureanalytics/bounded_keys.go:43-48 | Deletion drops exactly that key. |
| BoundedKeys.HoldsTheNewest | armatureanalytics/bounded_keys.go:25-30 | Without deletes the set is exactly the last min(max, n) of the n newly added keys, and a key is new again only after max others. |
| BoundedKeys.FewKeysAddedOnce | armatureanalytics/bounded_keys.go:16-18 | With at most max distinct keys none is added twice. |
| BoundedKeys.EvictedKeyComesBack | armatureanalytics/bounded_keys.go:16-18 | Beyond max keys one can be added twice. |
| BoundedKeys.AddedOnceExactlyWithinCapacity | armatureanalytics/bounded_keys.go:19-32 | No order of adds over a set of keys adds one twice if and only if the keys fit the capacity. |
| SessionInits.Builder.BuildToolCallEvents | armatureanalytics/recorder.go:415-432 | The session part of a tool-call build: session_init on first sight of the key, then the tool_call; nothing when the build panics, though the key stays added. |
| SessionInits.Builder.BuildSessionInitEvents | armatureanalytics/recorder.go:453-467 | An explicit init emits unless its key is known; the same set as for tool calls. |
| SessionInits.KeysAreUnambiguous | armatureanalytics/recorder.go:419 | actor:session determines both parts, since actor ids have one length. |
| SessionInits.InitsCountAdditions | armatureanalytics/recorder.go:419-455 | Each pair gets at most as many session_inits as its key was newly added, and as many if no build panics, evictions included. |
| SessionInits.OneInitUnlessFirstPanics | armatureanalytics/recorder.go:419-455 | With no key evicted each pair gets exactly one session_init, unless its first build panics: then none. |
| SessionInits.InitComesFirst | armatureanalytics/recorder.go:419-431 | With no key evicted, a session_init precedes a tool_call of its pair in build order if and only if the first build of the pair did not panic. |
| SessionInits.ToolCallsAreTheKept | armatureanalytics/recorder.go:428-430 | The tool_calls that come out are those of the builds that RedactEvent kept and that did not panic, each once and in build order, with or without a session. |
| SessionInits.EventsAreCounted | armatureanalytics/recorder.go:428-465 | So a pair has exactly as many tool_calls as kept builds, and an actor exactly as many session_inits without a session as explicit inits asked for. |
| Utf8.TruncateUtf8 | armatureanalytics/event.go:530-545 | The walk back from the limit computes the specified cut and flag. |
| Utf8.CutsAreRuneStarts | armatureanalytics/event.go:542-545 | In valid UTF-8 a cut leaves valid UTF-8 exactly at a rune start, and one lies at most three bytes back. |
| Utf8.TruncationIsTight | armatureanalytics/event.go:530-540 | For valid input the result is the longest valid prefix within the limit, at most three bytes shorter than the limit. |
| Utf8.AlwaysValidExactly | armatureanalytics/event.go:528-540 | Every truncation of a text is valid UTF-8 if and only if the text is: invalid input, short or long, has an invalid truncation. |
| Utf8.LongInvalidInput | armatureanalytics/event.go:528-540 | Counterexample beyond the limit: a byte FF before ASCII text is kept under every positive limit. |
| Hints.TableIsShaped | armatureanalytics/tools.go:490-526 | Every suffix of the table is two newlines and a non-empty line. |
| Hints.TableHoldsExactly | armatureanalytics/tools.go:490-526 | The table holds each hint on a paragraph of its own, bare and with each capability sentence behind it, and nothing else. |
| Hints.StripSuffixes | armatureanalytics/tools.go:349-366 | The nested loops terminate and compute the specified normal form. |
| Hints.StripLegacyTelemetryHint | armatureanalytics/tools.go:349-366 | The same for the actual table. |
| Hints.StripIsNormal | armatureanalytics/tools.go:349-366 | The result is a prefix of the description that ends in no suffix and is no bare hint. |
| Hints.StripIsIdempotent | armatureanalytics/tools.go:304-307 | Stripping again changes nothing. |
| Hints.OneSuffixFits | armatureanalytics/tools.go:349-366 | At most one suffix fits the end of a text. |
| Hints.StripRemovesOnlyHints | armatureanalytics/tools.go:347-366 | What is removed is a stack of suffixes, and a bare hint below it when the result is empty: customer prose is untouched. |
| Hints.StackIsRemoved | armatureanalytics/tools.go:349-366 | strip(x + s1 + ... + sn) = strip(x) for any stack of suffixes in any order. |
| SanitizeText.OutputFits | armatureanalytics/sanitize.go:67-87 | The output fits the budget and is charged in full; the final truncation is never needed. |
| SanitizeText.NoPayloadSurvives | armatureanalytics/sanitize.go:21-24 | No 512 consecutive bytes of the output are all base64 characters. |
| SanitizeText.SanitizedIsFixed | armatureanalytics/sanitize.go:67-87 | Sanitizing the output under the same budget returns it unchanged, with the same charge. |
| SanitizeText.KeptExactly | armatureanalytics/sanitize.go:67-87 | A text comes out unchanged if and only if it fits the budget, is no payload and holds no run of 512 base64 characters. |
| SanitizeText.ReplacingSplits | armatureanalytics/sanitize.go:21-24 | Replacing treats the two sides of a place where a run starts independently. |
| SanitizeText.LongRunIsReplaced | armatureanalytics/sanitize.go:21-24 | A run of 512 or more goes with up to two padding characters, and the text behind it is treated on its own. |
| SanitizeText.ReplacingCreatesNoPayload | armatureanalytics/sanitize.go:74-78 | Replacing long runs never brings a data URL or a whole payload into being. |
| SanitizePayloads.PayloadExactly | armatureanalytics/sanitize.go:21-24 | The two tests match exactly what they are for: at least 64 bytes that start with data: and contain ;base64,, or at least 512 bytes of the base64 alphabets with up to two padding characters behind. |
| SanitizePayloads.TextDecides | armatureanalytics/sanitize.go:67-87 | A text is cut to the budget; what is left becomes the placeholder if it is such a payload, and stays as it is if and only if it is none and holds no 512 base64 characters in a row. |
| SanitizePayloads.OneRunIsReplaced | armatureanalytics/sanitize.go:21-24 | Of a text with one long run exactly the run and its padding are replaced by the placeholder. |
| Sanitize.HangsExactlyOnEndless | armatureanalytics/sanitize.go:385-396 | reflectedString loops forever exactly on chains of pointers that never lead out. |
| Sanitize.BudgetCoversValue | armatureanalytics/sanitize.go:185-309 | Weight of the copy plus remaining budget never exceeds the starting budget, for every graph, and equals it as long as budget is left. |
| Sanitize.CopyIsBounded | armatureanalytics/sanitize.go:50-56 | What is charged for the copy of any graph is at most 65,536, and the copy has at most 32,769 nodes however large the graph unfolds, a value passed through as it is counting as one. |
| SanitizeSizes.SizeIsBounded | armatureanalytics/sanitize.go:47-56 | With what is passed through uncharged included, the copy takes at most the budget and, per node, the largest such value of the graph. |
| SanitizeSizes.VerbatimIsUncharged | armatureanalytics/sanitize.go:224-226 | Counterexample to a bound by the budget alone: a map whose keys are no strings comes out whole, at no charge, whatever its size. |
| SanitizeCopies.CopyIsFaithful | armatureanalytics/sanitize.go:185-309 | The result shows the input: same scalars, keys and elements in order, binary fields and ancestors replaced, and each text cleaned under a budget that covered it and all that was left at the end; it is complete while budget is left, and otherwise cut in one place only, behind the last item copied. |
| SanitizeCopies.ShortTextIsUncut | armatureanalytics/sanitize.go:67-87 | A text in the copy no longer than the budget left at the end is uncut, and verbatim if and only if it is no payload and has no long run. |
| SanitizeCopies.ShortFieldIsUncut | armatureanalytics/sanitize.go:274-309 | So is every such text field of a completely copied object, under its own key. |
| SanitizeFields.ReadsExactly | armatureanalytics/sanitize.go:385-396 | reflectedString returns a non-empty string if and only if the pointers from the value lead to that text or number. |
| SanitizeFields.GroupShowsItsItems | armatureanalytics/sanitize.go:274-309 | A map, struct or list copied with budget to spare shows every item, in order and under its key. A field whose pointers lead to a non-empty string is shown as [binary removed] if its key is blob, or if it is data and the type field leads to image or audio; every other item is shown as a copy of itself, a text as its own cleaning. |
| SanitizeCycles.EndsExactlyUnlessStuck | armatureanalytics/sanitize.go:185-272 | The walk ends under every budget if and only if no field it inspects, on any path, is a chain of pointers without end. |
| SanitizeCycles.AmpleBudget | armatureanalytics/sanitize.go:185-272 | With more budget than the whole copy needs: the walk hangs exactly on the graphs with such a chain, and otherwise it marks exactly if it meets an object of its path again. |
| SanitizeCycles.SpendsAtMost | armatureanalytics/sanitize.go:185-309 | A walk that ends has spent no more than the computed need of the graph. |
| SanitizeCycles.MarkedExactlyIfRevisited | armatureanalytics/sanitize.go:213-255 | On a graph without such a chain a circular marker appears under some budget if and only if the walk can meet an object that it recognises as one of its path. |
| SanitizeCycles.MarkMeansRevisit | armatureanalytics/sanitize.go:213-255 | Under every budget, and below any path, a marker stands for such a meeting. |
| SanitizeCycles.RevisitIsAncestor | armatureanalytics/sanitize.go:213-219 | If (type, pointer) pairs are unambiguous the object met again is a true ancestor. |
| SanitizeCycles.AcyclicIsNeverMarked | armatureanalytics/sanitize.go:213-219 | Shared values of an acyclic graph are never marked. |
| SanitizeCycles.AliasedSliceIsMarked | armatureanalytics/sanitize.go:245-253 | Counterexample where pairs are ambiguous: a slice that holds a shorter slice of its own array is marked though nothing is cyclic. |
| SanitizeCycles.SelfPointerInFieldHangs | armatureanalytics/sanitize.go:385-396 | Counterexample to termination: a pointer to itself in a field is never left, though as a root value it is. |
| SanitizeState.FollowPointers | armatureanalytics/sanitize.go:385-396 | The loop computes the specified string or is found to be endless. |
| SanitizeState.SanitizationState.constructor | armatureanalytics/sanitize.go:51-54 | The state starts with the whole budget and no visits. |
| SanitizeState.SanitizationState.Charge | armatureanalytics/sanitize.go:58-65 | A charge succeeds exactly when the budget covers it; a failed one empties the budget. |
| SanitizeState.SanitizationState.CleanText | armatureanalytics/sanitize.go:67-87 | Refines the specification of sanitizeString. |
| SanitizeState.SanitizationState.Copy | armatureanalytics/sanitize.go:185-272 | The walk that updates budget and visits in place refines the functional walk, and leaves the visits as it found them. |
| SanitizeState.SanitizationState.CopyItems | armatureanalytics/sanitize.go:274-309 | The loop shared by maps, structs and lists refines its specification, both early exits included, and fills the map that the specification of a Go map gives. |
| Sanitize.EntriesKeepTheLast | armatureanalytics/sanitize.go:274-295 | That map has exactly the keys written, each with what was written to it last, two struct fields of one JSON name included. |
| SessionParts.SlugPart | armatureanalytics/stateless_http.go:154-176 | The one-pass loop with its dash flag and early stop computes: collapse, cut to 48, trim dashes, fall back. |
| SessionParts.SlugShape | armatureanalytics/stateless_http.go:154-176 | A slug is the fallback, or 1 to 48 characters of [A-Za-z0-9.-] with no dash at either end. |
| SessionParts.StretchBecomesDash | armatureanalytics/stateless_http.go:158-166 | A stretch of other characters between slug characters becomes exactly one dash. |
| SessionParts.StretchVanishes | armatureanalytics/stateless_http.go:158-166 | A stretch at the start or behind a dash leaves nothing. |
| SessionParts.CollapseAbsorbs | armatureanalytics/stateless_http.go:158-166 | A text can be collapsed piece by piece from the left, so these two laws fix what becomes of every text. |
| SessionParts.SlugCuts | armatureanalytics/stateless_http.go:154-176 | A name of slug characters between spaces is cut behind its 48th character; dashes at the ends of what is left go, and if nothing else is left the slug is the fallback. |
| SessionParts.SlugIsIdempotent | armatureanalytics/stateless_http.go:154-176 | Slugging a slug changes nothing. |
| SessionParts.HexEncode | armatureanalytics/stateless_http.go:186-194 | Writes two digits per byte at the given place and nothing behind them. |
| SessionParts.RandomUuid | armatureanalytics/stateless_http.go:178-196 | The buffer edits give the UUID of the 16 bytes with version and variant stamped. |
| SessionParts.RandomUuidIsSeed | armatureanalytics/stateless_http.go:178-196 | For all 16-byte inputs the result matches the seed grammar and is of version 4. |
| SessionParts.UuidsCollideExactly | armatureanalytics/stateless_http.go:183-184 | Two draws give one UUID only if they agree in all bits but the six stamped ones. |
| SessionParts.PartCharsExactly | armatureanalytics/stateless_http.go:159 | The characters a slug keeps are the ASCII letters and digits, the dot and the dash. |
| SessionParts.UuidsExactly | armatureanalytics/stateless_http.go:36-41 | The grammars of a UUID and of a seed, group by group: lower-case hexadecimal, and for a seed a version from 1 to 8 and a variant of 8, 9, a or b. |
| SessionIds.MatchDecides | armatureanalytics/stateless_http.go:36-38 | The parser accepts exactly the language of the session id grammar and its groups are unique. |
| SessionIds.MintIsWellFormed | armatureanalytics/stateless_http.go:51-62 | A minted id is in that language, its UUID in the seed grammar, its parts are slugs, its length at most 140. |
| SessionIds.MintThenParse | armatureanalytics/stateless_http.go:66-72 | Parsing a minted id returns the slugged name and version, or nil exactly for the anonymous name. |
| SessionIds.MintDeterminesItsParts | armatureanalytics/stateless_http.go:51-62 | Two mints are equal exactly when name slug, version slug and UUID are. |
| SessionIds.RemintExactly | armatureanalytics/stateless_http.go:51-72 | For any id in the language: minting from what it parses to and its UUID returns it exactly when its parts are slugs, an anonymous name has no version, and the UUID is a valid seed. |
| SessionIds.MintThenRemint | armatureanalytics/stateless_http.go:51-72 | For a minted id that fails only for an anonymous name with a version. |
| SessionIds.ZeroSessionExactly | armatureanalytics/stateless_http.go:93-111 | A request resolves to the empty session if and only if its body holds no initialize message and it echoes no id; a body that is no JSON is not told apart. |
| SessionIds.EchoedClientExactly | armatureanalytics/stateless_http.go:100-110 | An echoed id is the session whatever it looks like, and a client is read off it if and only if it has the form mcp_name_v_version_uuid with that name and version and the name is not unknown. |
| SessionIds.MintNamesTheClient | armatureanalytics/stateless_http.go:51-110 | A client whose name and version are slugs gets the id mcp_name_v_version_uuid, with a valid seed as its UUID, and is the client of every request that echoes the id. |
| SessionIds.MintOfNobody | armatureanalytics/stateless_http.go:51-72 | Without a client the id is mcp_unknown_v__uuid, and no client is read off it. |
| SessionLadder.Recorder.RememberSession | armatureanalytics/official/official.go:396-418 | The first identity under a key is kept; true exactly when the session is to be announced. |
| SessionLadder.Recorder.ForgetSession | armatureanalytics/official/official.go:420-427 | Forgets a key only for the connection that registered it. |
| SessionLadder.Recorder.AnalyticsSessionId | armatureanalytics/official/official.go:495-532 | The early returns compute the ladder, and the result is the first of the seven rungs that is not empty, or "" if all are or there is no request. |
| SessionLadder.LadderIsFirst | armatureanalytics/official/official.go:469-532 | The ladder is that first rung: baggage, repair header, seed or an echoed id that ends in it, connection id, remembered id, echoed id, process id exactly where there are no headers. |
| SessionOrder.AgreementSharesTheSession | armatureanalytics/official/official.go:469-532 | Requests that agree on the rungs down to one that is not empty share a session, whatever else they carry and whatever is remembered meanwhile. |
| SessionOrder.BaggageSharesTheSession | armatureanalytics/official/official.go:499-501 | All requests with one conversation id in their baggage share that session. |
| SessionOrder.RememberedExactly | armatureanalytics/official/official.go:396-427 | The table holds a session for a connection if and only if the connection was initialized and has not closed since. |
| SessionOrder.InitializeNamesTheConnection | armatureanalytics/official/official.go:396-418 | The first initialize on a connection names it: every later request on it without a stronger signal resolves to what the initialize resolved to, until the connection closes. |
| SessionLadder.EchoNamesExactly | armatureanalytics/official/official.go:506-510 | An echoed id names a seed if and only if the seed in lower case is one of its four tails: UUID, version and UUID, these after "v_", or these after the name. |
| SessionLadder.EchoExactly | armatureanalytics/official/official.go:506-527 | A request that echoes an id and bypasses the wrapper resolves to it if and only if its seed header is the id or, in lower case, one of those tails, or there is no seed and the transport knows no other session. |
| SessionLadder.ValidSeedIsCoherent | armatureanalytics/official/official.go:506-527 | For a valid seed in any letter case, an echo of the minted id resolves to it with or without the seed header. |
| SessionLadder.SameSeedExactly | armatureanalytics/official/official.go:506-512 | A client that keeps its seed header and bypasses the wrapper stays in one session if and only if the seed is valid, is the id, or is one of its three longer tails. |
| SessionLadder.SameSeedMustBeValid | armatureanalytics/official/official.go:506-512 | For every seed that does not end in an underscore and a UUID: if and only if the seed is valid. |
| SessionLadder.TailIsNamedThoughInvalid | armatureanalytics/official/official.go:506-512 | The longer tails do occur: the invalid seed v__<uuid> resolves to an id minted without a client when that UUID was drawn. |
| SessionLadder.InvalidSeedSplits | armatureanalytics/official/official.go:506-512 | Counterexample: an invalid seed makes the later request resolve to the seed, not the minted id. |
| SessionLadder.WrappedIsCoherent | armatureanalytics/stateless_http_handler.go:61-75 | Behind the wrapper the initialize and every readable request that echoes the minted id resolve to it, whatever else the request carries. |
| SessionLadder.WrapBelongs | armatureanalytics/stateless_http_handler.go:65-75 | The wrapper turns those requests into requests of the conversation, whatever seed or inbound repair header they carry. |
| SessionOrder.RepairIsOwned | armatureanalytics/stateless_http_handler.go:63-75 | Behind the wrapper the repair header is set if and only if the request is readable and initializes or echoes an id; what the client sent there is gone, and nothing else is touched. |
| SessionLadder.ConversationHasOneSession | armatureanalytics/official/official.go:495-532 | In any sequence of events, with other connections opening, closing and being remembered in between, every request of a conversation resolves to its one minted id. |
| SessionLadder.ConnectionKeepsItsSession | armatureanalytics/official/official.go:513-524 | A connection named at initialize keeps that name for every request without a stronger signal until it is forgotten. |

## Left out

- HTTP posting, timeouts, retries and response parsing: a send is an action that starts and returns; whether it succeeds changes no state of the model.
- Recorder.emit: nothing in the repository calls it.
- Logs, onError, and the dropped counters of the queue: they feed nothing back. Of the overflow warning the model keeps when it is due. The recorder's own dropped counter is modelled where a reservation or a registration is refused.
- The run loop of the worker as one method: its critical section is `NextBatch`, and everything outside the lock is steps of the protocol.
- Liveness under a scheduler: progress is stated as an enabled step of the worker, or of a claimed reservation, that leaves less to do, and as a run of such steps to the idle queue, to the last discharge and to a Close that returns nil.
- active(): a hook that passes it may still reach the queue after closing, so the protocol lets any caller enqueue at any time; the check is kept only on the way from a removed pending call to the queue.
- Recorder.Flush as steps of its own: it changes no state, so its two waits are stated as two moments of a run; its context may expire at either, which promises nothing.
- Recorders.Recorder.RecordReservedCapability: one caller at a time; the interference of others between its critical sections is covered by the protocol's steps. The goroutine of background mode is the method RunDelivery.
- Middleware.ToolsCall: models attaches before the take and after it as two ordered lists; of a delivery it keeps the claim, which is where the reservation can be lost. A handler that outlives the call and attaches after the deferred release succeeds, and its reservation is never claimed: that is outside the statement.
- BoundedKeys.BoundedKeySet.constructor: asks for max of at least 1; the source never passes less, and with 0 its first Add would panic.
- SessionInits.InitsCountAdditions: build order is the order of key-set additions; actor_identity events are left out.
- Utf8.TruncateUtf8: models a Go string as a string whose characters stand for bytes; the same holds for the sanitizer's texts, and the limit is never negative in the source.
- Sanitize.BudgetCoversValue: models a decoded graph; reflection, JSON marshalers, json.RawMessage and the size estimate come before it. Numbers and scalars are uncharged, as in the source.
- SanitizeState.SanitizationState.CopyItems: takes its items sorted by key, and the copy lists what was written in that order; Entries is the Go map that results. Which of two fields of one name sort.Slice puts last is not part of this model.
- SanitizeCycles.MarksExactlyRevisits: keeps the marker apart from a text that happens to read "[circular]".
- SessionParts.SlugPart: models strings of code points; invalid UTF-8 does not occur in decoded JSON.
- SessionIds.MintIsWellFormed: lower-cases ASCII letters only; no other letter lower-cases into the seed grammar. For the suffix comparison of the ladder this leaves letters outside ASCII in a seed header as they are.
- SessionLadder.WrappedIsCoherent: the request body is an initialize message with its client info, or none; decoding it is not part of this model. Attaching the id to the response is not either.
- SessionLadder.Recorder.AnalyticsSessionId: the conversation id of the baggage is a parameter.
- Secret patterns, server construction, schema decoration, telemetry field maps and client-info merging: they would add only easy members.
- SHA-256: of an actor id only its fixed length matters here.
