# Verified model of the vehicle controller's domain and platform layers

This project models the state machines at the heart of the controller firmware and proves what they keep over
every run. Each component comes as functions on values, lemmas about them, and a class whose methods work in
place on arrays and fields and are proved to do exactly what the functions say.

| component | modules | files |
|---|---|---|
| Operation Runtime and exclusive slot | `Forest`, `Slot`, `RuntimeModel`, `RuntimeRuns`, `RuntimeTermination`, `RuntimeAnswers`, `OperationRuntime` | `forest.dfy`, `slot.dfy`, `runtime*.dfy` |
| Safety Authority and arbitration funnel | `ArbitrationFunnel`, `SafetyModel`, `SafetyRuns`, `SafetyGates`, `SafetyAuthorityUnit` | `arbitration.dfy`, `safety_*.dfy` |
| Idempotency ledger and admission | `Ledger`, `AdmissionModel`, `AdmissionRuns`, `AdmissionVerdicts`, `Admission` | `ledger.dfy`, `admission*.dfy` |
| Observability sink and fault capture | `StaticQueues`, `SinkModel`, `SinkRuns`, `SinkHistory`, `SinkCaptures`, `SinkDelivery`, `SinkIntake`, `ObservabilitySink`, `TailMirrors` | `static_queue.dfy`, `sink*.dfy`, `tail_mirror.dfy` |
| Kernel, clock, serial interrupt | `Kernel`, `ExecutionCore`, `Seqlock`, `Uart` | `kernel.dfy`, `execution_core.dfy`, `seqlock.dfy`, `uart.dfy` |
| Checksums, framing, calendar | `Checksum`, `Codec`, `FrameErrors`, `MachineWords`, `Calendar` | `checksum.dfy`, `codec.dfy`, `frame_errors.dfy`, `machine_words.dfy`, `calendar.dfy` |

`Options`, `Ring`, `Words` and `Sequences` hold the optional value, the ring indices, the 32-bit halves of true
counts and the sequence facts the others share. `dafny verify dfyconfig.toml` checks everything.

## How the surroundings are modelled

- A driver is an arbitrary function from its environment to a driver event, chosen anew for every `advance`.
- Sensor snapshots, CAN state, windows, health, provisioning and epochs are parameters of the call that reads them.
- The link reports arbitrary room each time it is asked; the snapshot document of each answer and the drop notice
  are arbitrary.
- Interrupts run any number of times between any two accesses of the foreground; the clock interrupt may even
  stand still between any two of its own accesses.
- A running step may schedule anything at any later time.
- Machine words that matter are explicit: operation ids wrap at 2^32 and skip 0, deadlines are 32-bit differences
  read as signed numbers, accumulated degraded time wraps at 2^64, the cycle counter and the sequence word at 2^32.
- The log of runtime events also names the owner of what was started, so that nesting can be stated over it alone.
- CRC registers are lists of bits, in the order the algorithm shifts them out; `MachineWords` proves that the program's
  16- and 32-bit words hold exactly these bits.

## Promises that fail, and exactly when

Each of these is kept as the code has it, shown by a concrete case and delimited exactly: by an if-and-only-if, or
for the log mirror by a case split that says what is shown in either case. The documentation and the comments promise:

- A stop reaches everything below: not a repeated one, because `stop` on an operation that is already Stopping does
  not cascade, and a child can still be created under it (`RuntimeRuns.StopReachesAllIff`,
  `RuntimeTermination.RepeatedStopMissesNewChild`).
- "A bus loss latches": not while the fault is, or in that tick becomes, a Degraded timeout that the sensors can end
  (`SafetyRuns.BusLossLatchIff`, `SafetyRuns.BusLossForgotten`).
- "No Ready before the grace period": from Initializing it holds (`SafetyGates.StartUpGate`), but Degraded leads to
  Ready without it (`SafetyRuns.ReadyIff`, `SafetyRuns.ReadyBeforeGrace`).
- "Stop intents are never refused": an activity's force-stop is refused after its plain stop
  (`ArbitrationFunnel.StopRefusedIff`, `ArbitrationFunnel.ForceStopRefused`).
- "The funnel holds the highest rank": not when an activity's stop meets a Safety motion
  (`ArbitrationFunnel.HigherRankWinsIff`, `ArbitrationFunnel.SafetyMotionDisplaced`).
- "The same key with a different payload is a Conflict": only up to the 32-bit fingerprint
  (`AdmissionModel.ConflictIff`, `AdmissionRuns.AliasIsReplayed`).
- "A replay returns the stored result": not for authority ids of 16 and more
  (`AdmissionRuns.ImmediateResendReplayedIff`, `AdmissionRuns.SecondInstance`).

Nobody promises the following, but a reader may expect it:

- From idle an activity can lift: the idle funnel shows a setpoint, so its lift is refused
  (`ArbitrationFunnel.MotionTakenIff`, `ArbitrationFunnel.LiftRefusedFromIdle`).
- The frame CRC detects every change of two adjacent bytes: all but one, across the end of the payload
  (`FrameErrors.TwoByteChangeAcceptedIff`, `FrameErrors.StraddlingChangeAccepted`).
- A captured log record shows that log and nothing else: only if its body fills the record; a shorter one is followed
  by its checksum and by bytes of the log eight before (`TailMirrors.ShortRecordShowsTrailer`,
  `TailMirrors.StaleBytesShow`).

## Model

| member | source | states |
|---|---|---|
| `Slot.ExclusiveSlot.TryClaim` | domain/slot.cpp:10-22 | a claim succeeds exactly when the slot is free and the activity is not Idle; otherwise nothing changes |
| `Slot.ExclusiveSlot.Release` | domain/slot.cpp:24-31 | only the activity that holds the slot frees it |
| `Forest.AncestorsExact` | domain/runtime.cpp:34-54 | in an ownership forest the ancestor walk ends and lists exactly the owners, fewer than the position in the array |
| `Forest.LastIsLeaf` | domain/runtime.cpp:155-192 | the newest entry owns nothing |
| `Forest.AppendKeepsForest` | domain/runtime.cpp:84-105 | appending under a live owner keeps ids distinct, every owner before what it owns, and all existing ancestries |
| `Forest.RemoveLeafKeepsForest` | domain/runtime.cpp:325-345 | shifting a leaf out keeps the forest |
| `RuntimeModel.FirstFreeAt` | domain/runtime.cpp:56-72 | from any counter value, across the 32-bit wrap, the id search finds the first unused non-zero id after at most one try more than there are live operations |
| `RuntimeModel.AddKeepsInv` | domain/runtime.cpp:84-105 | a created operation has a new non-zero id and keeps the whole invariant |
| `RuntimeModel.FinalizeKeepsInv` | domain/runtime.cpp:325-353 | the mutual recursion of finalizing and notifying ends and restores the full invariant, however long the chain of deferred owners |
| `RuntimeModel.NotifyKeepsInv` | domain/runtime.cpp:355-386 | an owner whose last descendant went is finalized in the same call, so nobody is left waiting for nothing |
| `RuntimeRuns.CreateRootKeepsInv` | domain/runtime.cpp:74-106 | a refused root changes nothing; an accepted one keeps the invariant |
| `RuntimeRuns.CreateChildKeepsInv` | domain/runtime.cpp:108-153 | DepthExceeded and TreeCycle are never answered; a refused child changes nothing |
| `RuntimeRuns.StepKeepsInv` | domain/runtime.cpp:74-446 | every call keeps the forest, the deferral rule (deferred exactly when Stopping and parked, with something live below), the slot rule and the event log, for every driver answer |
| `RuntimeRuns.RunKeepsInv` | domain/runtime.cpp:74-446 | the same over every run |
| `RuntimeRuns.Conservation` | domain/runtime.cpp:84-105 | over every run started events minus terminal events is the number of live operations |
| `RuntimeRuns.OwnerEndsLast` | domain/runtime.cpp:325-353 | an owner's terminal event follows that of everything it started |
| `RuntimeRuns.DescendantsEndFirst` | domain/runtime.cpp:273-291 | an operation's terminal event follows those of all its descendants, at any depth and although ids are reused |
| `RuntimeRuns.StopClosure` | domain/runtime.cpp:388-432 | a stop on an Accepted or Running operation leaves it and every transitive descendant Stopping, whatever the states in between, and changes nothing else |
| `RuntimeRuns.StopReachesAllIff` | domain/runtime.cpp:396-403 | all descendants are Stopping after a stop exactly when the operation was not yet Stopping or they all were already |
| `RuntimeTermination.DeferredFate` | domain/runtime.cpp:355-386 | in every call a deferred terminal either stays recorded with a live descendant or is reported with the outcome recorded at deferral; once nothing lives below it, the latter |
| `RuntimeTermination.DeferredNeverDriven` | domain/runtime.cpp:171-174 | changing what the drivers of deferred operations would answer changes nothing |
| `RuntimeTermination.OwnerIsWoken` | domain/runtime.cpp:355-371 | the end of a child leaves its live, undeferred owner due, with exactly the child's outcome at hand, and ends nothing else |
| `RuntimeTermination.SlotFreedWithClaimant` | domain/runtime.cpp:347-353 | the slot is freed only by an advance that reports the end of the operation holding it, and then no live operation carries an activity |
| `RuntimeTermination.NewestIsUndeferred` | domain/runtime.cpp:273-291 | the newest live operation is never deferred, so while anything lives something can be driven |
| `RuntimeTermination.DrainStep` | domain/runtime.cpp:155-192 | while everything stops and drivers answer terminally, one advance lowers the number of undeferred operations by exactly one |
| `RuntimeTermination.BoundedDrain` | domain/runtime.cpp:434-446 | from every reachable state a fault cascade and eight such advances empty the runtime and free the slot |
| `RuntimeTermination.RepeatedStopMissesNewChild` | domain/runtime.cpp:396-403 | a child can be created under a Stopping operation and a further stop leaves it Accepted |
| `RuntimeTermination.StoppingRootIsReachable` | domain/runtime.cpp:119-123 | such a Stopping operation is reachable from start-up |
| `RuntimeAnswers.RootVerdict` | domain/runtime.cpp:74-106 | a root is refused for a parent or no driver, else with eight live operations, else for a taken slot; otherwise one operation is added, Accepted, as asked for, its start logged, and its claim in the slot |
| `RuntimeAnswers.ChildVerdict` | domain/runtime.cpp:108-153 | a child is refused for no parent id or driver, else for a parent that does not live, else with eight live operations; otherwise one is added under the parent, without a claim |
| `RuntimeAnswers.StaysLive` | domain/runtime.cpp:155-218 | the oldest operation that is due is shown the child outcome delivered and consumes it; Continue leaves it due, Yield parks it unless it is stopping, Cancel outside a stop ends nothing |
| `RuntimeAnswers.NothingDue` | domain/runtime.cpp:155-192 | while no operation can be driven, an advance changes nothing |
| `RuntimeAnswers.SpawnStartsChild` | domain/runtime.cpp:220-253 | a spawn adds one child with the driver named or else its owner's; with eight live operations the owner is instead shown a failed child, code 2, context 1 |
| `RuntimeAnswers.TerminalAnswer` | domain/runtime.cpp:255-291 | Complete and Fail, and Cancel while stopping: with something live owned, the end is deferred with exactly the state and outcome answered; else its report, with the code answered, is the first event logged |
| `RuntimeAnswers.EndsAlone` | domain/runtime.cpp:325-386 | unless its owner's end is deferred too, the end of an operation takes it out, frees the slot if it held it, reports it and hands the outcome answered to its owner; nothing else changes |
| `RuntimeAnswers.FaultStops` | domain/runtime.cpp:434-446 | a fault makes every live operation Stopping and every one not stopping yet due again |
| `RuntimeAnswers.ReportedIsAnswered` | domain/runtime.cpp:155-386 | over every run the code of every terminal event is the one the driver of that very operation answered last, in that call or when its end was deferred |
| `OperationRuntime.Runtime.DepthOf` | domain/runtime.cpp:34-54 | the loop returns the exact number of ancestors; its guard never cuts it short |
| `OperationRuntime.Runtime.NextOpId` | domain/runtime.cpp:56-72 | the loop terminates within one more try than there are live operations and returns the first free id |
| `OperationRuntime.Runtime.IsOwnedBy` | domain/runtime.cpp:293-323 | the owner walk terminates and decides transitive ownership |
| `OperationRuntime.Runtime.HasActiveDescendants` | domain/runtime.cpp:293-323 | true exactly when some live operation is transitively owned |
| `OperationRuntime.Runtime.CreateRoot` | domain/runtime.cpp:74-106 | new array, slot, id and log are those of the specification, and the invariant holds |
| `OperationRuntime.Runtime.CreateChild` | domain/runtime.cpp:108-153 | the same for a child |
| `OperationRuntime.Runtime.Finalize` | domain/runtime.cpp:325-353 | the in-place shift, slot release and recursion yield the specified state and terminate |
| `OperationRuntime.Runtime.NotifyParent` | domain/runtime.cpp:355-386 | delivers the outcome and resolves a deferred owner as specified |
| `OperationRuntime.Runtime.Terminate` | domain/runtime.cpp:273-291 | defers, with the outcome given, exactly when something live is owned |
| `OperationRuntime.Runtime.Advance` | domain/runtime.cpp:155-192 | drives the oldest due operation only and keeps the invariant |
| `OperationRuntime.Runtime.Stop` | domain/runtime.cpp:388-404 | the marking loop yields exactly the transitive closure |
| `OperationRuntime.Runtime.MarkStoppingRecursive` | domain/runtime.cpp:406-432 | marks exactly the live descendants, through intermediate operations of any state |
| `OperationRuntime.Runtime.FaultCascade` | domain/runtime.cpp:434-446 | every Accepted or Running operation is Stopping and unparked, the rest is untouched |
| `ArbitrationFunnel.SafetyStopNeverWeakened` | domain/arbitration.h:23-41 | over every sequence a current Safety stop stays a Safety stop of at least its rank |
| `ArbitrationFunnel.SafetyStopTakesEffect` | domain/arbitration.h:23-41 | a Safety stop offered anywhere in a sequence is in force at its end, itself or a stronger one |
| `ArbitrationFunnel.StopGivesWayIff` | domain/safety_intent.h:48-76 | applying a stop leaves a stop; a current stop yields to motion exactly when it is an activity's and the motion is Safety's |
| `ArbitrationFunnel.StopRefusedIff` | domain/arbitration.h:17-41 | exactly which stops are refused, contrary to "never refused" |
| `ArbitrationFunnel.ForceStopRefused` | domain/arbitration.h:23-41 | from idle, an activity's stop followed by an activity's force-stop leaves the plain stop current |
| `ArbitrationFunnel.HigherRankWinsIff` | domain/safety_intent.h:48-67 | the higher rank wins except when an activity's stop replaces a Safety motion |
| `ArbitrationFunnel.SafetyMotionDisplaced` | domain/safety_intent.h:48-76 | from idle, a Safety motion followed by an activity's stop of lower rank leaves the stop current |
| `ArbitrationFunnel.MotionTakenIff` | domain/arbitration.h:23-41 | exactly which motions are taken: Safety's over an activity's intent, else only over one of the same source and kind |
| `ArbitrationFunnel.NewestSetpointWins` | domain/safety_intent.h:48-76 | from idle, of any sequence of an activity's setpoints the last one is current |
| `ArbitrationFunnel.LiftRefusedFromIdle` | domain/arbitration.h:23-41 | from idle an activity's lift is refused |
| `ArbitrationFunnel.Arbitration.Apply` | domain/arbitration.h:23-41 | the two-branch code is the specified funnel step |
| `SafetyRuns.StepKeepsInv` | domain/safety_authority.cpp:61-222 | for any observation or offered intent: fault recorded exactly at health Fault, Safety stop current under Degraded timeout, force-stop current under CAN failsafe |
| `SafetyRuns.BusLossLatchIff` | domain/safety_authority.cpp:159-204 | losing the bus keeps health Fault for ever, with one force-stop frame in that and in each later tick, exactly when the fault is no Degraded timeout or the sensors can never look healthy |
| `SafetyRuns.BusLossForgotten` | domain/safety_authority.cpp:132-204 | from start-up, two ticks with a bad sensor, one with the bus off and one with all good end without a fault and with an idle funnel |
| `SafetyRuns.PortCalls` | domain/safety_authority.cpp:159-202 | the calls a tick makes on the CAN port: recovery exactly when the bus is off, one force-stop frame exactly when the current intent demands it |
| `SafetyRuns.MarkerIsFault` | domain/safety_authority.cpp:92-98 | a crash marker pending at start is Fault with CrashMarker after the first and every later tick |
| `SafetyRuns.FaultHoldsNoMotion` | domain/safety_authority.cpp:207-222 | at Fault no activity's intent is current; without Safety motions from callers the funnel is idle or holds a Safety stop |
| `SafetyRuns.FaultClearsIff` | domain/safety_authority.cpp:132-155 | a fault clears exactly when it is a Degraded timeout and its cause is gone; the guard on motion never decides |
| `SafetyRuns.DegradedIsBounded` | domain/safety_authority.cpp:115-131 | accumulated degraded time stays below the limit with any clock and equals last tick minus entry when the clock never steps back |
| `SafetyRuns.ReadyIff` | domain/safety_authority.cpp:75-131 | exactly when a tick ends Ready: in that tick no faulted sensor, two fresh directional samples, active bus, and start-up gate passed or Degraded before |
| `SafetyRuns.ReadyBeforeGrace` | domain/safety_authority.cpp:115-118 | with any grace period and an unmet reset-cause check, Ready one millisecond after the first tick |
| `SafetyRuns.MotionOutlivesReady` | domain/safety_authority.cpp:109-114 | falling to Degraded leaves a motion intent current |
| `SafetyGates.StartUpGate` | domain/safety_authority.cpp:61-131 | over every run without a marker: while no tick has left Initializing, a tick ends Ready exactly when all sensors and the bus are good, the reset cause is reconciled and the grace period has passed since the first tick; else Fault without the bus, Degraded when unhealthy, or Initializing |
| `SafetyGates.DegradedTimesOutIff` | domain/safety_authority.cpp:115-131 | over every run with a clock that never steps back: a Degraded unit times out exactly in the first tick at which the Degraded period has the length of the limit, and a controlled stop is then current unless a force-stop was; a healthy tick before ends it |
| `SafetyGates.TimesOutIff` | domain/safety_authority.cpp:119-131 | with any clock the accumulated time grows by what the clock went forward, modulo 2^64, and the limit decides |
| `SafetyGates.ReportAfterTick` | domain/safety_authority.cpp:84-157 | the class a unit reports is what was wrong when it left Ready or started, sensing before the bus, until it is Ready or cleared; the time of entry is that of the last change of health |
| `SafetyGates.StopsAreNumbered` | domain/safety_authority.cpp:264-283 | over every run the stops issued are numbered one by one, modulo 2^32 |
| `SafetyGates.BusLossStops` | domain/safety_authority.cpp:159-186 | without the bus a tick ends in Fault with a force-stop of its own current, whatever was before |
| `SafetyGates.ActivityMotionMovesIff` | domain/safety_authority.cpp:207-222 | an activity's motion takes effect exactly in Ready and over an activity's intent of the same kind |
| `SafetyAuthorityUnit.SafetyAuthority.AnyFaulted` | domain/safety_authority.cpp:328-344 | the loop finds a faulted sensor if there is one; no sensing counts as faulted |
| `SafetyAuthorityUnit.SafetyAuthority.DirectionalSensingFresh` | domain/safety_authority.cpp:298-326 | true exactly when both directional sensors have a sample younger than the limit |
| `SafetyAuthorityUnit.SafetyAuthority.SafetyTick` | domain/safety_authority.cpp:61-205 | the five steps on fields, funnel and CAN port give the specified state and keep the invariant |
| `SafetyAuthorityUnit.SafetyAuthority.Offer` | domain/safety_authority.cpp:207-222 | an activity's intent passes only in Ready |
| `Ledger.RemembersNewestEight` | domain/ledger.cpp:37-58 | whatever the order of stores, a principal's ring is the last eight of its own stores |
| `Ledger.IdempotencyLedger.Find` | domain/ledger.cpp:10-35 | the search over the wrapped ring is a search over the remembered outcomes in order of storing |
| `Ledger.IdempotencyLedger.Store` | domain/ledger.cpp:37-58 | the head and tail arithmetic appends and evicts the oldest, leaving other principals alone |
| `AdmissionModel.RefusedReservesNothing` | domain/semantic.cpp:137-305 | unless newly accepted a request leaves the runtime as it was; an acceptance adds one instance, of the granted authority, with a fresh id |
| `AdmissionModel.AcceptedIsAllowed` | domain/semantic.cpp:137-254 | whatever is newly accepted had the current epoch, the granted principal, only granted role bits, a known type, allowed parameters and place, and a live parent if it is a child |
| `AdmissionModel.BitsWithinIff` | domain/semantic.cpp:50-57 | the mask test holds exactly when every claimed role bit is granted |
| `AdmissionModel.ExclusiveRootTakesSlot` | domain/semantic.cpp:208-238 | an exclusive root is admitted only in Serving, without Fault, provisioned and with a free slot, and holds the slot afterwards exactly when its type has an activity other than Idle |
| `AdmissionModel.SecondExclusiveRoot` | domain/semantic.cpp:208-238 | while an exclusive root with such an activity holds the slot, no request for another exclusive root is newly accepted |
| `AdmissionModel.AdmitKeepsInv` | domain/semantic.cpp:137-319 | every admission keeps runtime and registry sound and no key remembered twice |
| `AdmissionModel.ConflictIff` | domain/semantic.cpp:187-206 | Conflict exactly when an outcome of the same epoch and request id is remembered with another fingerprint |
| `AdmissionVerdicts.UnknownIsDecided` | domain/semantic.cpp:187-206 | a request whose epoch and id no outcome of its principal carries is neither replayed nor in conflict; it is answered as if nothing at all were remembered |
| `AdmissionVerdicts.KnownIsRecalled` | domain/semantic.cpp:187-206 | a request whose epoch and id are remembered gets the outcome remembered, or a Conflict for another fingerprint, and changes nothing |
| `AdmissionVerdicts.StaticVerdict` | domain/semantic.cpp:141-185 | exactly when a request is refused before the ledger, and with which code: epoch, handshake, principal, roles, type, place and parameters |
| `AdmissionVerdicts.DecidedVerdict` | domain/semantic.cpp:208-305 | a request that is decided is refused exactly for the first of window, fault, provisioning, slot, parent and room that stands against it, with its code; without one it is accepted under a new id and the operation of its type starts |
| `AdmissionVerdicts.RequestedInstance` | domain/semantic.cpp:256-292 | the operation an acceptance starts has the granted authority, not the one the request claims, and its type's driver and activity |
| `AdmissionVerdicts.AcceptedIff` | domain/semantic.cpp:137-305 | a request is newly accepted exactly when every static check passes, nothing is remembered under its key and nothing stands against it |
| `AdmissionRuns.RingAfterRun` | domain/ledger.cpp:37-58 | over every run a ring is the newest eight of what it held and what was stored for its principal |
| `AdmissionRuns.ResentIsReplayed` | domain/semantic.cpp:187-206 | at most once: before eight further stores for the principal a resent request gets the identical answer and changes nothing, whatever happened meanwhile |
| `AdmissionRuns.ForgottenAfterEight` | domain/ledger.cpp:45-54 | and after eight it is decided afresh |
| `AdmissionRuns.ImmediateResendReplayedIff` | domain/ledger.cpp:16-19 | an immediate resend is replayed exactly for authority ids below 16 |
| `AdmissionRuns.SecondInstance` | domain/ledger.cpp:39-43 | from 16 on a resent root starts a second operation |
| `AdmissionRuns.AliasIsReplayed` | domain/semantic.cpp:187-206 | two different parameter blobs under one key can be answered as one |
| `Admission.TypeRegistry.Register` | domain/semantic.cpp:24-32 | registers exactly new ids while there is room |
| `Admission.SemanticContract.CheckStatic` | domain/semantic.cpp:141-185 | the checks before the ledger, in order |
| `Admission.SemanticContract.CheckResources` | domain/semantic.cpp:208-254 | the window, health, provisioning, slot and parent gates, in order |
| `Admission.SemanticContract.AdmitRequest` | domain/semantic.cpp:137-305 | the pipeline over runtime, registry and ledger objects gives the specified verdict and state and keeps the invariant |
| `StaticQueues.StaticQueue.Push` | domain/static_queue.h:19-29 | appends or, when full, refuses and counts |
| `StaticQueues.StaticQueue.Pop` | domain/static_queue.h:31-41 | takes the first element across the wrap |
| `StaticQueues.StaticQueue.Peek` | domain/static_queue.h:43-54 | copies the first element, if any |
| `SinkModel.AnsweringRemovesQuery` | domain/observability.cpp:1137-1146 | answering a Query removes exactly one Query frame and adds none, which is why draining ends |
| `SinkModel.FragmentIsNoQuery` | domain/observability.cpp:713-759 | no fragment passes for a Query |
| `SinkRuns.DrainSpends` | domain/observability.cpp:1129-1166 | a drain sends frames of its class only, spends exactly their bytes and never exceeds room or cap |
| `SinkRuns.DrainStopsOnlyWhenForced` | domain/observability.cpp:1129-1166 | a drain ends only when the queue is empty, the budget spent, or the head does not fit cap, budget or the room just reported |
| `SinkRuns.TickSends` | domain/observability.cpp:1168-1190 | what a tick sends is Control, Service, Events, Logs, Traces, Telemetry in that order, each drain going on from the budget the one before left |
| `SinkRuns.TickWithinLimits` | domain/observability.cpp:1111-1190 | a tick sends at most 230 bytes, at most 128 per class, Control and Service together at most 128, and no frame larger than the room just reported |
| `SinkHistory.NothingLost` | domain/observability.cpp:1022-1104 | over every run, for Service, Events and Logs, sent followed by queued is exactly what was accepted; for Control but for Queries; telemetry keeps the newest |
| `SinkHistory.QueriesNeverSent` | domain/observability.cpp:1137-1146 | no Query frame ever reaches the link |
| `SinkHistory.DropsAreReported` | domain/observability.cpp:89-119 | over every run the drops between two reports are covered by the later one, an event record some tick made for the class dropped last; after a tick every drop is reported or the event queue is full |
| `SinkIntake.RecordWithRoom` | domain/observability.cpp:1022-1104 | in every class a record that finds room is queued last and accepted, no drop is noted and nothing else changes |
| `SinkIntake.RecordWithoutRoom` | domain/observability.cpp:1022-1104 | a full queue of Control, Service, Events or Logs stays as it is, one of Telemetry or Traces gives up its oldest for the new one; either way one drop is noted |
| `SinkIntake.AcceptedIsTaken` | domain/observability.cpp:1022-1104 | over every run what Service, Events and Logs accepted is exactly what was offered and found room, with the sink's own notices and reports, in order; Telemetry accepts all that was offered |
| `SinkIntake.QueryIff` | domain/observability.cpp:981-995 | among frames a Query is told by family and message type alone, and nothing without the sync bytes is one |
| `SinkIntake.FragmentIs` | domain/observability.cpp:713-824 | which bytes a fragment has: its index, the number of fragments and its part of the stream, 114 bytes in each but the last, under the header of its kind |
| `SinkIntake.AnswerIsQueued` | domain/observability.cpp:713-759 | a Query of one payload byte is replaced by the fragments of the document for its sections, as many as fit, which joined are that document; any other Query goes unanswered |
| `SinkIntake.TickServesAll` | domain/observability.cpp:1111-1190 | a tick drains all six queues, each until it is empty or its head does not fit, and only then reports a noted drop |
| `SinkIntake.TelemetryGoesOut` | domain/observability.cpp:1186-1190 | with nothing else queued and room for it the oldest telemetry record goes out in the next tick |
| `SinkCaptures.CaptureTraced` | domain/observability.cpp:459-549 | a new capture queues whole, into an empty trace queue, and closes the one before |
| `SinkCaptures.CapturesInOrder` | domain/observability.cpp:1175-1184 | with captures the only source, the traces sent are one capture after another, each an unbroken prefix of its fragments, complete exactly unless superseded, none evicted |
| `SinkCaptures.FragmentsReassemble` | domain/observability.cpp:787-823 | the fragments of a capture, decoded and joined, are exactly header plus staging |
| `SinkCaptures.CompleteCaptureReassembles` | domain/observability.cpp:761-824 | over every run the captures on record are those started, in order, and the i-th, once all its fragments were sent, reassembles to exactly the header and staging the i-th was started with |
| `SinkDelivery.TickProgress` | domain/observability.cpp:1111-1190 | while a trace fragment is queued, every tick with room for a frame at its start lowers what is left to send: Control, Service, Events, Logs and Traces frames, a Query counting four, and a noted drop one |
| `SinkDelivery.CaptureDelivered` | domain/observability.cpp:459-549 | a capture started in any settled state is on the wire whole, next after the traces sent before it, and no longer pending, after as many such ticks as it has fragments (at most five), frames ahead of it and, if it superseded another, one for the notice, with nothing further enqueued |
| `SinkDelivery.TriggeredCaptureDelivered` | domain/observability.cpp:415-423 | the same for a capture started right after its trigger event, which costs one tick more, queued or dropped |
| `SinkDelivery.CaptureStarves` | domain/observability.cpp:1111-1184 | that nothing further comes in is needed: one Control frame of 128 bytes and one event of 102 before every tick keep a waiting capture from ever sending a fragment, on any link |
| `ObservabilitySink.Sink.Enqueue` | domain/observability.cpp:1022-1109 | per class: refuse the new, or drop the oldest, or append |
| `ObservabilitySink.Sink.SendFragments` | domain/observability.cpp:713-823 | the chunking loop queues exactly the specified fragments |
| `ObservabilitySink.Sink.DrainQueue` | domain/observability.cpp:1129-1166 | the drain loop terminates, although answering rewrites the queue, and does what the specification says |
| `ObservabilitySink.Sink.RunTick` | domain/observability.cpp:1111-1190 | one tick over the six queue objects gives the specified state |
| `ObservabilitySink.Sink.StartFaultCapture` | domain/observability.cpp:459-549 | supersedes, queues and latches as specified |
| `TailMirrors.TailIsLayers` | domain/observability.cpp:1192-1262 | over every run of records of any length the tail is what the last eight left in their places, in order, each laid over what the one eight before left there |
| `TailMirrors.TailIsNewest` | domain/observability.cpp:1192-1242 | when the last eight records are full, whatever came before, the tail is exactly these records in order |
| `TailMirrors.EventTailIsNewest` | domain/observability.cpp:1192-1207 | event frames fill their places, so over every run of events the tail is exactly the last eight event records |
| `TailMirrors.EventIsLong` | domain/codec.cpp:349-439 | the envelope with wall time and the event body make 26 bytes, their frame 38, and the record stands whole behind the frame prefix |
| `TailMirrors.ShortRecordShowsTrailer` | domain/observability.cpp:1209-1222 | after any run, the place of each of the last eight frames shows its body alone if that fills the record, and else the body, the checksum bytes and what the place held before |
| `TailMirrors.StaleBytesShow` | domain/observability.cpp:1209-1222 | a short log noted eight after a full one shows the end of that older log |
| `TailMirrors.StagingIsWhole` | domain/observability.cpp:482-531 | the staging buffer holds both tails whole and never more than 489 bytes |
| `TailMirrors.TailMirror.Append` | domain/observability.cpp:1192-1222 | the byte loop overlays one record and leaves the others alone |
| `TailMirrors.TailMirror.CopyTail` | domain/observability.cpp:1224-1262 | the nested copy loop returns the tail |
| `Kernel.DueIsExact` | platform/coop_core.h:40-47 | the signed 32-bit test is exact for waits below 2^31 ms across any number of wraps |
| `Kernel.TickRuns` | platform/execution_core.cpp:46-99 | a tick executes the head exactly when it is due and nothing else, whatever the running step schedules |
| `Kernel.TickSchedules` | platform/coop_core.h:33-67 | after a tick with the head due the ring holds the rest followed by the steps the head asked for with a deadline 0 to 10 ms ahead, in order, as many as fit in 64 with the head counted; each further one is reported rejected |
| `Kernel.TickIdles` | platform/coop_core.h:33-42 | with no head due a tick runs and schedules nothing |
| `Kernel.ScheduleAllTakes` | platform/execution_core.cpp:102-126 | of any requests those with a 32-bit deadline 0 to 10 ms ahead, across wraps, are queued in order while there is room, and each further one is reported rejected |
| `Kernel.NeverEarly` | platform/coop_core.h:33-55 | no step runs before its deadline |
| `Kernel.BoundedWaiting` | platform/coop_core.h:33-67 | a step with k ahead of it has run after k+1 ticks at or after 10 ms from acceptance, in order of acceptance, across wraps and self-rescheduling |
| `Kernel.GapsFromHighWater` | platform/execution_core.cpp:53-71 | over every run the gap events are exactly the excesses over 30 ms measured from the latest tick seen before, however the clock jumps |
| `Kernel.ForwardIsExact` | platform/execution_core.cpp:53-62 | progress is the 64-bit difference less than half a turn ahead, across the wrap, and none otherwise |
| `ExecutionCore.StepRing.Enqueue` | platform/coop_core.h:57-67 | appends in the ring or refuses when 64 are queued |
| `ExecutionCore.Core.ScheduleStep` | platform/execution_core.cpp:102-126 | accepts exactly deadlines 0 to 10 ms ahead while there is room |
| `ExecutionCore.Core.RunNext` | platform/coop_core.h:33-55 | the head still counts as queued while it runs and leaves only afterwards |
| `ExecutionCore.Core.ProcessTick` | platform/execution_core.cpp:46-83 | gap report and dispatch give the specified state and keep the invariant |
| `Seqlock.StepKeepsInv` | adapters/tim2_clock.cpp:38-48 | after each single access of the tick interrupt the half-written state is accounted for |
| `Seqlock.EveryTickIsPublished` | adapters/tim2_clock.cpp:38-48 | six accesses a tick, and every tick is published, in order, the words then holding the count of the last |
| `Seqlock.SameBumps` | platform/seqlock.h:28-45 | equal sequence words less than a full turn apart mean that nothing was published in between |
| `Seqlock.ExtendedIsTrue` | adapters/tim2_clock.cpp:86-94 | a stored pair plus the 32-bit difference is the true count across a wrap |
| `Seqlock.CycleClock.SnapshotCycle` | platform/seqlock.h:28-45 | under every interleaving the nested retry loops end and return a pair some tick published, no older than the last one finished before |
| `Seqlock.CycleClock.RawTicksUs` | adapters/tim2_clock.cpp:85-94 | under every interleaving the result is the true cycle count at the read divided by 168, if the counter is read less than 2^32 cycles after the tick the snapshot shows |
| `Seqlock.CycleClock.ReadTwice` | adapters/tim2_clock.cpp:85-94 | the results of two successive calls never decrease |
| `Uart.InterruptsMove` | adapters/uart_bridge.cpp:17-38 | any number of interrupts moves a run of bytes from ring to register and switches off only when the ring is empty |
| `Uart.EverythingIsSent` | adapters/uart_bridge.cpp:17-38 | no lost wake-up: as many ready interrupts as bytes queued send them all, one more switches off |
| `Uart.SentIsPrefixOfAccepted` | adapters/uart_bridge.cpp:105-126 | over any sequence of calls and interrupts the bytes written to the register are a prefix of all bytes accepted so far, and the ring holds the rest |
| `Uart.UartBridge.Interrupt` | adapters/uart_bridge.cpp:17-38 | one interrupt on the ring indices is the specified step |
| `Uart.UartBridge.TxBytesAvailable` | adapters/uart_bridge.cpp:94-103 | with interrupts between its two reads the result lies between the room before and the room after |
| `Uart.UartBridge.Tx` | adapters/uart_bridge.cpp:105-126 | under every interleaving what was and will be sent is exactly what was accepted, in order and over all calls, no byte is overwritten, and on return a non-empty ring has its interrupt enabled |
| `Checksum.WindowIsOneMix` | domain/codec.cpp:49-68 | feeding up to a register width of bytes is one exclusive-or followed by the shifts |
| `Checksum.TwoAdjacentBytesDetected` | domain/codec.cpp:49-68 | any change confined to two adjacent bytes changes the CRC-16, at every length |
| `Checksum.FourAdjacentBytesDetected` | domain/codec.cpp:333-342 | any change confined to four adjacent bytes changes the CRC-32 |
| `Checksum.Crc16` | domain/codec.cpp:49-68 | the byte and bit loops compute the shift-register value |
| `Checksum.Crc32` | domain/codec.cpp:333-342 | the same for the reflected polynomial |
| `MachineWords.Word16IsCrc16` | domain/codec.cpp:49-68 | for every input the shifting of a 16-bit word, high bit first, leaves exactly the bits of the shift register |
| `MachineWords.Word32IsCrc32` | domain/codec.cpp:333-343 | the same for the reflected 32-bit word, complemented at the end |
| `MachineWords.CheckValues` | domain/codec.cpp:49-68 | the published check values: the characters 1 to 9 give 0x29B1 and 0xCBF43926, no input 0xFFFF and 0 |
| `MachineWords.WireLayout` | domain/codec.cpp:127-157 | which byte of a frame is which: sync, header, length and checksum word, the last two low byte first |
| `Codec.DecodeBuffer` | domain/codec.cpp:70-125 | the checks on a buffer prefix, with their errors and order |
| `Codec.EncodeBuffer` | domain/codec.cpp:127-157 | writes exactly one frame or nothing, and nothing beyond it |
| `Codec.DecodesIffFramed` | domain/codec.cpp:70-157 | a buffer decodes to a header and payload exactly when it begins with their encoding, for major 1 and families 1 to 7 |
| `Codec.FrameVerdict` | domain/codec.cpp:70-125 | a frame of another major version is refused as that, one of an unknown family as that, and any other decodes, whatever follows it |
| `Codec.CutFrameIsTruncated` | domain/codec.cpp:72-104 | every proper prefix of a frame, of any version and family, is Truncated |
| `FrameErrors.TwoByteChangeAcceptedIff` | domain/codec.cpp:70-125 | a change of any buffer that decodes, confined to two adjacent bytes and keeping the length, is accepted exactly when it lies behind the frame or changes the last payload byte by 0x89 and the checksum byte next to it by 0xA1; any other is BadSync or BadCrc |
| `FrameErrors.OnlyHitStaysLow` | domain/codec.cpp:49-68 | of all changes of the last byte only one by 0x89 leaves the upper half of the CRC-16 as it was |
| `FrameErrors.CorruptionRefused` | domain/codec.cpp:105-109 | a change of two adjacent header or payload bytes that keeps the length is refused by the CRC |
| `FrameErrors.StraddlingChangeAccepted` | domain/codec.cpp:105-109 | every frame with a payload has a changed twin that decodes, to the same header and a payload with another last byte |
| `Codec.RequestFingerprint` | domain/codec.cpp:314-343 | the CRC-32 of role, type, parent and parameters in canonical order |
| `Codec.NearbyRequestsDiffer` | domain/codec.cpp:314-343 | requests alike but for four adjacent canonical bytes never share a fingerprint |
| `Codec.FieldChangeDetected` | domain/codec.cpp:314-343 | another parent, or another type or role, is always told apart |
| `Codec.ParamsChangeDetected` | domain/codec.cpp:314-343 | a changed run of up to four parameter bytes is always told apart |
| `Codec.FingerprintsCollide` | domain/codec.cpp:314-343 | two given parameter blobs of five bytes share a fingerprint for every role, type and parent |
| `Calendar.CivilIsDayCount` | adapters/rtc_clock.cpp:25-33 | for every year, month and valid day the closed form is the day-by-day Gregorian count from 1970-01-01 |
| `Calendar.NextDayIsNext` | adapters/rtc_clock.cpp:25-33 | the next date is the next number, across months, leap days, centuries and eras |
| `Calendar.LaterIsLarger` | adapters/rtc_clock.cpp:25-33 | later dates have larger numbers, so no two share one |

## Left out

- RuntimeModel.FinalizeKeepsInv: the final state of an operation is not recorded, because the event sink is told only the outcome code.
- RuntimeRuns.Conservation: assumes that the runtime is the only claimant of its slot, as it is wired.
- Seqlock.CycleClock.SnapshotCycle: fewer than 2^31 ticks during one read, the bound the sequence word gives.
- Seqlock.CycleClock.RawTicksUs: nothing is stated when the counter is read 2^32 cycles or more after the tick whose pair the snapshot returned, or when ticks are that far apart: the reach of the 32-bit difference.
- Seqlock.CycleClock.ReadTwice: the same bound for each of the two calls.
- SinkDelivery.CaptureDelivered: no bound is stated while further records keep coming; with enough of them there is none.
- TailMirrors.TailMirror.Append: the record counter is unbounded; the 32-bit one restarts after 2^32 records.
- ObservabilitySink.Sink.Enqueue: feeding the tail mirrors on acceptance (domain/observability.cpp:1077-1090) is stated on the mirrors, over any sequence of records.
- SinkHistory.NothingLost: nothing is stated of dropped telemetry beyond that the newest records stay queued.
- Dispatch of decoded frames, acknowledgements and client stop requests (domain/semantic.cpp:59-135 and 321-358).
- The parameter blob an instance carries for its driver, and drivers that call back into the runtime.
- The epoch and the typed codecs of acknowledgements, subscriptions and observability records: field by field.
- Null ports other than the sources of admission, the sensing and CAN ports and the slot; calls before initialisation.
- Event emission of the Safety Authority and its diagnostic mirror; the eviction, high-water, overflow and drop counters.
- Measured step durations, overrun reports and the watchdog; the safety slot a tick ends with is `SafetyAuthorityUnit`, not called from the kernel model.
- Reading the clock registers and turning their BCD fields into seconds (adapters/rtc_clock.cpp:61-89).
- Header fields of a frame that failed to decode.
- The sensing service, outbound and subscription queues, actuator, marker format and watchdog policy: small single-branch facts.
- Register-level adapters (CAN, I2C, RTC set-up, pins, reset cause), `main`, schedule glue, bench and bring-up tools.
