# KEDA in Dafny

A model of the stateful and arithmetical parts of KEDA, with proofs. One group of
modules per component:

- **Kafka lag engine** (`KafkaFactors`, `KafkaLag`, `KafkaScalers`). The order in
  which Go walks a map is a parameter of every poll, and the contracts do not depend
  on it. The sarama and the Apache scaler are two classes proved against one
  order-free definition of a poll.
- **CloudEvent emitter** (`HandlerKeys`, `EventFanOut`, `Emitter`, `EmitterTheorems`,
  `EmitterTermination`, `EmitterClass`). Goroutines that wait to enqueue, the bounded
  channel, fan-out loops visiting one handler at a time, sends in flight, failure
  callbacks and handler registration interleave as atomic steps; the theorems are about
  every such run.
- **ScaledObject reconcile protocol** (`Reconcile`, `ReconcileTheorems`,
  `ReconcileClass`). Every API call of every reconcile may fail, specs and annotations
  change between reconciles, HPAs vanish, the operator restarts. A call that fails
  changes nothing.
- **Gauge accounting** (`Gauges`, `GaugeRuns`). The ScaledObject and the ScaledJob
  controller hold different locks, so their updates of the shared trigger gauge
  interleave one increment or decrement at a time, and so do they here.
- **Fallback** (`Fallback`). Failure counters over histories of results and prunings,
  and the stand-in value that must reproduce a replica count.
- **Event Hub totals** (`EventHub`), **GitHub workflow-run cache**
  (`WorkflowRunCache`), **Azure Pipelines demands** (`PipelineDemands`) and the
  **cron window** (`CronWindow`).

Where the source changes state in place the model is a class whose methods are proved
against functions on values, and the theorems are about those functions.
`dafny verify dfyconfig.toml` checks the whole project.

## Where the code does less than its documentation suggests

Each item is a lemma with a concrete input, next to the exact condition under which
the code does what it is meant to.

- The Apache Kafka scaler accepts `limitToPartitionsWithLag` together with
  `ensureEvenDistributionOfPartitions`, and the metric is then not a divisor of the
  partition count (`KafkaScalers.ApacheFlagsAllowUneven`, `KafkaScalers.EvenPromiseExact`).
- For a partition without a committed entry the sarama scaler fails the poll and the
  Apache scaler counts from offset 0 (`KafkaScalers.MissingBlockDisagrees`,
  `KafkaScalers.AgreementExact`).
- The fan-out loop returns at the first filter that rejects, so handlers later in the
  map order get nothing (`EventFanOut.FanOutMiss`, `EventFanOut.ServesAllExactly`).
- A CloudEventSource whose name has a dot is not subject to its own filter
  (`EventFanOut.DottedNameUnfiltered`, `HandlerKeys.PrefixUndoesKey`).
- If the Paused condition is already true when the paused annotation is seen, nothing
  is stopped or deleted. A one-way pause followed by a full pause ends that way, and so
  does a pause whose stop, delete or first condition write failed on the entering
  reconcile (`ReconcileTheorems.OneWayPauseDefeatsPause`,
  `ReconcileTheorems.FailedStopDefeatsPause`,
  `ReconcileTheorems.FailedDeleteDefeatsPause`,
  `ReconcileTheorems.FailedConditionDefeatsPause`,
  `ReconcileTheorems.PauseQuietsExactly`).
- If the name write after creating an HPA is lost, a later rename leaves two HPAs
  (`ReconcileTheorems.LostNameGivesTwo`, `ReconcileTheorems.EnsureHpaTracksExactly`), a
  rename followed by a pause leaves the lost HPA running
  (`ReconcileTheorems.LostNameSurvivesPause`, `ReconcileTheorems.PauseQuietsExactly`),
  and a loss inside a rename, or a rename back, makes every further reconcile fail
  (`ReconcileTheorems.LostRenameSticks`, `ReconcileTheorems.RenameBackSticks`,
  `ReconcileTheorems.AllWellExact`).
- The Fallback condition is computed from the status before the result it is written
  with (`Fallback.FirstFallbackUnreported`, `Fallback.ConditionStaleExactly`).
- A Value-typed fallback does not reproduce every replica count when there are more
  ready replicas than milli units in the target (`Fallback.ValueLosesReplica`,
  `Fallback.ValueExactForAll`).
- The Event Hub total is wrong once the true sum reaches 2^64 and wraps past zero,
  which three partitions can do (`EventHub.ThreePartitionsVanish`, `EventHub.SaturationExact`).
- Duplicate demands make the pair count accept foreign jobs and refuse matching ones
  (`PipelineDemands.DuplicateAcceptsForeign`, `PipelineDemands.DuplicateRefusesMatch`,
  `PipelineDemands.DuplicateStandsForOther`, `PipelineDemands.DefaultExact`, `PipelineDemands.RequireAllExact`).

## Model

| member | source | states |
|---|---|---|
| KafkaFactors.FindFactors | pkg/scalers/kafka_scaler.go:1095-1117 | for every n the result is strictly increasing and holds exactly the positive divisors of n |
| KafkaFactors.NextFactorLeast | pkg/scalers/kafka_scaler.go:1018-1026 | the chosen count is a divisor of n, the least one whose capacity covers the lag, or n when none does |
| KafkaFactors.NextFactorMonotone | pkg/scalers/kafka_scaler.go:1018-1026 | more lag never asks for fewer consumers |
| KafkaFactors.GetNextFactor | pkg/scalers/kafka_scaler.go:1018-1026 | the search over the sorted factor list agrees with a plain upward search over all numbers |
| KafkaLag.LaggingCounts | pkg/scalers/kafka_scaler.go:981-995 | the count of partitions with lag is the number of partitions that lag, so at most the partition count |
| KafkaLag.EvenMetricDividesPartitions | pkg/scalers/kafka_scaler.go:998-1015 | with even distribution and no lag limit, metric/threshold is a whole divisor of the partition count, namely the least covering one |
| KafkaLag.CappedExact | pkg/scalers/kafka_scaler.go:998-1015 | for every setting of the three flags, the capped lag in closed form: the lag below one threshold past the bound and the bound's thresholds from there on, or as many thresholds as the least covering divisor up to the bound |
| KafkaLag.ReadingExact | pkg/scalers/kafka_scaler.go:828-874 | what a partition contributes without a committed offset, by reset policy and scale-to-zero, and with one that is not suppressed |
| KafkaLag.ApacheFlags | pkg/scalers/apache_kafka_scaler.go:97-102 | which flags the Apache validation accepts: the lag limit only with a topic and without idle consumers |
| KafkaLag.ParseFlags | pkg/scalers/kafka_scaler.go:557-614 | which combinations of the three flags and the topic are accepted, and with what values |
| KafkaLag.MemoryIsLastValid | pkg/scalers/kafka_scaler.go:852-871 | over any run of polls, failing ones included, the remembered offset is the one committed at the last poll that read a valid offset |
| KafkaLag.MemoryWithoutValid | pkg/scalers/kafka_scaler.go:828-871 | a partition that never had a valid offset has no remembered one |
| KafkaLag.MemoryExact | pkg/scalers/kafka_scaler.go:852-871 | memory holds an offset if and only if it is that of the last valid poll |
| KafkaLag.SuppressionExact | pkg/scalers/kafka_scaler.go:852-874 | a valid offset is suppressed exactly when it repeats the last valid one; the activation lag is never affected |
| KafkaLag.WithoutExclusion | pkg/scalers/kafka_scaler.go:852-874 | with the option off nothing is remembered and both lags are equal |
| KafkaScalers.CapTotal | pkg/scalers/kafka_scaler.go:998-1015 | the capping tail computes the order-free capped lag |
| KafkaScalers.PollKeepsPromise | pkg/scalers/kafka_scaler.go:976-1015 | of every poll's metric: with capping, metric/threshold is at most the number of partitions, under the lag limit at most the number that lag; with even distribution and no limit it is a whole divisor of the number of partitions |
| KafkaScalers.PollMetricExact | pkg/scalers/kafka_scaler.go:976-1015 | every poll's two totals from the partitions' readings: the sum of the lags with persistent ones, and the sum of the lags, limited or rounded as the flags say |
| KafkaScalers.UnevenPoll | pkg/scalers/kafka_scaler.go:998-1015 | four partitions at 2, 1, 1 and 0 thresholds, nothing consumed: with the lag limit on the metric asks for three consumers of four partitions |
| KafkaScalers.EvenPromiseExact | pkg/scalers/kafka_scaler.go:976-1015 | with even distribution, every poll asks for a divisor of the number of partitions if and only if the lag limit is off |
| KafkaScalers.ParsedFlagsKeepEven | pkg/scalers/kafka_scaler.go:584-614 | every configuration accepted by the sarama scaler keeps that promise for all polls |
| KafkaScalers.ApacheFlagsAllowUneven | pkg/scalers/apache_kafka_scaler.go:90-107 | the Apache validation accepts a configuration that breaks it at those offsets |
| KafkaScalers.SaramaScaler.GetLagForPartition | pkg/scalers/kafka_scaler.go:815-874 | succeeds exactly for a good offset block; the two lags and the one memory entry it writes; an error writes nothing |
| KafkaScalers.LedgerLawful | pkg/scalers/kafka_scaler.go:981-995 | summed over a set of partitions in no order, totals and memory change by exactly what reading one more partition changes them |
| KafkaScalers.SaramaScaler.ReadTopic | pkg/scalers/kafka_scaler.go:982-994 | the partitions of one topic in any order: for any such ledger, totals and memory are those of exactly the partitions read, and an error names an unread bad one |
| KafkaScalers.SaramaScaler.GetTotalLag | pkg/scalers/kafka_scaler.go:976-1015 | for every walking order the same success condition, exactly those two totals with the cap and divisor promises, and the same memory; a failing poll has read good partitions only |
| KafkaScalers.ApacheScaler.GetLagForPartition | pkg/scalers/apache_kafka_scaler.go:332-389 | succeeds exactly for a non-empty consumer map, a missing entry reading as 0; the two lags and the memory entry |
| KafkaScalers.ApacheScaler.ReadTopic | pkg/scalers/apache_kafka_scaler.go:490-503 | the partitions of one topic in any order, likewise; an error means that nothing was committed |
| KafkaScalers.ApacheScaler.GetTotalLag | pkg/scalers/apache_kafka_scaler.go:485-526 | for every walking order the same success condition, exactly those two totals with the cap and divisor promises, and memory; a failing poll has read nothing |
| KafkaScalers.PollRepeatedly | pkg/scalers/kafka_scaler.go:815-1015 | any run of polls from scratch: each answer is the order-free metric over the memory its predecessors left |
| KafkaScalers.AgreementExact | pkg/scalers/apache_kafka_scaler.go:332-526 | the two scalers agree on a poll, on the answer and on the memory, failing polls included, if and only if every walked partition has a good block or nothing was committed at all |
| KafkaScalers.MissingBlockDisagrees | pkg/scalers/apache_kafka_scaler.go:332-354 | two partitions, one of them committed: the scalers disagree |
| KafkaScalers.PollBoth | pkg/scalers/apache_kafka_scaler.go:485-526 | over any number of such polls both scalers fail together or return the same totals, and keep the same memory, each in its own walking orders |
| HandlerKeys.PrefixUndoesKey | pkg/eventemitter/eventemitter.go:467-478 | for dot-free kind and namespace the prefix helper undoes the key if and only if the name has no dot |
| HandlerKeys.PartsOfKey | pkg/eventemitter/eventemitter.go:481-496 | for dot-free parts the other helpers recover the source name and the handler type |
| EventFanOut.OwnFilterConsulted | pkg/eventemitter/eventemitter.go:379-391 | a dot-free source's handlers are checked against that source's filter |
| EventFanOut.FilterMeaning | pkg/eventemitter/eventfilter.go:41-51 | included types, if any, are the only ones handled; otherwise all but the excluded ones are |
| EventFanOut.DottedNameUnfiltered | pkg/eventemitter/eventemitter.go:379-391 | a dotted source's own filter never rejects anything |
| EventFanOut.FanOutSound | pkg/eventemitter/eventemitter.go:379-400 | sends go only to walked, active, accepting handlers, at most once each |
| EventFanOut.FanOutComplete | pkg/eventemitter/eventemitter.go:379-400 | if no filter rejects, the receivers are exactly the active handlers, in any map order |
| EventFanOut.ServesAllExactly | pkg/eventemitter/eventemitter.go:379-400 | every entitled handler is served in every map order if and only if no filter rejects or nobody is entitled |
| EventFanOut.FanOutMiss | pkg/eventemitter/eventfilter.go:41-51 | two sources, one excluding the type: some order does not serve the other |
| Emitter.StepKeepsInv | pkg/eventemitter/eventemitter.go:331-428 | every step, single iterations of fan-out loops included, keeps the invariant on copies, log, failures, receivers and loops |
| Emitter.FailureRequeues | pkg/eventemitter/eventemitter.go:411-428 | a failing send always has retries left and is requeued with one more |
| EmitterTheorems.BehaviourInv | pkg/eventemitter/eventemitter.go:331-428 | the invariant holds in every state of every run |
| EmitterTheorems.AtMostOneCopyFiveSends | pkg/eventemitter/eventemitter.go:354-428 | in every interleaving each event and key has at most one copy waiting, queued or in flight, and at most five sends |
| EmitterTheorems.SendsBoundedByFanOut | pkg/eventemitter/eventemitter.go:368-428 | an event fanned out to n handlers causes at most 5n sends, and none before fan-out |
| EmitterTheorems.GiveUpUnreachable | pkg/eventemitter/eventemitter.go:411-421 | the give-up branch of the failure callback is never taken |
| EmitterTheorems.DeactivationNeedsFiveFailures | pkg/eventemitter/eventemitter.go:368-377 | a key turns inactive only after one event was sent and failed five times under it |
| EmitterTheorems.DeactivationExact | pkg/eventemitter/eventemitter.go:368-377 | a key turns inactive exactly when a copy that has had its five sends under it comes out of the queue |
| EmitterTheorems.RetrySentExactly | pkg/eventemitter/eventemitter.go:401-408 | a requeued copy with sends left is sent again exactly if its handler is registered and active when it is dequeued, and nothing else is sent |
| EmitterTheorems.FailedIsRetried | pkg/eventemitter/eventemitter.go:354-428 | in every state of every run the next attempt after a failed one is on its way, or was sent, or was given up: no room in time, sends used up, or handler gone or inactive at the dequeue |
| EmitterTheorems.SendsCarryType | pkg/eventemitter/eventemitter.go:341-351 | every copy and send of an event, whenever it happens, has the type it was emitted with |
| EmitterTheorems.RegistrationTakesEffect | pkg/eventemitter/eventemitter.go:176-260 | a registered handler is active and checked against the filter it came with; an unregistered one is gone |
| EmitterTheorems.RejectedNeverReceives | pkg/eventemitter/eventemitter.go:379-408 | no first send or retry reaches a handler whose filter rejected the event at fan-out |
| EmitterTheorems.OneFirstSendPerReceiver | pkg/eventemitter/eventemitter.go:379-400 | in every state of every run each receiver of an event has exactly one first send of it, everyone else none |
| EmitterTheorems.FirstSendsExact | pkg/eventemitter/eventemitter.go:380-400 | from the iteration of the loop that comes to it, in every later state, a handler has one first send if its filter accepted and it was active at that moment, and none otherwise |
| EmitterTheorems.ActiveGetOneFirstSend | pkg/eventemitter/eventemitter.go:379-400 | if no filter rejects, a handler that stays active until the loop is over has exactly one first send from then on, however the iterations interleave with callbacks, deactivations and other loops |
| EmitterTermination.InternalStepDecreases | pkg/eventemitter/eventemitter.go:354-428 | enqueueing, timing out, processing, each iteration of a fan-out loop and both ends of a send strictly decrease the remaining work |
| EmitterTermination.WorkBoundsRuns | pkg/eventemitter/eventemitter.go:354-428 | without new events no run is longer than the work present at its start |
| EmitterClass.EventEmitter.EmitEvent | pkg/eventemitter/eventemitter.go:331-352 | the new event waits under an id that no other copy has, nothing happens while no handler is registered, and the run invariant is kept |
| EmitterClass.EventEmitter.EnqueueEventData | pkg/eventemitter/eventemitter.go:354-362 | the copy joins the end of the channel, which never holds more than 1024, or is dropped on time-out; no other copy is gained or lost, and the run invariant is kept |
| EmitterClass.LoopRunFansOut | pkg/eventemitter/eventemitter.go:379-400 | iteration after iteration without interruption, the loop sends to exactly the handlers of the fan-out specification, in order |
| EmitterClass.EventEmitter.FanOutEvent | pkg/eventemitter/eventemitter.go:379-400 | the loop as a whole ends, does just that and keeps the run invariant |
| EmitterClass.EventEmitter.ConsumeOne | pkg/eventemitter/eventemitter.go:279-285 | one turn of the event loop takes the head of the channel, sends a retry exactly to a registered, active handler, and keeps the run invariant |
| EmitterClass.EventEmitter.FailSend | pkg/eventemitter/eventemitter.go:411-428 | a failing send with its callback requeues the copy, touches no handler and keeps the run invariant |
| EmitterClass.EventEmitter.EmitSucceeded | pkg/eventemitter/eventemitter.go:394-406 | after an accepted send no copy of the event is left under its key, and the run invariant is kept |
| ReconcileTheorems.RenamedMeansNotDesired | controllers/keda/scaledobject_controller.go:549-556 | a found HPA counts as renamed exactly when it does not have the desired name |
| ReconcileTheorems.RunKeepsInv | controllers/keda/scaledobject_controller.go:155-228 | over any run generation entry and loop agree, a loop implies the finalizer, a recorded target an original count |
| ReconcileTheorems.LoopImpliesFinalizer | controllers/keda/scaledobject_controller.go:176-184 | in every reachable state a running loop implies the finalizer and a recorded target implies a recorded original count |
| ReconcileTheorems.OriginalNeverChanges | controllers/keda/scaledobject_controller.go:413-469 | once recorded, the original replica count never changes over any run |
| ReconcileTheorems.OriginalIsFirstObserved | controllers/keda/scaledobject_controller.go:448-470 | it is recorded as the replica count of that moment |
| ReconcileTheorems.FinalizeExact | controllers/keda/scaledobject_finalizer.go:41-82 | once the loop is stopped the replicas are set to the recorded count exactly if the option is on, a target is recorded and both scale calls succeed; finalizing succeeds exactly if the loop stopped and the finalizer was removed |
| ReconcileTheorems.NothingToFinalize | controllers/keda/scaledobject_finalizer.go:39-93 | an object that is gone, or deleted without the finalizer, is left alone |
| ReconcileTheorems.FinalizeRestoresFirstObserved | controllers/keda/scaledobject_finalizer.go:39-92 | through any run in between, the finalizer restores the first observed count and stops the loop |
| ReconcileTheorems.DereferenceSafe | controllers/keda/scaledobject_finalizer.go:50-72 | whenever the finalizer dereferences the original count it is there |
| ReconcileTheorems.GoneOnlyAfterStop | controllers/keda/scaledobject_finalizer.go:39-92 | the object goes away exactly when the loop was stopped and the finalizer removed; no loop outlives it |
| ReconcileTheorems.EnsureHpaTracksExactly | controllers/keda/scaledobject_controller.go:475-520 | ensuring the HPA keeps the status in line with the cluster if and only if no created name is lost |
| ReconcileTheorems.RunTracks | controllers/keda/scaledobject_controller.go:475-540 | over any run with stored names every HPA owned is the one the status names |
| ReconcileTheorems.NeverTwoHpas | controllers/keda/hpa.go:55-71 | over any run with spec changes and failing calls, names of created HPAs stored, the object never owns two HPAs |
| ReconcileTheorems.LostNameGivesTwo | controllers/keda/hpa.go:42-71 | one lost name write and a rename leave two HPAs |
| ReconcileTheorems.StuckForever | controllers/keda/hpa.go:55-71 | once the desired HPA exists and the status leads to another name, every reconcile fails, through any run that leaves spec, annotations and HPAs alone, whatever the calls do |
| ReconcileTheorems.LostRenameSticks | controllers/keda/hpa.go:257-273 | a run from scratch with one name write lost inside a rename ends there |
| ReconcileTheorems.RenameBackSticks | controllers/keda/scaledobject_controller.go:475-520 | so does one that owns two HPAs and is renamed back |
| ReconcileTheorems.ErrorFreeServes | controllers/keda/scaledobject_controller.go:320-342 | an error-free unpaused reconcile ends with the desired HPA present, named by the status, and a loop for the current generation |
| ReconcileTheorems.NamesExact | controllers/keda/scaledobject_controller.go:542-556 | the name looked up, the name desired and the rename test, by the object's fields |
| ReconcileTheorems.ReconcileSucceedsExactly | controllers/keda/scaledobject_controller.go:155-346 | exactly which calls have to succeed, in which state, for a reconcile of an unpaused object to succeed |
| ReconcileTheorems.ReconcileHpasExactly | controllers/keda/scaledobject_controller.go:475-520 | exactly which HPAs it leaves, whatever fails |
| ReconcileTheorems.ReconcileRecordsExactly | controllers/keda/scaledobject_controller.go:287-470 | exactly when it records the target and the original count; up to there no loop or HPA call is made |
| ReconcileTheorems.PausedReconcileExact | controllers/keda/scaledobject_controller.go:244-280 | exactly when a reconcile of an annotated object succeeds |
| ReconcileTheorems.EditRestartsLoop | controllers/keda/scaledobject_controller.go:325-342 | an error-free reconcile after a change of the spec leaves a loop for the new generation |
| ReconcileTheorems.AllWellExact | controllers/keda/scaledobject_controller.go:232-346 | with a valid spec and no failing call the reconcile is error-free if and only if not (the desired HPA exists and the status leads to another name) |
| ReconcileTheorems.TrackedNotMisled | controllers/keda/scaledobject_controller.go:542-547 | while every HPA owned is the one the status names, that does not happen |
| ReconcileTheorems.SecondReconcileIdle | controllers/keda/scaledobject_controller.go:320-342 | a further reconcile of a served object creates, deletes, starts and stops nothing, however its calls turn out |
| ReconcileTheorems.PauseQuietsExactly | controllers/keda/scaledobject_controller.go:244-280 | with the annotation, no HPA and no loop remain if and only if there was none, or the pause was entered now, the loop stopped, and the object owned no HPA or only the one its status leads to, found and deleted |
| ReconcileTheorems.LostNameSurvivesPause | controllers/keda/scaledobject_controller.go:523-540 | an HPA whose name was lost outlives a pause in which no call fails, and every reconcile after it |
| ReconcileTheorems.PauseHolds | controllers/keda/scaledobject_controller.go:244-255 | once quiet, every run until the annotation is removed leaves no HPA and no loop |
| ReconcileTheorems.PauseFromScratch | controllers/keda/scaledobject_controller.go:244-280 | from scratch, through any run in which created names are stored, a pause whose calls go through leaves no HPA and no loop until the annotation is removed |
| ReconcileTheorems.PauseRoundTrip | controllers/keda/scaledobject_controller.go:241-285 | after a pause entered that way an error-free reconcile restores HPA and loop, even if the name changed or the first request failed, and unless a created name is lost nothing stands in its way |
| ReconcileTheorems.ConditionFollowsAnnotations | controllers/keda/scaledobject_controller.go:244-285 | an error-free reconcile leaves the Paused condition true exactly when some pause annotation is set |
| ReconcileTheorems.UnpauseRearms | controllers/keda/scaledobject_controller.go:281-285 | an error-free reconcile without pause annotations clears the condition, so the next pause is entered |
| ReconcileTheorems.PausedConditionSkipsStop | controllers/keda/scaledobject_controller.go:245-253 | with the condition already true, no number of reconciles stops or deletes anything |
| ReconcileTheorems.OneWayPauseDefeatsPause | controllers/keda/scaledobject_controller.go:244-282 | a one-way pause followed by a full one keeps HPA and loop running |
| ReconcileTheorems.FailedStopDefeatsPause | controllers/keda/scaledobject_controller.go:258-271 | if stopping the loop fails on the entering reconcile, loop and HPA of a served object stay for good |
| ReconcileTheorems.FailedDeleteDefeatsPause | controllers/keda/scaledobject_controller.go:258-275 | if finding or deleting the HPA fails, the HPA stays for good |
| ReconcileTheorems.FailedConditionDefeatsPause | controllers/keda/scaledobject_controller.go:258-265 | if the first condition write fails, nothing is stopped, the closing write persists the condition, and loop and HPA stay for good |
| ReconcileClass.ScaledObjectReconciler.EnsureFinalizer | controllers/keda/scaledobject_finalizer.go:96-109 | success means exactly that the finalizer is on the object |
| ReconcileClass.ScaledObjectReconciler.CheckTarget | controllers/keda/scaledobject_controller.go:395-472 | the new status, or which failure leaves it unchanged |
| ReconcileClass.ScaledObjectReconciler.CreateAndDeploy | controllers/keda/hpa.go:55-71 | success means that the desired HPA exists and is recorded; a failure leaves the status alone and an HPA behind only if its name was not stored; an existing HPA of that name always fails it |
| ReconcileClass.ScaledObjectReconciler.EnsureHpaExists | controllers/keda/scaledobject_controller.go:475-520 | the whole new state, and that the HPA stays tracked except when a created name is lost |
| ReconcileClass.ScaledObjectReconciler.EnsureHpaDeleted | controllers/keda/scaledobject_controller.go:523-540 | success means that the HPA looked up is gone; no HPA remains exactly when there was no other |
| ReconcileClass.ScaledObjectReconciler.Scale | controllers/keda/scaledobject_controller.go:287-346 | success means that the desired HPA exists and is recorded and a loop runs for this generation; a misled object never succeeds and stays misled |
| ReconcileClass.ScaledObjectReconciler.EnterPause | controllers/keda/scaledobject_controller.go:255-280 | nothing is left running exactly when nothing was, or every call went through and the object owned no HPA but the one its status leads to |
| ReconcileClass.ScaledObjectReconciler.FinalizeScaledObject | controllers/keda/scaledobject_finalizer.go:39-92 | the whole new state and the replicas by the object's fields; the unguarded dereference needs only the run invariant |
| ReconcileClass.ScaledObjectReconciler.Reconcile | controllers/keda/scaledobject_controller.go:155-228 | keeps the run invariant, and tracking when created names are stored; success on an unpaused object means served, a served one sees no call, a stuck one fails and stays stuck; when a paused one is quiet |
| ReconcileClass.ReconcileRepeatedly | controllers/keda/scaledobject_controller.go:155-228 | any number of reconciles is a run of the model and never owns two HPAs |
| Gauges.TrackTally | controllers/keda/scaledobject_controller.go:612-637 | replacing or dropping an entry changes each tally by the difference of the two entries' worths |
| Gauges.PlanEffect | controllers/keda/scaledobject_controller.go:618-635 | the increments and decrements of one update net to exactly that difference |
| Gauges.CrdTallyCounts | pkg/metricscollector/prommetrics.go:298-312 | the tally of a resource gauge is the number of entries of that namespace, those without a namespace being in "default" |
| GaugeRuns.StepKeepsInv | controllers/keda/scaledjob_controller.go:358-397 | every single tick of either controller keeps gauge equal to settled tallies minus ticks to come |
| GaugeRuns.NeverNegative | pkg/metricscollector/prommetrics.go:286-312 | no gauge is ever negative, not even between two ticks of interleaved updates |
| GaugeRuns.TriggerGaugeExact | controllers/keda/scaledjob_controller.go:358-397 | with no update under way each non-empty trigger type's gauge is the multiplicity of the type in the trigger lists of both tracking maps, and the empty type's is 0 |
| GaugeRuns.ResourceGaugeExact | controllers/keda/scaledobject_controller.go:612-651 | a resource gauge is the number of tracked entries of its kind in that namespace, or without one for "default", whatever the other controller is doing |
| GaugeRuns.DeleteIdempotent | controllers/keda/scaledobject_controller.go:639-651 | deleting an untracked resource changes nothing |
| GaugeRuns.WholeUpdateRuns | controllers/keda/scaledobject_controller.go:612-637 | run tick by tick without interruption, an update bumps the gauges by its plan and writes its entry |
| GaugeRuns.Collector.IncrementTriggerTotal | pkg/metricscollector/prommetrics.go:286-290 | issues one tick up for a non-empty type and none for the empty one; the gauges show exactly the ticks issued |
| GaugeRuns.Collector.DecrementTriggerTotal | pkg/metricscollector/prommetrics.go:292-296 | issues one tick down for a non-empty type and none for the empty one; the gauges show exactly the ticks issued |
| GaugeRuns.Collector.TakeOff | controllers/keda/scaledobject_controller.go:618-623 | the loop issues exactly the entry's ticks downward, in order |
| GaugeRuns.Collector.PutOn | controllers/keda/scaledobject_controller.go:625-634 | the loop issues exactly the entry's ticks upward, in order, and collects the trigger types |
| GaugeRuns.Collector.UpdatePromMetrics | controllers/keda/scaledjob_controller.go:358-384 | issues exactly the planned ticks in order, ends where the tick model ends and writes this entry only; the gauges stay balanced with both tracking maps |
| GaugeRuns.Collector.UpdatePromMetricsOnDelete | controllers/keda/scaledjob_controller.go:386-397 | likewise for a delete; an untracked key changes nothing |
| Fallback.CounterIsTrailingRun | pkg/fallback/fallback.go:45-94 | over any interleaving of results and prunings each retained metric's counter is, as an int32, the number of its errors since its last success or pruning |
| Fallback.OthersUntouched | pkg/fallback/fallback.go:45-66 | a result leaves every other metric's entry alone |
| Fallback.ConditionLagsOneResult | pkg/fallback/fallback.go:235-257 | the Fallback condition tells which runs exceeded the threshold before the result it is written with |
| Fallback.ConditionStaleExactly | pkg/fallback/fallback.go:235-257 | it is stale if and only if no other metric is over and this result takes its metric across the threshold |
| Fallback.FirstFallbackUnreported | pkg/fallback/fallback.go:235-257 | threshold 0 and one error: the metric falls back and the condition says that none does |
| Fallback.Chosen | pkg/fallback/fallback.go:161-187 | the replica count of each behaviour: fixed, current, the larger or the smaller of the two |
| Fallback.ValueExact | pkg/fallback/fallback.go:189-222 | for a Value metric the HPA formula returns the chosen count if and only if the division's remainder is below the target |
| Fallback.ValueExactForAll | pkg/fallback/fallback.go:189-222 | it returns every count if and only if ready replicas do not exceed the target in milli units |
| Fallback.ValueLosesReplica | pkg/fallback/fallback.go:189-222 | a target of one milli unit with two ready replicas turns one replica into none |
| Fallback.StandInReproduces | pkg/fallback/fallback.go:161-222 | from the stand-in and the metric's own target the HPA computes the chosen count, always for AverageValue and for Value exactly under the remainder test |
| Fallback.CompositeStandInReproduces | pkg/fallback/fallback.go:189-222 | with modifiers the same holds of their target, in whole units, and type |
| Fallback.TenTimesThree | pkg/fallback/fallback.go:214-222 | an average target of 10 and three replicas give 30, in milli units |
| Fallback.AttemptExact | pkg/fallback/fallback.go:70-90 | past the threshold: the error is passed on exactly if current replicas are needed and unknown, and falling back fails exactly for a Value metric without ready replicas |
| Fallback.EnabledExact | pkg/fallback/fallback.go:106-115 | when a fallback is in force |
| Fallback.Tracker.GetMetricsWithFallback | pkg/fallback/fallback.go:45-94 | the status follows the history, a stand-in is given only when the trailing run exceeds the threshold, and which answer is given once it does |
| Fallback.Tracker.UpdateHealthStatus | controllers/keda/hpa.go:389-399 | pruning keeps exactly the entries of the named metrics |
| EventHub.UnprocessedExact | pkg/scalers/azure_eventhub_scaler.go:212-238 | no int64 step overflows, and the count is the circular distance unless that is within the stale threshold of a full turn |
| EventHub.BehindCountsZero | pkg/scalers/azure_eventhub_scaler.go:217-235 | a read behind its checkpoint counts 0 if and only if it is behind by less than the stale threshold or by the whole buffer |
| EventHub.WithoutCheckpointExact | pkg/scalers/azure_eventhub_scaler.go:241-248 | without checkpoint the retained events are counted, with the two exceptions |
| EventHub.PartitionExact | pkg/scalers/azure_eventhub_scaler.go:189-210 | an empty partition counts 0 without a checkpoint lookup, a missing checkpoint counts what is retained, an unreadable one is an error |
| EventHub.SaturationExact | pkg/scalers/azure_eventhub_scaler.go:307-317 | the negative check gives min(true sum, MaxInt64) if and only if the sum fits or is, modulo 2^64, at least MaxInt64 |
| EventHub.SaturationBelow | pkg/scalers/azure_eventhub_scaler.go:307-317 | in particular for every sum below 2^64 |
| EventHub.TwoPartitionsSaturate | pkg/scalers/azure_eventhub_scaler.go:293-317 | with at most two partitions the total always saturates correctly |
| EventHub.ThreePartitionsVanish | pkg/scalers/azure_eventhub_scaler.go:293-317 | with three, a true total of 2^64 reads 0 |
| EventHub.CapExact | pkg/scalers/azure_eventhub_scaler.go:262-268 | for a positive threshold the product does not overflow and metric/threshold is the smaller of total/threshold and the partition count |
| EventHub.NegativeThresholdUncapped | pkg/scalers/azure_eventhub_scaler.go:262-268 | a negative threshold never caps |
| EventHub.GetMetricsAndActivity | pkg/scalers/azure_eventhub_scaler.go:284-327 | the loop's metric is the saturated true sum, capped; unreadable partitions and a zero threshold fail; metric/threshold never exceeds the partitions |
| WorkflowRunCache.RunsUrlInjective | pkg/scalers/github_runner_scaler.go:567-569 | different repositories or statuses have different urls |
| WorkflowRunCache.RunsUrlParts | pkg/scalers/github_runner_scaler.go:568-568 | owner, repository and status stand in their places in the url |
| WorkflowRunCache.UncachedAnswer | pkg/scalers/github_runner_scaler.go:569-587 | with ETags off: 404 is an absent repository, other refusals are errors with their code, a page is decoded, and the cache stays as it is |
| WorkflowRunCache.OwnRequestsFit | pkg/scalers/github_runner_scaler.go:540-541 | the jobs and repository requests never touch a workflow-run url |
| WorkflowRunCache.FetchAgrees | pkg/scalers/github_runner_scaler.go:567-598 | while each remembered ETag is paired with its runs, a request answers as without ETags and keeps the pairing |
| WorkflowRunCache.FetchAgreesExactly | pkg/scalers/github_runner_scaler.go:567-598 | a request answers as without ETags, whatever the server has, if and only if a remembered ETag of a page that decodes comes with that page's runs |
| WorkflowRunCache.CacheTransparent | pkg/scalers/github_runner_scaler.go:482-598 | after any run of requests, 404s and failures included, the answer with ETags on is the answer with ETags off, and previous runs are never missing |
| WorkflowRunCache.UndecodableIsRemembered | pkg/scalers/github_runner_scaler.go:517-587 | if a 200 does not decode its ETag is remembered all the same, and the same page then finds no previous runs |
| WorkflowRunCache.UntaggedIsConfused | pkg/scalers/github_runner_scaler.go:517-598 | a 200 without ETag in between makes a later 304 answer with the wrong runs |
| WorkflowRunCache.GithubRunnerScaler.GetWorkflowRuns | pkg/scalers/github_runner_scaler.go:567-598 | answer and cache; under the pairing, the answer without ETags and the pairing again |
| Common.JoinUndoesSplit | pkg/scalers/azure_pipelines_scaler.go:454-454 | the pieces of a split, which hold no separator, join to the text again |
| PipelineDemands.StripAgentVersion | pkg/scalers/azure_pipelines_scaler.go:439-448 | the loop returns the stripped list |
| PipelineDemands.StrippedElements | pkg/scalers/azure_pipelines_scaler.go:439-448 | stripping keeps exactly the demands without the Agent.Version prefix, as often as listed |
| PipelineDemands.KeyDecides | pkg/scalers/azure_pipelines_scaler.go:459-463 | two demands match exactly if they are equal, letter case apart when it is to be ignored |
| PipelineDemands.RelatedIsSuits | pkg/scalers/azure_pipelines_scaler.go:451-476 | the relation on the compared lists is the relation on the demands as written, the scaler's separated by commas |
| PipelineDemands.PairsDecideSubset | pkg/scalers/azure_pipelines_scaler.go:456-468 | against a duplicate-free list the nested count reaches the length exactly for a subset |
| PipelineDemands.PairsSymmetric | pkg/scalers/azure_pipelines_scaler.go:456-468 | the nested count does not depend on which list is outside |
| PipelineDemands.DefaultExact | pkg/scalers/azure_pipelines_scaler.go:451-476 | by default the count decides job within scaler for every job if and only if the scaler's list has no duplicates |
| PipelineDemands.IgnoreOthersExact | pkg/scalers/azure_pipelines_scaler.go:451-476 | with requireAllDemandsAndIgnoreOthers it decides scaler within job for every scaler if and only if the job's list has no duplicates |
| PipelineDemands.DistinctExact | pkg/scalers/azure_pipelines_scaler.go:456-475 | with both lists duplicate-free every mode decides its relation, equality for requireAllDemands |
| PipelineDemands.RequireAllExact | pkg/scalers/azure_pipelines_scaler.go:451-476 | with requireAllDemands the count decides equality for every duplicate-free job if and only if the scaler's list has no duplicates |
| PipelineDemands.DuplicateAcceptsForeign | pkg/scalers/azure_pipelines_scaler.go:456-475 | by default a demand the scaler lists twice lets in a job with a demand it lacks |
| PipelineDemands.DuplicateRefusesMatch | pkg/scalers/azure_pipelines_scaler.go:456-475 | by default a demand the scaler lists twice keeps out a job with just that demand |
| PipelineDemands.DuplicateStandsForOther | pkg/scalers/azure_pipelines_scaler.go:456-475 | with requireAllDemands a demand the job lists twice stands in for one it lacks |
| PipelineDemands.CanAgentDemandFulfilJob | pkg/scalers/azure_pipelines_scaler.go:451-476 | the nested loops compute that decision, which is the relation for duplicate-free lists |
| PipelineDemands.CanAgentParentFulfilJob | pkg/scalers/azure_pipelines_scaler.go:479-492 | true exactly when agents are listed and one has the parent's name |
| PipelineDemands.StripDeadJobs | pkg/scalers/azure_pipelines_scaler.go:429-437 | the loop returns the unfinished jobs in order |
| PipelineDemands.QueueLength | pkg/scalers/azure_pipelines_scaler.go:405-426 | the queue length is the number of unfinished jobs that match |
| PipelineDemands.QueueLengthCountsRelated | pkg/scalers/azure_pipelines_scaler.go:405-476 | with demands, no parent and no demand listed twice the jobs that count are exactly the unfinished ones whose demands as written are in the relation |
| PipelineDemands.QueueLengthOtherwise | pkg/scalers/azure_pipelines_scaler.go:407-424 | with a parent, the unfinished jobs it is a matched agent of; with neither, all unfinished jobs |
| CronWindow.GetMetricsAndActivity | pkg/scalers/cron_scaler.go:128-150 | with both next instants ahead, active exactly when the next end is not after the next start; the desired replicas or 0 |
| CronWindow.AlternatingOpens | pkg/scalers/cron_scaler.go:128-142 | for alternating schedules, active exactly when the latest instant at or before now is a start |
| CronWindow.WindowExact | pkg/scalers/cron_scaler.go:84-142 | for disjoint unbounded schedules that is so at every instant if and only if starts and ends alternate |

## Left out

- Clients, TLS, SASL, credentials, HTTP, gRPC and SDK calls, logging, `cmd/*`, certificates: their results are parameters of the model.
- The paused-replicas annotation: it re-enters the normal reconcile on purpose and keeps an HPA.
- HPA contents, and the label and annotation comparisons of `updateHPAIfNeeded`: one outcome says whether building or updating the HPA succeeds.
- HPAs of the same name that belong to someone else, stale reads from the client cache, and the cluster's garbage collection after the object is gone.
- Recreating a deleted ScaledObject under the same name: a run is the life of one object.
- ReconcileTheorems.NeverTwoHpas: assumes that the status write right after a successful creation succeeds; `LostNameGivesTwo` shows that it must. A name write that fails where nothing is created is not excluded: there the creation outcome is unused and may be taken as a failure.
- Kafka offsets and lags are unbounded integers; the source uses int64. `math.Sqrt` is the exact integer square root.
- Fallback values are exact rationals truncated to milli units, without float64 rounding or int64 overflow; status patches are taken to succeed.
- Fallback.ConditionStaleExactly: for runs of fewer than 2^31 - 1 errors of the metric, where the int32 counter has not wrapped.
- Upper and lower case: ASCII only, for identifiers and for case-insensitive demands.
- The emitter's locks: a fan-out loop holds the filter lock for reading, so handlers are registered and removed between loops only; that the loop takes the lock again for every handler, and so can block itself on a waiting writer, is not modelled. Destinations of a CloudEventSource stay fixed.
- CronWindow.WindowExact: the clock is read once, where the source reads it three times; schedules fire at integer instants without end.
- GitHub job and repository caches, which are keyed more coarsely than the urls of their ETags.
- EventHub.GetMetricsAndActivity: the conversion of the metric to a float64 milli quantity.
- NATS JetStream leader caching, `aggregateMetricsFromMultipleEndpoints`, the schema generator, the OpenTelemetry collector and the remaining scalers: no deterministic result, or single queries that would only add easy members.
