# wadm, verified

wadm watches a wasmCloud lattice. It keeps a copy of the lattice's state, compares it with what stored
application manifests ask for, and issues commands until the two agree. This project models the parts of
wadm where that can go wrong and proves what they promise. `dafny verify dfyconfig.toml` checks all of it.

## What is modelled

- **Observed state** (`lattice_state`, `events`, `lattice_spec`, `event_worker`): hosts, components and
  providers, the nine kinds of event that change them, and the reaper. `event_worker` has the handlers and
  the reap pass as methods over three mutable maps; each is proved equal to a function of the old state,
  and the properties are proved of those functions: `event_effects` (what each event does to each stored
  field), `lattice_invariants` (every run), `self_stabilization` (repair of any state), `reachable_states` and
  `stale_providers` (runs from the empty store, and what is not repaired), `count_refinement` (events as point
  updates of a count), `crash_retry` (handlers that stop half way), `reap_deadline` (when a silent host goes).
- **Shared storage** (`kv_store`): the read, compute, compare-and-swap loop, first as one process runs it
  among others, then as any interleaving of any number of loops.
- **Backoff** (`commands`, `backoff_wrapper`, `backoff_answers`, `peer_notices`): the expected-event list, the
  backoff status, two restartable timers with an explicit clock, what each step answers, and the notices
  between copies of one wrapper.
- **Scalers** (`spreads`, `compute_spread`, `component_daemon_scaler`, `provider_spread_scaler`,
  `provider_convergence`, `spread_rounds`, `provider_daemon_scaler`, `placement`): the reconcile passes with an
  arbitrary order of hosts, where they start and stop, and the closed loop of pass, host answers and state
  update.
- **Applications** (`manifest`, `stored_manifest`, `api_handlers`, `api_replies`, `deploy_safety`,
  `model_storage`): version histories, the four requests that change them with their replies, and the two keys
  under which they are stored.
- **From manifest to scalers** (`oam_labels`, `validation`, `validity`, `manifest_rules`, `conversion`,
  `conversion_correctness`): the checks a manifest passes before it is stored, and the step that they make
  total.
- **Names** (`splitting`, `names`): API subjects and consumer names, written and read back.

## Where the code does less than it seems to

Each of these is a proved statement below; the code is modelled as it is.

- A redelivered scale-to-zero event of an unknown component stores a zero-count entry, so redelivery keeps
  the state only under the condition of `CountRefinement.RedeliveryKeepsState` (`RedeliveryFails`). The counts
  never change.
- A heartbeat decides whether a component is up to date by comparing the number of its entries on one host
  with the number of hosts it runs on, and so keeps stale entries of a component that runs on several hosts
  (`SelfStabilization.HeartbeatEntriesIff`, `HeartbeatKeepsStaleEntry`).
- A heartbeat that describes one component twice and differently, delivered again, changes the state, and so
  does one that made a component known before its claims were (`CrashRetry.HeartbeatRetriedIff`,
  `HeartbeatRetryFails`, `RenamedRetryFails`).
- A provider's record can list a host whose record does not list the provider, a stale host below. A start of
  the provider never repairs that (`StaleProviders.StaleUntil`), and provider scalers start it there again and
  again: a daemon scaler always (`ProviderDaemonScalers.NeverRests`, `StaleProviders.DaemonRestless`), a spread
  scaler when too few other hosts are free or its choices fall badly (`SpreadRounds.NeverSettles`,
  `SettlesForEveryChoiceIff`, `StaleProviders.SpreadRestless`).
- The provider spread scaler subtracts providers run by others twice, so it can rest below its count and
  report success (`ProviderConvergence.ReachesCountIff`, `RestsBelowIff`, `RestsBelowItsCount`).
- Cleaning up a provider daemon scaler starts the provider on every eligible host that does not run it, and
  repeated cleanup never ends while a host is eligible (`ProviderDaemonScalers.CleanupNeverRests`).
- The daemon scaler for components counts entries that it cannot change; `ComponentDaemonScalers.TwoRounds`
  says exactly when it reaches its number, and `TwoRoundsFail` gives a state from which it does not.
- Validation panics on a trait of type link whose properties were parsed as a scaler's
  (`DeploySafety.PanicIff`, `PutPanics`), and accepts a scaler trait whose properties were parsed as a link,
  which then scales nothing (`ConversionCorrectness.ScalersCountTraitsIff`, `MistypedScalerIsLost`).
- Two components of one manifest whose names differ only in case or punctuation get one generated id
  (`ConversionCorrectness.GeneratedIdsCollideIff`, `IdsCollideInOneManifest`).
- A link to a shared component misses it when only one of the two manifests chooses an id
  (`ConversionCorrectness.SharedReferenceIff`, `SharedReferenceFails`).
- Repeating an interrupted store of an application with the revision it was first called with can fail for
  good (`ModelStore.SetRetriedIff`, `SetRetryFails`).
- Lattice ids with dashes can share storage keys (`ModelStore.ShareKeysIff`, `DashedLatticesShareKeys`); ids
  with dots or underscores are read back as others (`Names.DottedLatticeIsLost`, `UnderscoredLatticeIsLost`).
- Spreads that all weigh nothing divide by zero (`ComputeSpread.Compute`).

## Conventions

Times, claims, host choices, revisions given out by the store and answers of other parts are parameters.
A handler, a reap pass, a reconcile pass, an API request and a timer firing are each one step; where a
property is about stopping in between, the writes are the steps. Counts are unbounded integers except where
the code casts to 32 bits, which is written out. A panic is a value (`None`, or the reply `Panicked`).
Scaler ids are opaque. The provider scalers name a host by its key where the code uses the record's id;
the two agree in every reachable state (`LatticeInvariants.RunKeepsConsistent`).

## Model

| member | source | states |
|---|---|---|
| EventWorkers.EventWorker.ScaleInstances | crates/wadm/src/workers/event.rs:86-121 | the in-place update of a component's entries leaves exactly the set-one-entry function of the old ones |
| EventWorkers.EventWorker.HandleComponentScaled | crates/wadm/src/workers/event.rs:68-159 | all three maps after the event |
| EventWorkers.EventWorker.HandleHostHeartbeat | crates/wadm/src/workers/event.rs:162-185 | the host record is replaced, then providers, then components are merged from the report |
| EventWorkers.EventWorker.HeartbeatProviderUpdate | crates/wadm/src/workers/event.rs:619-676 | the loop writes exactly the updates that the descriptions call for, in order |
| EventWorkers.EventWorker.HeartbeatComponentUpdate | crates/wadm/src/workers/event.rs:549-616 | the same for components, skipping those that the code takes to be up to date |
| EventWorkers.EventWorker.HandleHostStarted | crates/wadm/src/workers/event.rs:187-199 | a started host is stored fresh and nothing else changes |
| EventWorkers.EventWorker.HandleHostStopped | crates/wadm/src/workers/event.rs:201-294 | the state after any prefix of the five writes, and when the handler completes |
| EventWorkers.EventWorker.HandleProviderStarted | crates/wadm/src/workers/event.rs:304-376 | all three maps after the event; a host record changes only when the provider is new to it |
| EventWorkers.EventWorker.HandleProviderStopped | crates/wadm/src/workers/event.rs:378-438 | the provider goes from the host, and the host from the provider, which is deleted with its last host |
| EventWorkers.EventWorker.HandleProviderHealthCheck | crates/wadm/src/workers/event.rs:440-483 | one provider's status on one host changes, and nothing else |
| EventWorkers.EventWorker.DoWork | crates/wadm/src/workers/event.rs:854-936 | every event has the effect of its handler; the rest leave the state alone |
| EventWorkers.EventWorker.ReapHosts | crates/wadm/src/storage/reaper.rs:123-152 | exactly the hosts silent for more than two intervals go |
| EventWorkers.EventWorker.ReapComponents | crates/wadm/src/storage/reaper.rs:155-199 | entries survive exactly on hosts that are stored and list the component |
| EventWorkers.EventWorker.ReapProviders | crates/wadm/src/storage/reaper.rs:202-245 | hosts survive exactly when stored, though only providers whose number of hosts fell are written |
| EventWorkers.EventWorker.Reap | crates/wadm/src/storage/reaper.rs:96-121 | the three passes in their order |
| EventWorkers.KeptAll | crates/wadm/src/storage/reaper.rs:202-228 | comparing numbers of hosts is enough to notice any lost host |
| EventEffects.HeartbeatHost | crates/wadm/src/storage/state.rs:322-361 | after a heartbeat the host's record has exactly its labels, name, uptime, version and time, and no other host's record changes |
| EventEffects.HeartbeatHostComponents | crates/wadm/src/storage/state.rs:322-361 | it lists exactly the described components, each with the number of its last description |
| EventEffects.HeartbeatHostProviders | crates/wadm/src/storage/state.rs:322-361 | and exactly the described providers, each as first described |
| EventEffects.HeartbeatComponentRecord | crates/wadm/src/workers/event.rs:486-616 | the last description that does not match the record makes it: one entry on the host, the other hosts' entries as before, and for a new component its claims |
| EventEffects.HeartbeatOtherComponent | crates/wadm/src/workers/event.rs:549-616 | without such a description the record stays |
| EventEffects.HeartbeatProviderRecord | crates/wadm/src/workers/event.rs:619-676 | the last description gives a provider the name, reference and host it lacks |
| EventEffects.HeartbeatOtherProvider | crates/wadm/src/workers/event.rs:619-676 | a provider that is not described stays |
| EventEffects.HostStarts | crates/wadm/src/workers/event.rs:187-199 | a started host is stored with its labels and name, listing nothing |
| EventEffects.HostStops | crates/wadm/src/workers/event.rs:201-294 | a stopped host goes, what it lists loses it, what has no other host goes too, and all else stays |
| EventEffects.HostStopsPartway | crates/wadm/src/workers/event.rs:201-294 | which of the maps each of the five writes changes |
| EventEffects.ComponentAfterFirst | crates/wadm/src/workers/event.rs:205-241 | the first stores the components that still run, without the host |
| EventEffects.ProviderAfterThird | crates/wadm/src/workers/event.rs:251-277 | the third does the same for providers |
| EventEffects.ProviderStarts | crates/wadm/src/workers/event.rs:304-376 | which fields of the provider a start fills in, and when it changes the host's record |
| EventEffects.ProviderStops | crates/wadm/src/workers/event.rs:378-438 | host and provider lose each other, and a provider without hosts goes |
| EventEffects.HealthChecks | crates/wadm/src/workers/event.rs:440-483 | a failed check stores failed, a passed one running, a plain one running unless failed is stored |
| EventEffects.ScalesOnHost | crates/wadm/src/workers/event.rs:126-150 | the host lists the number, or the component no more when it is 0 |
| EventEffects.ScalesComponent | crates/wadm/src/workers/event.rs:68-159 | the event's entry is set or removed and every other entry stays; the rest of the record is the event's |
| EventEffects.ScaledHasEntries | crates/wadm/src/workers/event.rs:108-125 | the component is stored exactly while it has an entry |
| EventEffects.OthersChangeNothing | crates/wadm/src/workers/event.rs:854-936 | no other event changes anything |
| EventEffects.ReapsHosts | crates/wadm/src/storage/reaper.rs:123-152 | exactly the hosts silent for more than two intervals go |
| EventEffects.ReapsComponent | crates/wadm/src/storage/reaper.rs:155-199 | a component keeps exactly its entries on stored hosts that list it |
| EventEffects.ReapsProvider | crates/wadm/src/storage/reaper.rs:202-245 | a provider keeps exactly its stored hosts |
| EventEffects.LabelsStay | crates/wadm/src/workers/event.rs:162-199 | in any run a stored host that reports nothing keeps its labels |
| EventEffects.LabelsAreTheLast | crates/wadm/src/workers/event.rs:162-199 | in any run the labels of a stored host are those of its last heartbeat or start |
| LatticeInvariants.ComponentAfterHeartbeat | crates/wadm/src/workers/event.rs:549-616 | per component: the last description that is not skipped makes the record, and without one nothing changes |
| LatticeInvariants.HeartbeatComponents | crates/wadm/src/workers/event.rs:549-616 | per component: what a heartbeat adds for its host and that nothing of other hosts changes |
| LatticeInvariants.ProviderAfterHeartbeat | crates/wadm/src/workers/event.rs:619-676 | per provider: the last description decides, and stored fields are only filled in |
| LatticeInvariants.HostStoppedAt | crates/wadm/src/workers/event.rs:201-294 | per key: what the stopped host listed loses it, and goes exactly when that was its last host |
| LatticeInvariants.ActKeepsLists | crates/wadm/src/workers/event.rs:68-483 | every event and reap pass keeps id = key and that what a host lists lists the host |
| LatticeInvariants.ActKeepsNonEmpty | crates/wadm/src/workers/event.rs:68-483 | every event and reap pass keeps that no component, per-host set or provider is empty |
| LatticeInvariants.RunListsBack | crates/wadm/src/workers/event.rs:162-199 | from any state with id = key, every host that has reported in a run is listed back |
| LatticeInvariants.RunKeepsConsistent | crates/wadm/src/workers/event.rs:68-483 | every run of events and reap passes keeps all the invariants |
| LatticeInvariants.ReapEstablishes | crates/wadm/src/storage/reaper.rs:96-245 | after a reap pass a component lists a host if and only if the host lists it; a provider that a host lists lists the host; every host a provider lists is stored |
| LatticeInvariants.RunThenReap | crates/wadm/src/storage/reaper.rs:96-245 | so every run from a consistent state that ends in a reap pass ends so: both ways for components, one way for providers |
| SelfStabilization.HeartbeatEntriesIff | crates/wadm/src/workers/event.rs:549-616 | after a heartbeat with distinct ids a component has exactly the reported entry on the host if and only if it was not skipped as up to date while running on several hosts |
| SelfStabilization.HeartbeatKeepsStaleEntry | crates/wadm/src/workers/event.rs:556-580 | a run from the empty store that leads to where it does not: a second entry of the host, as many entries as hosts, and the report of the first entry leaves the second |
| SelfStabilization.HeartbeatReportsCount | crates/wadm/src/workers/event.rs:549-616 | some entry has the reported count in any case |
| SelfStabilization.HeartbeatsAgree | crates/wadm/src/workers/event.rs:162-185 | later heartbeats of other hosts do not disturb that |
| SelfStabilization.BeatsGiveProviders | crates/wadm/src/workers/event.rs:619-676 | after heartbeats a provider lists exactly the hosts it listed before and those that reported it: no heartbeat removes one |
| SelfStabilization.Stabilizes | crates/wadm/src/storage/reaper.rs:123-199 | from any state with id = key: a heartbeat of each host of a set, then a reap pass that only they survive, leaves exactly them, components listed both ways, the reported counts present, exactly the reported entries unless the last heartbeat skipped them wrongly, and providers listing exactly what they listed before or was reported |
| SelfStabilization.StabilizesUnderTraffic | crates/wadm/src/storage/reaper.rs:123-199 | with any other events in between: components and hosts list each other both ways, what a host lists among providers lists it, and every host a provider lists is stored |
| CountRefinement.ScaledSetsOnePoint | crates/wadm/src/workers/event.rs:78-158 | seen as counts, a scale event is exactly one point set to its number |
| CountRefinement.RedeliveryKeepsView | crates/wadm/src/workers/event.rs:78-158 | so delivering it again changes no count |
| CountRefinement.RedeliveryKeepsState | crates/wadm/src/workers/event.rs:78-158 | delivering it again keeps the whole state if and only if its number is positive or the component has another entry |
| CountRefinement.RedeliveryFails | crates/wadm/src/workers/event.rs:78-158 | the input at which it does not: in an empty store, every event that scales to zero |
| CountRefinement.ScaledChangesCountForHost | crates/wadm/src/storage/state.rs:164-169 | the count for the host of the event changes by new minus old, stored or not, and for the others not at all |
| CountRefinement.ScaledChangesCount | crates/wadm/src/storage/state.rs:155-161 | the component's count changes by new minus old, from nothing too |
| CrashRetry.StopRetried | crates/wadm/src/workers/event.rs:201-294 | a host stop cut off after any of its writes and run again reaches the state of one run |
| CrashRetry.StopSurvivesCrashes | crates/wadm/src/workers/event.rs:201-294 | the same after any number of interruptions |
| CrashRetry.HeartbeatRetriedIff | crates/wadm/src/workers/event.rs:162-185 | a heartbeat cut off after any of its writes, or completed, and delivered again with claims fetched afresh gives the state of one delivery if and only if its third write was not made, or each component is described repeatably (all skipped, or the last not skipped and running elsewhere or described in one way) and none that was new to the store has another name or issuer in the claims of the second delivery |
| CrashRetry.HeartbeatRetried | crates/wadm/src/workers/event.rs:162-185 | so, when no component is described twice, if and only if the third write was not made or no component that was new to the store was renamed between the deliveries |
| CrashRetry.HeartbeatRetryFails | crates/wadm/src/workers/event.rs:162-185 | the input at which it does not: two descriptions of one component change places at each delivery |
| CrashRetry.RenamedRetryFails | crates/wadm/src/workers/event.rs:486-546 | the other input at which it does not: a new component whose claims become known between the deliveries |
| ReapDeadline.SilentUntil | crates/wadm/src/storage/reaper.rs:123-152 | among any other events, a silent host is stored exactly while the last tick is at most two intervals after it was seen |
| ReapDeadline.DeadlineTick | crates/wadm/src/storage/reaper.rs:96-121 | some tick falls more than two and at most three intervals after any moment |
| ReapDeadline.RemovedInWindow | crates/wadm/src/storage/reaper.rs:96-152 | a host seen at t and silent since goes at one tick in (t+2d, t+3d], whatever else happens |
| ReapDeadline.NeverRemoved | crates/wadm/src/storage/reaper.rs:96-152 | a host refreshed at gaps of at most two intervals is always stored |
| KvStore.SharedKey.Compute | crates/wadm/src/storage/nats_kv.rs:221-291 | the updater yields the applied write, or nothing exactly for a delete that finds none of its ids |
| KvStore.SharedKey.UpdateWithRetries | crates/wadm/src/storage/nats_kv.rs:99-160 | whatever others write between its reads and updates, success means the write was applied on top of all of it; it goes on, and fails in the end, exactly as long as every attempt has something to write and others' writes get in between |
| KvStore.ApplyAt | crates/wadm/src/storage/nats_kv.rs:221-291 | a store leaves the last value given for a key, a delete none of its ids, both all else |
| KvStore.EffectIff | crates/wadm/src/storage/nats_kv.rs:258-285 | a write comes to nothing exactly when it is a delete of ids that are not there |
| KvStore.CompletesAlone | crates/wadm/src/storage/nats_kv.rs:112-150 | from its call or the top of its loop, a write that nobody disturbs commits what it makes of the latest value and returns |
| KvStore.LostRaceRetries | crates/wadm/src/storage/nats_kv.rs:130-138 | one whose revision has passed goes back to the top |
| KvStore.LateUpdateLands | crates/wadm/src/storage/nats_kv.rs:108-160 | an update on its way when its write fails may still land, exactly if nothing was committed since the read |
| KvStore.GivesUp | crates/wadm/src/storage/nats_kv.rs:108-160 | at any other moment a failing write sends nothing more |
| KvStore.NewEntryFresh | crates/wadm/src/storage/nats_kv.rs:118-150 | a committed update was computed from the very value it replaces |
| KvStore.Linearizable | crates/wadm/src/storage/nats_kv.rs:99-160 | in every interleaving the value is the fold of the committed writes in revision order; an Ok means exactly one commit, or a delete that removes nothing at its read |
| KvStore.RealTimeOrder | crates/wadm/src/storage/nats_kv.rs:99-160 | a write that returned before another was called takes effect before it |
| Commands.EchoAnswers | crates/wadm/src/scaler/mod.rs:535-601 | the event with which a host echoes a command matches the event expected for it, whatever its claims and counts |
| BackoffAnswers.AnsweredByEchoes | crates/wadm/src/scaler/mod.rs:535-601 | exactly the starts and scalings expect an event, answered exactly by the events with which a host echoes them, the failing ones being the failures |
| BackoffAnswers.ExpectedEvents | crates/wadm/src/commands/mod.rs:48-112 | the two events that a command expects, field by field |
| BackoffAnswers.ManagedAnnotations | crates/wadm/src/workers/event_helpers.rs:316-324 | a command's annotations go out with the two of the application and no others changed |
| BackoffAnswers.EventsOfAll | crates/wadm/src/scaler/mod.rs:309-313 | the events of a list of commands are those of each, in order |
| BackoffWrappers.BackoffWrapper.AddEvents | crates/wadm/src/scaler/mod.rs:177-190 | the expected list is extended or replaced, and the cleanup timer restarts |
| BackoffWrappers.BackoffWrapper.RemoveEvent | crates/wadm/src/scaler/mod.rs:192-229 | exactly the answered pairs go, and both flags say what was found |
| BackoffWrappers.BackoffWrapper.HandleEventInternal | crates/wadm/src/scaler/mod.rs:231-335 | the wrapper's new state, its commands and its notices |
| BackoffWrappers.BackoffWrapper.ReconcileInternal | crates/wadm/src/scaler/mod.rs:337-401 | the same for a reconcile |
| BackoffAnswers.ExpectedEvent | crates/wadm/src/scaler/mod.rs:231-275 | an expected event returns nothing and is passed on, or fails |
| BackoffAnswers.ExpectedIsTakenOff | crates/wadm/src/scaler/mod.rs:192-215 | exactly the pairs that it answers go |
| BackoffAnswers.ExpectedFailure | crates/wadm/src/scaler/mod.rs:240-257 | an expected failure backs off for five seconds under its error, no other event does |
| BackoffAnswers.BusyIgnores | crates/wadm/src/scaler/mod.rs:276-283 | a wrapper that expects events or backs off ignores everything else |
| BackoffAnswers.RequirementsFirst | crates/wadm/src/scaler/mod.rs:284-306 | else the commands of config and secret scalers are returned, alone, with the wrapper unchanged |
| BackoffAnswers.FailingRequirements | crates/wadm/src/scaler/mod.rs:337-365 | when these fail a reconcile returns nothing and an event goes on |
| BackoffAnswers.OwnCommands | crates/wadm/src/scaler/mod.rs:308-390 | only without them the scaler's commands are returned and their events registered under a new timer and announced, with the trigger; unannounced, the commands are lost |
| BackoffAnswers.NoCommands | crates/wadm/src/scaler/mod.rs:308-401 | a scaler that fails, or reconciles to nothing, registers nothing |
| BackoffAnswers.TimersFire | crates/wadm/src/scaler/mod.rs:431-467 | each timer that is due empties what it guards and nothing else, and until one is due time may pass |
| BackoffWrappers.CommandsOnlyWhenAccepting | crates/wadm/src/scaler/mod.rs:231-401 | commands come only from a wrapper that expects nothing and is not backing off |
| BackoffWrappers.NoOverlappingBatches | crates/wadm/src/scaler/mod.rs:177-448 | before the next commands every pair of a batch was answered, or that batch's own timer fired, never an older one's |
| BackoffWrappers.BoundedWaiting | crates/wadm/src/scaler/mod.rs:431-467 | a wrapper that registers at t accepts work again by t + cleanup timeout + 5 s, whatever arrives |
| BackoffWrappers.RegistrationIsBusy | crates/wadm/src/scaler/mod.rs:431-448 | every registration starts such a wait under a timer of its own, published or not |
| BackoffWrappers.OnlyRegistrationsExpect | crates/wadm/src/scaler/mod.rs:177-190 | nothing else makes the expected list longer |
| BackoffWrappers.RegisteredThenAccepts | crates/wadm/src/scaler/mod.rs:431-467 | so after any registration the bound holds |
| BackoffWrappers.FailureBacksOff | crates/wadm/src/scaler/mod.rs:240-269 | after an expected failure no command comes for five seconds |
| BackoffWrappers.BatchAnswered | crates/wadm/src/commands/mod.rs:48-112 | once every command that expects an event was echoed, in any order among anything else, the expected list has been empty |
| PeerNotices.MoveShortens | crates/wadm/src/scaler/mod.rs:251-261 | a delivery that publishes a notice shortens its peer's list; none is ever lengthened |
| PeerNotices.DeliveryIsPassedOn | crates/wadm/src/scaler/mod.rs:251-261 | a delivered notice is gone, and is on its way to every peer once when its peer expected it and can publish |
| PeerNotices.TimersClear | crates/wadm/src/scaler/mod.rs:431-467 | a peer's timers clear its own list and backoff |
| PeerNotices.NoticesDieOut | crates/wadm/src/scaler/manager.rs:517-533 | publications in every cascade are bounded by the total length of the lists |
| PeerNotices.CascadeBound | crates/wadm/src/scaler/manager.rs:517-533 | hence deliveries are bounded, however notices are ordered |
| Spreads.ManagedCarries | crates/wadm/src/workers/event_helpers.rs:316-324 | the managed annotations of one spread count for spreads of that name and no others |
| Placement.EligibleIff | crates/wadm/src/scaler/spreadscaler/mod.rs:391-427 | a host is eligible when it is stored and has every required label with exactly the required value |
| ComputeSpread.ByWeightSorts | crates/wadm/src/scaler/spreadscaler/mod.rs:427-430 | the order used is a stable descending sort by weight |
| ComputeSpread.OrderedSorts | crates/wadm/src/scaler/spreadscaler/mod.rs:427-455 | without spreads there is one for every host, else the counts are for just the given ones |
| ComputeSpread.RemainderFits | crates/wadm/src/scaler/spreadscaler/mod.rs:432-461 | rounding takes away less than one instance for each spread |
| ComputeSpread.Compute | crates/wadm/src/scaler/spreadscaler/mod.rs:427-497 | the counts add up to the request, none is off its share by more than one, the heaviest get the extra; undefined exactly when spreads weigh nothing |
| ComponentDaemonScalers.ComponentDaemonScaler.Reconcile | crates/wadm/src/scaler/daemonscaler/mod.rs:132-285 | the commands are exactly those needed, one for each spread and host, and the status says so |
| Placement.ComponentDaemonClears | crates/wadm/src/scaler/daemonscaler/mod.rs:149-177 | the component is scaled to 0 on exactly the hosts that list it and lack a label of every spread |
| Placement.ComponentDaemonActs | crates/wadm/src/scaler/daemonscaler/mod.rs:182-262 | else exactly the stored hosts with all labels of a spread and another number of marked instances are told the number, with reference, configuration, application and marks |
| Placement.ComponentDaemonFails | crates/wadm/src/scaler/daemonscaler/mod.rs:250-285 | a pass fails exactly when some spread suits no stored host |
| Placement.ComponentDaemonCounts | crates/wadm/src/scaler/daemonscaler/mod.rs:182-262 | one command for each spread and host with another number |
| ComponentDaemonScalers.NoCommandsMeansSatisfied | crates/wadm/src/scaler/daemonscaler/mod.rs:132-285 | a pass returns nothing if and only if every eligible host has its number and no other host runs the component |
| ComponentDaemonScalers.ClearingRound | crates/wadm/src/scaler/daemonscaler/mod.rs:149-177 | clearing ineligible hosts leaves none and changes no total |
| ComponentDaemonScalers.ScalingRound | crates/wadm/src/scaler/daemonscaler/mod.rs:182-262 | a scaling round makes every wrong total the foreign count plus the request |
| ComponentDaemonScalers.TwoRounds | crates/wadm/src/scaler/daemonscaler/mod.rs:132-285 | two applied rounds end where a pass returns nothing if and only if every total is within reach |
| ComponentDaemonScalers.TwoRoundsFail | crates/wadm/src/scaler/daemonscaler/mod.rs:182-262 | a run from the empty store to where none is: the component was scaled under the spread's annotations by other hands, and no two rounds satisfy the scaler |
| ComponentDaemonScalers.OwnEntriesAreReachable | crates/wadm/src/scaler/daemonscaler/mod.rs:132-285 | which holds for 32-bit numbers when only the scaler's own entries count |
| ProviderSpreadScalers.ProviderSpreadScaler.ReconcileSpread | crates/wadm/src/scaler/spreadscaler/provider.rs:244-345 | some allowed choice of hosts, and failure exactly when too few are free |
| ProviderSpreadScalers.ProviderSpreadScaler.Reconcile | crates/wadm/src/scaler/spreadscaler/provider.rs:187-370 | the commands of one pass and its status |
| ProviderSpreadScalers.ProviderSpreadScaler.UpdateConfig | crates/wadm/src/scaler/spreadscaler/provider.rs:88-97 | the counts of the new configuration add up to its instances and are reconciled at once; a division by zero changes nothing |
| ProviderSpreadScalers.ProviderSpreadScaler.Cleanup | crates/wadm/src/scaler/spreadscaler/provider.rs:373-388 | a cleanup is a pass that wants none of each spread |
| ProviderSpreadScalers.SettledReturnsNothing | crates/wadm/src/scaler/spreadscaler/provider.rs:187-370 | in a settled state every pass returns nothing |
| Placement.SpreadScalerClears | crates/wadm/src/scaler/spreadscaler/provider.rs:187-237 | while the scaler's provider runs where every spread misses a label or finds another value, a pass stops it exactly there |
| Placement.SpreadScalerActs | crates/wadm/src/scaler/spreadscaler/provider.rs:241-346 | else each spread starts on stored hosts with all its labels that do not run the provider, and stops its own, in exactly the numbers that are missing or too many; the commands are those, with reference, configuration, application and marks |
| Placement.SpreadScalerStatus | crates/wadm/src/scaler/spreadscaler/provider.rs:303-370 | failure is reported exactly when a spread misses more copies than such hosts are free |
| ProviderConvergence.ClearingRound | crates/wadm/src/scaler/spreadscaler/provider.rs:199-237 | stopping misplaced providers removes exactly those |
| ProviderConvergence.RoundMoves | crates/wadm/src/scaler/spreadscaler/provider.rs:241-346 | an applied round moves each spread's hosts as picked, but for the starts on hosts that the provider's record lists without being listed back (stale hosts) |
| ProviderConvergence.TwoRoundsSettle | crates/wadm/src/scaler/spreadscaler/provider.rs:187-370 | from any state with id = key and disjoint eligible hosts, two rounds settle whichever hosts are picked where no host is stale |
| ProviderConvergence.EveryRound | crates/wadm/src/scaler/spreadscaler/provider.rs:187-370 | every applied round, stale hosts or not, leaves nothing misplaced, never starts past a spread's count nor stops below it, and does not change where the spreads would come to rest |
| ProviderConvergence.ReachesCountIff | crates/wadm/src/scaler/spreadscaler/provider.rs:284-343 | where two rounds have settled, a spread runs its count if and only if it did before, the scaler owned enough to stop, or enough hosts were free and no other ran the provider |
| ProviderConvergence.RestsBelowIff | crates/wadm/src/scaler/spreadscaler/provider.rs:303-365 | a settled scaler reports no failure for a spread below its count if and only if what others run, counted once more, makes up the difference |
| ProviderConvergence.RestsBelowItsCount | crates/wadm/src/scaler/spreadscaler/provider.rs:303-365 | a run from the empty store to a consistent, just reaped state where one of two wanted runs, a host is free, every pass returns nothing and the status is deployed |
| SpreadRounds.AnyChoiceLandsIff | crates/wadm/src/scaler/spreadscaler/provider.rs:303-343 | every choice of hosts for a spread avoids stale ones if and only if nothing is to be started or none of the free hosts is stale |
| SpreadRounds.SomeChoiceLandsIff | crates/wadm/src/scaler/spreadscaler/provider.rs:303-343 | some choice does if and only if no more is to be started than free hosts are not stale |
| SpreadRounds.RoundKeepsChoices | crates/wadm/src/scaler/spreadscaler/provider.rs:187-370 | no applied round makes or breaks the second, nor breaks the first |
| SpreadRounds.SettlesForEveryChoiceIff | crates/wadm/src/scaler/spreadscaler/provider.rs:187-370 | two or more rounds (or one, with nothing misplaced) end settled whatever hosts are picked in them if and only if, at the start, nothing is to be started for a spread or none of its free hosts is stale, for each spread |
| SpreadRounds.SettlesForSomeChoiceIff | crates/wadm/src/scaler/spreadscaler/provider.rs:187-370 | they end settled for some choice if and only if, at the start, enough free hosts of each spread are not stale |
| SpreadRounds.NeverSettles | crates/wadm/src/scaler/spreadscaler/provider.rs:187-370 | otherwise no number of rounds settles, whatever is picked |
| ProviderConvergence.CleanupClears | crates/wadm/src/scaler/spreadscaler/provider.rs:373-388 | two applied cleanup rounds settle and leave none of the scaler's providers on a host of their spread or of none |
| ProviderConvergence.StopsOnlyOwned | crates/wadm/src/scaler/spreadscaler/provider.rs:199-302 | only providers that this scaler started are stopped |
| ProviderDaemonScalers.EverywhereIsEveryHost | crates/wadm/src/scaler/daemonscaler/provider.rs:342-351 | the spread that stands in for none fits every host |
| ProviderDaemonScalers.ProviderDaemonScaler.UpdateConfig | crates/wadm/src/scaler/daemonscaler/provider.rs:62-79 | a new configuration replaces the old and is reconciled at once |
| ProviderDaemonScalers.ProviderDaemonScaler.Reconcile | crates/wadm/src/scaler/daemonscaler/provider.rs:170-299 | the commands of one pass, their number and the status |
| ProviderDaemonScalers.ProviderDaemonScaler.Cleanup | crates/wadm/src/scaler/daemonscaler/provider.rs:302-314 | a cleanup is a pass that wants no instances |
| Placement.ProviderDaemonClears | crates/wadm/src/scaler/daemonscaler/provider.rs:183-216 | the same for the daemon scaler's misplaced providers |
| Placement.ProviderDaemonActs | crates/wadm/src/scaler/daemonscaler/provider.rs:220-275 | else exactly the stored hosts with all labels of a spread are started on where the provider does not run, and stopped on where it does and none are wanted |
| Placement.ProviderDaemonFails | crates/wadm/src/scaler/daemonscaler/provider.rs:262-299 | a pass fails exactly when some spread suits no stored host |
| Placement.ProviderDaemonCounts | crates/wadm/src/scaler/daemonscaler/provider.rs:226-275 | one command for each spread and host that needs one |
| ProviderDaemonScalers.ReturnsNothingIff | crates/wadm/src/scaler/daemonscaler/provider.rs:170-299 | a pass returns nothing if and only if nothing is misplaced and no eligible host needs a command |
| ProviderDaemonScalers.CleanupStartsIff | crates/wadm/src/scaler/daemonscaler/provider.rs:237-261 | a cleanup starts the provider exactly where it does not run and stops it exactly where it does |
| ProviderDaemonScalers.DaemonRound | crates/wadm/src/scaler/daemonscaler/provider.rs:220-275 | an applied round turns the provider on where it was off and, in a cleanup, off where it was on, except on stale hosts, and no host becomes or stops being stale |
| ProviderDaemonScalers.NothingMisplacedAfter | crates/wadm/src/scaler/daemonscaler/provider.rs:183-216 | after any applied round nothing is misplaced |
| ProviderDaemonScalers.CanRestKept | crates/wadm/src/scaler/daemonscaler/provider.rs:170-299 | whether the scaler can come to rest is not changed by any round |
| ProviderDaemonScalers.DaemonSettlesIff | crates/wadm/src/scaler/daemonscaler/provider.rs:170-299 | after two or more applied rounds a pass returns nothing if and only if no host is eligible, or instances are wanted and no eligible host was stale; spreads may overlap |
| ProviderDaemonScalers.NeverRests | crates/wadm/src/scaler/daemonscaler/provider.rs:170-299 | otherwise it is at rest after no number of rounds |
| ProviderDaemonScalers.CleanupNeverRests | crates/wadm/src/scaler/daemonscaler/provider.rs:302-314 | while a host is eligible no number of cleanup rounds ends at rest |
| StaleProviders.StaleUntil | crates/wadm/src/workers/event.rs:304-376 | a stale host stays so until the provider stops on it, it reports the provider, or it goes: no start of the provider ends it |
| StaleProviders.StaleIsReachable | crates/wadm/src/workers/event.rs:318-347 | from nothing, four actions lead to a consistent, just reaped state with a stale host |
| StaleProviders.DaemonRestless | crates/wadm/src/scaler/daemonscaler/provider.rs:220-275 | such a run for every daemon scaler over all hosts, after which no number of its rounds brings it to rest |
| StaleProviders.SpreadRestless | crates/wadm/src/scaler/spreadscaler/provider.rs:303-343 | and for every spread scaler that wants any number of copies anywhere |
| StoredManifests.StoredManifest.AddVersion | crates/wadm/src/model/mod.rs:31-50 | a new version goes last, one without a name gets the fresh one, and an existing one is refused |
| StoredManifests.StoredManifest.DeleteVersion | crates/wadm/src/model/mod.rs:53-55 | that version goes and the order of the others stays |
| StoredManifests.StoredManifest.Undeploy | crates/wadm/src/model/mod.rs:77-79 | nothing is deployed after it, and whether something was before |
| StoredManifests.StoredManifest.Deploy | crates/wadm/src/model/mod.rs:85-104 | the requested version, or the newest for none and for latest; unknown ones are refused |
| Handlers.ValidNameIsTrimmed | crates/wadm/src/server/handlers.rs:66-98 | an accepted name is read and written under one key |
| Handlers.Handler.PutModel | crates/wadm/src/server/handlers.rs:33-180 | the store and the reply of a put, refusals and panics included |
| Handlers.Handler.DeleteModel | crates/wadm/src/server/handlers.rs:393-513 | the store and the reply of a delete |
| Handlers.Handler.ExistingIds | crates/wadm/src/server/handlers.rs:650-691 | exactly the identifiers that other deployed applications hold |
| Handlers.Handler.DeployModel | crates/wadm/src/server/handlers.rs:559-764 | the store and the reply of a deploy |
| Handlers.Handler.UndeployModel | crates/wadm/src/server/handlers.rs:816-900 | the store and the reply of an undeploy |
| ApiReplies.BlanksAreTrimmed | crates/wadm/src/server/handlers.rs:66-68 | blanks around a name are trimmed |
| ApiReplies.PutReplies | crates/wadm/src/server/handlers.rs:33-180 | a valid manifest goes behind the stored versions under its own version or the fresh one, unless that version is there |
| ApiReplies.PutRefuses | crates/wadm/src/server/handlers.rs:33-100 | any other stores nothing |
| ApiReplies.DeleteOfAll | crates/wadm/src/server/handlers.rs:455-500 | deleting an application or its one version removes it and asks for an undeploy |
| ApiReplies.DeleteOfOne | crates/wadm/src/server/handlers.rs:418-455 | deleting one of several keeps the others in order, and asks for an undeploy exactly when it was deployed |
| ApiReplies.DeleteOfNone | crates/wadm/src/server/handlers.rs:475-513 | deleting what is not there changes nothing |
| ApiReplies.UndeployReplies | crates/wadm/src/server/handlers.rs:816-900 | nothing is deployed after an undeploy, and whether something was before |
| ApiReplies.DeployReplies | crates/wadm/src/server/handlers.rs:623-764 | a deploy is refused for the first component whose id another deployed application holds, else for a shared component that no deployed application offers in its newest version, else the requested or newest version is deployed |
| ApiReplies.DeployOfNone | crates/wadm/src/server/handlers.rs:570-645 | without such a version, or such an application, nothing changes |
| ApiReplies.DeployAcceptedIff | crates/wadm/src/server/handlers.rs:627-756 | so it is accepted if and only if the version is there, no id of its components is held and each of its shared components is offered |
| ApiReplies.UndeployedIsMissing | crates/wadm/src/server/handlers.rs:720-737 | a shared application that is not deployed offers nothing |
| DeploySafety.StepKeeps | crates/wadm/src/server/handlers.rs:393-764 | every request keeps that histories are sound and deployed identifiers disjoint |
| DeploySafety.RunIsSafe | crates/wadm/src/server/handlers.rs:393-764 | so does every sequence of requests: no empty history, deployed versions exist, keys match version annotations and are never latest, distinct deployed applications choose distinct ids |
| DeploySafety.PanicIff | crates/wadm/src/server/handlers.rs:740-762 | in every such state a request panics if and only if it is a put that gets to validation with a link trait parsed as a scaler; the unwraps after a deploy never fail |
| DeploySafety.PutPanics | crates/wadm-types/src/validation.rs:519-572 | a manifest whose put into an empty store does |
| DeploySafety.DeployedConverts | crates/wadm/src/scaler/manager.rs:176-205 | after any requests a deployed manifest exists, has its version and name, and converts without a panic |
| DeploySafety.DeleteUndoesPut | crates/wadm/src/server/handlers.rs:393-470 | deleting the version a put added gives back the store before the put |
| DeploySafety.UndeployUndoesDeploy | crates/wadm/src/server/handlers.rs:816-880 | undeploying a first deploy gives back the store before it |
| ModelStore.ModelStorage.RetryModelUpdate | crates/wadm/src/server/storage.rs:180-241 | success means the operation was applied on top of everything others wrote; another attempt, and failure after three, means exactly that each had something to write and met a conflicting write |
| ModelStore.ModelStorage.Set | crates/wadm/src/server/storage.rs:62-94 | nothing when the revision is stale; else the model is stored, and the name is added on top of what others wrote, or the call fails with the model stored after as many conflicts as attempts |
| ModelStore.ModelStorage.Delete | crates/wadm/src/server/storage.rs:130-154 | the name leaves the list before the model is purged; when the list cannot be updated nothing is purged |
| ModelStore.ModelIsWritten | crates/wadm/src/server/storage.rs:62-80 | a model is written unless another revision than its own was given, under a new revision, and nothing else changes |
| ModelStore.ListIsWritten | crates/wadm/src/server/storage.rs:180-241 | a name is added or removed and the rest stays; where there is nothing to change nothing is written |
| ModelStore.ModelIsPurged | crates/wadm/src/server/storage.rs:130-154 | a purge removes one model |
| ModelStore.OthersLeave | crates/wadm/src/server/storage.rs:180-241 | other processes' writes leave the names that none is about |
| ModelStore.OthersDecide | crates/wadm/src/server/storage.rs:180-241 | and of those about a name the last decides |
| ModelStore.Alone | crates/wadm/src/server/storage.rs:62-154 | with no other writer these are the two writes of each call |
| ModelStore.ListedIsStored | crates/wadm/src/server/storage.rs:62-154 | wherever calls stop, every listed name has a stored model; without stops, and conversely |
| ModelStore.DeleteRetried | crates/wadm/src/server/storage.rs:130-154 | an interrupted delete called again ends like an uninterrupted one |
| ModelStore.SetRetriedIff | crates/wadm/src/server/storage.rs:62-94 | an interrupted set called again does so if and only if it stopped elsewhere than between its writes, is unconditional, was listed already, or was refused |
| ModelStore.SetRetryFails | crates/wadm/src/server/storage.rs:62-94 | the calls that reach the case where it does not |
| ModelStore.SetRepairs | crates/wadm/src/server/storage.rs:62-94 | any completed set leaves its name listed and its model stored |
| ModelStore.ShareKeysIff | crates/wadm/src/server/storage.rs:250-264 | two lattices have a key in common if and only if they have one list key, or the list key of one is the other's followed by a dash and anything |
| ModelStore.DashedLatticesShareKeys | crates/wadm/src/server/storage.rs:250-264 | as any lattice does with each whose id goes on with a dash |
| Validation.CoreValidation | crates/wadm-types/src/validation.rs:364-463 | reports exactly the bad labels and annotations, duplicate names, duplicate ids and missing targets |
| OamLabels.OneSlash | crates/wadm-types/src/validation.rs:795-836 | a label key has at most one slash |
| OamLabels.NameKeys | crates/wadm-types/src/validation.rs:819-836 | which keys without a slash are accepted, character by character |
| OamLabels.DomainPart | crates/wadm-types/src/validation.rs:803-817 | which parts a domain may have, character by character |
| OamLabels.DomainKeys | crates/wadm-types/src/validation.rs:795-817 | a key with a slash is a domain of such parts and a name |
| Validation.CheckMisnamedInterfaces | crates/wadm-types/src/validation.rs:466-485 | warns of exactly the interfaces that a known namespace does not have |
| Validation.EnsureNoCustomTraits | crates/wadm-types/src/validation.rs:491-511 | reports exactly the link and scaler traits that were parsed as custom |
| Validation.CheckDanglingLinks | crates/wadm-types/src/validation.rs:519-572 | panics exactly on a link parsed as a scaler, else reports exactly the links without a known target |
| Validation.ValidatePolicies | crates/wadm-types/src/validation.rs:576-614 | reports exactly the secrets whose policy is unknown, of another type or without a backend |
| Validation.ValidateComponentProperties | crates/wadm-types/src/validation.rs:619-695 | reports exactly the components that are not either imaged or purely shared |
| Validation.CheckDuplicateLinks | crates/wadm-types/src/validation.rs:838-877 | reports exactly the links that one component makes twice |
| Validation.ValidateLinkConfigs | crates/wadm-types/src/validation.rs:703-739 | reports exactly the created link configs that share a name |
| Validation.ValidateManifest | crates/wadm-types/src/validation.rs:330-354 | the failures of a manifest, all and only |
| Validity.ValidIffWellFormed | crates/wadm-types/src/validation.rs:330-354 | validation passes exactly the manifests described by plain rules on names, labels, ids, targets, policies, links and configs |
| ManifestRules.ValidIffRules | crates/wadm-types/src/validation.rs:330-877 | the same with every rule spelled out by positions: distinct names, ids, link identities and created configs, listed targets, images or references, and secrets with a policy that has a backend |
| ManifestRules.FailuresAreSo | crates/wadm-types/src/validation.rs:330-877 | each of the twenty-four failures is reported exactly of the manifests that it describes, said by positions |
| Conversion.ComponentScalers | crates/wadm/src/scaler/convert.rs:165-302 | the scalers of a Wasm component, appended |
| Conversion.ProviderScalers | crates/wadm/src/scaler/convert.rs:320-512 | the scalers of a provider, with the default when no trait scales it |
| Conversion.ManifestComponentsToScalers | crates/wadm/src/scaler/convert.rs:54-147 | the whole conversion |
| ConversionCorrectness.SecretsConvertIff | crates/wadm/src/scaler/secretscaler.rs:59-60 | making secret scalers succeeds if and only if every policy is known and has a backend |
| ConversionCorrectness.ValidConverts | crates/wadm/src/scaler/convert.rs:54-679 | a validated manifest converts without a panic and without placeholders |
| ConversionCorrectness.ConvertPanicsIff | crates/wadm/src/scaler/convert.rs:54-679 | any manifest, valid or not, panics exactly where it uses a secret whose policy is unknown or has no backend: its own, of a component with traits or a provider with an image, or of a link that leads to a component |
| ConversionCorrectness.ConvertGivesAll | crates/wadm/src/scaler/convert.rs:54-147 | the scalers of a manifest are those of its components, in order |
| ConversionCorrectness.OneLinkPerTrait | crates/wadm/src/scaler/convert.rs:258-628 | a Wasm component gets one link scaler for each link trait, in order, from its own id to the target's, with each end's config and secret names given to that end in order, a scaler for every config with its properties and for every secret with its policy's backend, and its application and wait |
| ConversionCorrectness.OneLinkPerProviderTrait | crates/wadm/src/scaler/convert.rs:429-465 | a provider gets the same for each of its links to a Wasm component |
| ConversionCorrectness.LinkAllowedIff | crates/wadm/src/scaler/convert.rs:429-465 | a provider's link is made if and only if its target is a Wasm component |
| ConversionCorrectness.OneScalerPerTrait | crates/wadm/src/scaler/convert.rs:198-257 | and one scaler for each scaling trait when it has an image, of the trait's kind and spread, with its names, configs, secrets, application and wait |
| ConversionCorrectness.ProviderAlwaysScaled | crates/wadm/src/scaler/convert.rs:320-512 | a provider with an image gets one scaler for each scaling trait, or one that keeps one instance anywhere |
| ConversionCorrectness.SharedProviderNotScaled | crates/wadm/src/scaler/convert.rs:346-361 | a shared provider gets none |
| ConversionCorrectness.ScalersCountTraitsIff | crates/wadm/src/scaler/convert.rs:320-512 | when counting scaler traits by type gives the number of scalers |
| ConversionCorrectness.MistypedScalerIsLost | crates/wadm/src/scaler/convert.rs:320-512 | a valid manifest where it does not: two scaler traits, one parsed as a link, and one scaler |
| ConversionCorrectness.LinkedTargetIsRun | crates/wadm/src/scaler/convert.rs:529-628 | the id a link is made to is one that the manifest's own scalers keep running, when they cover the target |
| ConversionCorrectness.SharedReferenceIff | crates/wadm/src/scaler/convert.rs:726-742 | when a reference to a shared component has the id its owner runs it under |
| ConversionCorrectness.SharedReferenceFails | crates/wadm/src/scaler/convert.rs:726-742 | two valid manifests where it does not: the owner chooses an id that the reference does not repeat |
| ConversionCorrectness.GeneratedIdsCollideIff | crates/wadm/src/scaler/convert.rs:684-702 | generated ids agree if and only if the sanitised manifest and component names do |
| ConversionCorrectness.SanitizedAt | crates/wadm/src/scaler/convert.rs:684-702 | letters become small, digits stay, all else becomes an underscore |
| ConversionCorrectness.IdsCollideInOneManifest | crates/wadm/src/scaler/convert.rs:684-702 | two differently named components with one generated id |
| Names.TopicRoundTripIff | crates/wadm/src/server/mod.rs:230-272 | a client's topic is read back as it was meant if and only if the lattice is one non-empty component and the name has no dot |
| Names.MultitenantRoundTripIff | crates/wadm/src/server/mod.rs:230-272 | the same behind any account of one component |
| Names.SubjectParts | crates/wadm/src/server/mod.rs:230-272 | what follows the prefix is read by its number of parts, with an error for each wrong number |
| Names.NoAccountBefore | crates/wadm/src/server/mod.rs:230-272 | with accounts, a subject without a dot has none |
| Names.DottedLatticeIsLost | crates/wadm/src/server/mod.rs:230-272 | no topic of a lattice whose id has a dot is |
| Names.TrimPrefix | crates/wadm/src/server/mod.rs:243-247 | the prefix goes once although it is removed as often as it is found |
| Names.ConsumerRoundTripIff | crates/wadm/src/consumers/manager.rs:311-324 | a consumer's name gives back lattice and account if and only if neither has an underscore |
| Names.UnderscoredLatticeIsLost | crates/wadm/src/consumers/manager.rs:311-324 | a lattice id with an underscore gives the consumer name of another lattice with an account |

## Left out

- Reading events, manifests and requests from JSON, YAML and CloudEvents, and all network plumbing.
- Links, configuration and status scalers of their own, and the text of status messages.
- The component spread scaler's reconcile pass with its conflict check; its instance counts are in `compute_spread`.
- Health statuses inside scalers, and the events on which a scaler decides to reconcile: convergence is about passes, however they are triggered.
- A failure to fetch claims during a heartbeat as an event of its own: the handler then stops before its third write, which is one of the interruptions of `CrashRetry.HeartbeatRetriedIff`.
- Concurrent API requests, and a reaper working from stale reads while an event is handled.
- Validation.IsValidManifestName: word characters outside ASCII, which validation lets through and the key-value store then refuses as part of a key.
- Conversion.Sanitize: characters outside ASCII whose lower case is an ASCII letter; they are taken as punctuation.
- Handlers: a missing application and a name that cannot be a key both count as not found; the message that names the application which holds a taken identifier is not modelled.
- Handlers.Handler.PutModel: the note about shared components that are not deployed yet, which does not change what is stored.
- ModelStore: a purged model is gone, while the store keeps a marker whose revision no later write in the code is conditional on.
- Whether a shared component stays offered after a deploy: the code looks only at deploy time, and at the newest version rather than the deployed one.
- Overflow of counts and weights in the machine's word size, apart from the casts to 32 bits.
- Whether scaler ids are unique: they are hashes of parts joined without separators.
