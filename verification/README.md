# Verification of the Floral display HAL

A Dafny model of the Android hardware composer (HWC2) implementation in `src/`, with proofs about its
concurrent state machines. `dafny verify dfyconfig.toml` checks all of it.

## How the model is built

Each source file that holds a protocol has a module of its own, in two layers.

* **A state machine on values.** Every region the source executes under a mutex is one event; whatever happens with
  the mutex released (callbacks, binder calls, sleeping) separates two events, so other threads come in between.
  `Possible` tells when an event can happen, `Act` what it does, `Step` leaves the state alone for an impossible
  event, and `Exec` folds a sequence of events. Since an impossible event changes nothing, a theorem about
  `Exec(Start(...), es)` for every `es` is a theorem about every interleaving, every clock reading that goes
  forward, every stall and every answer of the environment. History fields (logs, counters, the last clock reading)
  only record; no region reads them. The waits of the vsync thread and of the lease worker end only as the source's
  do: for a wake-up, or when their time has come by the clock.
* **A class with the source's fields and methods.** Each method updates its fields as the source does and ensures
  `Current() == Step(old(Current()), e)`, so what is proved about runs holds of the class. The threads' loops
  (`ThreadMain`, `Run`) have the source's control flow; what other threads do at their unlocked points, the clock
  readings and the answers of services come from a schedule, and the loops are proved to make exactly its run.

| module | source | subject |
|---|---|---|
| `VsyncThread` | `src/VsyncThread.cpp` | the vsync worker: wake generations, deferred periods, catch-up |
| `RefreshSwitch` | `src/Display.cpp` | immediate and constrained mode switches over `VsyncThread` |
| `RefreshRates`, `ModeTable` | `src/DisplayConfig.cpp`, `src/Display.cpp` | rounded periods, rate limit, mode table |
| `DisplayTopology` | `src/DisplayTopology.cpp` | replacement of the external displays and its diff |
| `DisplayRegistry` | `src/DisplayRegistry.cpp` | live display objects and the hotplug log |
| `SnapshotApplier` | `src/AidlDisplayTopologySubscriber.cpp` | epochs and generations of topology snapshots |
| `LeaseWorker` | `src/AidlDisplayTopologySubscriber.cpp` | the subscription worker and its service-loss lease |
| `StreamFrameSink` | `src/StreamFrameSink.cpp` | the buffer cache, composed with the consumer's own table |
| `FailureLog` | `src/StreamFrameSink.cpp` | which failures are logged |
| `StreamStates` | `src/AidlFrameConsumerEndpoint.cpp` | cached stream states and activation callbacks |
| `Composition` | `src/Display.cpp`, `src/Layer.cpp` | validate, accept, present; ownership of fences |
| `Basics`, `Sorting`, `FenceLog` | | helpers: sequences, sort and unique, counting fences |

## Where the code differs from what a reader may expect

The model follows the code; each difference has a lemma.

* `docs/README.md:48-50` says the last external snapshot is removed when the topology service stays unavailable.
  That is so exactly when a *poll* applied a snapshot since the last removal; displays that only the listener
  applied stay for good (`LeaseWorker.RemovedExactlyIfPolled`, `LeaseWorker.ListenerOnlySnapshotStays`).
* Clearing the external displays keeps the last generation, so within an epoch the same generation is answered as
  applied without being applied again (`SnapshotApplier.ClearKeepsGeneration`).
* `DisplayRegistry::ConnectExternal` copies the config before the topology makes it external, so object and topology
  agree exactly if the caller said external (`DisplayRegistry.ConnectCopiesEarly`).
* The rounded period falls strictly with the rate up to 31796 Hz and no further
  (`RefreshRates.StrictExactlyUpTo`); it never rises (`RefreshRates.PeriodNeverRises`).
* `src/Display.cpp:85-86` says a faster mode does not renumber the others. That is so for every display that offers a
  period of its own (`ModeTable.PrefixStable`). The 60 Hz default of a display that offers none is kept exactly if
  nothing with a period is added, or 60 Hz is added and nothing slower (`ModeTable.DefaultTableStable`); so adding
  faster rates without 60 Hz renumbers it (`ModeTable.DefaultTableNotStable`).
* BUFFER_UNKNOWN answers never outnumber the forgotten cache entries when submissions do not overlap
  (`StreamFrameSink.RecoveryIsAmortised`). When they do, that bound fails (`StreamFrameSink.ConcurrentUnknowns`), and
  n threads get at most n answers for each key the consumer removed (`StreamFrameSink.UnknownsBounded`).
* The state worker writes an answer without looking whether its consumer is still connected, so a display may show
  an accepting stream without a consumer (`StreamStates.ConsistentUnlessStaleWrite`,
  `StreamStates.StaleWriteShows`).

## Model

| member | source | states |
|---|---|---|
| VsyncThread.NoLostWakeup | src/VsyncThread.cpp:126-156 | in every reachable state where the worker blocks with no wake-up outstanding, enabled, period and pending change are as when its wake time was computed, and that time is the earlier of next vsync and pending change; without a wake time vsync is off, nothing is pending, the thread is not stopped |
| VsyncThread.LaunchedOnlyWhileEnabled | src/VsyncThread.cpp:162-169 | a vsync is launched only from a locked state that is enabled and not stopped |
| VsyncThread.DueVsyncLaunches | src/VsyncThread.cpp:150-171 | in every reachable state the end of a wait launches a vsync if and only if vsync is on, nobody woke the worker, no period change is due and the deadline has come, pending change or not; then that deadline is logged and the next is a period later |
| VsyncThread.EveryLaunchDelivered | src/VsyncThread.cpp:165-171 | every vsync launched is delivered exactly once, before the next is launched |
| VsyncThread.QuietWhileDisabled | src/VsyncThread.cpp:126-171 | from a disabled state, until the next enable, nothing is launched and only a callback already past the unlock is delivered |
| VsyncThread.AtMostOneLateCallback | src/VsyncThread.cpp:55-66 | after SetEnabled(false) at most one more callback is delivered, over all interleavings |
| VsyncThread.RateBound | src/VsyncThread.cpp:162-179 | with all periods in [lo, hi], a window [a, b] holds at most (b - a + 2 hi) / lo + 1 launches, whatever the stalls, toggles and switches |
| VsyncThread.ConstantRateBound | src/VsyncThread.cpp:162-179 | with one period P the bound is floor((b - a) / P) + 3 |
| VsyncThread.RateBoundTight | src/VsyncThread.cpp:162-179 | for every period and every length of window some run attains that bound |
| VsyncThread.DeadlinesSpaced | src/VsyncThread.cpp:162-179 | successive deadlines are at least the shortest period apart |
| VsyncThread.NoDrift | src/VsyncThread.cpp:162-179 | from any launch with no change pending, while nobody disables vsync or changes the period and no callback returns more than a period late, the n-th later deadline is exactly n periods on |
| VsyncThread.LateReturnSkips | src/VsyncThread.cpp:173-178 | a callback that returns later moves the next deadline at least one whole period off the grid, so a stall leaves vsyncs out |
| VsyncThread.LoopKeepsNextVsync | src/VsyncThread.cpp:103-131 | in every reachable state the loop replaces the next vsync only for a disabled thread or an unseen period generation |
| VsyncThread.GridRestarts | src/VsyncThread.cpp:103-131 | after vsync is switched on or its period changes, at once or deferred, the worker's next pass sets the next deadline one current period after its clock reading, whatever came in between |
| VsyncThread.WorkerNeverStuck | src/VsyncThread.cpp:102-180 | in every state that keeps the invariant the worker has a next turn from its wake time on |
| VsyncThread.StopEnds | src/VsyncThread.cpp:43-53 | after a stop nothing is launched, no wait holds the worker, and it has exited after at most three turns, whatever it reads and callers do |
| VsyncThread.VsyncThread.constructor | src/VsyncThread.cpp:38-41 | starts the machine with the given period |
| VsyncThread.VsyncThread.SetEnabled | src/VsyncThread.cpp:55-66 | is the Enable event: unchanged when nothing changes, otherwise both generations move |
| VsyncThread.VsyncThread.SetPeriod | src/VsyncThread.cpp:68-81 | is the SetPeriod event: replaces the period and cancels a pending change |
| VsyncThread.VsyncThread.SetPeriodAt | src/VsyncThread.cpp:83-94 | is the SetPeriodAt event: replaces the pending change and wakes the worker |
| VsyncThread.VsyncThread.RequestStop | src/VsyncThread.cpp:43-53 | is the Stop event of the destructor |
| VsyncThread.VsyncThread.EnterLoop | src/VsyncThread.cpp:102-148 | one pass from the loop condition to the next unlock: exit, apply a due change, or compute the wake time |
| VsyncThread.VsyncThread.AfterApplied | src/VsyncThread.cpp:118-123 | returns to the loop condition after the applied callback |
| VsyncThread.VsyncThread.EndWait | src/VsyncThread.cpp:150-167 | the wait ends for a wake-up or at its wake time; interrupted, change due, or launch with the next deadline one period on |
| VsyncThread.VsyncThread.AfterCallback | src/VsyncThread.cpp:171-178 | re-bases the deadline exactly after a stall of more than one period |
| VsyncThread.VsyncThread.ThreadMain | src/VsyncThread.cpp:96-181 | the worker's loop, pass by pass, with callers at its unlocked points, makes exactly the machine's run |
| RefreshSwitch.Agreement | src/Display.cpp:114-137 | with the display's mutex free: nothing pending or in flight implies reported period, thread period and active mode agree; otherwise the change under way leads to the active mode |
| RefreshSwitch.ImmediateSwitch | src/Display.cpp:114-119 | SetActiveConfig(config) makes config the active mode, with its period reported and run by the thread, and drops a pending change |
| RefreshSwitch.ConstrainedSwitch | src/Display.cpp:121-137 | the constrained call makes config the active mode: at once if its period is the reported one, otherwise that change alone is pending for its time and the old period stays |
| RefreshSwitch.SwitchTakesEffect | src/Display.cpp:560-582 | after a constrained switch and any run without another, once its time has come the worker's own turns make the display report the mode asked for |
| RefreshSwitch.DisplayRateBound | src/Display.cpp:114-137 | the vsync rate bound holds under any switching among the modes |
| RefreshSwitch.OldPeriodUntilDue | src/Display.cpp:121-137 | without another switch a constrained change keeps the old reported period until its time, and then reports the active mode |
| RefreshSwitch.ConstrainedSwitchAwaits | src/Display.cpp:560-582 | a constrained switch to another period leaves exactly that change awaited |
| RefreshSwitch.DueWaitEnds | src/VsyncThread.cpp:133-156 | from the due time on (plus the time between the worker's two clock readings) the wait of a blocked worker is over |
| RefreshSwitch.DueChangeSettles | src/VsyncThread.cpp:108-156 | from any state with a due change, at that time, the worker's own next turns make the three periods agree; its wait does not outlast the change |
| RefreshSwitch.ReachableDueChangeSettles | src/VsyncThread.cpp:108-156 | so no reachable due change is stuck or slept past |
| RefreshSwitch.DisplayModes.ApplyActiveConfigLocked | src/Display.cpp:114-119 | is the immediate switch of the machine |
| RefreshSwitch.DisplayModes.ApplyActiveConfigAt | src/Display.cpp:121-137 | is the constrained switch, immediate when the period stays |
| RefreshSwitch.DisplayModes.SetActiveConfig | src/Display.cpp:398-406 | BAD_CONFIG exactly for an unknown mode, which changes nothing |
| RefreshSwitch.DisplayModes.SetActiveConfigWithConstraints | src/Display.cpp:560-582 | error codes; the applied time is the later of now and the desired time |
| RefreshSwitch.DisplayModes.RunAppliedCallback | src/Display.cpp:130-136 | the callback reports its period only if its generation is the current one |
| RefreshRates.PeriodIsNearest | src/DisplayConfig.cpp:23-28 | the period is 1/rate rounded to the nearest nanosecond, ties to the longer one, and the only number that is |
| RefreshRates.StrictExactlyUpTo | src/DisplayConfig.cpp:23-28 | rates up to a limit have strictly decreasing periods if and only if the limit is at most 31796 |
| RefreshRates.PeriodNeverRises | src/DisplayConfig.cpp:23-28 | a faster rate never has a longer period, for all rates |
| RefreshRates.LimitRefreshRates | src/DisplayConfig.cpp:30-47 | returns, strictly ascending, exactly the supported rates in 1..cap and the cap; nothing for cap 0 |
| RefreshRates.CapIsLast | src/DisplayConfig.cpp:41-43 | the cap is always advertised, last, and nothing exceeds it |
| RefreshRates.LimitedUnique | src/DisplayConfig.cpp:44-46 | the specification leaves one result only |
| ModeTable.BuildModes | src/Display.cpp:69-96 | lists each offered period once, slowest first, id equal to index |
| ModeTable.FindInitialConfig | src/Display.cpp:98-105 | the mode with the configured period, or the last mode |
| ModeTable.PrimaryTable | src/Display.cpp:69-96 | limit followed by table, for every list and cap: no mode is faster than the cap, whose mode is last; one mode per limited rate, slowest first, if and only if the rates' periods differ and none rounds to nothing, as up to 31796 Hz |
| ModeTable.PrimaryModes | src/HwcDevice.cpp:547-556 | the primary display's table has strictly decreasing periods and starts in its last mode, the cap |
| ModeTable.PrefixStable | src/Display.cpp:85-88 | a display with a period of its own keeps its table as a prefix if and only if every added rate is faster than all its modes, already listed, or without a period |
| ModeTable.DefaultTableStable | src/Display.cpp:81-88 | a display that offers no period keeps its 60 Hz default as a prefix if and only if nothing with a period is added, or 60 Hz is added and nothing slower |
| ModeTable.DefaultTableNotStable | src/Display.cpp:81-88 | the default 60 Hz table is renumbered by any rates above 60 Hz added without 60 Hz |
| DisplayTopology.ReplacedUnique | src/DisplayTopology.cpp:129-136 | a request determines the resulting topology, whatever its order |
| DisplayTopology.DiffIsExact | src/DisplayTopology.cpp:138-156 | old topology minus disconnected plus connected is the new one |
| DisplayTopology.UnlistedIffUnchanged | src/DisplayTopology.cpp:138-152 | an id is in neither list if and only if it is unchanged |
| DisplayTopology.DiffIsMinimal | src/DisplayTopology.cpp:138-152 | every set of changes that leads to the new topology contains the diff |
| DisplayTopology.ReplayIsEmpty | src/DisplayTopology.cpp:138-152 | repeating a request, in any order, changes nothing and lists nothing |
| DisplayTopology.AcceptableInAnyOrder | src/DisplayTopology.cpp:107-127 | acceptance does not depend on the order the sort chooses among equal ids |
| DisplayTopology.ValidExactly | src/DisplayTopology.cpp:26-29 | a config may be connected if and only if id, port, width, height and density are not zero and the period is positive |
| DisplayTopology.DisplayTopology.constructor | src/DisplayTopology.cpp:41-48 | only the primary, with its id, port 0 and internal |
| DisplayTopology.DisplayTopology.Get | src/DisplayTopology.cpp:50-57 | the config of a connected display, otherwise nothing |
| DisplayTopology.DisplayTopology.ConnectExternal | src/DisplayTopology.cpp:59-81 | succeeds exactly for a valid config with fresh id and port, which it adds as external; each refusal exactly in its case, and changes nothing |
| DisplayTopology.DisplayTopology.Disconnect | src/DisplayTopology.cpp:83-98 | removes exactly a connected external display |
| DisplayTopology.DisplayTopology.ReplaceExternalDisplays | src/DisplayTopology.cpp:100-158 | succeeds exactly for valid, non-primary configs with distinct ids and ports; result is the primary plus the request; the diff is sorted and exact; failure changes nothing and answers the first fault of the first faulty config in order of id |
| DisplayRegistry.HotplugReplay | src/DisplayRegistry.cpp:41-127 | for each installed callback, folding its events gives the connected ids at every quiescent point; every event changes its client's view; Get finds a display exactly at its connect event |
| DisplayRegistry.VisiblePortsDistinct | src/DisplayRegistry.cpp:101-125 | at every moment of every mutation, also a port swap, visible displays have distinct ports, and the primary is there |
| DisplayRegistry.EventsAlternate | src/DisplayRegistry.cpp:41-127 | successive events of one display alternate |
| DisplayRegistry.PrimaryAnnouncedOnce | src/DisplayRegistry.cpp:48-52 | the primary is connected once per installation and never disconnected |
| DisplayRegistry.InstallationAnnounces | src/DisplayRegistry.cpp:41-53 | a new callback hears exactly one connection for each display that is there, in order of id, whatever the callback before heard |
| DisplayRegistry.SilentWithoutCallback | src/DisplayRegistry.cpp:43-46 | without a callback nothing is notified until the next is installed |
| DisplayRegistry.ConnectAddsOne | src/DisplayRegistry.cpp:55-73 | a connect adds one new object and its topology entry, notifies once, and leaves the others alone |
| DisplayRegistry.DisconnectRemovesOne | src/DisplayRegistry.cpp:75-90 | a disconnect removes one object and its topology entry, notifies once, and leaves the others alone |
| DisplayRegistry.LiveDisplaysAreReal | src/DisplayRegistry.cpp:24-127 | at every quiescent point the primary is internal on port 0, every other display external with a port, size, density and period |
| DisplayRegistry.DrainedIsRun | src/DisplayRegistry.cpp:92-127 | a mutation done whole is the run of its single actions, between any two of which a reader may look |
| DisplayRegistry.ReplacementKeepsObjects | src/DisplayRegistry.cpp:92-127 | unlisted displays keep their very object; listed ones get new objects with the new config |
| DisplayRegistry.ReplacementEvents | src/DisplayRegistry.cpp:108-125 | the client hears every disconnection, then every connection, each in the order of the diff, and Get agrees with each event |
| DisplayRegistry.ConnectCopiesEarly | src/DisplayRegistry.cpp:55-68 | after a connect, object and topology agree if and only if the caller said external |
| DisplayRegistry.ObjectsMatchTopology | src/DisplayRegistry.cpp:92-127 | when all requests are external, every live object carries its topology entry, at every quiescent point of every run |
| DisplayRegistry.DisplayRegistry.constructor | src/DisplayRegistry.cpp:24-33 | starts with the primary's object |
| DisplayRegistry.DisplayRegistry.Get | src/DisplayRegistry.cpp:35-39 | the live object, otherwise nothing |
| DisplayRegistry.DisplayRegistry.ConnectedDisplayIds | src/DisplayRegistry.cpp:129-139 | the ids of the live displays, sorted |
| DisplayRegistry.DisplayRegistry.SetHotplugCallback | src/DisplayRegistry.cpp:41-53 | installs the callback and announces the connected ids in order |
| DisplayRegistry.DisplayRegistry.ConnectExternal | src/DisplayRegistry.cpp:55-73 | is the connect of the machine, run to its end; failure changes nothing |
| DisplayRegistry.DisplayRegistry.Disconnect | src/DisplayRegistry.cpp:75-90 | is the disconnect of the machine, run to its end |
| DisplayRegistry.DisplayRegistry.ReplaceExternalDisplays | src/DisplayRegistry.cpp:92-127 | is the replacement of the machine, run to its end; failure changes nothing |
| SnapshotApplier.ConvertDisplaySpec | src/AidlDisplayTopologySubscriber.cpp:60-96 | accepts exactly the specs within the limits whose active rate is supported |
| SnapshotApplier.ConvertSnapshot | src/AidlDisplayTopologySubscriber.cpp:98-121 | accepts exactly positive generations with acceptable specs of distinct ids and ports; the result is their configs sorted by id |
| SnapshotApplier.AcceptedWithin | src/AidlDisplayTopologySubscriber.cpp:60-83 | for each field of an acceptable spec, exactly which values keep it acceptable |
| SnapshotApplier.ConversionRoundTrip | src/AidlDisplayTopologySubscriber.cpp:85-94 | the spec can be read back from its config and active rate; the period is the one nearest to that rate, the type external |
| SnapshotApplier.AcceptedSnapshotsApply | src/AidlDisplayTopologySubscriber.cpp:98-121 | every snapshot the conversion accepts is one the topology accepts |
| SnapshotApplier.GreatestGenerationWins | src/AidlDisplayTopologySubscriber.cpp:139-169 | within an epoch any deliveries leave the accepted snapshot of the greatest generation |
| SnapshotApplier.SnapshotConfluence | src/AidlDisplayTopologySubscriber.cpp:139-169 | order, duplication and mix of callbacks and polls do not change the outcome |
| SnapshotApplier.NewServiceStartsOver | src/AidlDisplayTopologySubscriber.cpp:127-169 | after Begin, whatever generation came before, deliveries leave the new epoch's accepted snapshot of the greatest generation, or everything as it was |
| SnapshotApplier.FirstSnapshotApplies | src/AidlDisplayTopologySubscriber.cpp:134-178 | the first accepted snapshot after Begin or End is applied, whatever its generation |
| SnapshotApplier.AnswerTells | src/AidlDisplayTopologySubscriber.cpp:143-168 | Apply answers yes exactly for an accepted snapshot of the active epoch of a running applier; a no changes neither topology nor generation |
| SnapshotApplier.RefusalRemembered | src/AidlDisplayTopologySubscriber.cpp:147-167 | a refused generation is remembered until a snapshot is applied or the epoch changes |
| SnapshotApplier.ClearKeepsGeneration | src/AidlDisplayTopologySubscriber.cpp:182-188 | after a clear, a delivery changes the topology exactly if its generation is new |
| SnapshotApplier.ChangesOnlyInEpoch | src/AidlDisplayTopologySubscriber.cpp:143-146 | only a listener of the active epoch, or a clear, changes the topology, and nothing after Stop |
| SnapshotApplier.StopIsFinal | src/AidlDisplayTopologySubscriber.cpp:190-194 | after Stop no epoch begins and nothing changes the topology |
| SnapshotApplier.LateEndIsIgnored | src/AidlDisplayTopologySubscriber.cpp:171-175 | ending an epoch that is not active changes nothing |
| SnapshotApplier.EpochReturns | src/AidlDisplayTopologySubscriber.cpp:132-133 | with the wrap that skips 0, an epoch number returns if and only if the changes since are a multiple of 2^64 - 1 |
| SnapshotApplier.EndedEpochIsDead | src/AidlDisplayTopologySubscriber.cpp:127-180 | a listener of an epoch that was ended, or followed by another, is powerless as long as fewer than 2^64 - 1 epoch changes follow |
| SnapshotApplier.GenerationsIncrease | src/AidlDisplayTopologySubscriber.cpp:155-168 | within an epoch the generations that change the topology strictly increase |
| SnapshotApplier.TopologySnapshotApplier.BeginServiceEpoch | src/AidlDisplayTopologySubscriber.cpp:127-137 | is the Begin event; 0 when stopping |
| SnapshotApplier.TopologySnapshotApplier.EndServiceEpoch | src/AidlDisplayTopologySubscriber.cpp:171-180 | is the End event; no effect for another epoch |
| SnapshotApplier.TopologySnapshotApplier.Apply | src/AidlDisplayTopologySubscriber.cpp:139-169 | is the Apply event over a real registry, with the source's answer |
| SnapshotApplier.TopologySnapshotApplier.ClearExternalDisplays | src/AidlDisplayTopologySubscriber.cpp:182-188 | is the Clear event; succeeds unless stopping |
| SnapshotApplier.TopologySnapshotApplier.Shutdown | src/AidlDisplayTopologySubscriber.cpp:190-194 | is the Stop event: the registry is let go |
| LeaseWorker.BoundedWait | src/AidlDisplayTopologySubscriber.cpp:271-281 | the wait never passes the deadline, is zero from the deadline on, and falls short of it by less than a millisecond |
| LeaseWorker.LeaseFollowsLog | src/AidlDisplayTopologySubscriber.cpp:283-302 | the worker has authority if and only if a poll was applied since the last clear; a set deadline implies authority and is the first failure since the last applied poll plus the lease; while searching and not stopping the two are equivalent |
| LeaseWorker.PollDecides | src/AidlDisplayTopologySubscriber.cpp:332-342 | an answer that is taken gives authority, ends a loss, and shows its displays if newer; any other changes no display and starts the lease of a worker with authority and none running |
| LeaseWorker.LossStartsLease | src/AidlDisplayTopologySubscriber.cpp:321-353 | a connection not made, or lost, starts that lease too |
| LeaseWorker.LookDecides | src/AidlDisplayTopologySubscriber.cpp:292-304 | a look at the clock, connected or not, removes displays and authority exactly at or after the deadline |
| LeaseWorker.RefusalLeases | src/AidlDisplayTopologySubscriber.cpp:337-342 | the first refused answer fixes the deadline |
| LeaseWorker.LeasedDisplaysGo | src/AidlDisplayTopologySubscriber.cpp:292-344 | then, in every run in which nothing is taken, the first look at or after the deadline removes the displays, also while the service goes on answering |
| LeaseWorker.AcceptedPollIsTaken | src/AidlDisplayTopologySubscriber.cpp:318-342 | in every reachable state a polled snapshot is taken if and only if the conversion accepts it |
| LeaseWorker.EndedConnectionIsSilent | src/AidlDisplayTopologySubscriber.cpp:322-350 | after a connection ends or is not made, its listener changes nothing in any later run short of 2^64 - 1 epoch changes |
| LeaseWorker.GoesOn | src/AidlDisplayTopologySubscriber.cpp:306-358 | where each turn of a worker that is not stopping leads |
| LeaseWorker.ExitsOnlyWhenStopped | src/AidlDisplayTopologySubscriber.cpp:306-358 | in every run the worker exits only once a stop was asked for |
| LeaseWorker.WorkerNeverStuck | src/AidlDisplayTopologySubscriber.cpp:306-358 | the worker always has a next turn once its wait is over |
| LeaseWorker.StopEnds | src/AidlDisplayTopologySubscriber.cpp:246-258 | after a stop the worker has exited after at most nine turns, whatever it is answered |
| LeaseWorker.ClearedOnlyAfterLease | src/AidlDisplayTopologySubscriber.cpp:292-304 | every clear comes a whole lease after the first failure that follows an applied poll, with only failures between, so at most once per authority |
| LeaseWorker.LossOutcome | src/AidlDisplayTopologySubscriber.cpp:306-316 | at any moment without the service the displays are retained, or the deadline has passed and they are removed; without authority they are retained |
| LeaseWorker.RemovedExactlyWithAuthority | src/AidlDisplayTopologySubscriber.cpp:292-316 | in every run without the service that looks at the clock at or after the deadline, the displays are gone at the end if and only if the worker had authority |
| LeaseWorker.RemovedExactlyIfPolled | src/AidlDisplayTopologySubscriber.cpp:292-342 | over every reachable search, if and only if a poll was applied since the last removal |
| LeaseWorker.NeverOversleeps | src/AidlDisplayTopologySubscriber.cpp:261-281 | no reachable wait is longer than its interval, nor lasts past the deadline by more than the time between its two clock readings |
| LeaseWorker.DeadlineIsKept | src/AidlDisplayTopologySubscriber.cpp:292-316 | wherever the search is, from the deadline on its waits are over and its own next turns remove the displays |
| LeaseWorker.ListenerOnlySnapshotStays | src/AidlDisplayTopologySubscriber.cpp:337-342 | for every accepted snapshot there is a run in which only the listener applies it and no absence of the service ever removes it |
| LeaseWorker.NothingAfterDestroy | src/AidlDisplayTopologySubscriber.cpp:246-258 | once the destructor is through nothing changes the topology |
| LeaseWorker.DisplayTopologySubscription.constructor | src/AidlDisplayTopologySubscriber.cpp:224-244 | starts without authority; intervals that are not positive become 250, 1000 and 3000 ms |
| LeaseWorker.DisplayTopologySubscription.BeginServiceLossLease | src/AidlDisplayTopologySubscriber.cpp:283-290 | sets a deadline exactly with authority and without one already set |
| LeaseWorker.DisplayTopologySubscription.ExpireServiceLossLeaseIfNeeded | src/AidlDisplayTopologySubscriber.cpp:292-304 | is the Expire event: a passed deadline drops authority and clears |
| LeaseWorker.DisplayTopologySubscription.PollOnce | src/AidlDisplayTopologySubscriber.cpp:332-342 | is the Poll event: an applied poll gives authority and drops the deadline |
| LeaseWorker.DisplayTopologySubscription.RegisterOnce | src/AidlDisplayTopologySubscriber.cpp:321-328 | is the Register event: failure ends the epoch and starts the lease |
| LeaseWorker.DisplayTopologySubscription.WaitFor | src/AidlDisplayTopologySubscriber.cpp:261-281 | is the Pause event: bounds the wait by the lease at one clock reading and starts it at the next |
| LeaseWorker.DisplayTopologySubscription.Run | src/AidlDisplayTopologySubscriber.cpp:306-358 | the worker's two loops, with listeners and the destructor in between, make exactly the machine's run |
| StreamFrameSink.RequestsFollowRegistrations | src/StreamFrameSink.cpp:126-163 | in every interleaving accepted ids are 1, 2, 3, ...; every request names a buffer registered before for that identity and generation; live ids are injective |
| StreamFrameSink.NoUnknownBuffer | src/StreamFrameSink.cpp:80-102 | a consumer that forgets nothing never answers BUFFER_UNKNOWN |
| StreamFrameSink.NeverAnotherBuffer | src/StreamFrameSink.cpp:126-163 | a frame can only show its own buffer, even if the consumer forgets |
| StreamFrameSink.LookupHits | src/StreamFrameSink.cpp:136-140 | a buffer cached for its generation gets the id it has, and cache, consumer and counters stay as they are |
| StreamFrameSink.LookupMisses | src/StreamFrameSink.cpp:130-163 | any other is registered under the next id if the consumer accepts, in a cache of its generation alone; a refusal caches nothing |
| StreamFrameSink.OneIdUntilLost | src/StreamFrameSink.cpp:126-187 | in every interleaving the requests for a buffer carry one id, without another registration, until the stream is lost, another generation is looked up or the consumer does not know that id |
| StreamFrameSink.ForgottenCounts | src/StreamFrameSink.cpp:136-140 | the measure of the recovery bound counts exactly the cached entries the consumer drops |
| StreamFrameSink.RecoveryIsAmortised | src/StreamFrameSink.cpp:171-187 | in sequential runs BUFFER_UNKNOWN answers never outnumber the cached entries forgotten |
| StreamFrameSink.UnknownForcesFreshId | src/StreamFrameSink.cpp:183-186 | after a settled BUFFER_UNKNOWN every later request for that buffer carries a larger id |
| StreamFrameSink.StreamLossForcesRegistration | src/StreamFrameSink.cpp:165-178 | once the stream is idle, stale or inactive and no other submission holds an id, every later request carries an id registered afterwards |
| StreamFrameSink.ConcurrentUnknowns | src/StreamFrameSink.cpp:102-114 | two overlapping submissions may hear of one forgotten entry twice |
| StreamFrameSink.UnknownsBounded | src/StreamFrameSink.cpp:102-114 | in every interleaving of n threads there are at most n BUFFER_UNKNOWN answers for each key the consumer removed |
| StreamFrameSink.SubmitIsRun | src/StreamFrameSink.cpp:51-119 | an uninterrupted submission is a run of the machine with the cache and the request that the submission's effect says |
| StreamFrameSink.SentExactly | src/StreamFrameSink.cpp:51-100 | a frame is sent if and only if the stream accepts, the buffer exists, resolves and is not protected, it has an id, and its fence could be duplicated; a stream that does not accept empties the cache |
| StreamFrameSink.OutcomeExactly | src/StreamFrameSink.cpp:102-118 | a frame is taken exactly if sent and accepted, which decides the fence given back and the one closed |
| StreamFrameSink.StreamFrameSink.EnsureBufferRegistered | src/StreamFrameSink.cpp:127-163 | looks up or registers within the current generation; a refusal costs one failure and keeps the next id |
| StreamFrameSink.StreamFrameSink.InvalidateRegistration | src/StreamFrameSink.cpp:171-187 | stale and inactive streams empty the cache; an unknown buffer drops its entry only if it still has that id |
| StreamFrameSink.StreamFrameSink.Submit | src/StreamFrameSink.cpp:51-119 | a frame not accepted gives back its acquire fence; an accepted one closes it and gives back the release fence; a refused release fence is closed; each failure counter moves exactly for its failure |
| FailureLog.AndIsBitwise | src/StreamFrameSink.cpp:39-41 | the model's bitwise and agrees with every bit |
| FailureLog.LogsPowersOfTwo | src/StreamFrameSink.cpp:39-41 | a failure is logged if and only if its count is a power of two |
| FailureLog.LinesAreLogarithmic | src/StreamFrameSink.cpp:189-192 | n failures of one kind from zero log floor(log2 n) + 1 lines |
| FailureLog.FailureCounter.RecordFailure | src/StreamFrameSink.cpp:189-192 | one more failure, and exactly the lines of that count |
| StreamStates.ActivationStartsRun | src/AidlFrameConsumerEndpoint.cpp:250-258 | in every interleaving a write activates if and only if nobody stopped, it accepts, and it starts a run of accepting writes of one generation; a disconnection ends a run |
| StreamStates.OneActivationPerRun | src/AidlFrameConsumerEndpoint.cpp:250-258 | every maximal run of accepting writes of one generation activates exactly once |
| StreamStates.DisconnectEndsRun | src/AidlFrameConsumerEndpoint.cpp:203-214 | the first write after a disconnection, if it accepts, activates again |
| StreamStates.CallbackPerActivation | src/AidlFrameConsumerEndpoint.cpp:259-261 | every activation is called back exactly once, before the next write |
| StreamStates.FailureDisconnects | src/AidlFrameConsumerEndpoint.cpp:203-214 | the failure of the current consumer disconnects it and stops every stream accepting; that of another changes nothing |
| StreamStates.ConnectionStays | src/AidlFrameConsumerEndpoint.cpp:203-234 | in every run a connected consumer stays so until it fails itself |
| StreamStates.PassPollsConsumer | src/AidlFrameConsumerEndpoint.cpp:225-237 | a pass polls the consumer there is, otherwise one it connects to and publishes unless stopping |
| StreamStates.PollShowsAnswer | src/AidlFrameConsumerEndpoint.cpp:238-262 | a display then shows the answer about itself, or no stream if it is about another or of no generation; the others stay |
| StreamStates.NextPass | src/AidlFrameConsumerEndpoint.cpp:265-271 | unless stopping the worker goes on to the next pass |
| StreamStates.ExitsOnlyWhenStopped | src/AidlFrameConsumerEndpoint.cpp:216-271 | in every run the worker exits only once a stop was asked for |
| StreamStates.WorkerNeverStuck | src/AidlFrameConsumerEndpoint.cpp:216-271 | in every state that keeps the invariant the worker has a next turn |
| StreamStates.StopEnds | src/AidlFrameConsumerEndpoint.cpp:103-112 | after a stop the worker has exited after at most 3 n + 5 turns, for n displays |
| StreamStates.ConsistentUnlessStaleWrite | src/AidlFrameConsumerEndpoint.cpp:236-258 | "accepting implies connected" is lost by a step if and only if it writes an accepting state while no consumer is connected |
| StreamStates.StaleWriteShows | src/AidlFrameConsumerEndpoint.cpp:203-258 | such a run exists, calls the activation back, and its state stays while no consumer is found |
| StreamStates.AidlFrameConsumerEndpoint.constructor | src/AidlFrameConsumerEndpoint.cpp:89-101 | every configured display starts inactive |
| StreamStates.AidlFrameConsumerEndpoint.GetStreamState | src/AidlFrameConsumerEndpoint.cpp:114-118 | shows what the log of writes and disconnections leaves; inactive for an unknown display |
| StreamStates.AidlFrameConsumerEndpoint.DisconnectConsumer | src/AidlFrameConsumerEndpoint.cpp:203-214 | only the failure of the current consumer disconnects, and stops every stream accepting |
| StreamStates.AidlFrameConsumerEndpoint.WriteState | src/AidlFrameConsumerEndpoint.cpp:250-261 | is the Write event, with its activation edge |
| StreamStates.AidlFrameConsumerEndpoint.Run | src/AidlFrameConsumerEndpoint.cpp:216-271 | the worker's loop over connection and displays, with failing callers in between, makes exactly the machine's run |
| Composition.ValidatedChanges | src/Display.cpp:467-486 | in every reachable validated state a layer has exactly one pending change if it is live and not CLIENT, otherwise none |
| Composition.PresentImpliesClient | src/Display.cpp:379-396 | every submitted frame has the next number 1, 2, 3, ... and every layer CLIENT |
| Composition.AcceptedPresents | src/Display.cpp:162-175 | after a validation, accepting and presenting always succeeds, with the current target and its fence |
| Composition.FramesNeedValidation | src/Display.cpp:177-200 | after a layer is created, destroyed or retyped, or a frame taken, no frame is taken before the next validation |
| Composition.RetainsUntilValidation | src/Display.cpp:473-476 | in every run a layer holds a buffer or fence only if it was given one after the last validation |
| Composition.BufferKept | src/Layer.cpp:21-24 | a layer holds the buffer and fence it was given until it is given others, destroyed, or validated |
| Composition.TypeKept | src/Display.cpp:622-634 | a layer keeps the type its caller set, through validations, until it is set or accepted anew |
| Composition.CreatedLayer | src/Display.cpp:177-187 | a new layer has a fresh id, no buffer and a type that is not CLIENT; the others stay |
| Composition.DestroyedForGood | src/Display.cpp:189-200 | a destroyed layer and its pending change are gone, the others keep theirs, and in every later run its id is not used again |
| Composition.ValidationOnlyAsks | src/Display.cpp:467-486 | a validation lists exactly the layers that are not CLIENT and takes buffers, but leaves types, client target and frames |
| Composition.AcceptMakesClient | src/Display.cpp:162-175 | accepting makes every layer CLIENT and takes nothing else from it |
| Composition.ValidationLasts | src/Display.cpp:379-428 | buffers, client targets and settled frames do not undo a validation: the next present succeeds |
| Composition.RefusedChangesNothing | src/Display.cpp:162-200 | a refused call changes nothing but closes the fence it was given |
| Composition.FrameShowsLastTarget | src/Display.cpp:139-158 | a frame carries the last target set before it with that target's fence, and no later frame carries them again |
| Composition.FenceConservation | src/Display.cpp:139-158 | in every run each fence is as often in a slot, in flight, returned or closed as it came in |
| Composition.SettlesInto | src/StreamFrameSink.cpp:102-118 | a settled frame gives back the release fence if it was taken, otherwise its own acquire fence |
| Composition.Layer.SetBuffer | src/Layer.cpp:21-24 | takes the buffer and its fence over and closes the old fence |
| Composition.Layer.ReleaseBuffer | src/Layer.cpp:26-29 | lets the buffer go and closes the fence |
| Composition.Display.CreateLayer | src/Display.cpp:177-187 | is the CreateLayer event, on a fresh layer object with a fresh id; BAD_PARAMETER without a place for it |
| Composition.Display.DestroyLayer | src/Display.cpp:189-200 | is the DestroyLayer event; BAD_LAYER exactly for an unknown layer |
| Composition.Display.SetLayerCompositionType | src/Display.cpp:622-634 | is the SetCompositionType event with its error codes |
| Composition.Display.SetLayerBuffer | src/Display.cpp:593-602 | is the SetLayerBuffer event with its error codes |
| Composition.Display.AcceptDisplayChanges | src/Display.cpp:162-175 | is the AcceptChanges event; NOT_VALIDATED exactly without a validation |
| Composition.Display.SetClientTarget | src/Display.cpp:408-428 | is the SetClientTarget event; BAD_PARAMETER exactly for rectangles that are missing |
| Composition.Display.ValidateDisplay | src/Display.cpp:467-486 | is the ValidateDisplay event in the order of the visit; HAS_CHANGES exactly if changes are listed; BAD_PARAMETER without places for the results |
| Composition.Display.TakeFrameSubmission | src/Display.cpp:383-391 | is the Present event; NOT_VALIDATED exactly without validation or with changes open |
| Composition.Display.PresentDisplay | src/Display.cpp:379-396 | an uninterrupted present is Present followed by the settlement its sink decides; BAD_PARAMETER and NOT_VALIDATED change nothing |

## Left out

- 64-bit counters (wake, period and config generations, buffer ids, sequence numbers, statistics) are unbounded; only the service epoch wraps in the model, as in the source.
- Times and periods are unbounded integers: overflow of nanosecond sums is not modelled.
- RecoveryIsAmortised: sequential runs only, because the bound is false when submissions overlap (`ConcurrentUnknowns`); `UnknownsBounded` bounds those.
- UnknownForcesFreshId: sequential runs only, because an overlapping submission may register the buffer again before the answer is settled.
- ObjectsMatchTopology: connect requests that say external only, because `ConnectCopiesEarly` shows the difference for the others; replacements always do.
- EndedEpochIsDead: fewer than 2^64 - 1 epoch changes, because the number then returns (`EpochReturns`).
- SnapshotConfluence: deliveries within one epoch with equal generations carrying equal content, because a clear or another epoch changes the outcome (`ClearKeepsGeneration`).
- A registration that the consumer refuses is taken to leave its table unchanged.
- The duplicate of an acquire fence that goes to the consumer is not counted; a failed duplication is an answer of the environment.
- PrimaryModes: caps up to 31796 Hz, because beyond that two rates may share one period (`PrimaryTable` says when); the device reads 1 to 60.
- PrefixStable: displays that offer a period; `DefaultTableStable` is the other half.
- Unknown composition codes are one value; missing out-parameters are modelled for the calls from outside, not for internal conversions.
- Layers and displays: one display's layers are objects owned by that display only; no layer is shared.
- PresentDisplay: the class method is the uninterrupted call; frames of overlapping presents settle in any order in the machine.
- Hotplug callbacks that re-enter the registry, and displays that fail to be created.
- StreamStates.AidlFrameConsumerEndpoint.Run: the refresh wait may end at any time, because no result there depends on its length.
- Real clocks, threads, condition variables and joins: explicit events with readings that only go forward. The vsync thread reads two clocks; both readings lie on one timeline, and any time may pass between them.
- Binder and AIDL transport, service lookup, parcel copies and most of their range checks: nondeterministic environment.
- `src/GraphicBufferClientTargetResolver.cpp`: its answer is an identity and a protected flag.
- `src/Edid.cpp`, `src/HwcDevice.cpp` (function table, dispatch) and `src/Module.cpp`: forwarding and fixed data.
- Statistics other than the failure counters, `Dump`, constant getters, and layer setters that only look the layer up.
