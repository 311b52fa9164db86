# A verified model of xlib's event loop, process and synchronisation logic

xlib is a C library over operating-system calls. Most of it forwards arguments; this
project models the parts that carry logic of their own and proves what they promise.

| file | subject |
|---|---|
| `EventModel.dfy`, `EventRun.dfy` | the event loop as a state machine over values, up to whole runs and whole lives |
| `EventAudit.dfy`, `EventHistory.dfy`, `EventLife.dfy` | an automaton that reads the life of one source off the log, and the proof that no session breaks it |
| `EventActions.dfy` | what each call on the loop does and exactly when it succeeds; what a callback's requests come to |
| `EventTrace.dfy`, `EventService.dfy`, `EventFairness.dfy` | what services leave in the log: silence of removed sources, what a turn consists of, who gets a turn and in which order |
| `EventDelivery.dfy` | what a wait delivers of the kernel's answer |
| `EventOutcome.dfy` | timeouts, the progress of a wait, what passes and waits report |
| `EventCalm.dfy` | worlds whose clock does not wrap: timer passes end and nothing hangs |
| `EventRounds.dfy` | the above carried through whole runs and sessions, the meaning of a run's result, where a run leaves |
| `EventControl.dfy`, `EventCourse.dfy` | the course of a run from its log alone: order of passes and waits, timeouts, stop requests, who is served, where it fails |
| `EventSpin.dfy`, `EventRetry.dfy` | a world in which a timer pass never ends, and one in which a timer fires twice for one slot |
| `EventLoop.dfy` | the loop as an object with a growable array, updated in place, proved against the state machine |
| `Timing.dfy`, `Rescheduling.dfy`, `Clock.dfy` | 64-bit time arithmetic: rescheduling and when it ends, timeouts, counter conversion |
| `WakeProtocol.dfy` | stopping the loop from other threads, as interleaved steps |
| `Semaphore.dfy` | the counting semaphore, as interleaved steps of any number of threads |
| `CommandLine.dfy`, `CommandLineBuffer.dfy` | the Windows command-line quoter against the runtime's parsing rules; its two passes |
| `EnvironmentBlock.dfy`, `PathSearch.dfy`, `Reaping.dfy` | environment block, PATH search, wait and poll |
| `PathAlgebra.dfy`, `Buffers.dfy`, `Limits.dfy` | joining paths and taking their last component, in caller buffers; shared constants |

## How the event loop is modelled

Memory is explicit. `heap` maps the address of each allocated source to its fields, and
freeing removes the address, which the allocator may hand out again. Reading a source
requires its address in the heap, so the functions that walk the list, a wait batch or a
timer pass carry the proof that no pointer dangles. The kernel's epoll table is a map from
handle to address; registering a handle twice is refused, as the kernel refuses it.

Everything outside the loop is a `World`: functions that say what the k-th call to the
clock, the allocator, the kernel or a callback does. A callback is the list of things it
does to the loop (add, remove, stop) and its result, so a statement for every `World` covers
every behaviour of callbacks. Callbacks do not run or destroy the loop they are called from,
remove only listed user sources, and do not close a registered socket.

Runs take a bound on the rounds and a budget for the services of one timer pass. Both are
universally quantified: a statement for all of them is a statement about every finite part
of every run. The log of a run is part of the state and is what the theorems speak about. It records what
happens to each source, and marks where a timer pass and a wait begin and where a callback asks
to stop; a mark names the outside call that it stands for.

Due times are 64-bit values and every sum wraps as the code's does. The reschedule loop of a
repeating timer is taken as it is: its result is the first of its wrapped values past the
clock, and where it has none the run is `Hung` and nothing follows. Statements that need a
clock and timers without wrap say so.

## What the code does not do

Each of these is proved. Where it says "exactly", the condition is both sufficient and necessary.

- A timer whose delay plus the current time exceeds 64 bits is due at once; the longest
  delays saturate and do this at every clock reading but 0 (`Timing.DelayHonouredIff`, `Timing.SaturatedDelayFiresAtOnce`).
- The reschedule loop reaches the next slot exactly when that slot is representable
  (`Timing.RescheduleExactIff`, and `EventLife.RearmExactIff` for every rearming of every session).
  The longest intervals saturate; such a timer, unless it was due at 0, leaves its grid the first time
  it is served, after one addition per nanosecond of its due time
  (`Rescheduling.SaturatedIntervalLeavesTheGrid`).
- The reschedule loop ends exactly when the clock lies before the last place on the 64-bit circle
  that the due time can reach. That place is in the last grain, the grain being the largest power of 2
  that divides the interval (`Rescheduling.RescheduleEndsIff`).
  With an interval of 2^44 milliseconds it can spin for ever (`Rescheduling.RescheduleCanSpin`).
- A timer pass ends if nothing wraps and its callbacks add no source that is due at its clock reading
  (`EventCalm.TimerPhaseEnds`). For that it suffices that the clock never goes back, and advances unless
  every added source has a delay (`EventCalm.SteadyClockIsPunctual`). If it stands still and a callback
  adds a timer without delay, the pass never ends (`EventSpin.FrozenClockNeverEnds`).
- The wait timeout is right exactly when rounding up does not wrap; otherwise it is 0 although
  nothing is due (`EventOutcome.TimeoutMeans`).
- docs/EVENTS.md says that a cancel requests the loop to stop. A cancel that sets its flag before
  the run resets it can be lost (`WakeProtocol.EarlyCancelCanBeLost`); one that sets it later
  cannot (`WakeProtocol.NoLostStop`). The flag is set exactly if one did (`WakeProtocol.StopIffRequested`).
- The comment at src/x_time.c:79-81 says that splitting keeps intermediate values in range. It
  does exactly when the scaled remainder and the result fit (`Clock.SplitNsExactIff`).
- A program path with quotes can swallow or add arguments (`CommandLine.ArgumentsComeBackIff`);
  a path with a quote or a final backslash does not come back itself (`CommandLine.ArgvComesBackIff`).
- An environment entry that converts to an empty string cuts the block short for its reader
  (`EnvironmentBlock.BlockComesBackIff`).
- A one-shot source stays armed after its callback exactly if the callback failed and did not
  remove it (`EventRetry.OneShotStaysIff`); the next run can then fire it again
  (`EventRetry.FailedTimerFiresAgain`). A callback that returned 0 is the last
  (`EventLife.SuccessIsFinal`).
- A repeating timer whose callback fails keeps its due time (`EventRetry.SlotStaysIff`), so the same slot
  is fired again (`EventRetry.FailedTimerFiresAgain`, `EventRetry.OneSlot`). Its callbacks number at
  most the slots come due and its failures (`EventLife.FiringsWithinSlots`).
- An environment block larger than an `int` can count can lose entries; it is complete exactly when
  the narrowed room holds each entry in turn (`EnvironmentBlock.BuildBlock`).

## Model

| member | source | states |
|---|---|---|
| EventLife.WholeLife | src/x_event.c:610-863 | for every world and every sequence of calls between create and destroy, wrapping and hanging ones included: the epoll table is exactly the active sockets, the wake source is active at index 0, the history of every address is unbroken and agrees with the heap, and destroy frees every allocation that is left exactly once |
| EventLife.EverySourceIsTreatedWell | src/x_event.c:314-399 | in every session and for every address: a one-shot timer or process source succeeds at most once and no callback follows the success, process callbacks follow a completed poll, the due time of a repeating timer is the first one plus one interval per addition made so far modulo 2^64 with one rearming or endless reschedule per success, births and frees match |
| EventLife.CalmSessionsAreDriftFree | src/x_event.c:314-399 | if the clock stays below a horizon above which the delays and intervals fit: no session hangs, every repeating timer is on its grid without wrap, up to any time it has succeeded at most once per slot due by then, and its callbacks number at most those slots and its failures |
| EventRounds.SessionAudited | src/x_event.c:702-747 | any mix of outside calls and runs, ending early if a run hangs, keeps the replayed history of every address in agreement with the heap |
| EventAudit.ServeAudited | src/x_event.c:324-396 | one service of a timer, process or file source, with an arbitrary callback in the middle and 64-bit rescheduling, keeps every history unbroken |
| EventHistory.BatchAudited | src/x_event.c:444-462 | dispatching any batch of kernel events keeps every history unbroken |
| EventHistory.CompactAudited | src/x_event.c:117-132 | compaction frees exactly the retired sources, each once |
| EventHistory.DestroyAudited | src/x_event.c:778-812 | after destruction the history of every address ends in its release |
| EventLife.FreedOncePerBirth | src/x_event.c:117-132 | in an unbroken log the allocations at an address equal its frees, plus one while it is allocated |
| EventLife.NoDispatchAfterRemoval | src/x_event.c:1008-1019 | a callback at an address after a removal there implies a free and a new allocation in between |
| EventLife.AtMostOnce | src/x_event.c:335-391 | a one-shot timer or a process source succeeds at most once |
| EventLife.SuccessIsFinal | src/x_event.c:335-391 | after a callback of such a source returned 0, none runs at its address before a new allocation there |
| EventRetry.OneShotStaysIff | src/x_event.c:346-391 | after its callback a one-shot source is still armed iff the callback failed and did not remove it |
| EventRetry.SlotStaysIff | src/x_event.c:380-395 | after the service of a repeating timer its slot is still due iff the timer was not removed and its callback failed or the reschedule never ends |
| EventRetry.FailedTimerFiresAgain | src/x_event.c:380-395 | for every interval, a session in which the same timer fires in two runs |
| EventRetry.OneSlot | src/x_event.c:380-395 | while only one slot of the repeating timer has come due |
| EventLife.ProcessFiresAfterCompletion | src/x_event.c:335-351 | a process callback runs only straight after a poll of that source reported completion |
| EventLife.DriftFree | src/x_event.c:380-395 | every due time of a repeating timer is the first one plus, in 64 bits, one interval for each addition its reschedule loops have made; every success has been followed by one rearming or an endless reschedule, or is in service |
| EventLife.RearmExactIff | src/x_event.c:392-394 | in every unbroken history a timer is rearmed to the next slot of its grid iff that slot is below 2^64 |
| EventLife.OnGrid | src/x_event.c:380-395 | without wrap every due time is the slot whose number is that of the additions made |
| EventLife.FiringsWithinSlots | src/x_event.c:380-395 | without wrap a repeating timer has, up to any time, succeeded at most once per slot due by then, and its callbacks number at most those slots and its failures |
| EventLife.HandlesAreUnique | src/x_event.c:199-217 | no two active socket sources share a handle |
| EventLife.FailedCreateLeavesNothing | src/x_event.c:677-695 | a create that fails has given back every source it allocated |
| EventTrace.BatchOrderly | src/x_event.c:433-465 | within a batch no callback runs for a source after an earlier callback removed it, and what was removed is still allocated at the end |
| EventTrace.PassOrderly | src/x_event.c:314-399 | the same within a timer pass, whatever its outcome |
| EventTrace.BatchSilent | src/x_event.c:433-465 | nothing in the rest of a batch concerns a source that an earlier callback removed |
| EventTrace.PassSilent | src/x_event.c:314-399 | nothing in the rest of a timer pass concerns a source that is already inactive |
| EventFairness.TimerPhaseFair | src/x_event.c:314-399 | in every world: turns go in list order, once each, to sources due at the pass's clock reading if present at its start; every turn is acted upon at once by the right poll or callback; removals happen in callbacks; without errors every due source gets its turn or was removed first, with only earlier sources' turns before that |
| EventFairness.PassFair | src/x_event.c:324-396 | the last part for a pass from any index on |
| EventFairness.PassTurns | src/x_event.c:324-396 | order, dueness and the cause of removals for a pass from any index on, errors and hangs included |
| EventFairness.PassActs | src/x_event.c:335-383 | in every pass the event after a turn is the callback of a timer, or a poll or its failure; a poll that found something is followed by the callback with the right flags, another one by rearming |
| EventCalm.PassFinishes | src/x_event.c:324-396 | if no source that a callback adds is due at the clock reading of the pass, the pass needs at most one service per source listed at its start, although the list grows under it, and serves none of the new ones |
| EventCalm.TimerPhaseEnds | src/x_event.c:314-399 | if intervals fit too the pass ends, with at most one callback per source listed at its start |
| EventCalm.SteadyClockIsPunctual | src/x_event.c:902 | added sources are not due at the reading if nothing wraps and the clock never goes back, and advances unless each has a delay |
| EventRounds.SessionTame | src/x_event.c:314-399 | in a world without wrap a session with fitting timers keeps all its times below the horizon and never spins |
| EventCalm.HangsOnlyIf | src/x_event.c:380-395 | a service hangs only in a repeating timer whose wrapped due times never pass the clock |
| EventSpin.FrozenClockNeverEnds | src/x_event.c:324-396 | the condition on the clock is needed: a world in which no number of services completes the first pass |
| EventOutcome.PassDigest | src/x_event.c:314-399 | a pass stops at its first error or endless reschedule and reports it; callbacks never exceed the budget |
| EventDelivery.WaitDelivers | src/x_event.c:433-465 | from the kernel's answer to the callbacks: an error is returned and an interruption ignored; of the registered handles reported, the first 32 are taken in order, each standing for the source that registered it, and exactly one callback follows for each that has something to report and was not removed by then, with bit 0 iff readable, hung up or in error and bit 1 iff writable; the first callback that fails is the last and gives the result |
| EventDelivery.BatchDelivers | src/x_event.c:444-462 | the same for a batch of pointers, for every batch; removals happen in callbacks |
| EventDelivery.FlagsTell | include/xlib/event.h:18-20 | the flags of a socket event as bits, and 0 exactly when nothing is reported |
| EventService.FileFlagsTell | src/x_event.c:158-173 | the flags of a file event: bit 4, with bits 5 to 7 exactly for creation, modification and deletion |
| EventService.ServeMeans | src/x_event.c:335-395 | what one service does with each answer of the child's poll, the watcher and the callback: a failed poll ends it with that error and nothing else, a poll that finds nothing makes the source due an interval from now, and otherwise the callback runs with the right flags and its result is the result |
| EventOutcome.NearestMeans | src/x_event.c:286-304 | the distance searched for is absent, zero or least exactly when no source is timed, one is due, or it is the earliest due time |
| EventOutcome.TimeoutMeans | src/x_event.c:271-312 | the timeout is absent iff nothing is timed, 0 if something is due, and otherwise the least covering milliseconds clamped to INT_MAX iff rounding does not wrap |
| EventOutcome.ExpiredWaitServes | src/x_event.c:727-740 | an unclamped wait that expires without a socket event makes the next timer pass poll or call a source that is due |
| EventCourse.RunCourse | src/x_event.c:702-747 | every run, however it ends, read off its log: pass, wait, pass in turn; every wait has the timeout that the histories of the sources and the clock reading just before call for; no wait and at most one pass follow a callback's stop request, and the run does not end for want of rounds then; every pass that another pass or wait follows, and the last one too if the run returns 0, serves whoever is due by their history; a failing wait ends the run, and a fault at the end is the error of the last outside call |
| EventCourse.TimeoutFromHistory | src/x_event.c:271-312 | the timeout is the right one for what the histories say is due, for every clock reading |
| EventCourse.PassServes | src/x_event.c:314-399 | an error-free pass gives its turn to everybody who by their history is due at its clock reading, or a callback of the pass removed them first |
| EventControl.BudgetUsedUp | src/x_event.c:324-396 | a pass that does not get to its end has given as many turns as its bound allows, so the bound cuts nothing else short |
| EventRounds.LeavesAtTheTop | src/x_event.c:713 | a stop request, of a callback or another thread, or the lack of active user sources ends a run with 0 at the top of a round, and nothing more happens |
| EventRounds.LeavesAfterThePass | src/x_event.c:717-720 | a stop request ends it with 0 after an error-free first pass, before anything is freed, polled or called |
| EventRounds.LeavesWhenDeserted | src/x_event.c:722-725 | without active user sources it ends there too, with only frees after the pass |
| EventRounds.RunBegins | src/x_event.c:710-717 | a run that finds neither begins with a timer pass or the clock's error, whatever stopped an earlier run |
| EventRounds.RoundsCompact | src/x_event.c:742 | a round that completes leaves only active sources in the list |
| EventRounds.RunOutcome | src/x_event.c:702-747 | result 0 means stop was requested or no active user source is left and nothing failed; another result is the first error, and a hang an endless reschedule, with nothing polled or dispatched after it |
| EventRun.NobodyActiveIff | src/x_event.c:134-147 | the count of active user sources is 0 exactly when every listed source is inactive or internal |
| EventRun.Chosen | src/x_event.c:117-132 | the kept (or freed) part of the list is duplicate-free and has exactly the active (or inactive) sources |
| EventRun.ChosenInOrder | src/x_event.c:117-132 | and they keep their order |
| EventModel.AllocatedIsListed | src/x_event.c:860-861 | an address is allocated exactly when it is listed |
| EventActions.ActMeans | src/x_event.c:814-1019 | what each call does: a timer is added with its delay and interval, a process polled from now on every 10 and a file every 100 milliseconds unless told otherwise, a socket with its handle; each add succeeds exactly if room, clock, memory and registration are granted, and otherwise gives the first error and leaves nothing behind; removal and stop change just that |
| EventActions.AddTimedMeans | src/x_event.c:865-1006 | when adding a timer, process or file source succeeds, which source it adds and with which error it fails |
| EventActions.AddSocketMeans | src/x_event.c:814-863 | the same for sockets: no interest, no room, no memory, a registered handle and a refusing kernel, in this order |
| EventActions.CreateMeans | src/x_event.c:610-700 | a loop is created exactly if its array, the wake source and its registration are granted, and then holds just that source |
| EventActions.CallbackDoes | src/x_event.c:149-156 | after a callback its result is reported, its stop request is in force, what it removed is inactive, and without requests nothing has changed |
| EventActions.ReactSnoc | src/x_event.c:149-156 | a callback's requests take effect one after the other in its order |
| EventActions.WakeCallbackDoes | src/x_event.c:401-430 | the wake callback changes no source and stops nothing |
| EventModel.AddSocketTo | src/x_event.c:814-863 | a failed add changes no source, list or registration; a successful one appends and registers exactly the new source; both keep the invariants |
| EventModel.AddTimedTo | src/x_event.c:865-1006 | every add of a timer, process or file source keeps the invariants; a failed one changes no source, list or registration, and a successful one appends one source, which `AddTimedMeans` determines |
| EventModel.NewcomerIs | src/x_event.c:865-1006 | the appended source is active with the given interval, due its delay after a clock reading of the call in 64 bits, and nothing else changes |
| EventModel.Deactivate | src/x_event.c:1008-1019 | removal leaves the source allocated and inactive and keeps the invariants |
| EventModel.RemovalTouchesOnly | src/x_event.c:1008-1019 | it changes nothing but the source's flag and takes exactly its entry out of the epoll table |
| EventModel.Doubled | src/x_event.c:102-105 | the new capacity suffices and is less than twice what is needed once it has to grow |
| EventModel.GrowthFitsIff | src/x_event.c:102-107 | for one more source doubling once is enough, and the byte count fits 64 bits iff the old capacity is below 2^60 |
| EventLoop.Reactor.Reserve | src/x_event.c:93-115 | the grown array holds the same sources in the same order; a refused reallocation changes nothing |
| EventLoop.Reactor.AddSocket | src/x_event.c:814-863 | takes the object to the state of `AddSocketTo`, error paths included, and keeps its invariant |
| EventLoop.Reactor.AddTimed | src/x_event.c:865-910 | takes the object to the state of `AddTimedTo`, about which `AddTimedMeans` and `NewcomerIs` speak, for every delay and interval |
| EventLoop.Reactor.Remove | src/x_event.c:1008-1019 | takes the object to the state of `Deactivate`; a second removal changes nothing |
| EventLoop.Reactor.Dispatch | src/x_event.c:149-156 | for whatever the callback does, the object ends in the model's state and keeps its invariant |
| EventLoop.Reactor.ServeProcess | src/x_event.c:335-357 | poll, rearm, or dispatch and remove: the service whose histories `ServeAudited` proves unbroken |
| EventLoop.Reactor.ServeFile | src/x_event.c:359-378 | poll, dispatch if something changed, rearm if still active: likewise |
| EventLoop.Reactor.ServeTimer | src/x_event.c:380-395 | dispatch, then remove or reschedule: likewise, for every interval |
| EventLoop.Reactor.Advance | src/x_event.c:392-394 | the do-while loop leaves the due time at the first wrapped value past the clock, or is found to spin |
| EventLoop.Reactor.DispatchTimers | src/x_event.c:314-399 | the index loop over the growing array is the model's pass, for any budget of services |
| EventLoop.Reactor.Compact | src/x_event.c:117-132 | the two-index loop in place equals filtering by active, and frees exactly the rest in order |
| EventLoop.Reactor.ActiveUserSources | src/x_event.c:134-147 | counts the active user sources |
| EventLoop.Reactor.NextTimeout | src/x_event.c:271-312 | the loop with its early return computes the model's timeout |
| EventLoop.Reactor.WaitSockets | src/x_event.c:433-465 | takes the object to the state and result of the model's wait, for which `WaitDelivers` and `BatchOrderly` say what is delivered |
| EventLoop.Reactor.Run | src/x_event.c:702-747 | the run loop ends in the state and with the result of the model's run, about which `RunCourse`, `RunOutcome` and `SessionAudited` speak |
| EventLoop.Reactor.AddWake | src/x_event.c:676-699 | the wake source ends up first and internal |
| EventLoop.Reactor.Destroy | src/x_event.c:778-794 | frees every source once in order and empties the epoll table |
| Timing.MsToNs | src/x_event.c:84-91 | milliseconds to nanoseconds, saturating |
| Timing.DelayHonouredIff | src/x_event.c:902 | a new timer waits out its delay iff the sum does not wrap |
| Timing.SaturatedDelayFiresAtOnce | src/x_event.c:902 | a saturated delay makes the timer due one nanosecond in the past |
| Timing.Reschedule | src/x_event.c:392-394 | for all inputs: the do-while loop ends iff some wrapped value passes the clock, and then at the first such value |
| Timing.NextSlot | src/x_event.c:392-394 | the next slot due + interval * ((now - due) / interval + 1) lies in (now, now + interval] |
| Timing.RescheduleExactIff | src/x_event.c:392-394 | the wrapping loop ends at that slot iff it fits 64 bits |
| Rescheduling.RescheduleEndsIff | src/x_event.c:392-394 | the wrapping loop ends iff now < 2^64 - g + due mod g, where g is the largest power of 2 dividing the interval |
| Rescheduling.RescheduleCanSpin | src/x_event.c:392-394 | a timer of 2^44 milliseconds on which the loop never ends |
| Rescheduling.SaturatedIntervalLeavesTheGrid | src/x_event.c:84-91 | an interval that saturates ends at 2^64 - 1 after due + 1 additions, off its grid unless it was due at 0 |
| Timing.RoundUpRightIff | src/x_event.c:307-308 | rounding up to milliseconds is right iff adding 999999 does not wrap |
| WakeProtocol.NoLostStop | src/x_event.c:401-430 | in every interleaving with any number of cancellers, once a cancel that set its flag after the reset has returned, the loop is never blocked in its wait in that run |
| WakeProtocol.StopIsPrompt | src/x_event.c:702-768 | from a stop request on, the loop thread takes a bounded number of steps besides receiving datagrams before the run returns |
| WakeProtocol.EarlyCancelCanBeLost | src/x_event.c:710-713 | a reachable state in which a cancel has returned, its flag was reset, and the loop is blocked |
| WakeProtocol.StopIffRequested | src/x_event.c:702-768 | in every run the flag is set iff some cancel has set it since the reset |
| WakeProtocol.AnyoneMayCancel | src/x_event.c:749-768 | a thread may set the flag in every state and then send in every state, so the statements about all runs cover every interleaving of cancels |
| WakeProtocol.LoopCanGoOn | src/x_event.c:702-747 | and the loop thread has a next step everywhere |
| Semaphore.RunKeepsInv | src/x_thread.c:474-553 | every state of every run keeps the count in range, conserves permits, and has a woken or signalling thread for each permit while anyone sleeps |
| Semaphore.PermitsConserved | src/x_thread.c:474-553 | count + finished waits = initial + successful posts whenever the mutex is free |
| Semaphore.PostMeans | src/x_thread.c:514-553 | every post of every run is refused exactly if it found the counter at UINT_MAX, and otherwise leaves one permit more |
| Semaphore.PostSignals | src/x_thread.c:541-550 | a post that is not refused signals before it gives up the mutex, which wakes a sleeper if there is one |
| Semaphore.NeverRefused | src/x_thread.c:536-539 | while the counter stays below UINT_MAX no post is refused |
| Semaphore.WaitMeans | src/x_thread.c:499-509 | whenever a waiter holds the mutex it takes a permit if there is one, and otherwise falls asleep |
| Semaphore.HolderCanGoOn | src/x_thread.c:474-553 | whoever holds the mutex can go on |
| Semaphore.AnyoneMayCall | src/x_thread.c:474-553 | while it is free, any thread outside may begin to wait or to post |
| Semaphore.AsleepMeansEmpty | src/x_thread.c:499-505 | if everyone inside is asleep the count is 0 and every permit has been used, spurious wake-ups and barging included |
| Semaphore.SomeoneIsUnderWay | src/x_thread.c:499-550 | while someone sleeps and a permit is left, a woken thread or the mutex holder can go on |
| Semaphore.StepsReachAPermit | src/x_thread.c:499-550 | each such step brings a permit closer to being taken |
| CommandLine.ArgumentsComeBack | src/x_process.c:125-153 | parsing the arguments part by the runtime's rules gives back exactly the arguments, for all strings |
| CommandLine.ArgumentsComeBackIff | src/x_process.c:155-196 | behind a given program path every argument list comes back iff the path's quotes pair up and none of its blanks lies inside a pair |
| CommandLine.ArgvComesBackIff | src/x_process.c:155-196 | path and arguments come back together iff the path has no quote and no final backslash |
| CommandLine.ScanEscaped | src/x_process.c:130-152 | scanning an escaped value undoes the escaping, whatever backslashes precede it |
| CommandLineBuffer.QuotedLength | src/x_process.c:102-123 | the size pass computes the quoted length plus one, without wrap |
| CommandLineBuffer.AppendQuoted | src/x_process.c:125-153 | the fill pass writes exactly the quoted value in bounds and nothing else |
| CommandLineBuffer.CommandLineLength | src/x_process.c:172-177 | the size pass over path and arguments |
| CommandLineBuffer.LineLength | src/x_process.c:172-177 | the computed length exceeds the text by the number of arguments plus one |
| CommandLineBuffer.BuildCommandLine | src/x_process.c:155-196 | the buffer holds the command line and its terminator in bounds; the offset is the length minus the number of arguments plus one |
| EnvironmentBlock.BlockComesBackIff | src/x_process.c:267-317 | reading the block returns the converted entries iff none of them is empty |
| EnvironmentBlock.ReadIs | src/x_process.c:298-313 | reading any block returns the entries before the first empty one |
| EnvironmentBlock.BuildBlock | src/x_process.c:267-317 | a malformed entry fails, and otherwise the block is the converted entries with their terminators iff each survives the narrowing of the room to an int |
| EnvironmentBlock.FillBlock | src/x_process.c:297-313 | the second pass stays inside the size that the first computed and fills it under the same condition |
| EnvironmentBlock.SmallBlocksSurvive | src/x_process.c:298-305 | which holds up to INT_MAX units |
| PathSearch.EnvironmentValue | src/x_process.c:374-390 | the value of the first matching entry, or none; without an environment, what getenv says |
| PathSearch.SearchPathMeans | src/x_process.c:411-414 | the path searched is the value of PATH, or "/bin:/usr/bin" if that is missing or empty |
| PathSearch.DefaultDirectories | src/x_process.c:413 | which are the two system directories |
| PathSearch.CandidateMeans | src/x_process.c:420-429 | a candidate is the directory, one slash and the name, or the bare name for an empty component |
| PathSearch.UnsplitSplit | src/x_process.c:417-438 | the components joined by colons are the PATH value |
| PathSearch.SplitUnsplit | src/x_process.c:417-438 | splitting undoes joining components without colons |
| PathSearch.FormCandidate | src/x_process.c:418-429 | the candidate and its terminator fill a buffer of exactly their size |
| PathSearch.SearchAlong | src/x_process.c:416-438 | the cursor loop tries exactly the components of the value in order |
| PathSearch.FirstAcceptedRuns | src/x_process.c:424-436 | when allocation succeeds the program run is the first candidate that the kernel accepts |
| PathSearch.PassedOver | src/x_process.c:424-432 | a candidate for which there is no memory is passed over, and the search is that among the others |
| PathSearch.ExecEnvironment | src/x_process.c:392-439 | a name with a slash is run as it is; without an environment the C library searches; otherwise PATH, or the default when missing or empty, is searched |
| Reaping.ReapedAtMostOnce | src/x_process.c:709-814 | any mix of waits and polls reaps the child at most once |
| Reaping.ExitCodeNeverChanges | src/x_process.c:709-814 | once reported, the exit code is the same in every later report |
| Reaping.ExitCodeMeans | src/x_process.c:441-450 | exit statuses come back as they are, signals as 128 plus their number |
| Reaping.NextReportIsTheExit | src/x_process.c:709-814 | in every sequence of calls, after the child has exited and unless its status was taken elsewhere, the next wait or poll reports exactly how it ended: its exit status, or 128 plus the signal |
| Reaping.WaitWhileItLives | src/x_process.c:709-750 | a wait for a living child reports how it then ends |
| Reaping.PollWhileItLives | src/x_process.c:752-814 | a poll of a living child says that it is not done |
| Reaping.EchildIff | src/x_process.c:709-814 | ECHILD is reported exactly if the status was taken elsewhere before anybody asked for it, and no other error is |
| Reaping.ProcessHandle.Wait | src/x_process.c:709-750 | repeats interrupted calls, takes the status at most once and remembers it, as the reaping model says |
| Reaping.ProcessHandle.Poll | src/x_process.c:752-814 | the same without blocking; a live child is reported as not yet done |
| PathAlgebra.JoinAssociative | src/x_filesystem.c:897-940 | joining is associative over all strings |
| PathAlgebra.JoinNeutral | src/x_filesystem.c:914-926 | the empty path is neutral on both sides |
| PathAlgebra.JoinMeans | src/x_filesystem.c:897-940 | for non-empty paths: an absolute right side wins, and otherwise the two stand in order with exactly one separator in between unless the left ends in one |
| PathAlgebra.JoinInto | src/x_filesystem.c:897-940 | succeeds iff the joined path and its terminator fit, writes exactly those, and nothing on failure |
| PathAlgebra.BaseOfJoin | src/x_filesystem.c:942-964 | the last component of a join is that of the right side, or of the left side if the right is empty |
| PathAlgebra.NameIsBase | src/x_filesystem.c:942-964 | a non-empty name without separator is the last component of every path it is joined to |
| PathAlgebra.BaseIff | src/x_filesystem.c:942-964 | the last component is what stands behind the last separator, and nothing else is |
| PathAlgebra.BaseName | src/x_filesystem.c:942-964 | the cursor loop finds the last component |
| Clock.SplitIsExact | src/x_time.c:82-83 | the split form equals the rounded-down quotient |
| Clock.SplitNsExactIff | src/x_time.c:76-83 | with 64-bit wrapping, the result is exact iff the scaled remainder and the result fit |
| Clock.LowFrequencyFits | src/x_time.c:79-83 | below 2^64 / 10^9 counts per second the remainder always fits |
| Clock.ExactNsMonotone | src/x_time.c:82-83 | later counters never give earlier times |
| Clock.ExactNsOfDifference | src/x_time.c:177-193 | the difference of two readings is the time between them, or one nanosecond more |
| Clock.ElapsedTimer.ElapsedNs | src/x_time.c:177-193 | elapsed time is the difference of the two rounded-down readings, never negative |

## Left out

- EventLoop.Reactor.Reserve: does not model wrap-around of the byte count in `size_t`, which begins at 2^60 sources (`GrowthFitsIff`), more than memory holds.
- EventLoop.Reactor.DispatchTimers: takes a bound on the services of a pass, since a pass need not end; `Unfinished` says that the bound was reached, and `TimerPhaseEnds` when it is not.
- EventLoop.Reactor.Run: takes a bound on the rounds, since a run need not end; `Unfinished` says that the bound was reached.
- Timing.Reschedule: where the code spins for ever, the method reports it after 2^64 additions.
- What the due time reads while the reschedule loop spins: the model leaves it as it was.
- kqueue and select backends of the event loop; the wait follows the epoll form.
- NULL-pointer argument checks, and the `running` field, which nothing reads.
- Interest flags of a socket beyond requiring one; what the kernel reports is arbitrary for registered handles.
- The cleanup of sockets and of the epoll descriptor in create and destroy.
- Memory-model effects of the plain `int` stop flag: reads and writes are sequentially consistent.
- Failing pthread calls in the semaphore.
- UTF-8 to wide conversion, which is a parameter; the final conversion of the command line.
- fork, exec and CreateProcess themselves, redirection, pipes and pipelines; the search that `execvp` makes when no environment is given.
- Windows drive and UNC paths in joins.
- Files, directories, watchers, mapped memory, shared memory, named semaphores, dynamic libraries, terminal, network, TLS, allocator and diagnostics hooks, and the C++ wrappers: thin layers that would add only easy members.
