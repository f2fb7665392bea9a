# Agent Smith: a verified model of its core

Agent Smith is a long-lived service. It receives commands over MQTT, runs them on a pool of workers,
posts the results back over HTTP, and keeps results it could not deliver in a spool directory. This
project models the parts of it that carry real state, concurrency or arithmetic, and proves what they
guarantee. Check it with `dafny verify dfyconfig.toml` (Dafny 4.11).

| files | what they model |
|---|---|
| `Pipeline`, `TeardownPlan`, `PipelineSafety`, `PipelineTrails`, `PipelineResults`, `PipelineTraffic`, `PipelineLimits` | one connection cycle (`runCycle`): the cycle goroutine, the ordered subscribe callback, the bounded queue, N workers and a teardown in any order, the code's LIFO order among them, as a transition system; safety, a ledger of every message, how much is in flight and that it gets done, termination, what the events of a run say of its end, and exactly which orders are safe |
| `ServiceLoop` | the loop of `Execute` around the cycles: reconnect waits, stop signal, lifecycle notices |
| `Timing` | the reconnect generator and the token renewal margin |
| `Postback` | one postback attempt, the retry delay, the retry loop |
| `PluginState`, `PluginResults`, `Supervisor` | the plugin supervisor: its lock-held sections as steps, whole-run results, and the wrapper class whose methods are those steps |
| `SpoolNames`, `SpoolFiles`, `SpoolSteps`, `SpoolVerdicts`, `Spool` | the postback spool: names as strings, the directory as a map, `enqueue` and `flush` as methods of a class, beside other goroutines |
| `SpoolState`, `SpoolFlushes`, `SpoolRecords`, `SpoolLedger`, `SpoolRuns`, `SpoolReuse` | every interleaving of one enqueue with any number of flushes, over a whole process run |
| `SpoolCalls` | whole calls of the class as runs of that model |
| `BoundedWriter` | the bounded output writer over a growing array |
| `MqttFraming` | MQTT 3.1.1 packet framing (section 2.2.3, Remaining Length) of the stub broker |

## How to read it

**The cycle.** Every function that `runCycle` defers is expanded into the operations it performs. The order of
a whole teardown is a parameter, and each return path runs the operations of the functions deferred so far, in
that order; `UnwindPath` shows that for the order `LIFO` this is what deferring does. Two things about the code
around the cycle are hypotheses (`Env`): `barrier`, that no callback runs once `Disconnect` has returned, and
`heedsCancel`, that a command returns once its context is cancelled. `TeardownSafeExactlyIf` says of all orders
and hypotheses which never panic and always end.

**Other goroutines.** The supervisor and the spool's whole runs are step relations, so their results hold for
every interleaving. Of the spool class, the methods behind `Enqueue` take the set `takes` of names that flushes may
remove while the call goes on, before any of its own removals. `Flush` takes `others`, the directories that other
goroutines leave, in order: between any two of its steps the next of them may take the place of the directory. What
the call does is returned as `changes`, its own removals (`Ours`) and those interventions (`Theirs`) one after the
other, and the directory at the end is `Replay` of just these. `takes == {}` and `others == []` are calls beside which
nothing happens; these are shown to be runs of `SpoolState`. Jitter is any integer within a quarter of the base.
`stuck` is the set of files the operating system refuses to remove.

**What the code does differently from what is said about it.**
- The repository's README says that only messages arriving during teardown are discarded. A worker may
  leave on the cancelled context while the queue still holds messages, and those, whose callback has
  returned, are neither run nor counted. `AbandonedExactlyIfQueued` gives the exact condition and
  `AcknowledgedMessageCanBeAbandoned` a run.
- The repository's README promises that a result is not dropped when every in-line attempt fails. It is, when
  there is no spool or the spool fails (`SendPostbackWithRetry`, outcome `Dropped`). The README does not speak
  of a cycle that ends in a backoff wait; then too the result goes neither out nor to the spool, exactly under
  `IsLostInWait`, with `LostInFirstWait` as an example.
- The comment on `sendPostbackWithRetry` lists every 2xx and every 4xx as terminal. In the code only 200
  always is; any other status below 500 ends the retries exactly when its body parses
  (`OnlyParsableRepliesSettle`).
- The comment on `postbackRetryBackoff` gives base * 2^(attempt-2) under a cap. Doubling stops at half the
  cap rounded down, so for an odd cap a schedule that lands on cap - 1 is raised to the cap (`ExactUnlessOneShort`).
- Spool names sort by time only from 1970 on (`TimeOrder`), and at equal times by sequence number only as far
  as six digits allow (`EqualTimeOrder`, `PaddingCanMislead`).
- The comment on `droppedTotal` says that it counts the entries discarded over capacity or age. A prune counts
  what it removed, and what a flush removed first; its count is exact if and only if there was none of the latter
  (`CounterIsExactUnlessBeaten`). Over a run there are four more ways to go wrong. A prune may also count an entry
  that the engine has resolved and the flush not yet removed. A flush discards uncounted what it finds too old;
  corrupt files, which are over neither capacity nor age; and, under a reused name, the new entry in place of the one it
  had read. `CounterIsExactIff` says when the counter is the number discarded over capacity or age, and when it is the
  number of all that went unresolved: exactly if these errors cancel. `DeliveredEntryIsCounted`, `ResolvedEntryIsCounted`,
  `AgedEntryIsNotCounted`, `CorruptFileIsNotCounted` and `ReplacedEntryIsNotCounted` are runs for each.
- Sequence numbers restart with the process, so a name can be that of a file an earlier run left. An entry is
  accounted for in every run if and only if its name is not one of those that this run can still give
  (`SafeExactlyUnlessReused`): dated no earlier than the start of this process, which for a file left by an earlier one
  takes a clock that was set back in between, with a number from 1 on, and no directory at the name of the temporary file.

## Model

| member | source | states |
|---|---|---|
| `PipelineResults.NoSendOnClosedQueue` | cmd/agent_smith/service.go:337-555 | for the code's teardown order and every other sound one, given the Disconnect barrier, in every interleaving and on every return path no send ever meets the closed queue |
| `PipelineLimits.TeardownSafeExactlyIf` | cmd/agent_smith/service.go:328-357 | of all orders of the seven teardown operations, under all hypotheses, over all worker counts, queue sizes and interleavings: a cycle never panics and can always still end if and only if draining closes before the disconnect, the disconnect comes before the queue closes, commands are cancelled before the join, Disconnect is a barrier, and commands heed their context |
| `PipelineLimits.PanicFreeExactlyWithBarrier` | cmd/agent_smith/service.go:415-436 | for the code's own order the process never panics on the closed queue if and only if Disconnect is a barrier |
| `PipelineResults.EveryMessageAccountedFor` | cmd/agent_smith/service.go:346-384 | every message handed to the callback is in exactly one of callback, queue, worker, finished, dropped, and nothing else is anywhere; messages leave the queue in arrival order; queue and pool keep their bounds; the drop counter grows by exactly the drops, all after draining closed |
| `PipelineResults.EndOfCycle` | cmd/agent_smith/service.go:385-389 | when a cycle has ended every message is finished, dropped or abandoned in the queue, exactly one of them, and an enqueued one was run exactly if it is not still queued |
| `PipelineResults.AbandonedExactlyIfQueued` | cmd/agent_smith/service.go:366-381 | after Disconnect, every continuation leaves the queue empty if and only if it is empty already: whatever it holds, some interleaving abandons |
| `PipelineLimits.AcknowledgedMessageCanBeAbandoned` | cmd/agent_smith/service.go:378-380 | a concrete run in which an acknowledged message ends up neither run nor dropped |
| `PipelineResults.StepMeasure` | cmd/agent_smith/service.go:385-389 | once the cycle returns, every step but an arrival lowers a measure over teardown operations, the blocked callback, queued messages and live and busy workers |
| `PipelineResults.TeardownBound` | cmd/agent_smith/service.go:328-336 | the length of every teardown run is bounded by the work there was plus four per late arrival; once no callback can come the bound is outright |
| `PipelineResults.TeardownNeverStuck` | cmd/agent_smith/service.go:351-357 | in every reachable teardown state, full queue, hung workers and blocked callback included, a teardown operation, a drop, or a worker's finish or leave is enabled |
| `PipelineResults.TeardownReachesTheEnd` | cmd/agent_smith/service.go:328-336 | every returning cycle can end by its own steps within its measure, leaving the queue as it was |
| `PipelineLimits.EndsExactlyIfCommandsHeedCancel` | cmd/agent_smith/service.go:330-332 | for the code's own order, from every reachable state in which the cycle is returning it can reach its end if and only if Disconnect is a barrier and commands return once cancelled |
| `PipelineLimits.HungCommandIsNeverJoined` | cmd/agent_smith/service.go:331-332 | if commands ignore their context, or the join comes before the cancellation, a run from the start of a cycle reaches a state from which no continuation ends |
| `PipelineLimits.LateSendPanics` | cmd/agent_smith/service.go:385-389 | without the barrier, or with the queue closed before the disconnect, a run from the start ends in a send on the closed queue; with the teardown unfinished, unless closing the queue is its last operation |
| `PipelineLimits.BlockedCallbackIsNeverLeft` | cmd/agent_smith/service.go:351-357 | if the disconnect comes before draining closes, a run with a full queue, a hung worker and a blocked callback reaches a state from which no continuation ends |
| `TeardownPlan.UnwindPath` | cmd/agent_smith/service.go:328-336 | on each of the four return paths, running the deferred functions last in first out is running the operations of LIFO that have been deferred |
| `TeardownPlan.LifoIsSound` | cmd/agent_smith/service.go:328-336 | LIFO has all seven operations in a sound order |
| `PipelineResults.CycleOutcome` | cmd/agent_smith/service.go:385-555 | whatever the order and the hypotheses, every finished cycle went through options, connect, publish, subscribe and serve as far as each succeeded, and by the events of its run: it exits with code 1 if and only if its options could not be built, and with 0 otherwise; it asks to return if and only if that or an interrupted connect or subscribe or the stop signal while serving occurred; it clears the backoff and was Online if and only if the subscribe succeeded; and it last said Stopped, Offline or Reconnecting if and only if it was stopped, lost its connection or renewed its token |
| `PipelineLimits.EveryEndingOccurs` | cmd/agent_smith/service.go:385-555 | every such way through a cycle is that of some run which ends |
| `PipelineTrails.TeardownRunsWhatIsDue` | cmd/agent_smith/service.go:385-520 | for every order of the operations, a cycle that has ended has run exactly those of the functions deferred on its way, each once and in that order: commands, queue and workers always, unsubscribe and disconnect if its options were built, the release of the callback if it subscribed, the timer if it went online |
| `PipelineTraffic.TrafficExactlyWhileOpen` | cmd/agent_smith/service.go:453-457 | given the barrier, after any run: a message can come if and only if the cycle has begun to subscribe, has not disconnected, and the callback is free; the one it holds can be queued if and only if there is room, and dropped if and only if the teardown has released the callback |
| `PipelineTraffic.WorkersActExactly` | cmd/agent_smith/service.go:357-381 | given the barrier, after any run: a worker takes a message if and only if it is idle and one is queued, ends its command if and only if that does not hang or is cancelled and heeds it, and leaves if and only if it is idle and commands were cancelled, or the closed queue is empty |
| `PipelineTraffic.InFlightBound` | cmd/agent_smith/service.go:340-381 | never more than 1 + queue size + workers messages have come and are neither finished nor dropped |
| `PipelineTraffic.BackPressureOnlyWhenFull` | cmd/agent_smith/service.go:598-619 | for any pool and queue that bound is reached: a run in which every worker is busy, the queue is full, the callback blocks, and nothing is lost |
| `PipelineTraffic.WhatArrivesCanBeFinished` | cmd/agent_smith/service.go:360-377 | from wherever a run has got to, while the cycle serves and its commands end, callback and workers alone can finish exactly what has come |
| `PipelineTraffic.QueuedCanStillBeRun` | cmd/agent_smith/service.go:366-381 | during a teardown too, one worker that has not left can run all that is queued, in order |
| `PipelineSafety.StepKeepsInv` | cmd/agent_smith/service.go:337-555 | every step of every goroutine keeps the invariant of control, notices, order, ledger and safety |
| `PipelineSafety.RunKeepsInv` | cmd/agent_smith/service.go:337-555 | and so does every run |
| `PipelineSafety.TrafficKeepsOrder` | cmd/agent_smith/service.go:596-619 | taken followed by queued is the enqueue order, which is arrival order, and the queue stays within its capacity |
| `PipelineSafety.FinishKeepsCount` | cmd/agent_smith/service.go:629-639 | a worker that finishes, by a recovered panic too, moves its message to the finished ones and is idle again |
| `ServiceLoop.Execute` | cmd/agent_smith/service.go:291-315 | for every sequence of cycle outcomes and every moment of the stop signal: each wait lies in [1.5 s, 64 s] and follows the schedule fixed by the cycles before it; no cycle follows one that asked to return or a wait the stop signal won; the exit code is the last cycle's, or 0 for a stop during a wait; the notices are AgentStarted and then those of each started cycle in place, with exactly one Reconnecting between two cycles and none before the first, an accepted trace with one Online per cycle that cleared the backoff; one wait per started cycle but the first, and one more if the stop signal won it |
| `ServiceLoop.PlayTurn` | cmd/agent_smith/service.go:292-314 | one turn of the loop keeps all that, or leaves the loop well |
| `ServiceLoop.AtMostOneStartAfterStop` | cmd/agent_smith/service.go:226-232 | however the loop stands, every cycle but the last was over before the stop signal closed, at most one starts after it, and a turn that begins after it starts none and ends the loop |
| `ServiceLoop.AwaitTurn` | cmd/agent_smith/service.go:292-302 | waits exactly if a cycle has run before, within the bounds; a stop ends the wait and says nothing, the timer says Reconnecting; before the first cycle nothing is said |
| `ServiceLoop.TraceLaid` | cmd/agent_smith/service.go:289-314 | where the notices of each cycle stand in the trace of a loop: nothing overlaps, and nothing else is there |
| `ServiceLoop.ReconnectsCounted` | cmd/agent_smith/service.go:291-300 | the trace has one Reconnecting for each cycle but the first and one for each that renewed its token |
| `ServiceLoop.RunTurn` | cmd/agent_smith/service.go:304-314 | after a cycle the generator stands where the history dictates and the trace is still accepted |
| `ServiceLoop.BaseStep` | cmd/agent_smith/service.go:304-311 | after each cycle the generator stands at the base its history dictates: min(2^m, 64) s from the start, min(2^(m+1), 64) s after m uncleared cycles since a clearing one |
| `ServiceLoop.AcceptedTraceShape` | cmd/agent_smith/service.go:244-300 | in an accepted trace AgentStarted is first and only first, Stopped only last, Online is followed at once by Stopped, Offline or Reconnecting, Offline by Reconnecting |
| `ServiceLoop.HearCycle` | cmd/agent_smith/service.go:495-555 | what any cycle says keeps the trace accepted, and it ends in Stopped exactly for a cycle that returned with code 0 |
| `Timing.ReconnectTimeoutGenerator.Next` | internal/utils/time.go:180-195 | doubles the base up to 64 s from an initial 1 s, with a wait within a quarter of it and never above 64 s |
| `Timing.BaseIsCappedPower` | internal/utils/time.go:180-188 | after n steps from a cleared generator the base is min(2^n s, 64 s) |
| `Timing.MarginInsideLifetime` | internal/utils/time.go:153-169 | the renew margin is strictly between 0 and the lifetime if and only if the lifetime is at least 2 ns; it is a tenth clamped to [1 min, 15 min] above one minute and half the lifetime below |
| `Timing.RenewsBeforeExpiry` | cmd/agent_smith/service.go:534-537 | renewal fires strictly before the whole-second expiry if and only if the delay from minting to arming is below the margin less the fraction of a second lost to rounding; a second less always suffices |
| `Timing.ConfiguredTokensRenewInTime` | internal/mqtt/azure_iot_hub.go:25-27 | for any lifetime of whole hours, waits of up to 344 s for connect, subscribe and notification, with the 5 s and 10 s bounds added, still renew in time |
| `Postback.WhatSettles` | cmd/agent_smith/service.go:867-950 | of every attempt: one that cannot be built and a reply of status 200 settle the matter, one that is not sent, whose body is not read or whose status is 500 or more never does, and any other reply does exactly if its body parses |
| `Postback.OnlyParsableRepliesSettle` | cmd/agent_smith/service.go:907-950 | a status below 500 other than 200 ends the retries exactly when its body parses |
| `Postback.EvenCapIsExact` | cmd/agent_smith/service.go:699-723 | for an even cap, 64 s if none is given, and a base of 1 s if none is given, the delay before jitter is min(base * 2^max(0, attempt-2), cap) |
| `Postback.ExactUnlessOneShort` | cmd/agent_smith/service.go:710-723 | for any cap it is that, except exactly when a doubled schedule lands on cap - 1 |
| `Postback.OddCapExample` | cmd/agent_smith/service.go:715-718 | base 1, cap 3, attempt 3 gives 3 where the capped doubling is 2 |
| `Postback.DoubledInClosedForm` | cmd/agent_smith/service.go:710-723 | the doubling loop, with its jump to the cap from half of it, computes the capped power of two, raised to the cap exactly where that is one short of it |
| `Postback.PostbackRetryBackoff` | cmd/agent_smith/service.go:699-734 | the jittered delay is positive, at most the cap and within a quarter of the exact schedule, with no intermediate value above the cap and no iteration after the cap is reached, however many attempts |
| `Postback.SendPostbackWithRetry` | cmd/agent_smith/service.go:743-826 | exactly one of resolved, aborted in a wait, spooled, dropped, each exactly when attempts and cancellations dictate it: aborted if and only if the cycle ends in the wait before some attempt of the budget with none settled before; the last two and the one failure notice exactly if all maxAttempts attempts failed; between any two attempts one wait of the schedule, under a cap of 64 s; 3 attempts unless configured; an outage of server errors or unsent requests uses up all attempts and then goes to the spool, and a first reply of 200 ends at once |
| `Postback.LostInFirstWait` | cmd/agent_smith/service.go:762-779 | an engine that is down and a cycle that ends in the first wait lose the result; had the cycle lasted, all attempts would have failed and the result gone to the spool |
| `BoundedOutput.PrefixGrows` | internal/interpreter/bounded_writer.go:46-51 | appending to a stream adds to its kept prefix exactly the first bytes there is room for |
| `BoundedOutput.Writer.Write` | internal/interpreter/bounded_writer.go:36-54 | keeps exactly the first max(0, min(limit, total)) bytes of everything written, reports every write whole, never lets the capacity pass the limit, and over all writes copies fewer than 2 * limit bytes while growing |
| `BoundedOutput.Writer.Append` | internal/interpreter/bounded_writer.go:61-75 | appends in place, growing only when it must |
| `BoundedOutput.Writer.Grow` | internal/interpreter/bounded_writer.go:62-73 | capped doubling keeps the bytes, makes room, and pays for its copies |
| `BoundedOutput.Writer.Truncated` | internal/interpreter/bounded_writer.go:101-105 | true exactly if some written byte was not kept |
| `BoundedOutput.TruncationOf` | internal/interpreter/bounded_writer.go:111-117 | the summary says truncated exactly if either stream lost a byte, which is exactly if its two counts differ |
| `MqttFraming.LengthRoundTrip` | test/stubbroker/main.go:376-419 | decoding an encoded length with anything after it gives the length and leaves the rest, if and only if it is at most 268435455; beyond that the read is malformed |
| `MqttFraming.EncodedBytes` | test/stubbroker/main.go:406-419 | the bytes of an encoding are worth n, seven bits each with the least significant first, and exactly the last has its top bit clear |
| `MqttFraming.DecodeEncoded` | test/stubbroker/main.go:379-396 | k bytes suffice exactly for the lengths below 128^k |
| `MqttFraming.EncodedSize` | test/stubbroker/main.go:406-419 | the encoding takes at most k bytes exactly for n < 128^k |
| `MqttFraming.EncodingIsMinimal` | test/stubbroker/main.go:406-419 | no byte string that decodes to n is shorter than its encoding, and one of that length is the encoding |
| `MqttFraming.HeaderBits` | test/stubbroker/main.go:398-399 | the first byte gives back type and flags if and only if both are below 16 |
| `MqttFraming.ParseFrame` | test/stubbroker/main.go:353-374 | what reading any written packet gives, oversized types, flags and payloads included |
| `MqttFraming.PacketRoundTrip` | test/stubbroker/main.go:353-404 | a written packet followed by anything is read back with the rest untouched, if and only if type and flags are below 16 and the payload fits |
| `MqttFraming.CutFrameIsShort` | test/stubbroker/main.go:368-371 | a connection that closes anywhere inside a packet gives no packet |
| `MqttFraming.StreamRoundTrip` | test/stubbroker/main.go:353-404 | reading the concatenation of written packets gives the list back if and only if every packet is of that kind |
| `MqttFraming.EncodeRemainingLength` | test/stubbroker/main.go:406-419 | the loop computes the encoding the round trips are about |
| `MqttFraming.ReadRemainingLength` | test/stubbroker/main.go:379-396 | the loop computes the decoding, consumes exactly the field, and drains a connection that ends inside it |
| `MqttFraming.WritePacket` | test/stubbroker/main.go:398-404 | appends exactly one frame to the connection |
| `MqttFraming.ReadPacket` | test/stubbroker/main.go:355-374 | returns what parsing the connection gives and leaves exactly what follows the packet |
| `PluginResults.StepOwned` | plugins/loader.go:129-319 | every lock-held section keeps: what runs is at most the held handle, and nothing is held once closed |
| `PluginResults.RunOwned` | plugins/loader.go:129-319 | and so does every interleaving of Notify, CheckHealth, Kill and dying subprocesses |
| `PluginResults.NoOrphans` | plugins/loader.go:142-150 | at most one subprocess of a plugin ever runs, and it is the one held, with its notifier |
| `PluginResults.OnlyItsOwnErrorsKill` | plugins/loader.go:203-211 | a running subprocess survives a step if and only if the step is not its own death, Kill, or a transport error of a call that used that very handle |
| `PluginResults.RelaunchedExactlyIfDue` | plugins/loader.go:216-319 | a notification or a health check launches a subprocess if and only if the plugin is not shut down, is one that can be launched, has no subprocess or one that exited, and has been up for 120 s or is past its wait; a launch that works is held and the only one running, one that fails leaves nothing; otherwise nothing changes hands |
| `PluginResults.HandlesAreFresh` | plugins/loader.go:444-489 | every launch gives a handle never used before |
| `PluginResults.LetGoForGood` | plugins/loader.go:205-209 | a handle that was dropped is never held again, so a stale error can never hit a newer one |
| `PluginResults.KilledForGood` | plugins/loader.go:129-135 | after Kill nothing runs, no handle is issued and no relaunch attempted, in every continuation |
| `PluginResults.StepPaced` | plugins/loader.go:259-319 | every step keeps the restart schedule as its history dictates it |
| `PluginResults.AttemptsKeepTheirDistance` | plugins/loader.go:264-291 | consecutive relaunch attempts with no delivery between are at least 5 s apart, and unless the dead subprocess had been stable at least min(5 s * 2^(k-1), 300 s) after the k-th of a streak |
| `PluginResults.CrashLoopBound` | plugins/loader.go:33-45 | over any stretch of T seconds with D deliveries there are at most 1 + D + T/5 relaunch attempts |
| `PluginResults.CountersTellTheTruth` | plugins/loader.go:325-372 | restarts and failed restarts add up to the attempts, every missed notification counts once, and one Error line is logged per stretch of failures |
| `PluginResults.HistoryIsWhatHappened` | plugins/loader.go:325-372 | the outcomes, deliveries and attempts that schedule and counters are judged by are those of the run |
| `Supervisor.Wrapper.Notify` | plugins/loader.go:161-214 | a whole Notify, with any other steps while the lock is free, is a run of the step relation; its own steps are the locked beginning, the drop of the handle it used if and only if the channel broke, and one success or failure; with nobody else about these are all that happens; it delivers exactly if the plugin accepts, reports no error only then or when closed or not restartable, and leaves a broken handle behind for good |
| `Supervisor.Wrapper.BeginNotify` | plugins/loader.go:162-179 | the locked part is one step, and hands out the handle held after it |
| `Supervisor.Wrapper.CheckHealth` | plugins/loader.go:216-225 | is one step |
| `Supervisor.Wrapper.Kill` | plugins/loader.go:129-135 | is one step, after which the wrapper is closed and holds nothing |
| `Supervisor.Wrapper.ChargeLocked` | plugins/loader.go:264-291 | decides whether a relaunch is due and charges the wait before it is tried |
| `Supervisor.Wrapper.RelaunchLocked` | plugins/loader.go:293-318 | drops the old subprocess and launches one that is held, or on failure leaves nothing running |
| `Supervisor.Wrapper.LaunchNotifier` | plugins/loader.go:444-489 | a failed launch of any kind kills what it started |
| `Supervisor.Wrapper.DropIfCurrent` | plugins/loader.go:203-211 | drops the handle only if it is the one the call used |
| `Supervisor.Wrapper.RecordFailure` | plugins/loader.go:325-350 | counts the failure and logs an Error line only at the start of a failing stretch |
| `Supervisor.Wrapper.RecordSuccess` | plugins/loader.go:355-372 | resets the restart schedule and ends the failing stretch |
| `SpoolNames.TimeOrder` | cmd/agent_smith/postback_spool.go:108-109 | for any two int64 times the earlier name sorts first if and only if the later time is not before 1970 |
| `SpoolNames.EqualTimeOrder` | cmd/agent_smith/postback_spool.go:108-109 | at equal times names sort by sequence number exactly as far as the padding lets them, always below a million |
| `SpoolNames.SeqOrder` | cmd/agent_smith/postback_spool.go:108-109 | padded numbers of different width compare as the smaller does with the leading digits of the larger |
| `SpoolNames.PaddingCanMislead` | cmd/agent_smith/postback_spool.go:109 | number 1000000 sorts before 999999 at the same time |
| `SpoolNames.NamesAreInjective` | cmd/agent_smith/postback_spool.go:109 | two entries have the same name only if time and sequence number are both the same |
| `SpoolNames.NameShape` | cmd/agent_smith/postback_spool.go:109 | a name is twenty digits worth the time, a dash, at least six digits worth the number, exactly six below a million, and .json |
| `SpoolNames.TimeReadsBack` | cmd/agent_smith/postback_spool.go:264-271 | the time read from a spool name is the one it was made from if and only if that is not before 1970 |
| `SpoolFiles.ExpiryAgrees` | cmd/agent_smith/postback_spool.go:134 | expiry by name is expiry by content if and only if the entry is from 1970 on or not old enough |
| `SpoolFiles.ListedOldestFirst` | cmd/agent_smith/postback_spool.go:150-171 | a listing is in order of creation, times before 1970 apart |
| `SpoolFiles.NewestIsUnique` | cmd/agent_smith/postback_spool.go:141-147 | which entries are the newest k is settled by their names |
| `SpoolFiles.PickLists` | cmd/agent_smith/postback_spool.go:132-139 | the filter splits a sorted listing into sorted survivors and expired names, losing and inventing none |
| `SpoolFiles.TailIsNewest` | cmd/agent_smith/postback_spool.go:144-147 | the last k of a listing are the newest k of its entries |
| `SpoolSteps.PruneParts` | cmd/agent_smith/postback_spool.go:125-148 | a listing falls apart into expired, evicted and the newest unexpired names |
| `SpoolSteps.CounterIsExactUnlessBeaten` | cmd/agent_smith/postback_spool.go:173-185 | beside any flush, a prune adds to the drop counter the number of entries it removed plus the number a flush removed first; so it is exact if and only if no doomed entry was taken first |
| `SpoolVerdicts.OutcomeIsSteps` | cmd/agent_smith/postback_spool.go:209-246 | what the flush method makes of one entry is what the read and deliver steps of the whole-run model make of it |
| `SpoolVerdicts.FlushAlone` | cmd/agent_smith/postback_spool.go:209-246 | a flush that nobody interferes with leaves exactly the directory without the settled names that can be removed, and judged every file as it was at the beginning |
| `SpoolCalls.EnqueueRefines` | cmd/agent_smith/postback_spool.go:91-121 | what a whole enqueue of the class leaves of entries, sequence number and drop counter is what some run of the whole-run model leaves from every state with that store and the lock free, with the entry accepted exactly if the call succeeded |
| `SpoolCalls.FlushRefines` | cmd/agent_smith/postback_spool.go:193-252 | and what a whole flush leaves of the store, with the very entries it delivered resolved and its flusher at an end |
| `Spool.PostbackSpool.constructor` | cmd/agent_smith/postback_spool.go:67-85 | non-positive limits become 100 entries and 24 hours |
| `Spool.PostbackSpool.ListLocked` | cmd/agent_smith/postback_spool.go:153-171 | exactly the entry files, sorted by name |
| `Spool.PostbackSpool.RemoveLocked` | cmd/agent_smith/postback_spool.go:173-185 | is the whole-run model's removal, beside any flush: it removes the file if it is there and the system lets it, and counts unless the system refused, a file already gone included |
| `Spool.PostbackSpool.DropExpired` | cmd/agent_smith/postback_spool.go:131-139 | the filter that reuses the array it reads keeps exactly the unexpired names in order, and each of the others is removed, found taken, or refused |
| `Spool.PostbackSpool.EvictOldest` | cmd/agent_smith/postback_spool.go:141-147 | sets out to remove exactly the oldest survivors beyond the target, and each is removed, found taken, or refused |
| `Spool.PostbackSpool.PruneLocked` | cmd/agent_smith/postback_spool.go:125-148 | exactly the entries outside the newest unexpired are doomed; what is left is the old directory without those it removed and those a flush took; and the drop counter grows by the removed ones and the ones found taken, with or without a flush beside it |
| `Spool.PostbackSpool.Commit` | cmd/agent_smith/postback_spool.go:108-120 | is the whole-run model's write of the entry under its name, or leaves all files as they were but for the temporary one, of which something stays only after a partial write or a refused removal; never a partial entry |
| `Spool.PostbackSpool.Enqueue` | cmd/agent_smith/postback_spool.go:91-121 | succeeds exactly if the disk does; then the entry is there, and beside it only the newest maxEntries - 1 unexpired old ones and those that cannot be removed, so at most maxEntries where all can, whatever a flush removes meanwhile; the entries left are exactly the old ones without what the prune removed and what a flush took, so that nothing goes but what was doomed or taken; beside no flush the call is a run of the whole-run model; no other entry is changed; the drop counter is that of the prune |
| `Spool.PostbackSpool.FlushOne` | cmd/agent_smith/postback_spool.go:209-246 | whatever others do in between: the entry is unreadable, corrupt, too old, resolved or refused, judged by the file as it was at one moment of the call before which the flush removed nothing; then it is removed if and only if it is settled, still there and removable, and nothing else is |
| `Spool.PostbackSpool.Flush` | cmd/agent_smith/postback_spool.go:193-252 | whatever others do in between: goes through the listing in name order, at most one delivery is refused and it is the last, nothing happens after a cancellation, and it stops early only for one of these; the directory is what its own removals and the others' interventions make of it, and its own removals are, in name order, of settled names of the part gone through, each gone at some moment after it was read; beside nobody they are exactly these, and the call is a run of the whole-run model |
| `SpoolRuns.NothingIsLost` | cmd/agent_smith/postback_spool.go:91-259 | in every interleaving of enqueues and any number of flushes, an entry accepted under a name that was no entry at the start is on disk unchanged, or was resolved itself, or was older than maxAge at a clock reading that has come, or was evicted: unexpired, in the directory when some enqueue of the run began, and outside the newest maxEntries - 1 unexpired ones there |
| `SpoolRuns.NotedWasTaken` | cmd/agent_smith/postback_spool.go:126-131 | what an eviction is judged by is the directory and the clock as some enqueue of the run found them |
| `SpoolRecords.ResolvedWasDelivered` | cmd/agent_smith/postback_spool.go:232-246 | what is recorded as resolved, the engine resolved in a step of the run, for a flush that held that very entry under that name |
| `SpoolRecords.AcceptedWasWritten` | cmd/agent_smith/postback_spool.go:108-119 | what is recorded as accepted, an enqueue of the run wrote, under its name |
| `SpoolRecords.TallyIsWhatHappened` | cmd/agent_smith/postback_spool.go:173-185 | over every run the drop counter is the number of steps in which a prune set out to remove an entry and was not refused, and each part of the tally the number of steps in which that happened |
| `SpoolRuns.CounterIsExactIff` | cmd/agent_smith/postback_spool.go:173-185 | over every run the drop counter is the number of entries discarded over capacity or age if and only if as many were discarded by flushes for their age as prunes counted that a flush had removed or the engine resolved; and it is the number of all files that went unresolved if and only if flushes discarded that many, corrupt and replaced ones included |
| `SpoolRuns.DeliveredEntryIsCounted` | cmd/agent_smith/postback_spool.go:174-178 | a run in which a flush delivers and removes the only entry and a prune counts it as dropped |
| `SpoolRuns.ResolvedEntryIsCounted` | cmd/agent_smith/postback_spool.go:173-185 | a run in which a prune removes and counts the only entry, which the engine has resolved |
| `SpoolRuns.AgedEntryIsNotCounted` | cmd/agent_smith/postback_spool.go:227-230 | a run in which a flush discards the only entry for its age and the counter stays at zero |
| `SpoolRuns.CorruptFileIsNotCounted` | cmd/agent_smith/postback_spool.go:218-225 | a run in which a flush discards a corrupt file and the counter stays at zero |
| `SpoolRuns.ReplacedEntryIsNotCounted` | cmd/agent_smith/postback_spool.go:108-119 | a run in which a flush removes an accepted entry that nobody resolved, in place of the one it had read under that name, and the counter stays at zero |
| `SpoolFlushes.FlushIsOrderly` | cmd/agent_smith/postback_spool.go:187-252 | in every interleaving with enqueues and other flushes, from any state: what a flush delivers and what it removes is in strictly increasing name order and was there when it began, so nothing enqueued since under another name; each removal is matched by a name it settled, in order; a refused delivery is its last, and all it removes comes before that name |
| `SpoolFlushes.VisitsInOrder` | cmd/agent_smith/postback_spool.go:204-246 | in every interleaving a flush comes to the names of its listing in order, skipping none, and is over before the last exactly if it was cancelled or refused |
| `SpoolFlushes.FlushCanFinish` | cmd/agent_smith/postback_spool.go:204-246 | from every state, whatever an enqueue that holds the lock is at, a flush gets to its end by its own steps alone, at most three for each name |
| `SpoolFlushes.FlushNeedsNoLock` | cmd/agent_smith/postback_spool.go:36-41 | the steps of a flush are possible, and have their effect, independently of the enqueue that holds the lock |
| `SpoolFlushes.EnqueueAwaitsNoFlush` | cmd/agent_smith/postback_spool.go:36-41 | and those of the enqueue independently of what any flush is at |
| `SpoolFlushes.RemovesWhatItSettled` | cmd/agent_smith/postback_spool.go:218-246 | the names a flush removes are the first of those it found corrupt or too old or saw resolved, in that order |
| `SpoolFlushes.RemovesBeforeRefusal` | cmd/agent_smith/postback_spool.go:232-246 | the refused entry and all later ones are never removed by that flush |
| `SpoolFlushes.GoneByTarget` | cmd/agent_smith/postback_spool.go:173-185 | in every run a file that is gone was the one that a step of a prune or the removal of a flush was about |
| `SpoolReuse.SafeExactlyUnlessReused` | cmd/agent_smith/postback_spool.go:108-119 | for every directory at the start: entries accepted under a name are accounted for in every run if and only if the name is not that of an entry file there which this run can still give |
| `SpoolReuse.ReusedNameLosesTheEntry` | cmd/agent_smith/postback_spool.go:108-116 | for every such directory, name and capacity, with every removal succeeding, a run in which a flush that read the left-over file removes the new entry, unresolved, unexpired and not evicted |
| `SpoolReuse.EnqueueRuns` | cmd/agent_smith/postback_spool.go:91-121 | from any state an enqueue can run to its end, whatever flushes hold |
| `SpoolLedger.StepKeepsInv` | cmd/agent_smith/postback_spool.go:91-259 | every step of the enqueue and of every flush keeps what the goroutines have in hand true |
| `SpoolLedger.ExpiredByContent` | cmd/agent_smith/postback_spool.go:134 | an entry of this run that its name shows to be expired is so by its content |
| `SpoolLedger.FirstIsOutranked` | cmd/agent_smith/postback_spool.go:144-147 | the survivor that is evicted has at least maxEntries - 1 newer unexpired ones in what the enqueue found |
| `SpoolLedger.ReadBooks` | cmd/agent_smith/postback_spool.go:209-230 | a flush holds the very entry that was accepted, takes none of this run for corrupt, and finds too old only what is |
| `SpoolLedger.WriteBooks` | cmd/agent_smith/postback_spool.go:108-119 | a new name is one nobody has in hand |

## Left out

- HTTP, JSON, TLS, token signing, the MQTT client, plugin RPC and process execution: each appears only as the outcome its caller distinguishes.
- The file system is a map from names to contents; a removal may be refused, a write or rename may fail, and everything else succeeds. Of temporary files it is only described which may stay behind.
- Clocks, jitter and the choices of other goroutines are parameters or nondeterministic; the clock of the supervisor never goes back.
- The parent context of `runCycle` is never cancelled while a cycle runs, and whether the unsubscribe is skipped, completes, fails or times out makes no difference to the model.
- What the broker does with a message that was dropped or abandoned: redelivery is not part of this model.
- Queue notifications, log lines other than the plugin Error line, statistics snapshots and the fan-out over several plugins.
- int64 and uint64 wrap-around of counters and sequence numbers; rounding of the floating-point jitter to whole nanoseconds, of which any within a quarter of the base is allowed.
- The auto-update runner, whose stop handling and doubling repeat those of the cycle and the retry delay; script sweeping, configuration, host information, syslog and the service managers.
- SpoolNames.TimeReadsBack: is about the names the spool makes; on other names the model of `spoolFileTime` reads digits, a dash and digits, while Go's scanner also skips blanks before a number.
- ServiceLoop.Execute: covers every finite stretch of the loop; a turn's moments are arming, waiting and running, and a timer armed when the stop signal is already closed is taken to lose.
- SpoolRuns.NothingIsLost: takes the listing and the clock reading of an enqueue or a flush as one step, and a clock that does not go back; a flush may remove files after an enqueue has listed them, so an eviction is judged by what the enqueue found, not by what is left when it happens.
- SpoolState: a failed write leaves no temporary file there, and a removal either works or is refused; the class also models partly written temporary files.
- Spool.PostbackSpool.Flush: what others leave of the directory is any sequence of directories there, more than enqueues and flushes can do; which they are is the whole-run model's matter. Only a call that nobody interferes with is composed into a run of that model; for the others the steps are the same functions.
- Timing.ConfiguredTokensRenewInTime: takes the time from minting to arming to be the sum of the waits the code bounds.
