# Verified model of Peeka's instrumentation and agent core

Peeka attaches to a running Python process and puts wrappers on its functions. This project models
the parts of it where several data structures have to stay in agreement, and proves what those
parts are there for. It is written in Dafny 4.11; `dafny verify dfyconfig.toml` checks all of it.

| file | what it models |
|---|---|
| `MonitorStats.dfy` | the counters a monitor keeps, and its report |
| `WrapperState.dfy` | function objects, bindings, records; each instrumentation step as its effect on the whole state |
| `WrapperChain.dfy` | a reference machine in which every function simply has a stack of wrappers, and the proof that the state with its redundant pointers always corresponds to it |
| `WrapperRuns.dfy` | what therefore holds over every run of starts, injections, stops and calls |
| `Instrumentation.dfy` | the commands themselves, updating cells, records and bindings in place, each proved to have the effect `WrapperState` gives for it |
| `Wire.dfy` | frames and responses on a byte stream, as values |
| `Client.dfy` | the unbuffered and the buffered reader, over any chunking and any timeouts |
| `Json.dfy`, `Shrink.dfy`, `ShrinkCycles.dfy`, `TopLoop.dfy`, `Squeeze.dfy`, `Summary.dfy` | the bounded summariser: encoded size, one round on a value, the cycle every value ends in, the outer loop, the last resort, the whole |
| `JsonText.dfy` | the encoded text of a value, with its length |
| `Iteration.dfy` | one function applied again and again: invariants, periods, and what finitely many values imply |
| `ObservationQueue.dfy` | the queue of one stream connection and its flush |
| `FlushInterleaving.dfy` | the same with producers running between the flusher's locked sections |
| `ConsumerBuffer.dfy` | one result consumer: backpressure policies and paging |
| `ConsumerControl.dfy` | the registry of consumers and the clients' own lists of them |
| `Lifecycle.dfy` | jobs, clients, probes and tracked contexts: each command's effect on all of them, and runs |
| `AgentControl.dfy` | the dispatcher and the handlers, step by step |
| `Redaction.dfy` | redaction of diagnostic payloads and its trail of markers |
| `TopSampler.dfy` | the sampling profiler |

An imperative part of the source is a class whose methods are proved against a specification
function; properties over runs are lemmas about those functions. `Ready`, `Callable` and `Good`,
which some methods require, are proved to hold in every reachable state (`ReachableReady`,
`PointersOverRuns`). What a method only looks up for its specification is a ghost result. Dictionary
iteration is modelled as iteration in an arbitrary order.

## What was found

These are the places where the code does less than one would expect of it. Where a lemma is named it
gives a concrete input, and beside it stands the exact condition under which the code does meet the
expectation.

- A probe injected on a monitor records that monitor's wrapper as its root even when the monitor
  stands over another probe (`RootOverProbe`). In every reachable state a call from a probe's recorded
  root enters only monitors exactly when that root has no recorded root of its own (`RootBeneath`).
- The buffered client fails with "Truncated payload" on an empty control frame before a response,
  which the unbuffered readers skip (`EmptyFrameStream`). Fed byte by byte it succeeds exactly when no
  frame before the response is empty; without empty frames it succeeds however the bytes are cut.
- The shrink loop of the summariser runs for ever on some nested values. The values that never come
  to rest are characterised exactly (`ComesToRest`), with the three-cycle of the smallest one
  (`ThreeCycle`). For any summary, the loop runs for ever exactly when the summary never fits and from
  some round on every round shrinks such a value (`DivergesIff`); and it ends within a number of
  rounds that is computed from the summary, or never (`EndsEarlyOrNever`). Long keys over a value
  that towers over the others are one such case (`LongKeysDiverge`), at any budget.
- The last resort can also run for ever, on a text that settles at 27 or 28 characters. It ends
  fitting for every text exactly when the key leaves room for 98 more bytes
  (`SqueezeAlwaysFitsIff`).
- A push-back on a queue that producers filled meanwhile evicts an observation that no counter counts
  (`PushBackEvicts`), and a failed send loses a batch uncounted. Between flushes the counters balance
  exactly when no observation was put back on a full queue and no batch failed to be sent.
- A drain without a cursor on an empty buffer hands back cursor 0, and record 0 is then skipped
  (`EmptyFirstDrainSkips`); with any record retained a first drain is one from -1 (`FirstDrain`).
- A foreground snapshot that allows concurrency is not subject to the one-foreground-job rule, but
  takes over and then clears the client's pointer, after which a second streaming job is admitted
  (`TwoForegroundJobs`). It loses track of a job exactly when there is one (`UntrackedIff`).
- Redacting twice differs from redacting once when the end of the home directory is the beginning of
  the cut mark, for example a name that ends in a dot: the cut completes the name in clear
  (`ClashShows`). For every other home directory redaction is idempotent (`RedactTwiceIff`). This
  matters because a sub-tree that a payload holds twice is visited twice.
- A sample that raises, or a reset that falls inside a sample, breaks the meaning of the profiler's
  totals (`FailuresPushTotals`, `ResetInsideSample`). A total is the number of completed samples with
  its key exactly when since the last reset no failed sample counted the key and the reset did not
  fall into a sample after the key was visited, or when one of each cancel (`TotalsMeanIff`,
  `DisturbancesCancel`). What can raise is the test for the profiler's own threads, which reads a
  thread handle twice (`peeka/commands/top.py:587-590`) while a stop whose join timed out sets it to None.
- Interpreter exits are not `Exception`s, so a monitor does not count calls that end in one.

## Model

| member | source | states |
|---|---|---|
| MonitorStats.TallyCounts | peeka/core/monitor.py:72-95 | over any history, `total` is the number of calls and splits exactly into successes and failures |
| MonitorStats.TallyExtremes | peeka/core/monitor.py:88-95 | `min` and `max` are durations that occurred, and bound all others |
| MonitorStats.TallySum | peeka/core/monitor.py:93-93 | `sum` is the sum of all recorded durations, added up apart from the counters |
| MonitorStats.TallyMean | peeka/core/monitor.py:86-95 | `min * total <= sum <= max * total` for every non-empty history of non-negative durations |
| MonitorStats.MonitorManager.StartMonitor | peeka/core/monitor.py:40-55 | a started monitor has zero counters, whatever it had before |
| MonitorStats.MonitorManager.StopMonitor | peeka/core/monitor.py:57-70 | returns the final counters and forgets exactly that monitor |
| MonitorStats.MonitorManager.RecordCall | peeka/core/monitor.py:72-95 | one call adds one sample to that monitor's history; an unknown id changes nothing |
| MonitorStats.MonitorManager.GetStats | peeka/core/monitor.py:97-135 | the report of a history: true failure rate, the sum of all durations divided by their number as the average, the average between the extremes, extremes that bound every call |
| WrapperState.RunsUnique | peeka/commands/monitor.py:164-181 | following the `func` cells gives a call at most one course |
| WrapperChain.StartRep | peeka/commands/monitor.py:85-162 | starting a monitor is pushing a layer: cells, records and all bindings agree with the stacks afterwards |
| WrapperChain.InjectRep | peeka/core/injector.py:110-157 | injecting a probe is pushing a layer, with the root and the previous wrapper the injector records |
| WrapperChain.StopRep | peeka/commands/monitor.py:362-478 | stopping a monitor at any place of a stack is removing its layer: every redundant pointer is repaired |
| WrapperChain.CallRep | peeka/commands/monitor.py:164-181 | a call records one sample in each monitor of the stack of its function, and changes no pointer |
| WrapperChain.StepRep | peeka/commands/monitor.py:362-478 | every step, of either command or a call, keeps state and stacks in correspondence |
| WrapperChain.StopUnknown | peeka/commands/monitor.py:362-380 | stopping an unregistered id changes no stack |
| WrapperRuns.ReachableRep | peeka/commands/monitor.py:392-478 | every state reachable from an uninstrumented program corresponds to the reference machine |
| WrapperRuns.StackedIffLive | peeka/commands/monitor.py:85-162 | the monitors stacked on a function are exactly those started on it and not stopped since |
| WrapperRuns.StackedIffInjected | peeka/core/injector.py:110-157 | the probes stacked on a function are exactly those injected on it |
| WrapperRuns.CallEntersLiveWrappers | peeka/commands/monitor.py:164-181 | in every reachable state a call has exactly one course: each wrapper once, newest first, then the function the binding was born with; it enters exactly the monitors started there and not stopped and exactly the probes injected there |
| WrapperRuns.ProbeWasInjected | peeka/core/injector.py:110-157 | every registered probe was injected on some function of the program, on whose course it therefore lies |
| WrapperRuns.MonitorWasStarted | peeka/commands/monitor.py:85-162 | every registered monitor was started on some function and not stopped since |
| WrapperRuns.ProbeRecordOrigin | peeka/core/injector.py:110-157 | the record of a probe names the binding it was injected on and the others that held the same object then, and has a previous wrapper if and only if the binding held a probe then |
| WrapperRuns.MonitorRecordOrigin | peeka/commands/monitor.py:85-162 | the record of a monitor names the binding it was started on and the others that held the same object then |
| WrapperRuns.StoppedIsDead | peeka/commands/monitor.py:362-478 | a wrapper whose monitor was stopped is never a live wrapper again, even when its id is |
| WrapperRuns.NothingRefersToStopped | peeka/commands/monitor.py:392-478 | in every reachable state no binding, record or cell of a live wrapper has the wrapper of a monitor stopped before, and no call enters it |
| WrapperRuns.ReferencesAreLive | peeka/commands/monitor.py:392-478 | in every reachable state each cell, `original`, root, previous wrapper and binding is a live wrapper of the right kind or a function of the program |
| WrapperRuns.RootsWithoutMonitors | peeka/commands/monitor.py:437-457 | once every monitor is stopped, a probe's root is the function it was injected on |
| WrapperRuns.NothingLiveRestoresBindings | peeka/commands/monitor.py:459-478 | with no wrapper live every binding holds its original object again |
| WrapperRuns.LiveMonitorCounts | peeka/commands/monitor.py:164-181 | a live monitor's counters tally exactly the calls made through any binding of its function since it was started: their number, their successes, and the sum of their durations |
| WrapperRuns.StartThenStopUndoes | peeka/commands/monitor.py:85-162 | stopping a monitor right after starting it restores every binding, record, counter and cell |
| WrapperRuns.StopsCommute | peeka/commands/monitor.py:362-478 | two monitors stopped in either order leave the same bindings and the same course for every call |
| WrapperRuns.RootBeneath | peeka/core/injector.py:131-151 | in every reachable state the cells lead from a probe's root to the function it was injected on, through monitors only if and only if the root has no recorded root of its own |
| WrapperRuns.RootOverProbe | peeka/core/injector.py:131-151 | probe, monitor, probe: the second probe's root is a monitor that stands over a probe |
| Instrumentation.ReachableReady | peeka/commands/monitor.py:362-478 | every reachable state meets the preconditions of all commands and has a course for every binding |
| Instrumentation.Process.ActiveProbe | peeka/core/injector.py:172-179 | finds a registered probe with this wrapper if there is one |
| Instrumentation.Process.KnownPeekaRoot | peeka/commands/monitor.py:183-201 | the root recorded for a registered wrapper, None for anything else |
| Instrumentation.Process.ReplaceAll | peeka/core/instrumentation/target.py:94-155 | the binding and its aliases hold the new function, no other binding changes |
| Instrumentation.Process.StartMonitor | peeka/commands/monitor.py:85-162 | exactly the whole-state effect of a start; no effect without a target |
| Instrumentation.Process.Inject | peeka/core/injector.py:110-157 | exactly the whole-state effect of an injection; no effect without a target |
| Instrumentation.Process.NearestLowerLiveWrapper | peeka/commands/monitor.py:203-222 | the walk down `__wrapped__`, with its bound and its visited set, finds the wrapper directly beneath when that is live and nothing otherwise |
| Instrumentation.Process.Retarget | peeka/commands/monitor.py:224-256 | `__wrapped__` and the `func` cell are redirected where they pointed at the stopped wrapper, nothing else |
| Instrumentation.Process.Replacement | peeka/commands/monitor.py:392-416 | all branches of the choice come down to what the monitor stood on |
| Instrumentation.Process.RepairMonitor | peeka/commands/monitor.py:418-435 | one other monitor: `original`, root and cell redirected together |
| Instrumentation.Process.RepairProbe | peeka/commands/monitor.py:437-457 | one probe: `original`, previous wrapper, root and cell redirected together |
| Instrumentation.Process.RestoreBindings | peeka/commands/monitor.py:459-478 | exactly the bindings that hold the stopped wrapper get the replacement |
| Instrumentation.Process.StopMonitor | peeka/commands/monitor.py:362-492 | exactly the whole-state effect of a stop, and the final counters; an unknown id changes nothing |
| Instrumentation.Process.Call | peeka/commands/monitor.py:164-181 | a call runs its course to the end and is recorded by each monitor it enters, unless the interpreter exits |
| Wire.LengthRoundTrip | peeka/core/agent.py:943-953 | the four-byte length reads back as the length |
| Wire.LengthOrder | peeka/core/agent.py:943-953 | the word has its most significant byte first: words compare byte by byte as the lengths do |
| Wire.AnswerRoundTrip | peeka/core/client.py:304-348 | frames, a response and anything after: reading yields that response and leaves exactly the rest |
| Wire.AnswerSplits | peeka/core/client.py:304-348 | and conversely: every stream with an answer is encoded frames, then that answer encoded, then the rest |
| Wire.FramesRoundTrip | peeka/core/agent.py:1229-1246 | encoded frames, the last one cut anywhere, read back as the payloads of the whole ones, in order |
| Wire.FramedSoFar | peeka/core/client.py:399-445 | what has arrived of a stream of frames is itself a stream of frames |
| Wire.ExchangesRoundTrip | peeka/core/client.py:280-348 | any number of exchanges reads back as their responses |
| Client.Socket.Recv | peeka/core/client.py:466-481 | a receive delivers the next bytes of the stream, none lost or reordered, at most as many as asked for |
| Client.RecvExact | peeka/core/client.py:118-132 | exactly the next bytes of the stream, or nothing on a timeout or a close |
| Client.RecvResponseHeader | peeka/core/client.py:134-146 | any number of control frames is skipped, empty ones too, and the stream behind the word has the same answer |
| Client.ReadResponse | peeka/core/targets.py:362-423 | the unbuffered readers return the answer of the stream and stop right behind it; without timeouts exactly when there is a non-empty answer |
| Client.AnswerEnds | peeka/core/client.py:304-348 | a non-empty answer is received if and only if no frame before it is empty, and then it is the answer |
| Client.CutFrameEnds | peeka/core/client.py:308-330 | behind any number of frames, where the last frame is cut short decides which of three failures is reported |
| Client.CutResponseEnds | peeka/core/client.py:304-348 | behind any number of frames, a whole response is received, and where a cut one ends decides the failure |
| Client.StreamingClient.RecvExact | peeka/core/client.py:466-481 | buffer and socket together are one stream; a failed read loses nothing of it |
| Client.StreamingClient.DrainFrames | peeka/core/client.py:447-464 | exactly the whole frames at its front leave the buffer, without changing the answer of the stream |
| Client.StreamingClient.ReadResponse | peeka/core/client.py:298-348 | the buffered client returns the same answer of the same stream and stops right behind it; it succeeds for every chunking when no frame is empty, and byte by byte only then; in both cases, without timeouts, a failure is exactly the one the stream calls for |
| Client.EmptyFrameStream | peeka/core/client.py:304-348 | a concrete stream of single bytes with an answer on which the buffered client must fail |
| Client.StreamingClient.ReadResponses | peeka/core/client.py:280-348 | any number of exchanges over one connection: every response is returned for every chunking, and the client is left right behind the last one |
| Client.StreamingClient.Resynchronize | peeka/core/client.py:399-425 | drops exactly the bytes before the first prefix; changes nothing when there is no prefix |
| Client.StreamingClient.ExtractObservation | peeka/core/client.py:399-445 | behind any garbage without a prefix in it, a whole frame leaves the buffer exactly and yields its payload, an incomplete one stays; a yield strictly shrinks the buffer |
| Client.StreamingClient.DrainObservations | peeka/core/client.py:376-397 | for frames behind any garbage, the observations handed out and those still to come are all observations of the stream in order; with only valid payloads no whole frame stays in the buffer |
| Client.StreamingClient.StreamObservations | peeka/core/client.py:361-397 | for every chunking of frames behind any garbage, the observations handed out, and those still in the buffer, are all observations of the stream in order; a payload that is no text is taken out if and only if that is reported; with only valid payloads all are handed out and the cut frame remains (how much garbage there is, and is left, are ghost values) |
| Json.CharsSizeBounds | peeka/core/jobs.py:329-331 | a text is encoded in one to six bytes a character |
| JsonText.TextLength | peeka/core/jobs.py:329-331 | the size of a value is the length of its encoded text, written out with its separators and escapes |
| Shrink.RestlessStays | peeka/core/jobs.py:347-382 | a restless value shrinks to a different restless value |
| Shrink.Settles | peeka/core/jobs.py:347-382 | a value that is not restless is at its fixed point or gets strictly closer to it, by a measure on its structure |
| Shrink.ComesToRest | peeka/core/jobs.py:347-382 | repeated shrinking reaches a fixed point if and only if the value is not restless |
| Shrink.ThreeCycle | peeka/core/jobs.py:369-382 | the cycle of the smallest restless value |
| Squeeze.SqueezeFitsWithRoom | peeka/core/jobs.py:384-401 | with room for 98 bytes the last resort ends soon, and fits wherever it ends |
| Squeeze.SqueezeEndsEarlyOrNever | peeka/core/jobs.py:384-401 | the last resort ends within a bound computed from the text, or never |
| Squeeze.SqueezeAlwaysFitsIff | peeka/core/jobs.py:384-401 | it ends fitting for every text if and only if the key leaves that room |
| ShrinkCycles.EveryValueCycles | peeka/core/jobs.py:347-382 | every value repeats with a period of three from a round on that is computed from the value |
| TopLoop.QuietTerminates | peeka/core/jobs.py:315-320 | the shrink loop ends, within a stated number of rounds, when no value is restless |
| TopLoop.OneKeyTerminatesIff | peeka/core/jobs.py:315-320 | on one key it ends for every budget if and only if the value is not restless |
| TopLoop.DivergesIff | peeka/core/jobs.py:315-345 | on any summary it runs for ever if and only if the summary never fits and from some round on every round shrinks a restless value |
| TopLoop.OnTopForEver | peeka/core/jobs.py:315-345 | a restless value that stays the largest keeps it running while the budget is exceeded |
| TopLoop.LongKeysDiverge | peeka/core/jobs.py:315-345 | with as many characters in the keys as the budget, and a restless value larger in each of its finitely many forms than the others, it runs for ever |
| TopLoop.MarkUnderLongKeysDiverges | peeka/core/jobs.py:315-345 | any summary with keys as long as the budget, one value `{"truncated": True}` and the others below 19 bytes makes it run for ever |
| TopLoop.EndsEarlyOrNever | peeka/core/jobs.py:315-345 | it ends within a number of rounds computed from the summary, or never |
| TopLoop.LongKeyDiverges | peeka/core/jobs.py:315-320 | under any budget a long nested key above a restless value makes it run for ever |
| Summary.ShrinkLoop | peeka/core/jobs.py:315-320 | the loop stops at the first summary that fits or that shrinking does not change; None if and only if it would run for ever |
| Summary.SqueezeLoop | peeka/core/jobs.py:384-401 | the loop stops at the first text that fits or is the mark; None if and only if it would run for ever |
| Summary.PruneResultSummary | peeka/core/jobs.py:302-327 | the outcome of both loops, which is the summary itself, unflagged, if and only if it is within both limits; None if and only if pruning has no outcome, because one of the loops runs for ever |
| Summary.PrunableReturns | peeka/core/jobs.py:302-327 | pruning has an outcome when nothing kept is restless and the first key leaves room |
| Summary.PrunedWithinBounds | peeka/core/jobs.py:302-327 | at most the allowed keys; an unflagged result is the input and fits; with room the result fits the budget |
| Summary.StoredWithinBounds | peeka/core/result_consumers.py:383-389 | what is stored has at most one more key and 20 more bytes |
| Summary.PrunedOnce | peeka/core/jobs.py:302-327 | pruning has at most one outcome |
| Summary.FlaggedIff | peeka/core/jobs.py:302-327 | a summary comes back unflagged if and only if it had at most the allowed keys and fitted, and then it comes back equal |
| Summary.PrunedKeeps | peeka/core/jobs.py:302-401 | the keys are the first ones, in order; each value is the original one after rounds of shrinking, or one key holds a text |
| Summary.StoredSays | peeka/core/result_consumers.py:383-389 | a summary within the limits is stored as it is; a truncated one is stored whole and says so |
| ObservationQueue.EachItemOnce | peeka/core/agent.py:966-1010 | each item of a batch is sent, unencodable or too big, and only one of these |
| ObservationQueue.GoodIff | peeka/core/agent.py:943-1002 | which items are sent: encodable objects, and raw frames that begin with the prefix, of at most 256 KiB encoded |
| ObservationQueue.FramesRead | peeka/core/agent.py:943-953 | what is sent for whole sendable items reads back as exactly their texts, in order, with nothing left over |
| ObservationQueue.StreamQueue.Enqueue | peeka/core/agent.py:860-877 | a full queue loses its oldest item and counts it; the balance of counters is kept |
| ObservationQueue.StreamQueue.TakeBatch | peeka/core/agent.py:966-1002 | an order-preserving prefix within 64 items and 256 KiB, as long as those limits allow, and never empty for a non-empty queue |
| ObservationQueue.StreamQueue.Flush | peeka/core/agent.py:955-1023 | sends exactly the sendable items of that prefix, which a reader of frames reads back as their texts in order with nothing left over, and accounts for each item |
| ObservationQueue.StreamQueue.FlushAll | peeka/core/agent.py:930-941 | repeated flushes without producers empty the queue and send all sendable items, which read back in queue order with nothing left over |
| ObservationQueue.StreamQueue.Drain | peeka/core/agent.py:1287-1296 | what is left at stop is discarded and counted |
| FlushInterleaving.CountersOverRuns | peeka/core/agent.py:955-1023 | over every interleaving deliveries keep enqueue order and the counters claim at most what was enqueued; between flushes they balance if and only if no observation was put back on a full queue and no non-empty batch failed to be sent |
| FlushInterleaving.UndisturbedBalances | peeka/core/agent.py:955-1023 | on schedules without a producer between a pop and its push-back only failed sends unbalance them |
| FlushInterleaving.FlushesAreBounded | peeka/core/agent.py:966-1002 | no flush takes more than 64 observations, and each is in its batch or counted by it |
| FlushInterleaving.PushBackEvicts | peeka/core/agent.py:968-996 | a concrete run without a failed send in which one observation vanishes uncounted, with the exact queue it leaves |
| FlushInterleaving.PushBackEvictsOnlyAfterProduce | peeka/core/agent.py:968-996 | an uncounted eviction needs a producer between the pop and the push-back |
| ConsumerBuffer.OfferKeepsBlock | peeka/core/result_consumers.py:191-246 | retained sequence numbers are the contiguous block before the next one, and `buffer_size` is their number |
| ConsumerBuffer.DropOldestKeepsLast | peeka/core/result_consumers.py:191-246 | `drop_oldest` holds exactly the last records offered |
| ConsumerBuffer.DropNewestKeepsFirst | peeka/core/result_consumers.py:191-246 | `drop_newest` holds exactly the first records offered |
| ConsumerBuffer.FailKeepsFirst | peeka/core/result_consumers.py:191-246 | `fail` holds exactly the first records and has failed if and only if one did not fit |
| ConsumerBuffer.TerminalIsFinal | peeka/core/result_consumers.py:200-206 | a closed or failed consumer never changes again |
| ConsumerBuffer.AcceptsIff | peeka/core/result_consumers.py:191-246 | an offer is taken if and only if the consumer is not closed or failed after it |
| ConsumerBuffer.FirstDrain | peeka/core/result_consumers.py:300-337 | a drain without a cursor is one from -1 if and only if something is retained |
| ConsumerBuffer.EmptyFirstDrainSkips | peeka/core/result_consumers.py:300-337 | an empty first drain makes the client skip record 0 |
| ConsumerBuffer.PagingIsExact | peeka/core/result_consumers.py:300-337 | over any interleaving a reader sees strictly increasing numbers, each record as stored, and skips only what was already evicted |
| ConsumerBuffer.PagesAreComplete | peeka/core/result_consumers.py:300-337 | without new records the pages add up to all eligible records |
| ConsumerBuffer.HasMoreIff | peeka/core/result_consumers.py:300-337 | `has_more` is reported if and only if a drain from the returned cursor is not empty, given a cursor or a retained record |
| ConsumerControl.OfferedKeeps | peeka/core/result_consumers.py:248-284 | appending records keeps every client's list equal to its open consumers |
| ConsumerControl.LeavesList | peeka/core/agent_control/consumers.py:178-237 | a consumer that goes leaves its owner's list and no other |
| ConsumerControl.Control.Create | peeka/core/agent_control/consumers.py:8-67 | succeeds exactly within the limits and for a registered owner, and then is listed once |
| ConsumerControl.Control.CloseClient | peeka/core/client_sessions.py:180-193 | forgets the client and its list, leaves its consumers registered |
| ConsumerControl.Control.AppendRecord | peeka/core/result_consumers.py:191-246 | the consumer after one offer, and whether it took it |
| ConsumerControl.Control.AppendForScope | peeka/core/result_consumers.py:248-284 | exactly the consumers subscribed to the target or directly to the record are offered it, and as many are reported as took it |
| ConsumerControl.Control.Drain | peeka/core/result_consumers.py:286-342 | the page after the cursor; contents and status are as before |
| ConsumerControl.Control.Close | peeka/core/agent_control/consumers.py:178-209 | closes for the owner only, and takes the consumer off its list |
| ConsumerControl.Control.Cleanup | peeka/core/agent_control/consumers.py:211-237 | removes exactly the requester's consumers, or those of them that are over, and touches no other client's list |
| Lifecycle.ApplyGood | peeka/core/agent_control/dispatch.py:130-352 | every command keeps all foreground pointers at registered unfinished foreground jobs of their own client |
| Lifecycle.ApplyProgress | peeka/core/jobs.py:48-72 | no command changes a job or probe that is over, or loses an unfinished job or an active probe |
| Lifecycle.JobsMoveOn | peeka/core/jobs.py:52-72 | legal job transitions only go forward, a created job only to running, and nothing leaves the four ends |
| Lifecycle.ProbesMoveOn | peeka/core/probes.py:43-49 | a created probe can only become active; an active or paused one can pause, resume or end; nothing leaves an end |
| Lifecycle.DispatchOutcome | peeka/core/agent_control/dispatch.py:225-352 | how a dispatched job ends: failed on an error or an exception, streaming exactly for a successful start of a probe, completed otherwise; stamped unless it streams |
| Lifecycle.RefusedIff | peeka/core/agent_control/dispatch.py:167-200 | refused if and only if a guarded foreground request finds its registered client waiting for a job |
| Lifecycle.DispatchRest | peeka/core/agent_control/dispatch.py:130-352 | what a request does to the rest: jobs that ended more than ten minutes ago are forgotten, its client is accessed and waits exactly for a job that streams, and no other job or client changes |
| Lifecycle.CompletedHadNoError | peeka/core/agent_control/dispatch.py:225-352 | over every run, a job that its dispatch left completed had a handler that reported no error and raised nothing |
| Lifecycle.CleanedMeans | peeka/core/jobs.py:266-291 | the three cleanups keep what is unfinished, and what ended or was used within the age, and remove the rest |
| Lifecycle.ContextStarts | peeka/core/probes.py:484-495 | a started probe is active, tracked, and of the job that started it; no other probe changes |
| Lifecycle.ContextEnds | peeka/core/probes.py:497-526 | leaving a context ends its probe, failed exactly when the context failed, and forgets the context; no other probe changes |
| Lifecycle.PointersOverRuns | peeka/core/client_sessions.py:136-178 | over every run of commands all pointers are well-placed and every job streams or is over |
| Lifecycle.OverIsOver | peeka/core/jobs.py:52-72 | over every run a job that is over stays exactly as it is |
| Lifecycle.ProbeOverIsOver | peeka/core/probes.py:43-49 | over every run a probe that is over stays exactly as it is |
| Lifecycle.NoUnfinishedJobLost | peeka/core/jobs.py:266-291 | over every run a registered job stays registered until it is over |
| Lifecycle.NoActiveProbeLost | peeka/core/probes.py:337-369 | over every run a registered probe stays registered until it is not active |
| Lifecycle.OneForegroundJob | peeka/core/agent_control/dispatch.py:167-200 | a client that issues only guarded foreground requests has at most one unfinished foreground job, the one it points at |
| Lifecycle.ClientWasNew | peeka/core/client_sessions.py:180-193 | over every run a registered client was registered by a command and not closed since |
| Lifecycle.UntrackedIff | peeka/core/agent_control/dispatch.py:167-304 | an unguarded foreground request loses track of a job if and only if the client waits for one |
| Lifecycle.TwoForegroundJobs | peeka/core/agent_control/dispatch.py:167-304 | watch, search, watch: two foreground jobs of one client stream |
| Lifecycle.StopAchieves | peeka/core/agent_control/probes.py:253-319 | after a successful probe.stop the probe is over, its job is over if registered, and no client points at that job |
| Lifecycle.StopStatuses | peeka/core/agent_control/probes.py:253-319 | a successful probe.stop leaves the probe stopped, or failed exactly when the handler of a managed probe lets its context fail, and completes its unfinished job |
| Lifecycle.StopIff | peeka/core/agent_control/probes.py:253-319 | probe.stop succeeds if and only if the probe is registered and was activated, and is over or its managed resources, if any, could be stopped |
| Lifecycle.StopTouchesOwn | peeka/core/agent_control/probes.py:253-319 | it touches no other probe, context or job, and a tracked probe is stopped through its context |
| Lifecycle.InterruptIff | peeka/core/agent_control/jobs.py:86-156 | job.interrupt succeeds if and only if the job is one of a probe, runs or streams, and its managed resources, if any, could be stopped |
| Lifecycle.InterruptAchieves | peeka/core/agent_control/jobs.py:86-156 | it leaves the job interrupted, every other job as it was, and no client pointing at it |
| Lifecycle.InterruptEndsProbe | peeka/core/agent_control/jobs.py:86-156 | and the probe found for the job over, if it had been activated |
| Lifecycle.InterruptTouchesOwn | peeka/core/agent_control/jobs.py:86-156 | it touches no probe of another job, and no context of one |
| Lifecycle.InterruptFinds | peeka/core/agent_control/probes.py:64-143 | it finds a probe of the job and a context of that probe if there are any |
| AgentControl.Agent.SetJobStatus | peeka/core/jobs.py:204-249 | only legal transitions apply, and an end is stamped |
| AgentControl.Agent.SetProbeStatus | peeka/core/probes.py:217-254 | only legal transitions apply, and an end is stamped |
| AgentControl.Agent.SetForegroundJob | peeka/core/client_sessions.py:136-152 | the pointer of a registered client is set unconditionally |
| AgentControl.Agent.ClearForegroundJob | peeka/core/client_sessions.py:154-178 | the pointer is cleared, and that is reported, only if it is the expected job |
| AgentControl.Agent.CleanupJobs | peeka/core/jobs.py:266-291 | removes exactly the old jobs that are over |
| AgentControl.Agent.CleanupProbes | peeka/core/probes.py:337-369 | removes exactly the old probes that are not active |
| AgentControl.Agent.CleanupIdle | peeka/core/client_sessions.py:217-240 | removes exactly the idle clients that wait for no job |
| AgentControl.Agent.EnterContext | peeka/core/probes.py:484-495 | a probe context is created, active and tracked |
| AgentControl.Agent.StopContext | peeka/core/agent_control/probes.py:31-56 | the context is forgotten, and its probe ends as its exit says |
| AgentControl.Agent.FindContext | peeka/core/agent_control/probes.py:64-73 | a tracked context of the probe if there is one |
| AgentControl.Agent.FindProbeByJob | peeka/core/agent_control/probes.py:138-143 | a probe of the job if there is one |
| AgentControl.Agent.StopProbeResources | peeka/core/agent_control/probes.py:106-136 | the context is looked up; managed probes stop through their handler, others directly |
| AgentControl.Agent.FinishProbeJob | peeka/core/agent_control/probes.py:145-172 | the probe's job ends and its client stops waiting for it |
| AgentControl.Agent.HandleJobInterrupt | peeka/core/agent_control/jobs.py:86-156 | exactly the whole-registry effect of job.interrupt, failures included |
| AgentControl.Agent.HandleProbeStop | peeka/core/agent_control/probes.py:253-319 | exactly the whole-registry effect of probe.stop, failures included |
| AgentControl.Agent.ConcludeJob | peeka/core/agent_control/dispatch.py:225-352 | the final status each outcome calls for (`DispatchOutcome`), and the pointer cleared with it |
| AgentControl.Agent.ExecuteCommand | peeka/core/agent_control/dispatch.py:130-352 | exactly the whole-registry effect of a dispatched command; when it is admitted the job is failed, streaming or completed as the handler's outcome says |
| Redaction.NoSecretLeft | peeka/core/dx_cases.py:270-285 | at every depth a secret-looking key has nothing but the mark under it |
| Redaction.ShapeKept | peeka/core/dx_cases.py:270-315 | keys, order, lengths and all leaves that are not strings stay |
| Redaction.NoHomeLeft | peeka/core/dx_cases.py:292-328 | no string value shows the home directory, given no clash, or exceeds 4096 characters and the mark |
| Redaction.ClashShows | peeka/core/dx_cases.py:304-313 | when the two clash, the first pass leaves the home directory readable and a second one changes the result |
| Redaction.ReplaceAround | peeka/core/dx_cases.py:323-328 | text around the home directory survives: only occurrences are replaced, from the left |
| Redaction.RedactTwiceIff | peeka/core/dx_cases.py:262-328 | redaction is idempotent on all payloads if and only if home directory and cut mark do not clash |
| Redaction.MarkersExplain | peeka/core/dx_cases.py:262-315 | replaying the markers on the original payload gives the redacted one |
| Redaction.MarkersTruthful | peeka/core/dx_cases.py:270-315 | every marker leads to a value of the payload that was changed for the reason it gives |
| Redaction.NoMarkersIff | peeka/core/dx_cases.py:262-315 | the trail is empty if and only if there was nothing to redact |
| Redaction.RedactInPlace | peeka/core/dx_cases.py:270-315 | the recursive walk with its loops yields that value and appends those markers in order |
| Redaction.RedactPayload | peeka/core/dx_cases.py:262-267 | a payload comes out sealed, with a trail that explains every change |
| TopSampler.CountersMean | peeka/commands/top.py:321-370 | counters that agree with a history: each total is between 1 and the samples, and the own counts sum to the counted stacks |
| TopSampler.Top.Reset | peeka/commands/top.py:261-272 | the counters of the empty history |
| TopSampler.Top.Visit | peeka/commands/top.py:342-364 | one frame: `own` for a leaf, `total` once per sample |
| TopSampler.Top.TakeSample | peeka/commands/top.py:321-370 | after a sample each `total` is the number of samples its key occurred in and each `own` the number of counted stacks it led, since the reset |
| TopSampler.TotalsOverRuns | peeka/commands/top.py:321-376 | with failures and resets anywhere, what a total is: completed, failed and running samples that counted the key since the last reset, less the one a reset fell into after the key was visited |
| TopSampler.CutAtMostOnce | peeka/commands/top.py:261-272 | at most one completed sample can have the last reset in it |
| TopSampler.TotalsMeanIff | peeka/commands/top.py:321-376 | between samples a total is the number of completed samples with its key if and only if neither disturbance happened since the last reset, or one of each cancel |
| TopSampler.TotalsBetweenSamples | peeka/commands/top.py:321-376 | between samples a total is within the samples if and only if no more failed samples counted the key than there are completed ones without it or cut |
| TopSampler.FailuresPushTotals | peeka/commands/top.py:369-376 | any number of failed samples pushes a total that far past the samples |
| TopSampler.ResetInsideSample | peeka/commands/top.py:261-272 | after a reset inside a sample a key can lead a stack of that sample with total 0 |
| TopSampler.DisturbancesCancel | peeka/commands/top.py:321-376 | a concrete run in which a failed sample makes up for one that a reset cut |

## Left out

- Removing probes (uninject, reset, the sweep of orphans): not part of the chain model; a probe
  wrapper is assumed to call its `func` once and to carry `__wrapped__ = func`.
- Bindings created after a start, and the alias search itself: it is assumed to return exactly the
  other bindings of the same object.
- Calls in flight while a monitor is stopped, the monitor's timer thread and join timeouts.
- The key by which probes are grouped, the trace form of an injection (it joins the chain the same
  way), and the rest of a probe's record.
- MonitorStats.MonitorManager.GetStats: states the exact values, before the source rounds them for display.
- ObservationQueue.StreamQueue.Flush: a payload of 2^32 bytes or more is counted as unencodable, while
  in the source the conversion of its length raises an error that escapes the flush.
- ObservationQueue.StreamQueue.FlushAll: models one connection; the registry of connections is not modelled.
- A frame cut by a send timeout, and sends that are partly written: a send succeeds or fails as a whole.
- Client.ReadResponse: states once what three identical copies of the reader do, in `client.py`,
  `targets.py` and `session.py`; JSON decoding of the response is not modelled.
- Client.StreamingClient.StreamObservations: decoding is a parameter that says what each payload
  decodes to; the JSON text is not modelled.
- Summary.PruneResultSummary: returns None where the source never returns; the source has no such bound
  on its rounds.
- A fourth entry `"truncated": 1` or `1.0` in a nested dict: Python compares it equal to the mark
  `True`, so it is at rest there and takes one more round here.
- Tuples, surrogates and keys that are not strings in summaries and payloads: tuples and other values
  are scalars with a text and a size, keys are strings.
- ConsumerControl.Control.Drain: models a drain that finds the consumer active or over; waiting for
  records with `timeout_ms` is not modelled.
- Ids are fresh by precondition instead of by `uuid4`; clocks are parameters.
- AgentControl.Agent.ExecuteCommand: models sequential commands; the mutation lock and commands that
  run at the same time are not modelled, nor are result publication and error envelopes.
- AgentControl.Agent.HandleJobInterrupt: what the handler of a managed probe does is a parameter that
  says whether it reports success and whether it ends the context.
- The ring of recent events of a probe: it is the `drop_oldest` buffer of `ConsumerBuffer` with room
  for 100 records. Pausing a probe has a legal transition but no command.
- Redaction.RedactInPlace: rebuilds a value where the source updates a deep copy in place; a payload
  that holds one object twice is a tree with two equal parts here.
- Redaction.RedactTwiceIff: for a home directory that starts with `/` and has no angle brackets; an
  empty one and `/` are covered by `RedactSettles`.
- TopSampler.Top.TakeSample: which threads belong to the profiler is an input; percentages and the
  order of a snapshot, and the greenlet tracer, are not modelled.
- Attaching, process discovery, the command line, the terminal interface and the other commands.
