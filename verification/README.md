# Verified model of the streaming control plane, chunking and intent selection

This project models the parts of the agent service whose correctness does not show in one function
body: stream admission in a cluster and in one process, permit leases, cancellation across
processes, the choice of a model for a streamed answer, the whole life of a streamed request, the
circuit breaker with its fallback executor, both chunking strategies, intent capping, SSE framing and
query term rewriting. `dafny verify dfyconfig.toml` checks the whole project.

## How the model is laid out

| module | models |
|---|---|
| `Admission` | Redis admission: both scripts, every other command as one step, a request's retry loop |
| `Lease` | renewal interval, millisecond deadlines and evictions, over timed runs of `Admission` |
| `LocalAdmission` | the process-local queue under its lock |
| `TaskRegistry` | the registry of running streams of one process |
| `Cancellation` | all registries, the shared markers and the notifications in flight |
| `FirstToken` | the first-token gate and the candidate loop |
| `StreamGrammar` | the order of the events of one stream, as an automaton and as a grammar |
| `CallbackQueue`, `StreamChat` | the bounded callback queue and the stream service |
| `EndToEnd` | candidate loop, queue, stream and storage together |
| `HealthStore`, `Routing` | circuit breaker and fallback executor |
| `Normalization`, `FixedSize`, `Structure` | the two chunking strategies |
| `IntentCap` | the cap on intents over all sub-questions |
| `Sse` | event encoder and the browser's incremental reader |
| `TermMapping` | query term rewriting |
| `Text` | the host language's string operations |

Objects whose methods change their fields are classes whose methods are proved against a function from
the old state to the new one; loops of the program are loops here. Whole runs are runs of those functions
over arbitrary sequences of steps, so each lemma about `Run` speaks about every interleaving.

## Assumptions

- The two Redis scripts and every single Redis command are atomic. Worker clocks are arbitrary in `Admission`,
  and agree in `Lease`. The times of one process do not go backwards in `TaskRegistry.TombstoneLasts`.
- `max_concurrent` is not negative and the same for all workers.
- Permit and task identifiers are opaque; where freshness is needed it is a hypothesis: other requests of `AcquireDistributed` use
  other permits, and nobody joins under its task id between the two commands that remove its waiter.
- Cancellation: marker writes succeed and every published notification is delivered in the end. For the one task in question, its id
  is registered once, or else no clean-up deletes its marker once the cancellation has been asked for; and from then on the time
  to live has not elapsed, by the clock of each process and at the server. Times before that, other tasks and their ids are free.
  Without either condition on the id the property fails (`ReusedIdEscapes`).
- Storage: a completion that raises or is cut off has stored nothing. The code behind it appends the reply before it may wait for
  memory compression (agent_service/services/chat_service.py:332-339), so a cancellation in that wait, followed by the saving of the
  interrupted reply, can store a second one; the same holds for an error while the stored answer is encoded. `SavedOnce` counts
  the completions that return.
- First-token gate: a model client sends nothing after completion or error and nothing before its handle has been
  returned, and giving up on a candidate because of the timeout suppresses it at once. Without either of the first and the
  last, answers of two models can mix (`NoisyClientMixesAnswers`, `LateSuppressionMixesAnswers`).
- `should_cancel` is a query without effect on the local queue.
- Whatever a stream does not decide itself is data: `StreamChat.Env` says how each awaited call ends, what each check for
  cancellation finds, which packets arrive when, and when the consumer closes the stream. A round of the event loop is one
  `Round`; when the rounds are used up, the request's own task is cancelled.
- Encoded JSON bodies contain no newline, begin and end with braces, parse back to what was printed, and no proper beginning
  of one parses. Event names are non-empty, contain no newline and neither begin nor end with white space.
- Regular expressions of the chunker are predicates on lines; a line is blank when only spaces and tabs are on it.
  Unicode classes are parameters of which only the white-space facts that the proofs need are assumed.
- Scores, times and leases are real numbers.

## Findings

- `Admission.ExpiredWaiterIsGranted`: an entry beyond the scan window can be granted after its own marker has expired;
  `GrantInsideWindow` and `GrantBeyondWindow` say exactly when a claim succeeds.
- `Admission.AcquireDistributed`: a request ends holding a permit exactly when its last claim ran and was granted and no late claim of
  another has evicted the permit since, so a granted claim whose reply is lost, or whose task is cancelled meanwhile, leaves its
  permit out until the lease ends (`LostClaimKeepsPermit`). Likewise a join whose reply does not arrive leaves entry and marker in
  place (`LostJoinKeepsPlace`), and when the commands that remove a waiter are carried out nothing else does.
- `Lease.TwoThirdsAreSafeExactly`: that every delay of a renewal below two thirds of the lease is harmless holds exactly for leases of
  180.003 seconds and more (among those of at least three seconds). For shorter ones the permit can be lost within the last
  millisecond, because both the deadline and the claim time are cut to whole milliseconds (`LastMillisecondEvicts`). In general a
  delay is safe exactly when interval, delay and one millisecond fit into the lease (`SafeDelayExactly`), and without the
  millisecond when all deadlines are whole ones (`WholeDeadlinesExactly`).
- `LocalAdmission.AbandonedHeadBlocks`: a waiter at the head whose task is cancelled from outside stays there, and blocks everybody,
  exactly until a step removes its task id (`AbandonedHeadBlocksSecond` is a run, `RemovalUnblocks` the way out).
- `TaskRegistry.WithdrawalForgetsCancellation`: a registration whose owner cannot be stored removes its entry even when the task
  was cancelled meanwhile; `TombstoneLasts` shows that this is the only way to lose a cancellation within its time to live.
- `FirstToken.ReportsAreBounded`: a candidate that was given up is reported twice exactly when it answers late and then breaks down
  (`LateAnswerIsReportedTwice` is a run).
- `StreamChat.Stream`: a permit is given back exactly when no helper task ends with an error of its own and the release reaches the
  server or, locally, gets the lock; one that fails or is cancelled before that leaves the permit out (`CutReleaseKeepsPermit`, `FailedLeaseKeepsPermit`). The
  registration is given back exactly when no helper task ends with an error of its own and the release is not cancelled; a request
  cancelled while it registers is never finalized. Clean-up stops a bound model only if the task counts as cancelled then, so
  not when the consumer merely closes the stream (`CleanUp`).
- `HealthStore.OldProbesAreForgotten`: probes of an earlier half-open period are not counted, so more than the limit can be in flight.
  Within a period all probes stay within the limit whatever happens exactly when none of an earlier period is in flight
  (`PeriodIsBoundedExactly`); over all runs exactly for a limit of zero (`TotalIsBoundedExactly`).
- `Routing.CutOffProbeKeepsItsSlot`: a probe whose caller is cancelled never reports; with all slots lost that way a half-open circuit
  admits nothing until somebody else reports (`HealthStore.FullPeriodBlocks`).
- `TermMapping.DoesNothingExactly`: a mapping with a non-empty term and replacement leaves every text as it is exactly when the
  replacement is a prefix of the term.
- `IntentCap.CappedSizeExactly`: when nodes repeat within a sub-question, the result can be smaller than the cap.
- `_split_fixed_size` tests for a chunk size of -1, which the configuration functions never return; the model has no such branch.

## Model

| member | source | states |
|---|---|---|
| Admission.RedisStore.RunEnqueue | agent_service/services/stream_queue_limiter.py:84-99 | joining the queue is the enqueue step: refused exactly while the entry's marker is alive, else a new last place |
| Admission.RedisStore.Sweep | agent_service/services/stream_queue_limiter.py:63-68 | the script's loop removes from the queue exactly the looked-at entries without a live marker |
| Admission.RedisStore.RunClaim | agent_service/services/stream_queue_limiter.py:50-82 | the claim script, statement by statement, is the claim step, and answers whether it granted |
| Admission.RedisStore.RunCommand | agent_service/services/stream_queue_limiter.py:259-292 | renewal, release, removal of entry or marker, and passing time are the single steps |
| Admission.PermitsStayWithinLimit | agent_service/services/stream_queue_limiter.py:50-99 | in every interleaving, with arbitrary clocks, at most `max_concurrent` permits exist, and the queue has strictly growing scores and no task twice |
| Admission.ClaimSparesLiveWaiters | agent_service/services/stream_queue_limiter.py:63-80 | a claim removes no other waiter whose marker is alive; a granted claimer leaves the queue and holds its permit |
| Admission.GrantIsFair | agent_service/services/stream_queue_limiter.py:70-80 | a granted task waits in the queue with fewer than `max_concurrent` live earlier waiters, and a permit is free |
| Admission.AheadNeverGrows | agent_service/services/stream_queue_limiter.py:95-96 | over every run, nobody gets in front of a given place in the queue |
| Admission.RankCountsAhead | agent_service/services/stream_queue_limiter.py:70-73 | the rank of an entry is the number of entries with a smaller sequence number |
| Admission.GrantInsideWindow | agent_service/services/stream_queue_limiter.py:63-76 | inside the scan window a claim is granted if and only if the claimer's marker is alive, fewer than the limit are alive ahead and a permit is free |
| Admission.GrantBeyondWindow | agent_service/services/stream_queue_limiter.py:63-76 | beyond the window: if and only if the entries the sweep leaves ahead are fewer than the limit and a permit is free, whatever the claimer's marker |
| Admission.ExpiredWaiterIsGranted | agent_service/services/stream_queue_limiter.py:63-76 | a whole window of stale entries lets the next one in although its own marker has expired |
| Admission.RefusalPurges | agent_service/services/stream_queue_limiter.py:63-73 | each claim of an eligible waiter that is refused although a permit is free removes at least eighteen stale entries ahead of it and keeps it eligible |
| Admission.EligibleIsGranted | agent_service/services/stream_queue_limiter.py:381-403 | while a permit is free at its claims' times, an eligible waiter is granted within one more than an eighteenth of the stale entries ahead of it in claims |
| Admission.RemoveWaiter | agent_service/services/stream_queue_limiter.py:418-429 | removing a waiter, with others acting between the two commands, leaves neither entry nor marker |
| Admission.AcquireDistributed | agent_service/services/stream_queue_limiter.py:332-416 | with others acting at every wait: which turn ends the request and how; it then holds its permit if and only if that turn's claim ran and was granted and no late claim evicted the permit; and once joined it has left, when not granted, if and only if it learned that it had joined |
| Admission.LostClaimKeepsPermit | agent_service/services/stream_queue_limiter.py:398-401 | a run in which a lost reply leaves a permit out |
| Admission.LostJoinKeepsPlace | agent_service/services/stream_queue_limiter.py:344-362 | a run in which a lost or cancelled join keeps entry and live marker |
| Admission.OthersAndPermit | agent_service/services/stream_queue_limiter.py:61 | steps of other requests take a permit away if and only if one of them is a claim not before its deadline |
| Lease.IntervalIsAThird | agent_service/services/stream_chat_service.py:429 | the renewal interval is at most a third of the lease if and only if the lease is at least three seconds |
| Lease.EvictionIsExact | agent_service/services/stream_queue_limiter.py:61 | a claim of another permit evicts this one if and only if its deadline in whole milliseconds is not after the claim's time |
| Lease.MaintainedPermitStays | agent_service/services/stream_queue_limiter.py:276-292 | a permit whose deadline stays ahead, in whole milliseconds, survives every claim of every worker, with the deadline of its last renewal |
| Lease.MaintainedStreamsAreLimited | agent_service/services/stream_queue_limiter.py:50-82 | streams that keep renewing all keep their permits and are never more than the limit |
| Lease.OnTimeIsMaintained | agent_service/services/stream_chat_service.py:426-436 | when interval, delay and a millisecond fit into the lease, renewals delayed by at most that much keep the deadline ahead |
| Lease.SafeDelayExactly | agent_service/services/stream_chat_service.py:426-436 | a delay of the renewals is safe, in every run from every state, if and only if interval, delay and a millisecond fit into the lease |
| Lease.TwoThirdsAreSafeExactly | agent_service/services/stream_chat_service.py:429 | from three seconds on, every delay below two thirds of the lease is safe if and only if the lease is at least 180.003 seconds |
| Lease.OnTimeWithWholeDeadlines | agent_service/services/stream_chat_service.py:426-436 | when all deadlines are whole milliseconds, interval and delay need only be shorter than the lease |
| Lease.WholeDeadlinesExactly | agent_service/services/stream_chat_service.py:426-436 | with such deadlines that condition is exact |
| Lease.EarlierStaysEarlier | agent_service/services/stream_queue_limiter.py:512-513 | of one deadline: every earlier moment is earlier in whole milliseconds if and only if the deadline is a whole one |
| Lease.LastMillisecondEvicts | agent_service/services/stream_queue_limiter.py:394-395 | a punctual stream evicted within the last millisecond |
| LocalAdmission.LocalLimiter.RemoveWaiter | agent_service/services/stream_queue_limiter.py:431-432 | the loop removes all waiters of a task and no other |
| LocalAdmission.LocalLimiter.TakeTurn | agent_service/services/stream_queue_limiter.py:304-323 | one turn of a waiter, in the order closing, cancelled, head with a free permit, timed out |
| LocalAdmission.LocalLimiter.ReleasePermit | agent_service/services/stream_queue_limiter.py:272-274 | release removes that permit only |
| LocalAdmission.AcquireLocal | agent_service/services/stream_queue_limiter.py:294-330 | granted means active for this request; every other answer leaves no waiter of the task; a timeout needs the deadline, a cancellation a cancelled check |
| LocalAdmission.EveryRunIsFair | agent_service/services/stream_queue_limiter.py:246-330 | in every run at most `max_concurrent` permits are active, and grants followed by waiters are arrivals in order of arrival |
| LocalAdmission.GrantsFollowArrivals | agent_service/services/stream_queue_limiter.py:313-318 | the granted requests are a subsequence of the arrivals |
| LocalAdmission.ActiveFromGrantToRelease | agent_service/services/stream_queue_limiter.py:272-274 | a permit is active, for the request it was granted to, if and only if it was granted and not released since |
| LocalAdmission.AbandonedHeadBlocks | agent_service/services/stream_queue_limiter.py:313-330 | an abandoned head is still there after any steps if and only if none of them removed its task id, and while it is there nobody is granted |
| LocalAdmission.RemovalUnblocks | agent_service/services/stream_queue_limiter.py:246-257 | once the id is removed, the next head is granted a free permit at its turn |
| LocalAdmission.AbandonedHeadBlocksSecond | agent_service/services/stream_queue_limiter.py:313-330 | a run in which the second waiter is refused a free permit until the first is removed |
| TaskRegistry.StreamTaskManager.RegisterLocally | agent_service/services/stream_task_manager.py:287-292 | inserts if and only if the id is absent and there is room, after dropping expired entries |
| TaskRegistry.StreamTaskManager.RegisterTask | agent_service/services/stream_task_manager.py:287-301 | with other steps at both waits: a registration that read a marker does not leave its task running, and one whose owner cannot be stored leaves no entry |
| TaskRegistry.StreamTaskManager.CancelLocally | agent_service/services/stream_task_manager.py:343-352 | is the cancel step, reports whether it changed something, and leaves a known task cancelled |
| TaskRegistry.StreamTaskManager.BindHandle | agent_service/services/stream_task_manager.py:303-311 | is the bind step; a handle that may not run is stopped unless the task is unknown |
| TaskRegistry.StreamTaskManager.FinalizeTask | agent_service/services/stream_task_manager.py:354-369 | is the finalize step; the shared marker is cleared only for a task that was not cancelled |
| TaskRegistry.EveryRunIsKept | agent_service/services/stream_task_manager.py:287-388 | in every run an entry has an expiry if and only if it is cancelled, the handle of a cancelled entry is stopped, and the registry is within its limit |
| TaskRegistry.TombstoneStep | agent_service/services/stream_task_manager.py:296-298 | before its expiry a cancelled entry blocks registration and survives a step if and only if the step is not its own withdrawal |
| TaskRegistry.TombstoneLasts | agent_service/services/stream_task_manager.py:343-388 | a task stays cancelled for its whole time to live if and only if no registration of its id is withdrawn, and its id cannot be registered meanwhile |
| TaskRegistry.WithdrawalForgetsCancellation | agent_service/services/stream_task_manager.py:294-298 | a run in which a failed owner write forgets a cancellation |
| Cancellation.EveryRunIsCovered | agent_service/services/stream_task_manager.py:287-369 | the invariant of all interleavings for an id registered once, whose time to live runs from its cancellation: if it runs although its cancellation was published, the notification or the marker read is ahead |
| Cancellation.CancellationReachesOwner | agent_service/services/stream_task_manager.py:299-326 | once published, delivered to the owner and the owner registered, the task is cancelled there or was finalized, and runs uncancelled nowhere; other tasks, and all times before the cancellation, are arbitrary |
| Cancellation.OutstandingStepsCancel | agent_service/services/stream_task_manager.py:299-325 | a still running owner has such a step outstanding, and that step cancels the task |
| Cancellation.CancellationReachesReusedIds | agent_service/services/stream_task_manager.py:299-326 | an id registered any number of times is reached at every process too, as long as no clean-up deletes the marker once the cancellation was asked for |
| Cancellation.ReusedIdEscapes | agent_service/services/stream_task_manager.py:364-369 | with a reused id the first owner's clean-up deletes the second one's marker, and the task runs uncancelled |
| FirstToken.FirstTokenCallback.OnOutput | agent_service/services/stream_llm_service.py:186-198 | a non-blank chunk marks the first packet and is forwarded unless suppressed |
| FirstToken.FirstTokenCallback.OnComplete | agent_service/services/stream_llm_service.py:200-206 | completion is forwarded only after visible output, else held as an empty answer |
| FirstToken.FirstTokenCallback.OnError | agent_service/services/stream_llm_service.py:208-216 | an error is forwarded only after visible output, and then reported once |
| FirstToken.EveryRunIsKept | agent_service/services/stream_llm_service.py:46-127 | the invariant of all interleavings of candidate loop and callbacks |
| FirstToken.OneModelAnswers | agent_service/services/stream_llm_service.py:46-127 | the caller has received exactly what the returned candidate sent, and nothing while another candidate may still be tried |
| FirstToken.OneVoice | agent_service/services/stream_llm_service.py:165-239 | any two packets that the caller receives come from the same candidate |
| FirstToken.OneVoiceExactly | agent_service/services/stream_llm_service.py:186-226 | that holds in every run if and only if clients are quiet after their end and giving up is atomic |
| FirstToken.ReportsAreBounded | agent_service/services/stream_llm_service.py:75-109 | only the returned candidate is credited, at most once; it is debited if and only if it broke down after output; one given up is debited once, and twice if and only if it answered late and then broke down |
| FirstToken.LateAnswerIsReportedTwice | agent_service/services/stream_llm_service.py:208-214 | such a run |
| FirstToken.NoisyClientMixesAnswers | agent_service/services/stream_llm_service.py:186-191 | output after an error mixes two answers |
| FirstToken.LateSuppressionMixesAnswers | agent_service/services/stream_llm_service.py:218-226 | output between timeout and suppression mixes two answers |
| FirstToken.StartAnswer | agent_service/services/stream_llm_service.py:46-127 | the candidate loop reaches a state of those runs; a returned candidate has been heard in full, and failure means that nothing was forwarded and says whether any target could stream |
| StreamGrammar.AcceptedIsWord | agent_service/services/stream_chat_service.py:66-356 | the event automaton accepts exactly the words of the grammar |
| StreamGrammar.LegalIsPrefix | agent_service/services/stream_chat_service.py:66-356 | it is not broken exactly on beginnings of words |
| CallbackQueue.QueueStreamCallback.Push | agent_service/services/stream_chat_service.py:507-519 | a push is queued, or overflows a full queue for good and stops a bound model; queue and taken packets stay a gapless beginning of what was sent |
| CallbackQueue.QueueStreamCallback.BindHandle | agent_service/services/stream_chat_service.py:490-493 | binding after an overflow stops the model at once |
| StreamChat.Session.CancelledPayload | agent_service/services/stream_chat_service.py:85-124 | saves the stripped text shown so far, at most once, only after the answer has begun and if it is not empty; a failure to save is swallowed |
| StreamChat.Session.CheckRound | agent_service/services/stream_chat_service.py:260-279 | a round goes on if and only if there is no overflow, the client is connected and the task is not cancelled; other endings are justified by what was found |
| StreamChat.Session.ShowNext | agent_service/services/stream_chat_service.py:284-291 | the next packet goes to the client and, for content, to the reply |
| StreamChat.Session.Conclude | agent_service/services/stream_chat_service.py:305-331 | an empty answer ends in an error, a saved one in "finish", and nothing is sent when saving raises |
| StreamChat.Session.Admit | agent_service/services/stream_chat_service.py:127-189 | the permit is taken if and only if admission grants it, and early cancellation and each refusal end in exactly their events |
| StreamChat.Session.Rescue | agent_service/services/stream_chat_service.py:332-356 | if the registry says cancelled, any exception ends in "cancel" with its partial flag; otherwise an error ends in "error" and a cancellation is raised again |
| StreamChat.Session.CleanUp | agent_service/services/stream_chat_service.py:357-373 | the permit is returned if and only if it was taken, no helper task raises an error of its own and the release command is carried out; the task is finalized if and only if no helper task does and the release is not cancelled |
| StreamChat.Stream | agent_service/services/stream_chat_service.py:57-379 | every request emits a beginning of the grammar, a whole word unless disconnected, closed or cancelled from outside; the permit is given back once, and the task finalized, under the exact conditions on what it meets |
| StreamChat.CutReleaseKeepsPermit | agent_service/services/stream_queue_limiter.py:259-274 | a request whose release is cancelled keeps its permit out and its task registered |
| StreamChat.FailedLeaseKeepsPermit | agent_service/services/stream_chat_service.py:366-373 | so does one whose lease task ends with an error of its own |
| EndToEnd.AnswerHasNoGap | agent_service/services/stream_chat_service.py:284-331 | the text shown is a beginning of what the model sent, even after an overflow; a saved reply is its stripped form, and "finish" means completed and saved once |
| EndToEnd.EveryRunIsQuiet | agent_service/infra_ai/clients.py:532-542 | a candidate's completion or error is its last packet |
| EndToEnd.AnswerIsOneModels | agent_service/services/stream_chat_service.py:222-331 | from model to storage: the client sees a beginning of the returned model's answer, "finish" means all of it, and the saved reply is that text |
| HealthStore.ModelHealthStore.AllowCall | agent_service/infra_ai/health_store.py:49-61 | is the admission step and succeeds if and only if the model is not unavailable, for a positive probe limit |
| HealthStore.ModelHealthStore.RecordFailure | agent_service/infra_ai/health_store.py:66-78 | is the failure step and keeps the invariant |
| HealthStore.ModelHealthStore.IsUnavailable | agent_service/infra_ai/health_store.py:38-47 | answers the availability of the entry, a missing one being fresh |
| HealthStore.EveryRunIsSound | agent_service/infra_ai/health_store.py:38-78 | in every run closed means below the threshold, and probes are within the limit and zero outside the half-open state |
| HealthStore.SoundnessNeedsItsLimits | agent_service/infra_ai/health_store.py:25-36 | the invariant starts if and only if the threshold is positive, and admission keeps it if and only if the probe limit is not negative |
| HealthStore.AdmissionIsPredicted | agent_service/infra_ai/health_store.py:38-61 | admission succeeds exactly when the model is available, for all entries and times, if and only if the probe limit is positive |
| HealthStore.ProbesStayWithinLimit | agent_service/infra_ai/health_store.py:55-61 | in every state the probes of the current period in flight are within the limit, and in a half-open state what the counter says |
| HealthStore.PeriodIsBoundedExactly | agent_service/infra_ai/health_store.py:52-61 | until the next period all probes in flight stay within the limit, whatever happens, if and only if none is of an earlier period |
| HealthStore.TotalIsBoundedExactly | agent_service/infra_ai/health_store.py:52-61 | they do so in every run if and only if the limit is zero |
| HealthStore.FullPeriodBlocks | agent_service/infra_ai/health_store.py:57-61 | a half-open circuit admits a call if and only if a slot is free, and with none free nothing changes until a report |
| HealthStore.OldProbesAreForgotten | agent_service/infra_ai/health_store.py:55-60 | probes of earlier periods can be in flight beside it |
| HealthStore.OpenCircuitBlocks | agent_service/infra_ai/health_store.py:66-78 | an open circuit admits nothing before its time is over, unless a success is recorded |
| Routing.ExecuteWithFallback | agent_service/infra_ai/routing_executor.py:32-68 | the first position that resolves, is admitted and does not fail answers, or ends the request when the caller is cancelled there; otherwise the last error or that nobody was available, with the breaker updated accordingly |
| Routing.CutOffProbeKeepsItsSlot | agent_service/infra_ai/routing_executor.py:47-60 | a cancelled probe takes the only slot of a half-open circuit for all later times |
| Routing.PositionsAreInOrder | agent_service/infra_ai/routing_executor.py:33-47 | positions are called in order and at most once |
| Normalization.Normalize | agent_service/services/chunking_service.py:130-170 | the repair loop computes the repaired text |
| Normalization.NormalizationKeepsInk | agent_service/services/chunking_service.py:130-170 | only white space is ever deleted |
| Normalization.OneLineIsUntouched | agent_service/services/chunking_service.py:130-170 | text without a newline stays as it is |
| Normalization.SoftBreaksOnly | agent_service/services/chunking_service.py:162-169 | outside URLs exactly the newlines between two CJK word characters disappear |
| FixedSize.AdjustToBoundary | agent_service/services/chunking_service.py:98-127 | finds the last newline within reach, else the last CJK stop, else the last stop before white space, else the target |
| FixedSize.SplitFixedSize | agent_service/services/chunking_service.py:34-69 | terminates with windows laid by the rules up to the end of the text, and a chunk for each that is not blank |
| FixedSize.WindowsAdvance | agent_service/services/chunking_service.py:49-68 | starts and ends grow strictly, no window exceeds the chunk size, and neighbours overlap by exactly `overlap` or not at all |
| FixedSize.WindowsCover | agent_service/services/chunking_service.py:49-68 | the windows leave no gap |
| FixedSize.ChunkIsWindow | agent_service/services/chunking_service.py:57-61 | a chunk is one window's text, not blank, numbered by those before it |
| FixedSize.ChunksAdvance | agent_service/services/chunking_service.py:57-61 | starts and ends of the chunks grow strictly |
| FixedSize.EveryVisibleCharacterIsKept | agent_service/services/chunking_service.py:34-69 | normalization keeps all ink, and each visible character lies in a chunk at its own place |
| FixedSize.TilingIsUnique | agent_service/services/chunking_service.py:52-68 | the rules determine the windows |
| Structure.SegmentToBlocks | agent_service/services/chunking_service.py:173-230 | the scan yields blocks that fit their kinds, fences whole and only blank lines in between |
| Structure.SegmentationIsOrdered | agent_service/services/chunking_service.py:173-230 | blocks are non-empty, in order and disjoint, with blank gaps |
| Structure.CoalesceTrailingBlanks | agent_service/services/chunking_service.py:233-244 | each block grows over the blank gap behind it |
| Structure.CoalescedIsContiguous | agent_service/services/chunking_service.py:233-244 | then blocks follow each other without a gap and keep their starts and kinds |
| Structure.PackBlocksToChunks | agent_service/services/chunking_service.py:247-279 | the ranges are the greedy ones, the last two merged when the rule says so |
| Structure.PackingPartitions | agent_service/services/chunking_service.py:247-279 | ranges partition the blocks; each is within the maximum, or one block, or too little plus one block, or a merged last one within twice the maximum |
| Structure.TakesIsBounded | agent_service/services/chunking_service.py:257-268 | a taken range is of an allowed size and could not have taken one block more within the maximum |
| Structure.GreedyIsUnique | agent_service/services/chunking_service.py:252-270 | the rules determine the cuts |
| Structure.MaterializeStructureChunks | agent_service/services/chunking_service.py:282-293 | the loop builds each body from the previous, already prefixed one |
| Structure.ChunkIsContiguous | agent_service/services/chunking_service.py:282-293 | nevertheless each chunk is one piece of the text, from `overlap` before its range but not before the first block |
| Structure.ChunksReassemble | agent_service/services/chunking_service.py:282-293 | without the prefixes the chunks concatenate to the text from the first block to the last |
| Structure.SplitStructureAware | agent_service/services/chunking_service.py:71-82 | the whole strategy, for every text and configuration |
| IntentCap.CollectCandidates | agent_service/rag/intent_resolver.py:102-108 | all candidates, in a stable order of descending score |
| IntentCap.SelectTopPerSubQuestion | agent_service/rag/intent_resolver.py:111-125 | the first candidate of each sub-question |
| IntentCap.SelectAdditional | agent_service/rag/intent_resolver.py:128-146 | the first candidates whose sub-question and node are not selected |
| IntentCap.RebuiltIsPermutation | agent_service/rag/intent_resolver.py:149-160 | regrouping loses and invents nothing |
| IntentCap.CapTotalIntents | agent_service/rag/intent_resolver.py:61-71 | the composition computes the capped selection |
| IntentCap.CappedSizeExactly | agent_service/rag/intent_resolver.py:61-71 | the size is the larger of cap and non-empty sub-questions if and only if enough scores carry another node than the top of their sub-question |
| IntentCap.RestIsFresh | agent_service/rag/intent_resolver.py:135-143 | what additional selection can choose from is counted on the input: the scores with another node than the first best of their sub-question |
| IntentCap.CappedSize | agent_service/rag/intent_resolver.py:61-71 | always so when no node repeats in a sub-question |
| IntentCap.RepetitionCanShrink | agent_service/rag/intent_resolver.py:135-143 | with repetition it can fail |
| IntentCap.CappedKeepsTops | agent_service/rag/intent_resolver.py:67-71 | each non-empty sub-question keeps a best intent, in front, and nothing is added |
| IntentCap.CappingIsOptimal | agent_service/rag/intent_resolver.py:61-71 | no choice of the same size that serves every non-empty sub-question has a higher total score |
| Sse.ConsumeStream | frontend/chat.html:334-349 | reading in pieces yields the events of the whole text |
| Sse.HandleStreamEvent | frontend/chat.html:350-359 | the line loop reads name and data as the field rules say |
| Sse.SplitResumes | frontend/chat.html:341-343 | splitting resumes at the kept rest, wherever a text is cut |
| Sse.HandleFrame | agent_service/services/stream_chat_service.py:522-524 | a printed frame is read back |
| Sse.FragmentedRoundTrip | agent_service/services/stream_chat_service.py:522-524 | every list of printed events, in whatever pieces it arrives, is read back exactly |
| Sse.CutStreamYieldsPrefix | frontend/chat.html:340-349 | a stream cut anywhere yields exactly the events whose frames had arrived up to their closing newlines |
| TermMapping.ApplyMapping | agent_service/rag/query_term_mapping.py:83-100 | the index loop computes the rewriting |
| TermMapping.RewriteIsIdempotent | agent_service/rag/query_term_mapping.py:83-100 | with the source a non-empty prefix of the target, a second pass changes nothing |
| TermMapping.RewriteCanReformItsSource | agent_service/rag/query_term_mapping.py:83-100 | without that it can |
| TermMapping.MappingToOwnPrefixDoesNothing | agent_service/rag/query_term_mapping.py:94-99 | with the target a prefix of the source, a pass changes nothing at all |
| TermMapping.DoesNothingExactly | agent_service/rag/query_term_mapping.py:83-100 | a pass leaves every text as it is if and only if source or target is empty or the target is a prefix of the source |
| TermMapping.RewriteCreatesNothing | agent_service/rag/query_term_mapping.py:83-100 | a target that shares no character with source and term brings no occurrence of the term, and removes the source |
| TermMapping.OrderedIsLongestFirst | agent_service/rag/query_term_mapping.py:36-38 | mappings are applied longest source first, none lost |
| TermMapping.Normalize | agent_service/rag/query_term_mapping.py:30-34 | the fold over the ordered mappings |
| TermMapping.NormalizationEliminatesTerms | agent_service/rag/query_term_mapping.py:30-38 | with targets foreign to all sources no source term is left |

## Left out

- Redis, HTTP, database and model connections, reconnect loops, logging, tracing and metrics: they are steps and inputs of the model.
- Failures of the commands that remove a waiter: they leave entry and marker to expire.
- Bulk removal of waiting tasks when a limiter closes, and its wake-up tokens: the removals are the single steps, wake-ups only speed up polling.
- Reconfiguration through `start`, and the event loop's scheduler: awaits are the points where other steps may happen.
- Owner authorization of cancel requests and stripping of owner ids: single comparisons.
- Byte-level UTF-8 decoding, JSON itself, hashes and generated ids.
- Regular expressions that classify lines, and the `split` dispatcher.
- Classification, cut-off by score and grouping of intents: sorting and filtering before the cap.
- Loading and caching of term mappings.
- The rest of the front end, SQL repositories, document upload, MCP clients and prompts: input and output, or single-branch checks.
- `_maintain_queue_lease` as a loop: `Lease.OnTime` states what it achieves, its loss of a lease is a cancellation in `StreamChat`.
- FirstToken.StartAnswer: the candidate loop works on the values of the gates, not on `FirstTokenCallback` objects; the objects' methods are proved against the same functions.
- StreamChat.Stream: concurrent reads of the registry are given as answers in `Env`, so it does not say when a cancellation is noticed, only what follows.
- Local admission makes no claim of progress, which external cancellation of a waiter can prevent.
