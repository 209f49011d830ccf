# A verified model of the Sanguinius Discord bot's state machines

Sanguinius is a Discord bot written in C++. Around large plumbing it has a set of
small state machines, a scheduler, a delivery protocol, an accounting scheme and
byte-level codecs on which its promises rest: confirm or cancel but never both, no
lane of work starves, a public message is not sent twice, the bot is not
"listening" when it says that it stopped. This project models that code in Dafny
and proves those promises for every input, every run and every interleaving.

`dafny verify dfyconfig.toml` checks everything.

| file | models | main results |
|---|---|---|
| `VolatileActions.dfy` | the one-shot action store of `src/chronicle.cpp` | which presses are granted, one winner per group, mutual exclusion, eviction order, capacity |
| `AiWorkService.dfy` | the three-lane work queue of `src/ai_work_service.cpp` | no starvation within bounds that are attained, exact 4/2/1 shares, FIFO, conservation, reserved share |
| `Outbox.dfy` | public delivery in `src/outbox.cpp` over its SQL row operations | exactly when a row is claimed, submitted, retried and delivered; all submissions in one boot session within 90 s, bounded attempts |
| `Utf8.dfy` | the UTF-8 functions of four files | validators equal RFC 3629, both truncations agree, the blank test is exact |
| `InteractionEditor.dfy` | `SequencedInteractionEditor` | one edit in flight, exactly when an edit is sent, order of edits, each callback once |
| `VoiceInputAdapter.dfy` | the receive transport | exactly when enabling, arming and disabling succeed, `disable_transport` is honest, blocked until observed deaf or gone, who is heard and who is told |
| `VoiceBinding.dfy` | the voice gateway's binding | exactly when the gateway becomes ready, ready means encrypted in the bound channel, moved until replaced, truthful events, which departures are reported |
| `AiGeneration.dfy` | price and settlement of one generation | exact ceilings, no overflow, settled exactly once on every exit |
| `AiLedger.dfy` | the budgets over all generations | no 24 hours and no calendar month exceed the policy |
| `ChronicleSessions.dfy` | summary validation and literal search | no 64-byte copy in any field, the query reads back as the user's tokens |
| `RandomUniform.dfy` | `SystemRandom::uniform` | exactly uniform, at least half of all samples accepted, exactly when a draw ends |
| `WavStream.dfy` | the WAV header and pull stream | reads are consecutive pieces, the header is coherent exactly when nothing wraps |
| `Orchestrator.dfy` | the cross-feature worker | no wake is lost, every pass calls every consumer once in order, exactly when another pass follows |
| `Wrappers.dfy` | the optional value | shared by most modules |
| `LittleEndian.dfy` | little-endian numbers | round trips, used by the random draw and the WAV header |

How the code is modelled:

- An object whose methods update its fields is a `class`; every critical section
  is one method, proved equal to a step of a transition system over the object's
  abstract value. The theorems are about all runs of that system. A thread or a
  callback may do anything between two critical sections, so the runs interleave
  freely. A timed wait ends at any moment.
- Thrown exceptions are result values; what the doc comment of a method calls
  "stands for" names the exception.
- Clocks, random bytes, cache look-ups, provider answers and the order in which a
  hash map is scanned are parameters or free choices.
- UUIDs are assumed fresh: group ids in `VolatileActions` (`FreshGroups`), lease
  tokens in `Outbox` (`Enabled`).

Properties that the code does not have in full, each with a concrete case and the
exact condition:

- A WAV header is coherent only if the PCM is at most 2^32 - 37 bytes and there are
  fewer than 32768 channels; `pcm_wav_header` accepts more and the casts wrap
  (`HeaderIsCoherentUnlessItWraps`, `WrappingHeaders`).
- The loss of a connected binding is not always reported. A departure is reported
  if and only if no announced departure is outstanding: a release of a connected
  binding or a replacement of another session's binding announces one, and a
  departure, an observation in the bound channel, a ready event or a shutdown
  settles it (`DepartureIsReportedUnlessOutstanding`, with two failing runs,
  `EarlyDepartureCanBeDropped` and `UnseenSessionHidesDeparture`: in the second no
  earlier session was ever seen connected). A ready binding's departure is always
  reported (`ReadyDepartureIsReported`).
- A safe observation during `disable_transport`, the bot deaf in its channel or gone,
  does not always make it succeed. Without shutdown (`UndisturbedStaysUp`) it
  succeeds exactly in these cases (`WhenDisableSucceeds`). If the forced disconnect
  is accepted: a safe observation comes before its wait ends. If it is refused: the
  request to deafen is accepted and the bot is seen deaf in its channel, and nowhere
  else, by the end of the first wait; or the bot is seen gone and never deaf by the
  recheck behind that wait. So a failed call leaves a safe observation behind exactly
  when one came in the gaps it went through, but not as just said, or after its last
  wait (`WhenNewsIsOverwritten`, with the failing runs `LateObservationIsOverwritten`
  and `RefusedDisconnectLosesObservation`); the next disable then settles the request
  at once (`OverwrittenNewsIsSettledNext`).
- The copy test on the joined text can refuse a candidate of which no field copies
  (`RefusedWithoutACopy`). The two tests differ on a context line exactly when no
  field copies from it and a 64-byte window of it stands across a joint of the
  joined text (`JoinedTestIs`), which takes a line break in that window.
- Handing a row back (`release_outbox`) does not always free it: exactly when an
  earlier lease's submission is still recorded, nothing changes and the lease has to
  run out (`HandedBack` in `BeginDecides`).
- A terminal outbox row is not quite final: its state still changes exactly when it
  is failed and another part of the program cancels it (`TerminalStep`, with the
  run `FailedRowCanBeCancelled`); beyond that only the error code may be cleared or
  replaced (`TerminalForEver`).

## Model

| member | source | states |
|---|---|---|
| VolatileActions.VolatileChronicleActions.ClaimToken | src/chronicle.cpp:622-663 | the answer and the store of a press, both functions of the store before the claim's own purge, so the purge never takes the looked-up record; when each answer is due is `PressIsAnswered`, what stays is `PressLeaves` |
| VolatileActions.PressIsAnswered | src/chronicle.cpp:626-662 | the five answers, each if and only if it is due: granted exactly for an active token pressed in its own scope before its expiry while nothing of its group is in progress; unavailable exactly for an unknown token or another scope |
| VolatileActions.PressLeaves | src/chronicle.cpp:626-662 | a press removes exactly the expired records that nobody works on, and changes one record, the granted one |
| VolatileActions.GrantIsExact | src/chronicle.cpp:642-655 | the same as an event of a history: which presses are granted |
| VolatileActions.GrantedWasPut | src/chronicle.cpp:617-655 | over every history: a granted action is the one that an earlier put stored under that very token, for the scope that pressed |
| VolatileActions.VolatileChronicleActions.Finish | src/chronicle.cpp:665-691 | settles only a token in progress: all siblings go, the private prose goes, the trimmed result stays; otherwise nothing changes |
| VolatileActions.TrimmedKeeps | src/chronicle.cpp:682-690 | the kept result loses the private prose and nothing that identifies the outcome |
| VolatileActions.VolatileChronicleActions.Release | src/chronicle.cpp:693-700 | only a token in progress becomes claimable again |
| VolatileActions.ReleasedIsGranted | src/chronicle.cpp:693-700 | after a release the token is granted again to exactly its own scope before its expiry |
| VolatileActions.VolatileChronicleActions.CancelGroup | src/chronicle.cpp:702-708 | every member of the group goes except one in progress; other groups are untouched |
| VolatileActions.CancelLeaves | src/chronicle.cpp:702-708 | a record is gone afterwards if and only if it is of the group and not in progress, and every other one is unchanged |
| VolatileActions.VolatileChronicleActions.PurgeExpired | src/chronicle.cpp:526-536 | exactly the expired records that nobody works on go |
| VolatileActions.VolatileChronicleActions.CheckGroup | src/chronicle.cpp:566-578 | true if and only if the group is non-empty, fits the capacity, has one non-empty group id, distinct UUIDv4 tokens and complete scopes |
| VolatileActions.VolatileChronicleActions.FindOldest | src/chronicle.cpp:586-607 | finds the evictable token with the least (expiry, token) key whatever the scan order, or proves that there is none |
| VolatileActions.VolatileChronicleActions.MakeRoom | src/chronicle.cpp:585-616 | terminates with the fewest evictions that make room, or with all possible ones if even those do not |
| VolatileActions.VolatileChronicleActions.PutGroup | src/chronicle.cpp:564-620 | the four outcomes of a put and the exact store each leaves, the evictions before an overflow included |
| VolatileActions.BeforeIsStrictOrder | src/chronicle.cpp:599-604 | (expiry, token) is a strict total order on the store |
| VolatileActions.LessIsLexicographic | src/chronicle.cpp:604 | the comparison of tokens: less at the first difference, or a proper prefix |
| VolatileActions.PurgeKeepsSiblings | src/chronicle.cpp:641-650 | purging first does not change whether a sibling is busy |
| VolatileActions.EvictionRemovesWholeGroups | src/chronicle.cpp:612-615 | after any evictions exactly the records of the named groups are gone |
| VolatileActions.VictimsAreOldest | src/chronicle.cpp:585-616 | no victim has a member in progress or is the new group, and victims come in the order of their least keys, before everything evictable that stays |
| VolatileActions.EvictedExpireFirst | src/chronicle.cpp:585-616 | whatever a put evicts is of another group that nobody works on, and that group holds a record expiring no later than any evictable record that was kept |
| VolatileActions.EvictionsAgree | src/chronicle.cpp:585-616 | the list of victims is unique, hence independent of hash order |
| VolatileActions.PutIsDeterministic | src/chronicle.cpp:564-620 | result and resulting store of a put are functions of its arguments |
| VolatileActions.PutDecides | src/chronicle.cpp:564-620 | stored if and only if the group is valid, its tokens are unknown and it fits beside what no eviction may remove; the other answers likewise |
| VolatileActions.PutKeepsRecords | src/chronicle.cpp:564-620 | success leaves size within capacity with every new token active; no put changes a surviving record or removes a group being worked on |
| VolatileActions.HistoriesAreSound | src/chronicle.cpp:622-708 | in every reachable store at most one record per group is in progress, and a completed record is alone in its group without prose |
| VolatileActions.HistoriesFit | src/chronicle.cpp:585-620 | no reachable store exceeds the capacity |
| VolatileActions.HolderSurvives | src/chronicle.cpp:531-536 | nothing but its own finish or release removes or changes a record in progress |
| VolatileActions.OneWinnerPerGroup | src/chronicle.cpp:665-691 | after one token of a group was finished, no token of that group is ever granted or finished again, and a press replays only that token's trimmed result |
| VolatileActions.FinishedTokenReplays | src/chronicle.cpp:635-661 | while it stays, the finished token replays to its own scope until it expires |
| VolatileActions.FinishedStaysClosed | src/chronicle.cpp:673-690 | after a finish every later store holds of the group at most the finished token, with the record that finishing left |
| VolatileActions.FinishedTokenReplaysLater | src/chronicle.cpp:635-661 | in every later store that still holds the finished token for its group, its record is unchanged and a press is answered by the scope, expiry and trimmed result it had when finished |
| VolatileActions.GrantsExcludeEachOther | src/chronicle.cpp:642-655 | between two grants in one group lies a release of the first holder |
| AiWorkService.AiWorkService.constructor | src/ai_work_service.cpp:26-31 | starts empty, stopped, at slot 0 |
| AiWorkService.AiWorkService.Launch | src/ai_work_service.cpp:33-40 | starts accepting once; a second start changes nothing |
| AiWorkService.AiWorkService.Enqueue | src/ai_work_service.cpp:54-80 | refuses exactly when stopping or when the admission rule of the lane says so, and otherwise appends to that lane alone |
| AiWorkService.Admission | src/ai_work_service.cpp:60-74 | the admission rule: room in all, the 16 slots reserved for direct tasks where the queue has more than 16, at most 48 others and 32 optional ones |
| AiWorkService.ProductionAdmission | src/ai_work_service.cpp:60-74 | the same for the production size of 64 slots: 64, 48 and 32 |
| AiWorkService.SubmitDecides | src/ai_work_service.cpp:57-79 | a submission appends to its own lane, and changes anything at all, if and only if the service accepts and the rule admits it |
| AiWorkService.AcceptsWhileStarted | src/ai_work_service.cpp:33-40 | over every run from the start: the service accepts if and only if its only effective start has no stop behind it |
| AiWorkService.AiWorkService.SelectLane | src/ai_work_service.cpp:134-150 | stops at the first busy slot after the index; the fallback after the scan is reached only when all lanes are empty |
| AiWorkService.AiWorkService.Take | src/ai_work_service.cpp:154-166 | hands out the head of the lane that is due, or keeps waiting when nothing is queued |
| AiWorkService.AiWorkService.Finish | src/ai_work_service.cpp:171-174 | moves one task from active to run |
| AiWorkService.AiWorkService.Append | src/ai_work_service.cpp:114-120 | draining a lane keeps its order behind what was drained before |
| AiWorkService.AiWorkService.CancelEach | src/ai_work_service.cpp:99-106 | calls each supplied cancellation once, in order |
| AiWorkService.AiWorkService.Shutdown | src/ai_work_service.cpp:90-106 | drains all lanes in lane order, and calls the supplied cancellations of exactly those tasks |
| AiWorkService.StopDrains | src/ai_work_service.cpp:90-98 | a stop ends acceptance, empties the lanes and drains exactly what was queued, in lane order; running tasks stay |
| AiWorkService.NothingAfterStop | src/ai_work_service.cpp:90-111 | from the stop of a started service on, over every run, nothing is accepted, queued or drained but those tasks |
| AiWorkService.CancellableAre | src/ai_work_service.cpp:99-106 | called are exactly the tasks that supplied a cancellation, as often as they were drained and in their order |
| AiWorkService.ServesFirstBusySlot | src/ai_work_service.cpp:139-144 | no busy slot is passed over |
| AiWorkService.IdleMeansEmpty | src/ai_work_service.cpp:157-159 | a worker waits if and only if every lane is empty |
| AiWorkService.BoundsOverRuns | src/ai_work_service.cpp:60-74 | the three queue bounds hold after any run |
| AiWorkService.DirectShareIsReserved | src/ai_work_service.cpp:60-70 | with more than 16 slots a direct submit is full only when at least 16 direct tasks are queued |
| AiWorkService.TasksAreConserved | src/ai_work_service.cpp:54-176 | over any run each task is accounted for as often as it was accepted |
| AiWorkService.ExactlyOneFate | src/ai_work_service.cpp:90-176 | an accepted task is exactly one of queued, active, run or drained, and never both run and cancelled |
| AiWorkService.StopIsFinal | src/ai_work_service.cpp:90-111 | after the stop of a started service nothing is accepted, queued or drained any more (a service stopped before its start can still be started) |
| AiWorkService.LanesAreFifo | src/ai_work_service.cpp:75-76 | what a lane has served followed by what it holds is what it held followed by what it admitted |
| AiWorkService.PatienceBoundsSlots | src/ai_work_service.cpp:135-141 | from every schedule index the turn count stays within 3+(k+1)+3(k div 4), 5+(k+1)+5(k div 2), 7(k+1), and all within 7(k+1) |
| AiWorkService.ServedWithinSlots | src/ai_work_service.cpp:134-166 | every dequeue, whichever lane it serves, uses up one of the slots a waiting task counts on |
| AiWorkService.NoStarvation | src/ai_work_service.cpp:134-166 | a task with k tasks ahead in its lane is handed out within those bounds, whatever is submitted meanwhile |
| AiWorkService.PatienceIsAttained | src/ai_work_service.cpp:135-141 | each lane has a schedule index from which its turn count equals the bound |
| AiWorkService.PatienceIsTight | src/ai_work_service.cpp:134-166 | from any accepting state with work in every lane and that index, a run with one dequeue less leaves the task waiting, so no smaller bound holds |
| AiWorkService.ExactSharesWhenBusy | src/ai_work_service.cpp:135-144 | while no lane runs empty, any 7 consecutive dequeues serve 4, 2 and 1 |
| Outbox.RetryDelayMs | src/outbox.cpp:30-35 | 5 s up to the first attempt, doubled up to the fourth, 40 s from then on |
| Outbox.ClassifyFailure | src/outbox.cpp:77-96 | retried if and only if transient or unknown and inside the window; otherwise the row fails for good |
| Outbox.OutboxRow.ClaimDueOutbox | src/persistence/sqlite_durable_work_repository.cpp:1727-1953 | quarantines, exhausts or claims in one transaction; the claim has one attempt more and the stored first submission |
| Outbox.TickDecides | src/persistence/sqlite_durable_work_repository.cpp:1727-1953 | the outcomes of a tick, each if and only if it is due: handed to a worker when due, ready, unblocked and with attempts left; failed as unknown for a lost last submission; dead when exhausted |
| Outbox.OutboxRow.ReleaseOutbox | src/persistence/sqlite_durable_work_repository.cpp:2009-2031 | gives the attempt back only to its holder and only before a submission |
| Outbox.OutboxRow.MarkPublicSubmitted | src/persistence/sqlite_durable_work_repository.cpp:2032-2072 | rejects bad stamps and leases without a change, succeeds only for the current lease and records the first submission once |
| Outbox.OutboxRow.CompletePublic | src/persistence/sqlite_durable_work_repository.cpp:2074-2103 | delivers only for the current lease with a submission open; an unset message id is rejected without a change |
| Outbox.OutboxRow.FailOutbox | src/persistence/sqlite_durable_work_repository.cpp:2105-2146 | retries, fails or buries the row, only for the current lease |
| Outbox.OutboxService.BeginPublic | src/outbox.cpp:359-421 | the row it leaves and whether it asks for a provider call are functions of the row, the copy and the inputs; when it submits is `BeginSubmits`, what each other exit does is `BeginDecides` |
| Outbox.BeginSubmits | src/outbox.cpp:359-421 | a begin of the holder adds exactly its submission if and only if the payload is valid and in scope, no failure is injected, Discord is ready, the row was never submitted or is inside its window, nothing is stopping and the clock values are sane; otherwise it adds none |
| Outbox.BeginDecides | src/outbox.cpp:359-421 | what a begin does to the row on each exit: dead, retried after its delay, handed back, failed with which code, or marked with which lease |
| Outbox.LeaseOutlastsWait | src/outbox.cpp:37-46 | no tick touches a marked row before the wait for its receipt has ended |
| Outbox.DeliversWhenAllGoesWell | src/outbox.cpp:359-457 | a due row with attempts left, whose window is open, is delivered with the receipt's message id by claim, begin, send and a success receipt |
| Outbox.OutboxService.HandleReceipt | src/outbox.cpp:556-586 | a success with a message id completes, a success without one counts as unknown, the rest follows the window |
| Outbox.StepKeeps | src/outbox.cpp:359-457 | every event keeps that row and current copy know the first submission exactly and that attempts cover submissions |
| Outbox.StepKeepsOnce | src/outbox.cpp:406-432 | no lease is marked or sent twice |
| Outbox.RunsAreConsistent | src/outbox.cpp:359-457 | that invariant holds after any run of ticks, crashes, throws, receipts, clock values and withdrawals by other parts of the program |
| Outbox.SubmissionsStayInNonceWindow | src/outbox.cpp:56-67 | all provider calls of a row carry the boot id of the first submission and a stamp within 90,000 ms of it, and there are at most max_attempts of them |
| Outbox.LostLeaseIsHarmless | src/outbox.cpp:409-432 | a worker whose lease is gone changes no row and marks nothing; a provider call it still makes belongs to a mark it made while it held the lease |
| Outbox.ReceiptDecides | src/outbox.cpp:556-586 | what the holder's receipt does to the row, with the window measured from the row's first submission: outside it everything but success fails for good, inside it transient and unknown outcomes are retried after exactly their delay while attempts are left, with the error code of each case; a success with an unset message id changes nothing |
| Outbox.DeliveredOnlyByReceipt | src/outbox.cpp:561-568 | delivered is reached only through a success receipt with a set message id, to the holder, after its mark |
| Outbox.DeliveredHasReceipt | src/outbox.cpp:556-568 | a row that a run leaves delivered carries the message id of a success receipt of that run |
| Outbox.TerminalForEver | src/persistence/sqlite_chronicle_session_repository.cpp:328-340 | a terminal row is never claimed, marked or delivered again; only its error code may change, and failed may become cancelled |
| Outbox.TerminalStep | src/persistence/sqlite_chronicle_session_repository.cpp:328-340 | the state of a terminal row changes if and only if it is failed and is cancelled from outside |
| Outbox.WithdrawDecides | src/persistence/sqlite_durable_work_repository.cpp:1793-1809 | a withdrawal ends a waiting, claimed or failed row as cancelled and a submitted one as failed, takes the lease, and changes no other row |
| Outbox.FailedRowCanBeCancelled | src/persistence/sqlite_chronicle_session_repository.cpp:328-340 | a run that fails a row for good and then cancels it |
| Outbox.LostLastAttemptIsQuarantined | src/persistence/sqlite_durable_work_repository.cpp:1727-1953 | a submitted last attempt whose worker was lost is failed as unknown, never resent, even while Discord is not ready |
| Utf8.ReadIsSound | src/appearance_policy.cpp:372-409 | what the decoder accepts is a scalar value whose RFC 3629 encoding stands at the front |
| Utf8.ReadIsComplete | src/appearance_policy.cpp:372-409 | every scalar's encoding is read back, whatever follows it |
| Utf8.WellFormedIsUnique | src/appearance_policy.cpp:372-409 | a well-formed text encodes one sequence of scalar values and no other |
| Utf8.ValidUtf8 | src/appearance_policy.cpp:372-409 | true if and only if the bytes encode some sequence of scalar values |
| Utf8.LeadsCountScalars | src/appearance_policy.cpp:411-418 | a well-formed text has one non-continuation byte per scalar |
| Utf8.UnicodeCodePoints | src/appearance_policy.cpp:411-418 | the number of encoded scalars, or the error value exactly when malformed |
| Utf8.ValidChronicleUtf8 | src/chronicle.cpp:203-245 | true if and only if well formed without C0 controls (except TAB and LF), DEL and C1 controls, though written differently |
| Utf8.BoundedUtf8 | src/chronicle.cpp:66-75 | keeps the text or its part up to the last boundary at or before the limit |
| Utf8.Limited | src/ai_responder.cpp:12-24 | the same part before an ellipsis |
| Utf8.EllipsisIs | src/ai_responder.cpp:23 | the suffix is one scalar, U+2026 |
| Utf8.BoundedResponse | src/appearances.cpp:250-260 | keeps the longest well-formed prefix that fits before the suffix, for malformed input too, and never exceeds the limit |
| Utf8.CutKeepsWhatFits | src/chronicle.cpp:70-74 | on a well-formed text the backward walk keeps the most whole scalars that fit |
| Utf8.CutsAgree | src/appearances.cpp:255-257 | both ways of truncating return the same bytes at the same limit: the most whole scalars that fit |
| Utf8.UnicodeBlank | src/appearances.cpp:170-197 | stays in bounds and is true if and only if every scalar is in the whitespace set |
| InteractionEditor.SequencedInteractionEditor.Submit | src/interaction_handler.cpp:56-80 | which edit is dispatched, waits or is rejected, and the new state |
| InteractionEditor.SubmitDecides | src/interaction_handler.cpp:56-80 | in every reachable state: dispatched if and only if nothing is in flight and the edit is terminal or no terminal one came before; a terminal edit otherwise waits in place of the one that waited; what is rejected |
| InteractionEditor.SequencedInteractionEditor.Complete | src/interaction_handler.cpp:116-126 | the waiting terminal edit is sent next, or the editor becomes idle |
| InteractionEditor.SettleDecides | src/interaction_handler.cpp:116-126 | in every reachable state: after an answer the waiting terminal edit is dispatched, or nothing is in flight any more |
| InteractionEditor.EditsProceed | src/interaction_handler.cpp:81-114 | the open edit reaches the sender, only its first answer fires its callback, and a rejected callback fires |
| InteractionEditor.RunsKeepInv | src/interaction_handler.cpp:56-129 | the invariant holds for every order of submissions, sends, repeated or synchronous completions and callbacks |
| InteractionEditor.AtMostOneOutstanding | src/interaction_handler.cpp:56-129 | never two edits with the sender or on their way |
| InteractionEditor.SentInOrder | src/interaction_handler.cpp:56-129 | sent edits are non-terminal then terminal, in submission order; when idle the last one sent is the last terminal submitted |
| InteractionEditor.CallbacksFireOnce | src/interaction_handler.cpp:81-108 | each callback fires at most once, and exactly once when nothing is open |
| VoiceInputAdapter.DppVoiceInputAdapter.VoiceStateChanged | src/dpp_voice_input_adapter.cpp:343-383 | which observations of the bot confirm, fail or end listening, and what listeners are told when no wait is on |
| VoiceInputAdapter.OwnNoticeIs | src/dpp_voice_input_adapter.cpp:343-383 | which notice the bot's own state raises, each if and only if it is due |
| VoiceInputAdapter.MemberNoticeIs | src/dpp_voice_input_adapter.cpp:384-413 | which notice another member's state raises: the requester's departure first, bots and unknown users only in the channel |
| VoiceInputAdapter.DppVoiceInputAdapter.Receive | src/dpp_voice_input_adapter.cpp:298-341 | audio is delivered if and only if the adapter hears, the packet is of the armed client and not empty; a changed connection disarms and is announced |
| VoiceInputAdapter.PacketsCut | src/dpp_voice_input_adapter.cpp:41-54 | a packet ends the hearing if and only if it is of no client or of another client of the same guild |
| VoiceInputAdapter.DppVoiceInputAdapter.EnableTransport | src/dpp_voice_input_adapter.cpp:141-169 | the call with any events, shutdown included, in each of its gaps; when it returns true is `WhenEnableSucceeds` |
| VoiceInputAdapter.WhenEnableSucceeds | src/dpp_voice_input_adapter.cpp:141-169 | true if and only if the adapter admits the request, the message is accepted, the bot is seen in the channel with its ears open and nowhere else by the end of the wait, and nothing shuts down |
| VoiceInputAdapter.DppVoiceInputAdapter.ArmNow | src/dpp_voice_input_adapter.cpp:171-184 | arms only for the enabled request with a client, its requester present and no other bot |
| VoiceInputAdapter.WhenArmSucceeds | src/dpp_voice_input_adapter.cpp:171-184 | true if and only if the adapter admits the request, its requester and no other bot is present, it is the enabled one and there is a voice client; then that client is heard |
| VoiceInputAdapter.EnabledThenArmed | src/dpp_voice_input_adapter.cpp:141-184 | a request that was enabled can be armed at once |
| VoiceInputAdapter.DppVoiceInputAdapter.DisableTransport | src/dpp_voice_input_adapter.cpp:192-267 | the call with any events, shutdown included, in each of its gaps and on every exit |
| VoiceInputAdapter.DppVoiceInputAdapter.StoreResult | src/dpp_voice_input_adapter.cpp:255-266 | blocked afterwards if and only if neither safe nor shut down; shutdown also counts as success |
| VoiceInputAdapter.DppVoiceInputAdapter.RestoreOrDisconnect | src/dpp_voice_input_adapter.cpp:213-247 | when the two waits may report safety |
| VoiceInputAdapter.EventsKeep | src/dpp_voice_input_adapter.cpp:343-372 | events never lose a safe observation and never block an unblocked adapter |
| VoiceInputAdapter.DisableIsHonest | src/dpp_voice_input_adapter.cpp:192-267 | without shutdown: true if and only if not blocked afterwards; true with a request means that since the last enable the bot was seen deaf in its channel or gone |
| VoiceInputAdapter.DisableIsHonestInEveryRun | src/dpp_voice_input_adapter.cpp:192-267 | the same after any calls and events; true without a request means not blocked |
| VoiceInputAdapter.BlockedRefuses | src/dpp_voice_input_adapter.cpp:66-70 | a blocked adapter refuses every enable and arm and does not change |
| VoiceInputAdapter.BlockedUntilObserved | src/dpp_voice_input_adapter.cpp:141-267 | until a safe observation of the unsettled request or a shutdown, every enable, arm and disable returns false in every interleaving |
| VoiceInputAdapter.EventsTell | src/dpp_voice_input_adapter.cpp:353-371 | during the waits of an enable or a disable each kind of observation is recorded if and only if an event shows it |
| VoiceInputAdapter.UndisturbedStaysUp | src/dpp_voice_input_adapter.cpp:192-267 | a call into whose gaps no shutdown falls ends without one |
| VoiceInputAdapter.WhenDisableSucceeds | src/dpp_voice_input_adapter.cpp:213-247 | without shutdown the call succeeds if and only if its gaps show what `Succeeds` asks, with the forced disconnect accepted or refused |
| VoiceInputAdapter.DisableAtOnce | src/dpp_voice_input_adapter.cpp:192-212 | a disable without a request, or with a safe observation on record, answers and settles at once |
| VoiceInputAdapter.WhenNewsIsOverwritten | src/dpp_voice_input_adapter.cpp:228-255 | the call fails with a safe observation left behind if and only if one came in its gaps but not as `Succeeds` asks |
| VoiceInputAdapter.OverwrittenNewsIsSettledNext | src/dpp_voice_input_adapter.cpp:199-205 | after a failed disable the adapter is stuck, or the next disable succeeds and unblocks at once |
| VoiceInputAdapter.LateObservationIsOverwritten | src/dpp_voice_input_adapter.cpp:248-255 | a run in which the final store overwrites an observation made after the last locked section |
| VoiceInputAdapter.RefusedDisconnectLosesObservation | src/dpp_voice_input_adapter.cpp:228-245 | a run in which an observation before the recheck is lost because the forced disconnect was refused |
| VoiceInputAdapter.DisableIsDeaf | src/dpp_voice_input_adapter.cpp:192-197 | from its first locked section on, no event in any gap arms the adapter, and it is not armed afterwards, whatever the call returns |
| VoiceInputAdapter.CallHears | src/dpp_voice_input_adapter.cpp:141-211 | a call leaves the adapter hearing if and only if it is a successful arm or spares one; an arm for the same request that finds no client does not spare it |
| VoiceInputAdapter.HearsSinceArmed | src/dpp_voice_input_adapter.cpp:298-341 | in every reachable state audio can be delivered if and only if an arm succeeded and no disable, effective enable, arm without a client, disarm or connection change came since; it is then that arm's client and request |
| VoiceInputAdapter.HearsBetweenCalls | src/dpp_voice_input_adapter.cpp:298-341 | the same at any moment between two calls |
| VoiceInputAdapter.SilentAfterDisable | src/dpp_voice_input_adapter.cpp:343-431 | after a disable that settled its request, until the next enable no event of the bot or of a member raises a notice, no notice raised before reaches a listener and nothing is heard |
| VoiceBinding.DppVoiceGateway.BindTo | src/dpp_voice_gateway.cpp:361-387 | binds unless another session's binding is connected; replacing another session's binding makes the gateway expect a departure |
| VoiceBinding.BindDecides | src/dpp_voice_gateway.cpp:361-387 | refused if and only if another session's binding is connected; otherwise the new binding knows its target and nothing else |
| VoiceBinding.DppVoiceGateway.ReleaseBinding | src/dpp_voice_gateway.cpp:439-445 | only the named session's binding is given up; a departure is expected if it was connected |
| VoiceBinding.ReleaseDecides | src/dpp_voice_gateway.cpp:439-445 | the binding is gone exactly when it is the session's; after a failed join or a shutdown in any case |
| VoiceBinding.DppVoiceGateway.ExpectMarker | src/dpp_voice_gateway.cpp:453-470 | invalid exactly for a wrong format, size or empty marker; accepted exactly for a ready encrypted binding of the session, which then waits for the new marker |
| VoiceBinding.SendDecides | src/dpp_voice_gateway.cpp:453-470 | audio is expected to end exactly when it is 48 kHz 16-bit stereo of at most 20 seconds in whole frames, named, and for a ready encrypted binding of its session; otherwise nothing changes |
| VoiceBinding.SentMarkerIsReported | src/dpp_voice_gateway.cpp:453-470 | the marker of accepted audio is reported when the track reaches it |
| VoiceBinding.DppVoiceGateway.OnVoiceReady | src/dpp_voice_gateway.cpp:586-651 | the event and the new state are those of the step that `StaleReadyIsIgnored`, `ReadyDecides` and `MovedReadyRepeats` describe |
| VoiceBinding.ReadyDecides | src/dpp_voice_gateway.cpp:586-651 | for a binding that was not moved: after a current callback the gateway is ready, and says so and forgets an expected departure, if and only if it is for the bound channel with a ready and encrypted client; when it reports an error or a move or waits silently for encryption |
| VoiceBinding.StaleReadyIsIgnored | src/dpp_voice_gateway.cpp:586-607 | a callback of another guild, an outdated client or another voice session changes nothing and tells nobody |
| VoiceBinding.MovedReadyRepeats | src/dpp_voice_gateway.cpp:608-610 | for a moved binding a current callback only repeats the move |
| VoiceBinding.BoundThenReady | src/dpp_voice_gateway.cpp:361-634 | from every reachable state that can be bound, one good callback makes the new binding ready |
| VoiceBinding.DppVoiceGateway.OnVoiceStateUpdate | src/dpp_voice_gateway.cpp:653-704 | the same for a departure, a move, a return and an occupancy change |
| VoiceBinding.StateDecides | src/dpp_voice_gateway.cpp:664-690 | the bot in another channel of the guild is moved and that is reported; in the bound one it is connected, silently |
| VoiceBinding.DepartureLeaves | src/dpp_voice_gateway.cpp:668-676 | a reported departure leaves nothing of the transport but a move |
| VoiceBinding.OccupancyDecides | src/dpp_voice_gateway.cpp:691-701 | a change of members is reported if and only if the head count changed |
| VoiceBinding.DppVoiceGateway.OnTrackMarker | src/dpp_voice_gateway.cpp:706-722 | only the expected marker is completed and reported |
| VoiceBinding.MarkerDecides | src/dpp_voice_gateway.cpp:706-722 | reported if and only if it comes from the bound guild and is the one waited for; any other changes nothing |
| VoiceBinding.StepIsSound | src/dpp_voice_gateway.cpp:586-722 | every step keeps the snapshot's promises and emits only what is then true |
| VoiceBinding.RunsAreConsistent | src/dpp_voice_gateway.cpp:495-511 | in every reachable state ready equals DAVE and implies connected, not moved, in the bound channel and no departure expected; a completed marker is the last expected one |
| VoiceBinding.EventsAreTruthful | src/dpp_voice_gateway.cpp:586-735 | every emitted ready event has DAVE; moved, error and disconnected events never do; each agrees with the binding it is emitted for |
| VoiceBinding.MovedUntilReplaced | src/dpp_voice_gateway.cpp:608-648 | once moved, a binding is never ready and no ready event is emitted until it is replaced |
| VoiceBinding.ConnectedBindingIsKept | src/dpp_voice_gateway.cpp:164-169 | a connected binding is never taken over by another session |
| VoiceBinding.OneDepartureIsDropped | src/dpp_voice_gateway.cpp:658-676 | an expected departure hides exactly one departure |
| VoiceBinding.ReadyDepartureIsReported | src/dpp_voice_gateway.cpp:658-676 | in every reachable ready state a departure disconnects and is reported |
| VoiceBinding.FlagIsOutstanding | src/dpp_voice_gateway.cpp:368-369 | over every run the flag is set if and only if a departure was announced and not settled since |
| VoiceBinding.DepartureIsReportedUnlessOutstanding | src/dpp_voice_gateway.cpp:658-676 | in every reachable state a departure is reported if and only if no announced one is outstanding, and otherwise leaves the binding as it is |
| VoiceBinding.TakenOverIsNotConnected | src/dpp_voice_gateway.cpp:365-369 | the departure announced by a replacement is that of a binding which is not connected |
| VoiceBinding.EarlyDepartureCanBeDropped | src/dpp_voice_gateway.cpp:615-627 | a run in which a connected binding's departure is dropped in place of that of a released session |
| VoiceBinding.UnseenSessionHidesDeparture | src/dpp_voice_gateway.cpp:368-369 | a run in which it is dropped although no earlier session was ever seen connected |
| VoiceBinding.ExpectedWasSent | src/dpp_voice_gateway.cpp:462-470 | a non-empty expected marker is that of the last accepted send of this binding |
| VoiceBinding.MarkersWereSent | src/dpp_voice_gateway.cpp:706-722 | a non-empty marker is reported only for that send |
| AiGeneration.ChargeIsExact | src/ai_generation.cpp:76-81 | no intermediate value leaves int64 and the charge is the exact price rounded up |
| AiGeneration.ChargeOverflows | src/ai_generation.cpp:74-81 | a charge is refused if and only if rounding the price up would leave int64 |
| AiGeneration.CostIsExact | src/ai_generation.cpp:69-83 | the cost is the sum of two exact ceilings inside int64 |
| AiGeneration.CostAnswers | src/ai_generation.cpp:69-83 | invalid exactly for a rate that is not positive or a token count over its limit, overflow exactly when one of the two charges is refused |
| AiGeneration.CostIsMonotone | src/ai_generation.cpp:69-83 | fewer tokens never cost more and never raise an error |
| AiGeneration.AttemptRow.MarkSubmitted | src/persistence/sqlite_ai_generation_repository.cpp:278-291 | only a reserved row becomes submitted |
| AiGeneration.AttemptRow.Complete | src/persistence/sqlite_ai_generation_repository.cpp:293-318 | only a submitted row is completed |
| AiGeneration.AttemptRow.Fail | src/persistence/sqlite_ai_generation_repository.cpp:320-343 | only a submitted row fails |
| AiGeneration.AttemptRow.Cancel | src/persistence/sqlite_ai_generation_repository.cpp:345-360 | only a reserved row is cancelled |
| AiGeneration.AiGenerationService.Reserve | src/ai_generation.cpp:131-164 | reserves the ceiling at its exact price, or throws before anything is reserved exactly on overflow |
| AiGeneration.AiGenerationService.Settle | src/ai_generation.cpp:166-291 | every exit settles the attempt exactly once and leaves an auditable row; it succeeds if and only if it was allowed, sent and answered within both limits, is cancelled if and only if nothing was sent, and never charges more than reserved; the check at line 209 cannot fire |
| AiGeneration.AiGenerationService.SettleException | src/ai_generation.cpp:244-291 | the four remaining catch clauses fail a sent attempt and cancel an unsent one |
| AiGeneration.FailuresAreClassified | src/ai_generation.cpp:59-67 | a provider failure is charged if and only if something was transmitted, and each category has a code of its own |
| AiLedger.SettlingLowers | src/persistence/sqlite_ai_generation_repository.cpp:278-388 | no update of any row raises what an attempt is charged |
| AiLedger.SettlementsCount | src/persistence/sqlite_ai_generation_repository.cpp:278-388 | each update takes effect: a completed attempt is charged what it used, a cancelled one nothing, a failed or unknown one in full |
| AiLedger.AdmissionFits | src/persistence/sqlite_ai_generation_repository.cpp:205-246 | an admitted reservation fits each of the three budgets together with everything counted |
| AiLedger.ReserveDecides | src/persistence/sqlite_ai_generation_repository.cpp:205-246 | a reservation is entered if and only if it costs something and fits the daily count, the daily cost and the monthly cost with everything counted |
| AiLedger.WindowsStayWithinBudget | src/persistence/sqlite_ai_generation_repository.cpp:205-246 | no window that the admissions cover exceeds its budget after any run, even when the clock runs backwards |
| AiLedger.AnyDayStaysWithinBudget | src/persistence/sqlite_ai_generation_repository.cpp:205-239 | attempts created in any 24 hours stay within the daily count and cost |
| AiLedger.AnyMonthStaysWithinBudget | src/persistence/sqlite_ai_generation_repository.cpp:240-246 | attempts created in any calendar month stay within the monthly cost |
| ChronicleSessions.WindowsSuffice | src/chronicle_sessions.cpp:98-107 | two texts share a run of 64 or more bytes if and only if a window of exactly 64 occurs |
| ChronicleSessions.ContainsLongContextSpan | src/chronicle_sessions.cpp:95-111 | true if and only if some context line shares such a run with the output |
| ChronicleSessions.ValidChronicleText | src/chronicle.cpp:419-425 | true if and only if within the limit, presentable and not only whitespace |
| ChronicleSessions.ValidSnapshotText | src/chronicle.cpp:427-430 | true if and only if within the limit and presentable |
| ChronicleSessions.ValidateSummaryCandidate | src/chronicle_sessions.cpp:360-404 | the answer for every candidate: valid if and only if lengths, known distinct highlights, distinct opted-in recipients and supporting entries are right and nothing is copied; otherwise the code of the first test that fails, for titles that of the first bad proposal |
| ChronicleSessions.CheckHighlights | src/chronicle_sessions.cpp:375-381 | true if and only if all highlights are known and pairwise different |
| ChronicleSessions.CheckTitles | src/chronicle_sessions.cpp:382-397 | valid if and only if every proposal is right, and otherwise the one error of the first proposal that is not |
| ChronicleSessions.ValidatedTextIsOriginal | src/chronicle_sessions.cpp:398-402 | a validated candidate has no field with a 64-byte run of any context line |
| ChronicleSessions.InFieldOrAcross | src/chronicle_sessions.cpp:398-400 | whatever occurs in the joined text occurs in a field or across a joint |
| ChronicleSessions.JoinedTestIs | src/chronicle_sessions.cpp:398-402 | the joined test refuses a line if and only if a field copies from it or a window of it stands across a joint, so it differs from the per-field test exactly when only the latter holds |
| ChronicleSessions.JoinedTestIsPerField | src/chronicle_sessions.cpp:398-402 | for a line without line break the test on the joined text equals the test on each field |
| ChronicleSessions.CopyTestIs | src/chronicle_sessions.cpp:398-402 | which candidates are refused for copying, in terms of their fields and joints |
| ChronicleSessions.CopyTestIsPerField | src/chronicle_sessions.cpp:398-402 | without line breaks in the context, copying is refused exactly when a field copies |
| ChronicleSessions.RefusedWithoutACopy | src/chronicle_sessions.cpp:398-402 | well-formed candidates that are refused although no field copies |
| ChronicleSessions.LiteralFtsQuery | src/chronicle_sessions.cpp:465-490 | the result is the quoted tokens of the query joined by AND |
| ChronicleSessions.SplitsOnlyIntoTokens | src/chronicle_sessions.cpp:468-478 | the tokens are the maximal whitespace-free runs: no other list splits the query |
| ChronicleSessions.RenderedReadsBack | src/chronicle_sessions.cpp:479-487 | any list of tokens, quotes included, reads back from its expression under the FTS5 string syntax |
| ChronicleSessions.LiteralQueryIsLiteral | src/chronicle_sessions.cpp:465-490 | the query reads back as exactly the user's tokens in order, and is empty if and only if the text is blank |
| ChronicleSessions.OneQuery | src/chronicle_sessions.cpp:465-490 | the bytes of one whole expression, with its quotes, a doubled quote and the conjunction |
| ChronicleSessions.SpaceBytes | src/chronicle_sessions.cpp:468-478 | which six bytes separate tokens |
| RandomUniform.EveryResidueIsEquallyLikely | src/random.cpp:18-20 | every residue comes from exactly limit/u accepted samples |
| RandomUniform.AtLeastHalfIsAccepted | src/random.cpp:18-20 | at least half of all samples are accepted, exactly half only for 2^63 |
| RandomUniform.Uniform | src/random.cpp:13-44 | drawn if and only if the calls deliver an accepted sample before the first bad one, and then the first accepted sample of the byte stream, reduced, however the bytes are delivered or interrupted; an error names the first bad call, and the draw still waits only when all calls are used up |
| RandomUniform.AcceptedIsReached | src/random.cpp:21-43 | an accepted sample k is reached once harmless calls have delivered 8(k + 1) times |
| RandomUniform.ReceiptsDeliver | src/random.cpp:25-39 | harmless calls deliver at least one byte each, so eight of them a sample |
| RandomUniform.FirstBad | src/random.cpp:28-37 | every list of calls has a first bad one or none, so the contract of the draw covers every list |
| LittleEndian.ValueOfBytes | src/transcription.cpp:12-20 | a header field that fits its width reads back as the number written |
| LittleEndian.BytesOfValue | src/random.cpp:22-24 | bytes and numbers below 256^n correspond one to one, so equally many 8-byte strings stand behind every residue |
| WavStream.HeaderSlices | src/transcription.cpp:82-95 | where each field of the 44 bytes stands |
| WavStream.HeaderReads | src/transcription.cpp:64-97 | what a reader of the header finds, truncating casts included |
| WavStream.HeaderIsCoherentUnlessItWraps | src/transcription.cpp:64-97 | sizes, alignment and rate agree if and only if neither the RIFF size nor the block alignment wraps |
| WavStream.WavStream.Read | src/openai_transcription_client.cpp:41-57 | writes the next piece of header and PCM and nothing else; 0 on a non-empty buffer exactly at the end |
| WavStream.WavStream.Seek | src/openai_transcription_client.cpp:59-64 | moves exactly within the stream and refuses beyond it |
| WavStream.WavStream.Size | src/openai_transcription_client.cpp:37-39 | the length of the whole |
| WavStream.WavStream.ReadAll | src/openai_transcription_client.cpp:41-57 | any sequence of buffer sizes yields consecutive pieces |
| WavStream.PiecesJoin | src/openai_transcription_client.cpp:41-57 | the pieces and the rest join to the whole |
| WavStream.EnoughReadsDeliverAll | src/openai_transcription_client.cpp:41-57 | all is delivered if and only if the buffers are large enough together |
| WavStream.Replay | src/openai_transcription_client.cpp:59-64 | seeking back replays the same bytes however both clients cut them |
| Orchestrator.CrossFeatureOrchestrator.Launch | src/cross_feature_orchestrator.cpp:30-38 | starts one worker with a pass requested; a second start changes nothing |
| Orchestrator.CrossFeatureOrchestrator.RequestWake | src/cross_feature_orchestrator.cpp:58-62 | the request stands whatever the worker is doing |
| Orchestrator.CrossFeatureOrchestrator.RequestStop | src/cross_feature_orchestrator.cpp:40-49 | a running worker is asked to leave; without one only the flag is cleared |
| Orchestrator.CrossFeatureOrchestrator.FinishStop | src/cross_feature_orchestrator.cpp:51-55 | after the join the orchestrator can be started again |
| Orchestrator.CrossFeatureOrchestrator.BeginPass | src/cross_feature_orchestrator.cpp:86-92 | behind its wait the worker leaves when stopping, else takes the request with it into a pass |
| Orchestrator.CrossFeatureOrchestrator.Record | src/cross_feature_orchestrator.cpp:108-140 | one ending changes one consumer and the failure total by the same amount |
| Orchestrator.CrossFeatureOrchestrator.EndPass | src/cross_feature_orchestrator.cpp:95-98 | a backlog asks for another pass, a request made during the pass is kept |
| Orchestrator.CrossFeatureOrchestrator.Interfere | src/cross_feature_orchestrator.cpp:40-64 | wakes and stop requests of other threads while the worker is outside the lock |
| Orchestrator.CrossFeatureOrchestrator.RunPass | src/cross_feature_orchestrator.cpp:102-143 | a pass with any wakes and stop requests before each record: every consumer is called once in order and recorded with its own ending, failures are counted, no wake or stop is lost, and more work is reported if and only if a consumer returned a backlog |
| Orchestrator.PassRuns | src/cross_feature_orchestrator.cpp:102-143 | the same for every prefix of a pass |
| Orchestrator.RunsAreAccounted | src/cross_feature_orchestrator.cpp:85-143 | in every reachable state the calls are whole passes in order plus the current prefix, and failed_consumers is the sum over the consumers |
| Orchestrator.PassesAreWhole | src/cross_feature_orchestrator.cpp:40-56 | whenever no pass runs, each consumer was called once per completed pass, also after a stop in the middle |
| Orchestrator.NoWakeIsLost | src/cross_feature_orchestrator.cpp:58-64 | until a stop, a pass began after the wake or the request stands |
| Orchestrator.BacklogAsksAgain | src/cross_feature_orchestrator.cpp:94-98 | in every reachable state at the end of a pass: another one is requested if and only if somebody asked meanwhile or a consumer returned a backlog; a consumer that threw asks for nothing |
| Orchestrator.QuietAfterPass | src/cross_feature_orchestrator.cpp:87-98 | otherwise the worker waits for the recovery interval |
| Orchestrator.PassTakesRequest | src/cross_feature_orchestrator.cpp:88-94 | a pass takes the request with it and changes nothing else |
| Orchestrator.StopIsObeyed | src/cross_feature_orchestrator.cpp:40-56 | a stopping worker leaves from its wait or at the end of its pass, and can then be started again |
| Orchestrator.SnapshotTells | src/cross_feature_orchestrator.cpp:102-143 | after a pass a consumer is degraded if and only if its call threw, has a backlog if and only if it threw or returned one, and has failed once more if and only if it threw |
| Orchestrator.StandingRequestProceeds | src/cross_feature_orchestrator.cpp:87-98 | a standing request is served without the recovery timer |

## Left out

- Thread scheduling and condition variables: critical sections are atomic steps and waits end at any moment, so nothing is said about time or fairness of the operating system.
- The cleanup thread of the volatile store is the `Purge` event, and `put` of a single action is `PutGroup` with one element.
- PutGroup: is not claimed to be atomic on failure; an overflow may leave groups evicted, as in the source.
- SubmissionsStayInNonceWindow: the time of a submission is the stamp taken for its mark, not the moment at which the provider is called afterwards, which the code does not bound.
- BeginPublic: the wait for a receipt is split off as the later `Receive` event, and the rule that the first of several receipts counts is the event's single occurrence; a receipt that never comes is a `Receive` with an unknown outcome or a crash.
- ClaimDueOutbox: one row is followed; the choice among rows and the predecessor rule are the parameter `unblocked`, withdrawals by other parts of the program (src/persistence/sqlite_durable_work_repository.cpp:1793-1809, src/persistence/sqlite_vox_repository.cpp:160-190 and others) are one event that covers them all, payload decoding is the parameter `payloadOk`.
- Notices and public edits (`handle_notice`, `handle_public_edit`) of src/outbox.cpp: no nonce window, simpler than the public path.
- BoundedResponse: limits shorter than the suffix are excluded, since the source only uses its default of 1900 and its unsigned subtraction would wrap.
- UnicodeBlank: requires well-formed text, because its caller has counted the code points first (src/appearances.cpp:505-509).
- CallbacksFireOnce: which result a callback is given is not modelled, only that it fires.
- Calls of the voice input adapter are serialised as their caller does (operation_mutex_ of src/voice_input.cpp).
- DisableTransport: raising the shutdown flag is an event of every gap, but the concurrent `disable_transport` that `shutdown` itself makes is not modelled, and a read of the flag outside the lock is taken together with the locked section before it; the theorems are about runs without shutdown.
- WhenNewsIsOverwritten: is about observations during the call; before it, the source records one only while a wait is on.
- BindTo: the member resolution, permission checks and shard look-ups of `connect` come before the first critical section and are not modelled; `JoinFailed` is its second one.
- ExpectMarker: the chunked sending behind the critical section is not modelled.
- Settle: assumes a repository that does not throw; the provider circuit breaker and its probes are not modelled.
- AnyDayStaysWithinBudget: one guild; the direct-user rate and duplicate tests are the parameter `otherwise`, and what `monthStart` computes from the calendar is a parameter.
- ValidateSummaryCandidate: user ids are numbers, whose decimal strings the source compares.
- LiteralFtsQuery: whitespace is that of the C locale; what SQLite's tokenizer makes of a quoted string is not modelled.
- Uniform: a failing kernel call ends the draw; its errno is not modelled.
- Read: the curl callbacks that drive the stream are the parameter `sizes` of `ReadAll`.
- RunPass: the names and the diagnostics of failing consumers are not modelled.
- A thread that cannot be created, in the `start` of either worker class, is not modelled.
- Constructors that reject bad arguments with invalid_argument have those conditions as preconditions.
- SQL of other tables, migrations, HTTP, D++, ffmpeg, rendering, commands, time zones and JSON: plumbing or easy.
