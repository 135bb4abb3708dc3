# Verified models of the server's protocols and checkers

A Dafny project that models the parts of this repository whose correctness is hard to see from
any one function, and proves what their documentation promises. `dafny verify dfyconfig.toml`
checks all of it.

| files | what they model |
|---|---|
| `failover_plan.dfy`, `account_failover.dfy` | the account-failover policy, and the coordinator: a class over its fields, each lock section proved against a function of the state |
| `failover_machine.dfy`, `failover_invariant.dfy`, `failover_theorems.dfy`, `failover_overlap.dfy` | every interleaving of those lock sections with timers, recovery passes, the dispatcher, the release drain and lost ownership |
| `ast_blank.dfy`, `ast_imports.dfy`, `ast_pairing.dfy`, `ast_effects.dfy`, `ast_methods.dfy`, `ast_lookup.dfy`, `comprehension_locals.dfy` | the move-only gate over syntax trees, and what its verdict means |
| `voice_endpoint.dfy` | speech endpointing from per-hop flags |
| `edit_distance.dfy` | the rolling-row word error rate |
| `event_replay.dfy`, `event_stream.dfy`, `event_loss.dfy` | event-stream replay, and live delivery across disconnects that lose what was under way, evictions and reconnects |
| `range_header.dfy`, `file_stream.dfy`, `keep_alive.dfy` | byte ranges, chunked file responses, keep-alive framing |
| `call_watch.dfy`, `call_watch_runs.dfy` | the call watcher with a crash at any step |
| `config_rewrite.dfy`, `config_write.dfy` | the rewrite of one configuration table, and writing, verifying and restoring the file, with a crash or a loss of power anywhere |
| `pair_timeline.dfy`, `pair_writes.dfy`, `conversation_list.dfy` | the agent-pair timeline and its two kinds of paging, the revisions its writers make, and the list that opens it |
| `install_supervisor.dfy` | supervising an install against a store that may cancel, fail or supersede it |
| `wrappers.dfy`, `numerals.dfy` | a value that may be absent; decimal numerals |

Code that changes state is modelled as it is written: a class or a method with its loop, proved
against a specification. Protocols are state machines whose runs are arbitrary sequences of enabled
steps; where the source has a loop that drives the protocol, that loop is a method proved to take only
the machine's steps (`CallWatchRuns.Watcher`, `InstallSupervisor.Supervisor`). What the rest of the
program, the operating system or the network may answer is left open: a parameter, or a choice made
freely at each call.

## Where the code does less than it promises

Each of these is proved, with the exact condition where there is one.

- Replay of stored events stops at the first page that comes out short, and a row of a type that is never
  replayed shortens its page: later events stay behind (`EventReplay.ReplayIsCompleteExactly`,
  `EventReplay.AStaleActionRowHidesLaterEvents`).
- An event gets its id in one step and is delivered in another. Two threads can deliver in the other
  order, and a reconnect after that loses the earlier event for good
  (`EventLoss.OvertakingCanAlwaysLose`, `EventStream.DeliveryOutOfOrderLosesAnEvent`).
- A recovery whose park expires runs held work again beside a process that could not be stopped; that
  happens only in passes that failed (`FailoverTheorems.ReleasesQuietlyExactly`,
  `FailoverOverlap.AFailedStopDrains`).
- The move gate files definitions by name, so of several different statements under one name only the
  last is compared (`AstPairing.AcceptedSplitsKeepEverythingExactly`).
- It reads `import a.b` as binding `a` and looks no further, so `import a.c` in its place passes and what
  was loaded below `a` no longer is; and it names a module for relative imports that climb above the top
  package, where the interpreter refuses (`AstEffects.PassingPreservesImportsExactly`,
  `AstEffects.ASubmoduleIsLost`, `AstPairing.SourceIsTheInterpretersExactly`).
- In method mode it looks at the members of a mixin's body and at nothing else in it, and compares what
  stays in the class with its imports blanked: an import in a mixin's body slips an attribute in, a
  changed import in the class's own body loses or replaces one, and imports inside the members that stay
  can be anything (`AstLookup.LookupIsPreservedExactly`,
  `AstLookup.MixinsOfMembersPreserveEveryLookupExactly`, `AstLookup.TheClassKeepsItsImportsExactly`,
  `AstLookup.AnImportInAMixinSlipsIn`, `AstLookup.AChangedImportLosesALookup`).
- Its search for names that only comprehensions read passes over lambda defaults and takes what a
  comprehension inside a target stores for its own (`ComprehensionLocals.LocalsDoNotInterfereExactly`,
  `ComprehensionLocals.ADefaultValueInterferes`, `ComprehensionLocals.ANestedTargetInterferes`).
- Timeline paging loses rows that tie on timestamp and place, and revision 0 counts as no revision
  (`PairTimeline.BackIsCompleteExactly`, `PairTimeline.CatchUpFromZeroIsOnePage`). Catching up would
  lose rows that share a revision; the writers never make such rows
  (`PairTimeline.CatchUpIsCompleteExactly`, `PairWrites.CatchUpIsCompleteForWhatIsWritten`).
- The configuration rewrite leaves behind keys that a blank or comment line separates from the start of
  the old table, and a configuration without any `tts` table gets one, which the verification takes for
  a change of the rest; in both cases the original is put back
  (`ConfigRewrite.RewriteKeepsTheMeaningExactly`, `ConfigRewrite.WithoutTtsItIsPutBack`).
- A limit for foreign files in a journal directory given by ORACLE_WATCH_JOURNALS: the watcher's seen
  file does not bring back names with whitespace, and a piece of such a name can hide another call for
  good. The journal's own names (server/lib/oracle_diagnostics.py:18-20) have none
  (`CallWatch.SeenFileRoundTripsExactly`, `CallWatchRuns.NoCallIsPassedOverExactly`).
- `finish` commits and then reads the row again: a newer generation can be read in its place, which
  turns a failed job into 0 and a succeeded one into 130 (`InstallSupervisor.ZeroMeansSucceededExactly`,
  `InstallSupervisor.ANewerGenerationCanBeTakenForThisOne`,
  `InstallSupervisor.ASucceededJobCanReturnNonZero`). A stopped install goes only if its job was
  cancelled by the time of the rollback, so one whose job reads failed, or is cancelled later, stays
  (`InstallSupervisor.AStoppedInstallGoesExactly`, `InstallSupervisor.AStoppedInstallCanStay`,
  `InstallSupervisor.ALateCancelLeavesIt`).
- A chunked request body is neither read nor drained, and the connection stays open
  (`KeepAlive.Connection.Handle`).

## Model

| member | source | states |
|---|---|---|
| FailoverTheorems.RecoveryIsOneChain | server/lib/account_failover.py:188-205 | over all runs, `recovering` is true exactly while one recovery chain is live, two never are, and the release drain takes nothing while any pass runs |
| FailoverTheorems.PausedWorkHasOnePlace | server/lib/account_failover.py:264-330 | over all runs, paused work is in exactly one place (the table of a live recovery, the release drain, the list of one finishing pass and of no other) until it is resumed, and it is resumed at most once |
| FailoverTheorems.ExpiredWorkIsNeverParkedAgain | server/lib/account_failover.py:147-177 | once an (agent, trace) was released as expired, no step pauses or lists it until that pair is discarded or the agent registers another trace |
| FailoverTheorems.ReleasedWorkIsNeverParkedAgain | server/lib/account_failover.py:294-312 | from the step that lets expired work go, which comes no earlier than the cap: until its mark ends, nothing of that (agent, trace) is paused or listed as pending |
| FailoverTheorems.VerifiedResumeIsSafe | server/lib/account_failover.py:228-303 | a verified resume happens only after a positive verdict covering the model, and only for work with no process left and none about to start |
| FailoverTheorems.ReleasesQuietlyExactly | server/lib/account_failover.py:276-328 | over all runs, an expired release lets go only of work without a process exactly when its pass did not fail |
| FailoverOverlap.AFailedStopDrains | server/lib/account_failover.py:290-328 | a run from the start whose pass fails to stop a process, settles after the cap, and runs the work again while that process is there |
| FailoverTheorems.ParkIsBounded | server/lib/account_failover.py:276-330 | over all runs, every wake-up is at most one recheck away; no pass parks past the cap; a second look that waits while it holds work wakes less than a recheck past it; one that settles after it ends the recovery with nothing held |
| FailoverTheorems.OneHop | server/lib/account_failover.py:374-405 | one handoff carries the park age over without shortening it and lengthens it by less than a millisecond |
| FailoverTheorems.HandoffsNeverExtendThePark | server/lib/account_failover.py:374-405 | over any chain of n handoffs the recorded age is at least the true one and exceeds it by less than n milliseconds |
| FailoverInvariant.StepKeepsInv | server/lib/account_failover.py:157-405 | every step of every participant keeps the invariant the run theorems rest on |
| FailoverInvariant.DecidedNotChecked | server/lib/policies/failover.py:84-97 | without a verdict the policy releases exactly an empty list, checks only stopped work that is due, and parks until the next check |
| FailoverInvariant.DecidedChecked | server/lib/policies/failover.py:98-116 | with a verdict it resumes only usable, covered work, releases as expired only past the cap, and parks only before it |
| AccountFailover.Coordinator.Register | server/lib/account_failover.py:157-170 | the new state and the answer are those of the specification the machine uses: expired marks of other traces end, and an unexpired attempt waits exactly while a recovery is on |
| AccountFailover.Coordinator.Discard | server/lib/account_failover.py:172-177 | drops the mark, and the attempt only if it is of that trace |
| FailoverTheorems.ParkedWorkHasNoProcess | server/lib/account_failover.py:179-186 | over all runs, what cancellation asks is true exactly for waiting work of that turn that has no process, and then no continuation gives it one |
| AccountFailover.Coordinator.Request | server/lib/account_failover.py:188-205 | refuses without command, attempt or with an expired mark; otherwise starts one recovery that pauses exactly the held work, or joins the one that is on |
| AccountFailover.Coordinator.SecondLook | server/lib/account_failover.py:276-290 | the second lock section of a pass: its new state and how it goes on |
| AccountFailover.Coordinator.Settle | server/lib/account_failover.py:296-312 | the last lock section: resumes exactly the held work, or marks it and hands it out, or leaves it parked |
| AccountFailover.Coordinator.TakeParked | server/lib/account_failover.py:340-354 | takes nothing while a pass runs, else exactly the eligible waiting work no process was ever started for |
| AccountFailover.Coordinator.Restore | server/lib/account_failover.py:356-372 | parks what it can again while recovering, else resumes it, and drops what is no longer owned |
| AccountFailover.Coordinator.CarryOver | server/lib/account_failover.py:374-383 | the start of the park in whole wall-clock milliseconds, or nothing when not recovering |
| AccountFailover.Coordinator.ResumeRecovery | server/lib/account_failover.py:385-405 | continues a carried recovery from its original start and waits for the carried agents, unless one is on |
| AstBlank.ImportsIn | scripts/refactor/ast_identity.py:128-138 | the visitor appends exactly the imports of the tree, depth first |
| AstBlank.DumpEnds | scripts/refactor/ast_identity.py:123-125 | no dump is the beginning of another: equal dumps are equal trees |
| AstBlank.EqualBlanksRefill | scripts/refactor/ast_identity.py:111-138 | equal blanked trees have as many imports, at the same places, and refilling one with the other's gives the other |
| AstBlank.EqualDumpsExactly | scripts/refactor/ast_identity.py:228-239 | the comparison passes exactly when one definition is the other with its imports replaced one for one |
| AstBlank.PassingMeansOnlyImportsDiffer | scripts/refactor/ast_identity.py:193-211 | it passes exactly for what some list of imports makes of a definition, and that list is then the one found in the other |
| AstImports.ImportsAreRead | scripts/refactor/ast_identity.py:141-152 | every import statement of the grammar is read back from its node as it was written |
| AstPairing.SourceIsTheInterpretersExactly | scripts/refactor/ast_identity.py:141-152 | the absolute module computed for an import is the interpreter's exactly when its dots stay within the package |
| AstPairing.ChangedTargets | scripts/refactor/ast_identity.py:208-210 | the reported pairs are identical exactly when all bindings of the two imports are the same objects |
| AstPairing.PairImports | scripts/refactor/ast_identity.py:193-211 | for any two definitions, no problem and identical pairs mean exactly that there are as many imports and each, as the check reads it, binds the same names to the same objects |
| AstPairing.PassingKeepsEachImport | scripts/refactor/ast_identity.py:230-239 | a definition passes both checks exactly when only its imports were replaced, each where it stood, by one that reads the same: the same names, the same objects |
| AstEffects.ImportsDoTheSameExactly | scripts/refactor/ast_identity.py:141-152 | what an import does in the interpreter (names bound through its own resolution, what is loaded below them, refusal above the top package) is kept by one that reads the same exactly when both or neither climb too high and un-aliased dotted names have the same rest |
| AstEffects.UnreportedImportsLoadTheSameExactly | scripts/refactor/ast_identity.py:141-152 | where no pair is reported the modules loaded are the same exactly under that condition |
| AstEffects.PassingPreservesImportsExactly | scripts/refactor/ast_identity.py:193-211 | a definition that passes has each import do what it did, where it stood, exactly under that condition |
| AstEffects.ASubmoduleIsLost | scripts/refactor/ast_identity.py:143-145 | `import a.b` changed into `import a.c` passes and loads another module |
| AstPairing.Compare | scripts/refactor/ast_identity.py:216-239 | for the definition part of the function: no problem and identical pairs mean exactly that every old name is defined in one new file, alike but for imports that read the same |
| AstPairing.AcceptedSplitsKeepEverythingExactly | scripts/refactor/ast_identity.py:155-168 | every accepted move to several new files keeps every definition statement exactly when statements under one name are the same |
| AstMethods.CompareMethods | scripts/refactor/ast_identity.py:566-623 | for the members, their imports and the class body: no problem and identical pairs mean exactly that members moved verbatim, each into one mixin, with imports that read the same, and the rest of the class is alike, in order, with its imports blanked |
| AstLookup.LookupIsPreservedExactly | scripts/refactor/ast_identity.py:289-299 | after an accepted move, a name is found where it was, and bound to the same objects, exactly when the lookup does not end on a mixin statement that is no member and the class at HEAD binds the name just where it was found in what stays |
| AstLookup.MixinsOfMembersPreserveEveryLookupExactly | scripts/refactor/ast_identity.py:618-631 | with mixins whose other statements bind nothing, every accepted class preserves every lookup exactly when no import that stays runs in the class body |
| AstLookup.MovedMembersImportTheSame | scripts/refactor/ast_identity.py:591-593 | after an accepted move, a member found in a mixin passes the comparison of definitions with the class's own, so its imports read the same there |
| AstLookup.TheClassKeepsItsImportsExactly | scripts/refactor/ast_identity.py:618-623 | every accepted move leaves what the imports inside the remaining statements read as it was exactly when there are none |
| AstLookup.AnImportInAMixinSlipsIn | scripts/refactor/ast_identity.py:555-582 | an accepted move that gives the class an attribute it never had |
| AstLookup.AChangedImportLosesALookup | scripts/refactor/ast_identity.py:618-623 | an accepted move after which the class lacks an attribute it had: an import left in its body was changed |
| ComprehensionLocals.Visitor.Visit | scripts/refactor/ast_identity.py:309-330 | the nested visitor records exactly the loads of the expression, each with whether a comprehension around it binds the name |
| ComprehensionLocals.Locals | scripts/refactor/ast_identity.py:331-332 | returns exactly the names loaded, and loaded only inside comprehensions that bind them |
| ComprehensionLocals.GuardedAndSeen | scripts/refactor/ast_identity.py:309-326 | a name looked up only where a comprehension really binds it is seen so by the visitor, and the other way round for what the visitor looks at in full |
| ComprehensionLocals.EvalAgrees | scripts/refactor/ast_identity.py:302-332 | evaluation under Python's comprehension scoping, with arbitrary operations and effects, is the same in environments that agree on what it looks up |
| ComprehensionLocals.NonInterferenceExactly | scripts/refactor/ast_identity.py:302-308 | for any names: evaluation is the same whatever they are bound to, for all operations and effects, exactly when no lookup of one is outside a comprehension that has bound it; for expressions that read no local before it is bound |
| ComprehensionLocals.LocalsDoNotInterfereExactly | scripts/refactor/ast_identity.py:302-332 | what the returned names are bound to never matters exactly under that condition, which every expression without lookups the visitor passes over meets; and no name is withheld that meets it |
| ComprehensionLocals.ADefaultValueInterferes | scripts/refactor/ast_identity.py:310-311 | a returned name read by a lambda default does change the value |
| ComprehensionLocals.ANestedTargetInterferes | scripts/refactor/ast_identity.py:320-321 | so does one stored only by a comprehension inside a target |
| VoiceEndpoint.SegmentationIsUnique | vad-harness/vadlib.py:141-173 | the declarative description of the segments (start of a long enough speech run, no long silence inside, ended by the first long silence or the input, nothing uncovered, far enough apart) has one solution |
| VoiceEndpoint.Endpoint | vad-harness/vadlib.py:141-173 | the loop computes that solution, for every flag list and every hop length, and returns it padded |
| VoiceEndpoint.PaddingIsSafeExactly | vad-harness/vadlib.py:172-173 | padded segments of every recording stay disjoint exactly when the padding is at most the closing silence |
| VoiceEndpoint.DefaultPaddingIsSafe | vad-harness/vadlib.py:141-151 | the default padding is safe at every hop of up to 400 ms |
| EditDistance.WordErrorRate | scripts/verify_raw_pcm_stream.py:42-57 | the rolling rows return the cost of a cheapest edit script, over the expected words; 0 or 1 when nothing is expected |
| EditDistance.RecurrenceIsTheDistance | scripts/verify_raw_pcm_stream.py:47-56 | the recurrence is achieved by a script and a lower bound for all, and nothing else is |
| EditDistance.ComposedTurns | scripts/verify_raw_pcm_stream.py:47-56 | two scripts in a row are one script that costs no more |
| EditDistance.DistanceIsAMetric | scripts/verify_raw_pcm_stream.py:42-57 | zero exactly on equal lists, symmetric, triangle inequality, between the difference of the lengths and the longer one |
| EventReplay.EventsAfter | server/lib/sse_store.py:81-114 | for every limit asked for, reads exactly the first surviving rows above the cursor up to the clamped limit; dropped rows do not count |
| EventReplay.Replay | server/server.py:1917-1938 | the paging loop ends, and writes exactly the visible events of the pages it reads |
| EventReplay.ReplayIsCompleteExactly | server/server.py:1917-1938 | replay reaches every replayable owed row exactly when none follows a non-replayable one on a later page |
| EventReplay.AStaleActionRowHidesLaterEvents | server/lib/audio_stream.py:124-138 | a store of 501 rows whose last, owed and replayable, is not replayed |
| EventStream.ReconnectsLoseNothing | server/server.py:1882-1985 | whatever disconnects, evictions and reconnects happen, each losing any tail of what was written: at every moment each visible event between the first cursor and the last id the client has reached it, and when the queue is drained everything was written to it, if delivery is in order and stored rows are replayable |
| EventStream.StepKeepsInv | server/server.py:1882-1985 | every step of the store, the broadcaster and the connection keeps the invariant behind it |
| EventStream.OvertakingIsExactlyTheGap | server/lib/audio_stream.py:234-255 | one delivery to a client that has drained its queue leaves it with a gap exactly when it overtakes an event the client wants |
| EventLoss.OvertakingCanAlwaysLose | server/lib/audio_stream.py:158-193 | from every state an in-order run reaches with a client on its live queue, and every wanted event it has not been sent while a later one is recorded, letting the later one go first has a continuation after which no run at all sends the client that event |
| EventStream.DeliveryOutOfOrderLosesAnEvent | server/lib/audio_stream.py:158-193 | a run of recorded, reordered and reconnected steps that loses an event for good |
| RangeHeader.ServedIsWhatIsAsked | server/server.py:301-331 | an unusable header serves everything; otherwise exactly the bytes asked for are served, and the range is refused exactly when there are none |
| RangeHeader.AskedIsRead | server/server.py:297-322 | a range written in decimal is read back as it was meant |
| FileStream.SendBody | server/server.py:925-937 | the chunk loop writes the slice, or a beginning of it and then closes |
| FileStream.StreamFile | server/server.py:896-945 | for every header the streamed response equals the in-memory one for an unchanged file; for a file cut short the body is a prefix and the connection closes exactly when it is short |
| FileStream.PiecesMakeTheWhole | server/server.py:968-989 | the bodies of adjacent ranges, however the file is cut, make up the file |
| KeepAlive.Connection.DrainRequestBody | server/server.py:420-446 | consumes exactly the declared body, or reaches the end of input, or closes; reads nothing twice |
| KeepAlive.Connection.Handle | server/server.py:406-418 | after one request and its response the connection is in step exactly when the request was not chunked |
| KeepAlive.Connection.Serve | server/server.py:782-785 | over any sequence of requests that are not chunked, each is read from where it begins |
| CallWatch.OwnershipNeedsEvidence | scripts/agent_bg.py:105-135 | "active" and "fenced" come only from a row that says so, and the caller's reading of the exit code keeps that |
| CallWatch.SeenFileRoundTripsExactly | scripts/oracle_call_watch.py:50-56 | the seen file brings back exactly the saved names exactly when each is non-empty and has no whitespace |
| CallWatchRuns.DeliveryIsExactlyOnce | scripts/oracle_call_watch.py:70-117 | with crashes anywhere, what the file or the process takes for done is short, admitted, or a piece of another name, and calls are admitted at most once, only if long and sent |
| CallWatchRuns.NoCallIsPassedOverExactly | scripts/oracle_call_watch.py:50-56 | for any set of calls: no run over them passes one over exactly when no word of a name with whitespace is another long call of the set; names without whitespace always meet that |
| CallWatchRuns.NothingIsSentWithoutOwnership | scripts/oracle_call_watch.py:146-167 | every send directly follows an answer of 0 for its generation, and after an answer of 1 that generation neither sends nor asks again |
| CallWatchRuns.SeenIsNeverSentAgain | scripts/oracle_call_watch.py:86-117 | once a call is in the seen file it stays there, and no continuation of the run, with crashes and restarts, sends it again |
| CallWatchRuns.APieceOfANameHidesACall | scripts/oracle_call_watch.py:144-146 | for any such pair of names, a run after which the long call is never looked at |
| CallWatchRuns.Watcher.Scan | scripts/oracle_call_watch.py:86-117 | the loop takes only the machine's steps, and its answer tells where the process stands |
| CallWatchRuns.Watcher.Watch | scripts/oracle_call_watch.py:144-167 | so does the outer loop, for any number of rounds |
| ConfigRewrite.WithResolution | bin/clarp-admin.py:1833-1850 | the loops compute the rewritten text |
| ConfigRewrite.LastRewriteCounts | bin/clarp-admin.py:1833-1850 | rewriting twice is the last rewrite alone, for every text |
| ConfigRewrite.RewriteKeepsTheMeaningExactly | bin/clarp-admin.py:1833-1856 | the rewrite of a text that parses and is not refused passes the verification exactly when no key of the old table follows a blank or comment line in it and there was a `tts` table |
| ConfigRewrite.WithoutTtsItIsPutBack | bin/clarp-admin.py:2077-2086 | a configuration of one other table parses, is not refused, and fails the verification |
| ConfigWrite.WriteNewFile | bin/clarp-admin.py:1884-1892 | with short writes and failures anywhere: on success the file has the data, flushed, on failure no other file changed, now or after a loss of power |
| ConfigWrite.ReplaceAtomically | bin/clarp-admin.py:1895-1904 | at every moment a crash or a loss of power leaves the file with its old contents or the new ones, whole; without an error the new ones are durable |
| ConfigWrite.WriteVerifyRestore | bin/clarp-admin.py:2057-2092 | ends with a verified text or the original unless restoring reports an error, with one complete text after every crash or loss of power and the original durable in the backup |
| ConfigWrite.Resolve | bin/clarp-admin.py:2042-2092 | success means the file parses as before but for the new table; without a reported error it is durably the rewritten text of a configuration that leaks no key and had a `tts` table; what is refused is left as it was |
| PairTimeline.BackIsCompleteExactly | server/lib/agent_conversations.py:230-271 | following `before` cursors yields every row once and in order at every page size exactly when no two rows tie |
| PairTimeline.CatchUpIsCompleteExactly | server/lib/agent_conversations.py:244-268 | from any revision but 0, catching up ends at the head and yields exactly the newer rows at every page size exactly when their revisions are distinct |
| PairTimeline.CatchUpFromZeroIsOnePage | server/lib/agent_conversations.py:244-258 | from 0 it yields the newest page, so everything exactly when that is everything |
| PairWrites.CatchUpIsCompleteForWhatIsWritten | server/lib/message_import_common.py:33-38 | over all runs of the writers of rows revisions are distinct, and so catching up from any revision but 0 is complete at every page size |
| ConversationList.EntryIsTheTimelines | server/lib/agent_conversations.py:148-203 | an entry of the list exists exactly when the timeline it opens has a row, has its count and its latest revision, and the two seeks find the last turn of its newest page if no rows tie, one of the same place in any case |
| PairTimeline.SelectFilters | server/lib/agent_conversations.py:100-115 | a narrower query gives the rows of the wider one that it keeps, in the same order |
| InstallSupervisor.ZeroMeansSucceededExactly | scripts/transcription_model_job.py:139-163 | in every interleaving 0 is returned only for an install that finished; for a job that did not succeed exactly when a newer generation's success was read in its place, and not for one that did exactly when anything else was |
| InstallSupervisor.NoInstallOutlivesItsJobExactly | scripts/transcription_model_job.py:111-163 | an install that finished while its row did not succeed returns without a rollback asked for exactly when a newer generation's success was read in its place, and one that was waited for is detached if no newer generation has the row |
| InstallSupervisor.AStoppedInstallGoesExactly | scripts/transcription_model_job.py:108-136 | in every interleaving a stopped install has a rollback before the return, and is detached exactly when the row that one meets has this generation and reads cancelled; while the job keeps the row, exactly when it ends cancelled and had ended before the rollback |
| InstallSupervisor.ALateCancelLeavesIt | scripts/transcription_model_job.py:111-125 | a run that leaves a finished install behind a job cancelled after the rollback |
| InstallSupervisor.ANewerGenerationCanBeTakenForThisOne | server/lib/background_jobs.py:473-515 | a run that returns 0 for a failed job |
| InstallSupervisor.ASucceededJobCanReturnNonZero | server/lib/background_jobs.py:473-515 | a run that returns 130 for a job that succeeded |
| InstallSupervisor.AStoppedInstallCanStay | scripts/transcription_model_job.py:112-125 | a run that leaves a finished install behind a failed job |
| InstallSupervisor.Supervisor.Supervise | scripts/transcription_model_job.py:71-163 | the supervisor's own loop takes only the machine's steps, with anything in between |

## Left out

- FailoverTheorems.PausedWorkHasOnePlace: assumes that a new attempt is a new object, that the dispatcher registers none for an agent with an earlier one still owed its resume, that ownership once lost is not regained, and that the callbacks do not raise.
- FailoverTheorems.ParkIsBounded: says nothing of a pass that never ends (a selector or a process wait that hangs), and timers may fire late.
- FailoverTheorems.HandoffsNeverExtendThePark: takes clocks as reals, and parks that did not begin before the wall clock's zero.
- Failover: signals, `ps`, subprocesses and the selector are steps that succeed, fail or give no verdict; each lock section reads the clock once; the order of the attempts table is not kept.
- EventStream.ReconnectsLoseNothing: assumes in-order delivery and that surviving rows are replayable; without them it is false, as the lemmas beside it show. An event arrives whole or not at all, in order on its connection.
- EventStream.OvertakingIsExactlyTheGap: says one step for a drained client; EventLoss has the runs, for clients on their live queue and not for those still paging.
- Event stream: retention pruning, clients without a cursor and their recent-events window, ephemeral and live-only events, pings.
- AstBlank.EqualDumpsExactly: a dump is a sequence of tokens, not of characters; absent and empty fields are not printed.
- AstEffects.ImportsDoTheSameExactly: modules that importing one name loads besides are compared only where no pair is reported; a pair that is one object at HEAD may come from another module, as the gate's own rules allow.
- AstLookup.LookupIsPreservedExactly: identity at HEAD is identity of the defining statement and of what its imports read, so the same import found at another place counts as changed; mixins have no bases, decorators or metaclass of their own, which the gate does not check.
- ComprehensionLocals.LocalsDoNotInterfereExactly: generator expressions are evaluated where they stand, iterables are finite lists read when the loop starts, and assignment expressions are not part of this model; a lambda's body does not read the environment, so closures over returned names are excluded by construction.
- AstPairing.Compare: the reads of moved definitions, compiler directives, module-level imports and the statement order of a one-file move, which the same function also compares, are not in it; an augmented assignment is a definition under a name of its own.
- AstMethods.CompareMethods: the reads of moved members, `super()`, private names, decorators, keywords and bases, and the file around the class, which the same function also compares, are not in it.
- Move gate: `check_reads`, `rebound_imports`, `symtable`, git and the sandboxed import; whether a pair is one object at HEAD is a parameter.
- VoiceEndpoint.Endpoint: takes the hop as a non-zero real, without floating-point rounding; the detectors, `_mask` and `score` are not modelled.
- EditDistance.WordErrorRate: takes the word lists; `normalized_words`, the PCM metrics and the playback-buffer totals are not modelled.
- FileStream.StreamFile: compression, cache headers and write errors are not modelled; a file changes only by being cut short.
- FileStream.PiecesMakeTheWhole: for files whose size has at most 4000 digits, the most the header pattern takes.
- KeepAlive.Connection.Serve: counts bytes; handlers read the whole declared body or none of it, and requests with both framings or a malformed length are not part of it.
- CallWatchRuns.DeliveryIsExactlyOnce: assumes one process at a time (the file lock), an answer of 0 or 1 only while the generation is or is not active, and a Host that acts once per request id.
- CallWatchRuns.Watcher.Watch: waiting times bound nothing here; file ages, the boundary file and unreadable summaries are free choices.
- ConfigRewrite.RewriteKeepsTheMeaningExactly: a text is header, entry, comment and blank lines, headers spelled plainly; dotted keys, inline tables, arrays of tables and values over several lines, which the command refuses or its verification catches, are not part of this model.
- ConfigWrite.Resolve: locks, inventory, file ownership and the refusals before reading are not modelled; one process writes the directory. A file not flushed may be anything after a loss of power, a name not flushed may be its old or its new file.
- PairTimeline.BackIsCompleteExactly: the store does not change between pages; the query's joins and conditions are one flag of a row; titles and cleaning are left out as they would add easy members.
- PairWrites.CatchUpIsCompleteForWhatIsWritten: what decides on a write (imports, live rows, admissions) is any choice of writes; a restored row is one that was there with that revision.
- ConversationList.EntryIsTheTimelines: latest activity, the order and limit of the list, its cache and the text shown are left out.
- InstallSupervisor.Supervisor.Supervise: rows are never deleted, store calls do not raise, the worker has an identity, and the number of polls is given.
- Routes, authentication, audio synthesis, the terminal and web clients, deployment scripts: input and output only.
