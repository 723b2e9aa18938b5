# Verified models of the appliance's hard parts

These Dafny modules model the parts of the BC-250 appliance whose correctness
depends on crashes, interleavings, chunk boundaries or long runs, and prove
what those parts promise. `dafny verify dfyconfig.toml` checks everything.

| module | what it models |
|---|---|
| `RestoreProtocol` | the profile restore: a durable receipt around an atomic directory exchange |
| `PointerPublication` | publication and rollback of the two application links |
| `InstallationRecords` | installation rows and their singleton, fenced by compare-and-swap |
| `UpdateSystem` | the links and the records together, and the cleanup preview |
| `ThinkStream` | the filter that hides reasoning spans in a stream of chunks |
| `SseLines` | the bounded splitter of a server-sent-event byte stream |
| `ContextSelection` | which suffix of a conversation fits the model's context |
| `ChatTransport` | admission of a chat request and the attempt loop |
| `CancellationToken` | the handshake between cancelling and streaming threads |
| `SummaryIndex` | the conversation list served from cached rows |
| `ConversationRevisions` | the revision fence between clients that share the conversation files |
| `ClientCredentials` | clients, credential generations and the global access switch |
| `BackupArchive` | the exact-member tar inspector and the writer's layout |
| `ArtifactStore` | the content-addressed store under concurrent publishers |
| `MarkdownSpans` | the bounded Markdown scanner |
| `ApplianceReadiness` | the reduction of observations to one readiness snapshot |
| `Outcomes` | the `Option` and `Result` types the others share |

Code that changes things step by step is a method or a class with mutable
fields, proved equal to a specification function; the lemmas are about the
functions. Crash protocols list the durable state after every atomic write, so
"a crash" is "only the first `cut` of them happened", and a run is any sequence
of steps, each cut anywhere.

## Assumptions

- SHA-256 and the header, JSON, UTF-8, case-folding and name-sanitising
  functions are arbitrary functions, with the laws stated where they are used.
- A `units.begin()` block is atomic and is undone when it raises.
- `os.replace`, `os.link` and the directory exchange are atomic and durable.
- The restore receipt is one durable cell that the exchange does not move.
- Integrity, schema and foreign-key checks are answers from outside: every
  answer is allowed at every point.
- The workflow engine runs an update's steps in order: the disk is touched only
  by the holder of the reservation, a recording follows an observed complete
  publication, and a restore is not staged anew once its receipt exists.
- Instants are numbers. ISO time stamps are compared as such.

## Promises that hold only under a condition

The model follows the code. Where the code does not meet a promise in every
case, a lemma shows it failing and another gives the exact condition under
which it holds.

- A restore whose process dies between the commit of the attempt row and the
  `promoted` receipt can never be promoted: the row has no creator, so the next
  attempt does not find it and collides with it (`OneCrashStrandsTheRow`,
  `StrandedRowBlocksPromotion`; exactly: `ConvergesExactlyWhen`).
- Restoring the links is not resumable after its own crash and, for an update,
  not repeatable (`RestoreCrashIsHalfRestored`, `HalfRestoredIsStuck`; exactly:
  `RestoreResumesExactlyWhen`). After it a later update that expects the
  recorded pair is refused, with one exception (`LaterUpdateAfterRestore`).
- A publication that is resumed after a crash, prepares another database and
  dies before its receipt can never be resumed again
  (`ChangedDatabaseBlocksTheExchange`; exactly: `ResumptionIsLostExactlyWhen`).
- Releasing a reservation after rolling back a re-installed quarantined
  candidate makes the cleanup preview offer an installation that a link still
  names (`ReinstalledQuarantineIsOffered`; exactly: `ReleaseExposesExactlyWhen`).
  No caller of `release_reservation` exists in the package.
- Without a context plan the transport's floor of 128 prompt tokens can overrun
  a small context (`WithoutPlanStaysInsideExactlyWhen`).
- The conversation list can show stale or foreign content for files whose name
  is not its own sanitised form (`ForeignIsStale`; exactly:
  `ExactExactlyForPlainNames`). A file on which decoding raises anything but
  `ValueError` stops every listing while it stays (`OneFileStopsTheListing`;
  exactly: `ListingIsExact` and the contract of `List`).
- A save under such a name bypasses the revision fence
  (`FenceHoldsExactlyForSafeNames`), and a deletion lets a stale client bring
  the file back or overwrite content it never saw (`DeletionDefeatsTheFence`;
  exactly: `FencedSaveSucceedsExactlyWhen`).
- Zeros after an archive's end marker need not fill whole blocks
  (`OddLengthIsAccepted`; exactly: `WholeBlocksExactlyWhen`, and which of them
  are accepted: `TrailingZeros`).

One fact that is not a broken promise but may surprise: a recovery barrier,
once set, is never lifted by any call (`BarrierFreezesEverything`).

## Model

| member | source | states |
|---|---|---|
| RestoreProtocol.RestoreHost.PublishExchange | bc250_llm_mode/backup_adapter.py:464-497 | outcome and every durable state of `publish_exchange`, from any receipt and for any answers: carry the database, write `intent`, exchange, write `published` |
| RestoreProtocol.RestoreHost.VerifyPostRestore | bc250_llm_mode/backup_adapter.py:518-565 | outcome and every durable state of `verify_post_restore`, including resuming a recorded rollback |
| RestoreProtocol.RestoreHost.UndoExchange | bc250_llm_mode/backup_adapter.py:541-562 | the exception path: carry the rows back, record `rollback_intent`, exchange, record `rolled_back` |
| RestoreProtocol.RestoreHost.PromoteOrRollback | bc250_llm_mode/backup_adapter.py:579-618 | outcome and every durable state of `promote_or_rollback`: the row is committed before the receipt's phase is checked |
| RestoreProtocol.RestoreHost.WriteReceipt | bc250_llm_mode/restore_profile.py:130-131 | replaces the whole receipt and nothing else |
| RestoreProtocol.ActKeepsInv | bc250_llm_mode/backup_adapter.py:464-618 | every step, cut anywhere, stays in one of four protocol positions: no receipt, before the first swap, between the swaps, after the swap back |
| RestoreProtocol.RunIsSafe | bc250_llm_mode/backup_adapter.py:464-618 | over every run with crashes: the two directories stay a permutation of prior and candidate, at most two exchanges, `verified`/`promoted` only with the candidate active, `rolled_back` only with the prior active, and the publication probe is never uncertain |
| RestoreProtocol.IdentitiesAreFixed | bc250_llm_mode/backup_adapter.py:464-618 | once recorded, prior and candidate never change in any run |
| RestoreProtocol.RollbackIsIrrevocable | bc250_llm_mode/backup_adapter.py:518-562 | after `rollback_intent` no run reaches `verified` or `promoted`; after `rolled_back` receipt and active directory are fixed |
| RestoreProtocol.ConvergesExactlyWhen | bc250_llm_mode/backup_adapter.py:518-618 | after the first exchange one crash-free verify and promote end in a terminal phase if and only if a condition on the answers and the attempt row holds |
| RestoreProtocol.FreshPublishExactlyWhen | bc250_llm_mode/backup_adapter.py:464-497 | without an own receipt a publication exchanges if and only if no other restore is unfinished, the stage is valid, the database is carried and the swap happens; what it then leaves, and that a refused start leaves nothing |
| RestoreProtocol.ResumedPublishExactlyWhen | bc250_llm_mode/backup_adapter.py:468-497 | after a crash before the swap it exchanges if and only if the prepared database is the one of the receipt, the database is carried and the swap happens; a changed one is refused without a trace |
| RestoreProtocol.ExchangedPublishIsANoOp | bc250_llm_mode/backup_adapter.py:470-473 | after the swap publishing again only reports it |
| RestoreProtocol.ForeignDirectoriesAreRefused | bc250_llm_mode/backup_adapter.py:505-516 | a receipt that does not name exactly the two directories is refused unchanged |
| RestoreProtocol.CutPublishIsResumed | bc250_llm_mode/backup_adapter.py:464-497 | a fresh publication cut anywhere after its receipt, then an uncut good one, ends exchanged and `published`, or `intent` when the cut fell between the swap and that receipt |
| RestoreProtocol.ResumptionIsLostExactlyWhen | bc250_llm_mode/backup_adapter.py:480-490 | a resumed publication stays resumable after a cut if and only if the cut did not fall between a differing preparation and its receipt |
| RestoreProtocol.ChangedDatabaseBlocksTheExchange | bc250_llm_mode/backup_adapter.py:480-481 | from such a state no run exchanges the directories |
| RestoreProtocol.VerifyExactlyWhen | bc250_llm_mode/backup_adapter.py:518-565 | when verification records `verified`, when it reports a rollback, and that it does nothing before the first swap |
| RestoreProtocol.RollbackEffect | bc250_llm_mode/backup_adapter.py:541-562 | a finished rollback leaves the prior directory active with the rows carried into its database and nothing else changed |
| RestoreProtocol.PromoteExactlyWhen | bc250_llm_mode/backup_adapter.py:579-618 | promotion succeeds exactly from `verified` with a recordable row; what it writes when it succeeds and when it refuses |
| RestoreProtocol.StrandedRowBlocksPromotion | bc250_llm_mode/backup_adapter.py:590-618 | with an attempt row that has no creator in the restored database no run ever records `promoted` |
| RestoreProtocol.OneCrashStrandsTheRow | bc250_llm_mode/backup_adapter.py:590-618 | one crash between promote's commit and its receipt reaches such a state from any fresh start |
| RestoreProtocol.TerminalProbeIsTheReceipt | bc250_llm_mode/backup_adapter.py:620-632 | no step creates a row under the operation's own id, so the terminal probe answers exactly what the receipt says |
| PointerPublication.PointerPublisher.PublishPointerSet | bc250_llm_mode/application_pointer_helper.py:132-193 | refuses missing releases and unrecognisable pairs, otherwise replaces `previous` before `current`, with every intermediate disk |
| PointerPublication.PointerPublisher.PublishRequest | bc250_llm_mode/application_publisher.py:177-207 | promotes the named stage when the release is missing, then publishes |
| PointerPublication.PointerPublisher.RestoreRequest | bc250_llm_mode/application_publisher.py:218-238 | nothing to do from the old pair, a reverse publication from the new pair, a refusal from any other |
| PointerPublication.CrashesAreRecognisable | bc250_llm_mode/application_pointer_helper.py:107-193 | any number of crashed attempts leave an absent, prepared or complete pair; `current` names the old or the new release and the old one stays linked |
| PointerPublication.PublicationConverges | bc250_llm_mode/application_publisher.py:177-216 | after any crashed attempts one uninterrupted attempt completes exactly when the needed releases are there |
| PointerPublication.OnlyTheNamedStageIsPromoted | bc250_llm_mode/application_publisher.py:131-160 | an attempt adds only the candidate release, only from the named staged tree that holds it, and touches no other |
| PointerPublication.CompleteIsFixed | bc250_llm_mode/application_pointer_helper.py:152-193 | a complete pair is a fixed point of any number of cut attempts |
| PointerPublication.UncertainIsRefused | bc250_llm_mode/application_pointer_helper.py:152-193 | an unrecognisable pair is refused and its links never move |
| PointerPublication.RestoreFrom | bc250_llm_mode/application_publisher.py:218-248 | restore from the old or new pair satisfies the rollback probe; any other pair is refused unchanged |
| PointerPublication.UnobservableIsRefused | bc250_llm_mode/application_pointer_helper.py:82-104 | a link that names no intact release is refused by both calls and no link moves |
| PointerPublication.RestoreUndoesPublication | bc250_llm_mode/application_publisher.py:177-248 | publication with any crashes followed by restore links the old current release again |
| PointerPublication.RestoreResumesExactlyWhen | bc250_llm_mode/application_publisher.py:218-238 | after a crash restore is accepted again if and only if nothing had happened, or all had and the request was a rollback's |
| PointerPublication.RestoreCrashIsHalfRestored | bc250_llm_mode/application_publisher.py:218-238 | a crash between the two replacements leaves both links on the candidate |
| PointerPublication.HalfRestoredIsStuck | bc250_llm_mode/application_publisher.py:177-238 | from there no sequence of publications and restores of the request moves a link |
| PointerPublication.LaterUpdateAfterRestore | bc250_llm_mode/application_pointer_helper.py:107-129 | after a restore, updates that expect the recorded pair see an unrecognisable one, unless the recorded previous release is the failed candidate |
| InstallationRecords.OtherActs | bc250_llm_mode/application_installation.py:153-394 | calls other than a recording add only STAGED rows and leave pointers, generation and every row's state alone |
| InstallationRecords.ReserveEffect | bc250_llm_mode/application_installation.py:290-311 | a reservation is taken if and only if it is held already or free at the current revision without a barrier |
| InstallationRecords.VerifyEffect | bc250_llm_mode/application_update_adapter.py:179-201 | verification reserves only for the previewed pair and generation, and changes only holder and revision |
| InstallationRecords.StageEffect | bc250_llm_mode/application_update_adapter.py:225-260 | staging leaves the candidate smoke-tested, new rows STAGED, a failed test failed, and all else unchanged; a rollback needs such a row |
| InstallationRecords.MarkSmokeEffect | bc250_llm_mode/application_installation.py:214-235 | a smoke test ends once, at the current revision |
| InstallationRecords.TransitionEffect | bc250_llm_mode/application_installation.py:61-70 | a row changes state along exactly five ways, at the current revision |
| InstallationRecords.ReleaseAndBarrierEffect | bc250_llm_mode/application_installation.py:360-394 | when a release and a barrier succeed, and that each changes its own field |
| InstallationRecords.InstallationStore.TransitionRow | bc250_llm_mode/application_installation.py:237-269 | a state change happens exactly when the table allows it and state and revision match |
| InstallationRecords.InstallationStore.Commit | bc250_llm_mode/application_installation.py:313-358 | the singleton moves only when every fenced field matches |
| InstallationRecords.InstallationStore.ReserveUpdate | bc250_llm_mode/application_update_adapter.py:179-201 | reserves only for the previewed pair and generation; the holder may repeat it |
| InstallationRecords.InstallationStore.Stage | bc250_llm_mode/application_update_adapter.py:225-260 | an update gets a smoke-tested row, a rollback needs one |
| InstallationRecords.InstallationStore.RecordUpdate | bc250_llm_mode/application_update_adapter.py:477-544 | the recording transaction, whole or not at all |
| InstallationRecords.RecordEffect | bc250_llm_mode/application_update_adapter.py:477-544 | when a first recording succeeds (if and only if) and what it does to every row and to the singleton |
| InstallationRecords.ActKeepsConsistent | bc250_llm_mode/application_installation.py:214-394 | every call keeps rows and singleton consistent, loses no row and leaves quarantined rows quarantined |
| InstallationRecords.EveryRunIsConsistent | bc250_llm_mode/application_installation.py:61-394 | over every interleaving: one CURRENT row, the singleton's; the PREVIOUS rows are its previous; QUARANTINED is terminal; the generation counts the recordings that took effect |
| InstallationRecords.ReplayExactlyWhen | bc250_llm_mode/application_update_adapter.py:488-498 | a recording succeeds without a change exactly as the repetition of one already made and finished |
| InstallationRecords.OnlyTheHolderCommits | bc250_llm_mode/application_installation.py:313-358 | a recording takes effect only for the holder of the reservation, without a barrier, against the pair it was previewed for |
| InstallationRecords.RecordedAtMostOnce | bc250_llm_mode/application_update_adapter.py:484-498 | replaying a recording, at once or after any run, changes nothing, and the operation cannot reserve again |
| InstallationRecords.BarrierFreezesEverything | bc250_llm_mode/application_installation.py:290-394 | once a barrier is set, pointers, generation and reservation stay as they are in every run |
| InstallationRecords.BarrierHasAHolder | bc250_llm_mode/application_installation.py:360-394 | a barrier always comes with a reservation |
| InstallationRecords.RollbackBringsBack | bc250_llm_mode/application_update_adapter.py:477-544 | an update followed by its rollback makes the old installation current again and the update previous |
| UpdateSystem.CleanupPreview | bc250_llm_mode/application_update_command.py:319-346 | every listed row lands in exactly one of candidates and excluded, and which one is decided by the retention rule |
| UpdateSystem.CleanupNeverOffersWhatIsInUse | bc250_llm_mode/application_update_command.py:319-346 | in every reachable state, crashes included, no installation named by a link or by the recorded pair is a candidate, provided releases are safe |
| UpdateSystem.CleanupIsSafeFromRest | bc250_llm_mode/application_update_command.py:319-346 | the same without that proviso for every run from rest that makes no release, as the workflow does |
| UpdateSystem.ReleaseExposesExactlyWhen | bc250_llm_mode/application_installation.py:360-376 | letting go of the reservation exposes something in use exactly when a link names the holder's quarantined, smoke-tested candidate |
| UpdateSystem.ReinstalledQuarantineIsOffered | bc250_llm_mode/application_installation.py:360-376 | a concrete run in which that happens |
| UpdateSystem.RecordAlignsDiskAndDatabase | bc250_llm_mode/application_update_adapter.py:477-544 | after a recording the links and the recorded pair agree |
| UpdateSystem.PublishedLinks | bc250_llm_mode/application_pointer_helper.py:152-193 | publication only ever links the candidate or the expected current release, and completes on exactly that pair |
| ThinkStream.ThinkFilter.Feed | bc250_llm_mode/chat.py:212-231 | prints exactly the decidable part and keeps exactly the undecided rest |
| ThinkStream.ThinkFilter.Flush | bc250_llm_mode/chat.py:233-235 | the rest is shown outside a span and dropped inside one |
| ThinkStream.Session | bc250_llm_mode/chat.py:198-235 | a whole session over any chunks shows the batch result of the joined text |
| ThinkStream.Resume | bc250_llm_mode/chat.py:212-231 | feeding `s` and then `c` equals feeding `s + c`: same state, same output |
| ThinkStream.ChunkingIsInvisible | bc250_llm_mode/chat.py:198-235 | for every cutting: final state and total output depend on the text alone and equal the batch stripper's |
| ThinkStream.FlushCompletes | bc250_llm_mode/chat.py:212-235 | output so far plus flush is the batch result of the text so far |
| ThinkStream.NeverRetractsAndLags | bc250_llm_mode/chat.py:212-231 | output is a prefix of the batch result of every continuation, and trails by less than the opening tag |
| ThinkStream.ThinkLagIsSix | bc250_llm_mode/chat.py:205-231 | with `<think>` the lag is at most six characters |
| ThinkStream.SpansDisappear | bc250_llm_mode/chat.py:198-206 | the batch stripper keeps text outside tags, drops closed spans and everything after an unclosed one |
| ThinkStream.ThinkTagsAreDistinctive | bc250_llm_mode/chat.py:205-206 | the real tags meet the premise of SpansDisappear |
| ThinkStream.FindIsFirst | bc250_llm_mode/chat.py:216-217 | the search finds the first occurrence, or there is none |
| ThinkStream.FindAcross | bc250_llm_mode/chat.py:216-224 | without a tag so far, keeping the last tag-length-minus-one characters loses no occurrence that later text completes |
| SseLines.BoundedLines | bc250_llm_mode/chat_service.py:51-67 | acceptance and the accepted lines depend on the joined bytes only; on rejection the lines already yielded are the first ones |
| SseLines.SplitResumes | bc250_llm_mode/chat_service.py:51-67 | splitting can be resumed from the unterminated tail alone |
| SseLines.SplitLosesNothing | bc250_llm_mode/chat_service.py:57-62 | no line holds a line feed, and the lines with their line feeds are the bytes |
| SseLines.StrippedExactly | bc250_llm_mode/chat_service.py:62 | stripping takes all carriage returns off the end of a line and nothing else |
| SseLines.StrippedAllAt | bc250_llm_mode/chat_service.py:57-62 | every terminated line is yielded stripped, in its place |
| SseLines.LongTailIsRejected | bc250_llm_mode/chat_service.py:63-64 | an overlong tail makes every continuation unacceptable |
| SseLines.BadLineIsRejected | bc250_llm_mode/chat_service.py:57-62 | a bad terminated line makes every continuation unacceptable |
| ContextSelection.SelectContext | bc250_llm_mode/chat_context.py:53-102 | refusals; for a counter that counts down over the user messages the kept suffix starts at the earliest user message from which the conversation fits, or at the last one; it is the linear scan's plan; at most eleven probes |
| ContextSelection.Candidate | bc250_llm_mode/chat_context.py:74-88 | one candidate, or a refusal of a negative count: it is the plan of its turn, and bounded and within the limit means that the turn fits |
| ContextSelection.SelectFrom | bc250_llm_mode/chat_context.py:69-78 | one pass over the messages with precomputed sizes and costs selects exactly the kept positions and sums exactly their bytes and costs |
| ContextSelection.FirstFit | bc250_llm_mode/chat_context.py:89-102 | the linear scan: nothing earlier fits, and it fits or is the newest turn |
| ContextSelection.UserTurnsAreAll | bc250_llm_mode/chat_context.py:69 | the candidate starts are exactly the user messages |
| ContextSelection.StartsAreTheUserTurns | bc250_llm_mode/chat_context.py:69 | and the end of the conversation exactly when there is none |
| ContextSelection.FirstFitIsTheCut | bc250_llm_mode/chat_context.py:69-102 | the linear scan over starts finds the earliest fitting user message, or the last one |
| ContextSelection.RefusedExactlyWhen | bc250_llm_mode/chat_context.py:53-68 | which arguments are refused, and with which error |
| ContextSelection.AllowanceIs | bc250_llm_mode/chat_context.py:60-62 | how much of the reserve is granted |
| ContextSelection.CostIsAThird | bc250_llm_mode/chat_context.py:23-27 | a third of the bytes rounded up, at least one, and twelve |
| ContextSelection.AsciiIsOneByte | bc250_llm_mode/chat_context.py:71 | ASCII text takes one byte a character |
| ContextSelection.PlanIsFaithful | bc250_llm_mode/chat_context.py:53-102 | every plan keeps all system messages and the whole suffix, splits the indices in order, fits only within all size bounds, and counts its own messages with the counter it was given |
| ContextSelection.CostsAreTheEstimate | bc250_llm_mode/chat_context.py:23-27 | the sum of precomputed costs is the estimate of the selected messages |
| ContextSelection.LaterKeepsLess | bc250_llm_mode/chat_context.py:74-82 | a later start keeps fewer messages, bytes and estimated tokens |
| ContextSelection.FitIsMonotone | bc250_llm_mode/chat_context.py:89-102 | if a turn fits, every later one does |
| ContextSelection.EstimateIsMonotone | bc250_llm_mode/chat_context.py:23-27 | the default estimate counts down over suffixes |
| ContextSelection.IncludedMembers | bc250_llm_mode/chat_context.py:74-88 | included and excluded positions are exactly the kept and the other ones |
| ContextSelection.PositionsIncrease | bc250_llm_mode/chat_context.py:74-88 | both position lists are in increasing order |
| ChatTransport.PreflightIsAdmitted | bc250_llm_mode/chat_service.py:136-226 | every non-empty fitting plan passes all transport checks, and prompt plus answer stay within the context |
| ChatTransport.AdmittedWithPlanIsBounded | bc250_llm_mode/chat_service.py:136-226 | what is admitted with a plan is the plan's messages, within every bound and the context |
| ChatTransport.RoughEstimateAdds | bc250_llm_mode/chat_service.py:124-125 | the rough estimate adds up over messages |
| ChatTransport.WithoutPlanStaysInsideExactlyWhen | bc250_llm_mode/chat_service.py:209-217 | without a plan all admitted requests stay within the context if and only if 128 tokens are left beside the answer |
| ChatTransport.ReadLines | bc250_llm_mode/chat_service.py:274-347 | how the line loop ends and everything it passed on, for every script; which these are is LinesStopAt |
| ChatTransport.TryOnce | bc250_llm_mode/chat_service.py:261-349 | one attempt with every exception around the loop |
| ChatTransport.Stream | bc250_llm_mode/chat_service.py:253-383 | the attempt loop leaves through one of its returns; the final assertion is unreachable; what is delivered is StreamDeliversWhatWasSaid |
| ChatTransport.StreamIsSound | bc250_llm_mode/chat_service.py:253-383 | for every script: one result, one or two attempts, its text is everything passed on, within the byte limit, COMPLETED exactly when `[DONE]` ended a clean last attempt with non-blank text |
| ChatTransport.StreamDeliversWhatWasSaid | bc250_llm_mode/chat_service.py:253-365 | an undisturbed first attempt that is quiet up to `[DONE]` delivers exactly what the stream said before it, and is COMPLETED unless that is blank |
| ChatTransport.LinesStopAt | bc250_llm_mode/chat_service.py:274-347 | for every stop reason: the reader was given exactly what the lines before said, in order, and the loop ends for that reason |
| ChatTransport.QuietLinesArePassedOn | bc250_llm_mode/chat_service.py:274-347 | quiet lines under the limit are passed on completely and in order |
| ChatTransport.QuietLinesRunOut | bc250_llm_mode/chat_service.py:274-347 | without a stopping line the stream runs out, which is no completion |
| ChatTransport.EveryScriptStopsOnce | bc250_llm_mode/chat_service.py:274-347 | one of these is the case for every script |
| ChatTransport.AttemptStopsWith | bc250_llm_mode/chat_service.py:261-349 | the exceptions around the loop and their precedence |
| ChatTransport.RetriedExactlyWhen | bc250_llm_mode/chat_service.py:374-380 | an attempt is repeated if and only if it is the first, passed nothing on, timed out or found no server, and was neither cancelled nor out of time |
| ChatTransport.ReportedAs | bc250_llm_mode/chat_service.py:349-383 | the classification and code of every ending |
| ChatTransport.TokenCountIs | bc250_llm_mode/chat_service.py:415-417 | a quarter of the characters, but one for any text |
| ChatTransport.ByteLimitIs | bc250_llm_mode/chat_service.py:335 | sixteen bytes a token, four mebibytes at most |
| ChatTransport.LinesAreSound | bc250_llm_mode/chat_service.py:274-347 | line by line the text only grows, in non-empty pieces, under the limit |
| ChatTransport.AttemptIsSound | bc250_llm_mode/chat_service.py:261-349 | one attempt: the bounds hold and falling through needs a clean environment |
| ChatTransport.RetryDeliversNothing | bc250_llm_mode/chat_lifecycle.py:191-204 | an attempt is repeated only if it passed on nothing, and only the first |
| ChatTransport.ConclusionIsSound | bc250_llm_mode/chat_service.py:349-383 | a concluded attempt reports exactly what it passed on |
| CancellationToken.NoLostCancellation | bc250_llm_mode/chat_lifecycle.py:104-131 | in every interleaving of any number of calls: if a bind and a cancel returned and no other bind replaced the callback in between, it was invoked |
| CancellationToken.StoredThenFetched | bc250_llm_mode/chat_lifecycle.py:112-124 | the case in which the bind stores first |
| CancellationToken.FetchedThenStored | bc250_llm_mode/chat_lifecycle.py:112-124 | the case in which the cancel fetches first |
| CancellationToken.EventStaysSet | bc250_llm_mode/chat_lifecycle.py:112-113 | the event is set before any callback is fetched and never cleared |
| CancellationToken.BindInvokes | bc250_llm_mode/chat_lifecycle.py:119-124 | a bind that stores after the event is set has invoked or will |
| CancellationToken.CancelInvokes | bc250_llm_mode/chat_lifecycle.py:112-117 | a cancel that fetched a callback has invoked it or will |
| CancellationToken.WithdrawnCallbackIsNotInvoked | bc250_llm_mode/chat_lifecycle.py:112-124 | the condition is needed: once another bind has replaced the callback and no call in progress holds it, no continuation of any threads invokes it unless it is bound again |
| CancellationToken.InvokedMeansBoundAndCancelled | bc250_llm_mode/chat_lifecycle.py:112-124 | in every interleaving nothing is invoked that was not bound, and nothing without a cancellation |
| CancellationToken.ChatCancellation.Cancel | bc250_llm_mode/chat_lifecycle.py:112-117 | an undisturbed call is exactly its three atomic steps |
| CancellationToken.ChatCancellation.BindInterrupt | bc250_llm_mode/chat_lifecycle.py:119-124 | an undisturbed call is exactly its one or three atomic steps |
| SummaryIndex.ConversationIndex.List | bc250_llm_mode/conversation_service.py:417-463 | refusals without a change, among them files whose decoding raises anything but `ValueError`; it answers if and only if no file that must be read again does so, and then the index is the refreshed one and the answer the query over it |
| SummaryIndex.ConversationIndex.Delete | bc250_llm_mode/conversation_service.py:481-494 | removes the sanitised name's file and row, or refuses |
| SummaryIndex.SelectPage | bc250_llm_mode/conversation_service.py:460-461 | filter, order by update time and id descending, page |
| SummaryIndex.RefreshIsExact | bc250_llm_mode/conversation_service.py:436-459 | from a coherent index a listing answers exactly when every file can be read, and leaves exactly the rows that decoding every file gives |
| SummaryIndex.ListingIsExact | bc250_llm_mode/conversation_service.py:417-494 | after any saves, deletes, outside changes and listings, a listing answers if and only if every file can be read, and then every page equals the direct answer |
| SummaryIndex.OneFileStopsTheListing | bc250_llm_mode/conversation_service.py:446-458 | one file whose decoding escapes stops every listing while it stays, whatever happens to the others |
| SummaryIndex.ForeignIsStale | bc250_llm_mode/conversation_service.py:144-145 | for any other file name two directories exist between which its row goes stale |
| SummaryIndex.ExactExactlyForPlainNames | bc250_llm_mode/conversation_service.py:144-145 | a row stays exact under every change if and only if its file name is its own sanitised form or unopenable |
| SummaryIndex.OrderedIsSorted | bc250_llm_mode/conversation_service.py:460-461 | the query order is the sorted arrangement of exactly the matching rows |
| SummaryIndex.QueryIsAPage | bc250_llm_mode/conversation_service.py:460-461 | a page holds the summaries of the matching rows from the offset on, newest first and then by id, as many as asked for and there are |
| SummaryIndex.WindowIs | bc250_llm_mode/conversation_service.py:460-461 | the rows a page takes |
| SummaryIndex.PagesJoin | bc250_llm_mode/conversation_service.py:460-461 | consecutive pages make up the whole list |
| SummaryIndex.LessExactly | bc250_llm_mode/conversation_service.py:460-461 | the text order is decided by the first difference |
| SummaryIndex.RowShowsItsFile | bc250_llm_mode/conversation_service.py:447-458 | what the row of a record and of a file to repair shows |
| SummaryIndex.RepairsComeLast | bc250_llm_mode/conversation_service.py:447-461 | files to repair come after everything that has a time |
| SummaryIndex.SaveAndDeleteEffect | bc250_llm_mode/conversation_service.py:481-494 | a deletion takes away file and row of the sanitised name, a save replaces that file only |
| SummaryIndex.FirstIsUnique | bc250_llm_mode/conversation_service.py:460-461 | the order has no ties |
| ConversationRevisions.ConversationClient.LoadConversation | bc250_llm_mode/conversation_service.py:244-280 | remembers the revision of the sanitised name's file, or raises |
| ConversationRevisions.ConversationClient.NextRevision | bc250_llm_mode/conversation_service.py:181-194 | the checks of a save: malformed file, revision claim, room for a new file |
| ConversationRevisions.ConversationClient.SaveConversation | bc250_llm_mode/conversation_service.py:160-242 | replaces the file and the remembered revision, or changes nothing |
| ConversationRevisions.ConversationClient.DeleteConversation | bc250_llm_mode/conversation_service.py:481-494 | removes the file, and forgets the name as it was given |
| ConversationRevisions.NoUpdateIsLost | bc250_llm_mode/conversation_service.py:181-184 | over runs of all clients without deletions a fenced save succeeds exactly when the file still is what its client was shown, and raises the revision by one |
| ConversationRevisions.FencedSaveSucceedsExactlyWhen | bc250_llm_mode/conversation_service.py:181-212 | for every run of other clients, deletions included, since a client noticed a file: its fenced save succeeds if and only if nothing happened to the file, or it was deleted and not saved since and there is room, or it was deleted and saved since exactly as often as the remembered revision; and what it then replaces |
| ConversationRevisions.LoadingAndSavingNotice | bc250_llm_mode/conversation_service.py:241-247 | a load or a save is such a noticing |
| ConversationRevisions.SaveExactlyWhen | bc250_llm_mode/conversation_service.py:181-194 | when any save succeeds, with or without an explicit revision, and what it writes |
| ConversationRevisions.LoadAndDeleteEffect | bc250_llm_mode/conversation_service.py:244-247 | loading changes no file, deleting one |
| ConversationRevisions.SecondSaverIsRefused | bc250_llm_mode/conversation_service.py:181-184 | of two clients that saw one revision only the first to save succeeds |
| ConversationRevisions.FenceHoldsExactlyForSafeNames | bc250_llm_mode/conversation_service.py:181-184 | a save is fenced by the remembered revision if and only if the name is its own sanitised form |
| ConversationRevisions.DeletionDefeatsTheFence | bc250_llm_mode/conversation_service.py:181-212 | for every remembered revision one deletion and as many saves make the stale save succeed over content never shown |
| ConversationRevisions.RunKeepsInv | bc250_llm_mode/conversation_service.py:160-247 | what a client remembers stays an older revision or the present content |
| ClientCredentials.ConnectionRepository.CreateClient | bc250_llm_mode/connection_credentials.py:132-171 | creation or refusal, as the specification says |
| ClientCredentials.ConnectionRepository.RotateClient | bc250_llm_mode/connection_credentials.py:173-216 | rotation or refusal |
| ClientCredentials.ConnectionRepository.RevokeClient | bc250_llm_mode/connection_credentials.py:218-239 | revocation as the specification says; what that is, is RevokeEffect |
| ClientCredentials.ConnectionRepository.UseClient | bc250_llm_mode/connection_credentials.py:241-257 | recording a use raises the revision of an unrevoked client |
| ClientCredentials.ConnectionRepository.DisableAccess | bc250_llm_mode/connection_credentials.py:289-307 | disabling revokes every client and retires every secret |
| ClientCredentials.ConnectionRepository.EnableAccess | bc250_llm_mode/connection_credentials.py:309-317 | enabling changes the switch only |
| ClientCredentials.ApplyKeepsInv | bc250_llm_mode/connection_credentials.py:132-317 | every call keeps: contiguous generations, one active secret at the current generation and fingerprint, distinct fingerprints and names, capacity |
| ClientCredentials.EveryRunIsSound | bc250_llm_mode/connection_credentials.py:132-317 | over every run: at most 32 unrevoked clients, each with exactly one active secret, its current one, which authenticates while access is enabled |
| ClientCredentials.CapacityHolds | bc250_llm_mode/connection_credentials.py:144-148 | at most 32 clients are unrevoked |
| ClientCredentials.DeadNeverAuthenticates | bc250_llm_mode/connection_credentials.py:218-317 | the fingerprint of a revoked client or of an expired secret is never returned again in any continuation |
| ClientCredentials.DisableIsFinal | bc250_llm_mode/connection_credentials.py:289-317 | no fingerprint from before a disable is returned again, not even after enabling |
| ClientCredentials.TimeOnlyTakesAway | bc250_llm_mode/connection_credentials.py:259-274 | without calls the authenticating set only shrinks |
| ClientCredentials.RevisionNeverFalls | bc250_llm_mode/connection_credentials.py:173-307 | a client's revision never falls in any run |
| ClientCredentials.AtMostOneChangePerRevision | bc250_llm_mode/connection_credentials.py:173-257 | of all changes prepared against one revision at most one succeeds |
| ClientCredentials.RotationSwitches | bc250_llm_mode/connection_credentials.py:173-216 | after a rotation the new fingerprint authenticates, the old one exactly until its overlap ends, other clients are unaffected |
| ClientCredentials.RevokeEffect | bc250_llm_mode/connection_credentials.py:218-239 | a revocation succeeds if and only if the client exists at that revision; then it and all its secrets are retired, nothing of it authenticates at any time, and no other client changes |
| ClientCredentials.RevokedForever | bc250_llm_mode/connection_credentials.py:218-317 | no fingerprint a revoked client ever had is returned in any continuation |
| ClientCredentials.CreateEffect | bc250_llm_mode/connection_credentials.py:132-171 | when a client is created, and that exactly its first secret authenticates at once while access is enabled |
| ClientCredentials.RotatesExactlyWhen | bc250_llm_mode/connection_credentials.py:173-216 | when a rotation succeeds |
| ClientCredentials.RotateEffect | bc250_llm_mode/connection_credentials.py:173-216 | what a rotation leaves in the client's row and that no other client changes |
| ClientCredentials.UseEffect | bc250_llm_mode/connection_credentials.py:241-257 | a use raises the revision of an unrevoked client and changes nobody's authentication |
| ClientCredentials.DisableEffect | bc250_llm_mode/connection_credentials.py:289-307 | disabling revokes every client, retires every secret and leaves nothing that authenticates |
| ClientCredentials.EnableEffect | bc250_llm_mode/connection_credentials.py:309-317 | enabling changes no row and restores exactly the unrevoked clients' current secrets and running overlaps |
| BackupArchive.Inspect | bc250_llm_mode/backup_archive.py:36-158 | the verdict is the specification's; an accepted file was digested to its last byte, each byte once |
| BackupArchive.Reader.Read | bc250_llm_mode/backup_archive.py:51-59 | exactly the asked bytes, added to the digest, or a refusal |
| BackupArchive.CheckRecords | bc250_llm_mode/backup_archive.py:87-97 | accepts exactly well-formed modification-time records, and terminates |
| BackupArchive.MtimeRecordsExactly | bc250_llm_mode/backup_archive.py:87-97 | extended metadata is accepted if and only if it is a list of modification-time records that each state their own length |
| BackupArchive.RecordsAreMtimeRecords | bc250_llm_mode/backup_archive.py:87-97 | every such list is accepted |
| BackupArchive.MtimeRecordsAreRecords | bc250_llm_mode/backup_archive.py:87-97 | whatever is accepted is such a list |
| BackupArchive.DecimalIsRead | bc250_llm_mode/backup_archive.py:91 | a length written in decimal is read back |
| BackupArchive.ReadExtended | bc250_llm_mode/backup_archive.py:80-98 | an extended header is bounded before it is read |
| BackupArchive.ReadMember | bc250_llm_mode/backup_archive.py:105-131 | payload in chunks, then padding |
| BackupArchive.ReadPayload | bc250_llm_mode/backup_archive.py:115-123 | the chunks make up exactly the member |
| BackupArchive.ReadEnd | bc250_llm_mode/backup_archive.py:67-73 | after the end marker only zeros up to the last byte |
| BackupArchive.RoundTrip | bc250_llm_mode/backup_adapter.py:191-219 | every archive the writer lays out within the member limits is small enough and is inspected to exactly its two payloads |
| BackupArchive.ScanPassesMember | bc250_llm_mode/backup_archive.py:74-133 | the scan steps over a laid-out member and records it |
| BackupArchive.ScanShape | bc250_llm_mode/backup_archive.py:63-133 | a successful scan of any origin passes over at most eight headers with payload and padding that tile the file up to a block boundary, and then at least two blocks of zeros; it finds their members |
| BackupArchive.AcceptedArchive | bc250_llm_mode/backup_archive.py:135-154 | an accepted file is such a tiling with exactly one entry for each of the two members, within limits, the manifest describing the database |
| BackupArchive.AcceptedExactlyWhenTiled | bc250_llm_mode/backup_archive.py:36-158 | a file is accepted with given members if and only if its length is allowed and it is such a tiling with those members |
| BackupArchive.TilingIsScanned | bc250_llm_mode/backup_archive.py:63-133 | every such tiling is scanned to its members |
| BackupArchive.NamesAreTheMembers | bc250_llm_mode/backup_archive.py:100-101 | every member found is named by exactly one entry |
| BackupArchive.TrailingZeros | bc250_llm_mode/backup_archive.py:67-73 | any number of zeros after an accepted file leaves the verdict as it is, up to the size limit, and is refused beyond it |
| BackupArchive.WholeBlocksExactlyWhen | bc250_llm_mode/backup_archive.py:67-73 | an accepted file ends in whole blocks exactly when its length is a number of blocks; its tiled part always is |
| BackupArchive.OddLengthIsAccepted | bc250_llm_mode/backup_archive.py:67-73 | what the writer lays out plus one zero byte is accepted |
| ArtifactStore.Publisher.PublishNoReplace | bc250_llm_mode/artifact_storage.py:175-234 | an undisturbed publication: reuse, refusal or a new name for exactly the source bytes; it is a run of the atomic steps of one publisher |
| ArtifactStore.Publisher.Incoming | bc250_llm_mode/artifact_storage.py:193-220 | the temporary is created, filled with exactly the source and hashed again, as a run of steps |
| ArtifactStore.Publisher.Copy | bc250_llm_mode/artifact_storage.py:198-210 | the copy loop writes exactly the source, one step a chunk |
| ArtifactStore.Publisher.LinkIncoming | bc250_llm_mode/artifact_storage.py:221-229 | the link without replacement, or the second look at what is there, as a run of steps |
| ArtifactStore.ActKeepsInv | bc250_llm_mode/artifact_storage.py:175-234 | every atomic step of every publisher, or its death, keeps temporaries private and returned names sound |
| ArtifactStore.PublishedNamesAreSound | bc250_llm_mode/artifact_storage.py:175-234 | over every interleaving with crashes: names keep their file, named files their bytes, and new names hold their digest |
| ArtifactStore.ReturnedDestinationsHold | bc250_llm_mode/artifact_storage.py:188-229 | a returned destination holds the requested digest, then and in every later state |
| ArtifactStore.IdentityExactly | bc250_llm_mode/artifact_storage.py:126-154 | an existing name is reused exactly when it is a regular file whose bytes have the digest, and counts as absent exactly when nothing can be opened |
| MarkdownSpans.Markdown | bc250_llm_mode/chat_markdown.py:23-73 | the spans are the shown pieces of the specification, and there are at most `max_spans` |
| MarkdownSpans.ScanLine | bc250_llm_mode/chat_markdown.py:48-69 | the spans of one line outside a fence |
| MarkdownSpans.ScanInline | bc250_llm_mode/chat_markdown.py:58-69 | the spans of one line's inline markup |
| MarkdownSpans.NothingIsLost | bc250_llm_mode/chat_markdown.py:23-73 | for every text and bound: the pieces cover the source without gap or overlap, each as its context calls for: plain text within a line that is no heading, bullet, quote or fence and without a token in it, tokens between matching marks, whole fence lines up to 128 blocks, marks at the start of a line followed by the rest of that line, and code from a fence to the first line that closes it or the end; only a scan cut short by the bound shows tokens as text or the remainder in one piece; the bound holds |
| MarkdownSpans.SpansAndMarksAreTheSource | bc250_llm_mode/chat_markdown.py:23-73 | the texts of the spans, with the inline marks put back, bullets restored and the left-out marks in their places, are the source |
| MarkdownSpans.ScanCovers | bc250_llm_mode/chat_markdown.py:30-73 | the same from any place of the scan, inside or outside a fence |
| MarkdownSpans.LineCovers | bc250_llm_mode/chat_markdown.py:48-69 | headings, bullets, quotes and plain lines are covered, their marks at the start of the line |
| MarkdownSpans.BlockCovers | bc250_llm_mode/chat_markdown.py:37-41 | the code of a fence ends at the first line of the same fence, which is left out whole |
| MarkdownSpans.FittingPieceIsItsSource | bc250_llm_mode/chat_markdown.py:37-69 | a piece in its context gives back its stretch of the source |
| MarkdownSpans.InlineCovers | bc250_llm_mode/chat_markdown.py:58-69 | bold and code tokens and the text between them are covered |
| MarkdownSpans.TokenIsToken | bc250_llm_mode/chat_markdown.py:14-67 | what is shown bold or as code stood between matching marks |
| MarkdownSpans.TokenAtExactly | bc250_llm_mode/chat_markdown.py:14 | a token is found exactly where a pair of equal marks stands around a non-empty bounded run |
| MarkdownSpans.NoPairBeforeNext | bc250_llm_mode/chat_markdown.py:59-67 | the scanner passes over no such pair |
| MarkdownSpans.HeadingLevelExactly | bc250_llm_mode/chat_markdown.py:48-52 | a heading is exactly one to six `#` and a space |
| MarkdownSpans.LineMarksExactly | bc250_llm_mode/chat_markdown.py:36-56 | bullets, quotes and fences, character by character |
| MarkdownSpans.LeadExactly | bc250_llm_mode/chat_markdown.py:35 | the leading spaces, all of them and no more |
| ApplianceReadiness.ReadyFlagAndProblemAgree | bc250_llm_mode/appliance_readiness.py:594-658 | for the target journey READY, the journey's flag and the absence of a problem coincide |
| ApplianceReadiness.ReadyExactlyWhen | bc250_llm_mode/appliance_readiness.py:203-658 | READY if and only if the observed facts are sound and every stamp the journey rests on is current, said without the component states |
| ApplianceReadiness.ReadyTimesAreOneShortInterval | bc250_llm_mode/appliance_readiness.py:130-143 | with observations fixed the READY instants have no gap and span at most eleven seconds |
| ApplianceReadiness.ElevenSecondsAreReached | bc250_llm_mode/appliance_readiness.py:130-143 | the bound is attained |
| ApplianceReadiness.SnapshotShowsTheMostUrgent | bc250_llm_mode/appliance_readiness.py:530-545 | the snapshot takes state and problem from the first listed component in the most urgent state present; a thermal block comes first |
| ApplianceReadiness.FirstProblemIsMostUrgent | bc250_llm_mode/appliance_readiness.py:530-545 | the search finds the first row in the most urgent state, or every row is READY |
| ApplianceReadiness.ModelReadiness | bc250_llm_mode/appliance_readiness.py:203-275 | the component shows the first thing missing in the order the reducer asks for it, with its state, code and action, or is READY; and when exactly process, protocol and journey are ready for the model |
| ApplianceReadiness.GatewayReadiness | bc250_llm_mode/appliance_readiness.py:278-334 | the component shows the first thing missing in the order the reducer asks for it, with its state, code and action, or is READY; and when exactly process, protocol and journey are ready for the gateway |
| ApplianceReadiness.WebUiReadiness | bc250_llm_mode/appliance_readiness.py:337-399 | the component shows the first thing missing in the order the reducer asks for it, with its state, code and action, or is READY; and when exactly process, protocol and journey are ready for Open WebUI |
| ApplianceReadiness.TailscaleReadiness | bc250_llm_mode/appliance_readiness.py:402-437 | the component shows the first thing missing in the order the reducer asks for it, with its state, code and action, or is READY; and when exactly process, protocol and journey are ready for Tailscale |
| ApplianceReadiness.ServeReadiness | bc250_llm_mode/appliance_readiness.py:440-478 | the component shows the first thing missing in the order the reducer asks for it, with its state, code and action, or is READY; and when exactly process, protocol and journey are ready for Serve |
| ApplianceReadiness.VerificationReadiness | bc250_llm_mode/appliance_readiness.py:481-527 | the component shows the first thing missing in the order the reducer asks for it, with its state, code and action, or is READY; and when exactly process, protocol and journey are ready for the client verification |

## Left out

- Profile restore: the contents of the carried database, the digest of the staged database and an unreadable receipt are outside answers or left out; a crash between preparing the database and the first receipt write is covered for safety, not for progress.
- Profile restore: `probe_post_verified`, the manifest digest in the receipt, and the backup side of the adapter (snapshot, inventory, record).
- RestoreProtocol.OneCrashStrandsTheRow: uses one schedule of good answers; that the state is stuck is proved for every run.
- Pointer publication: staging and receipt files, the pointer helper process and its digest check, a link that cannot be read at all; a release is intact or absent.
- UpdateSystem.CleanupNeverOffersWhatIsInUse: assumes safe releases, because the claim is false without it; the exact condition is ReleaseExposesExactlyWhen. A reservation that vanishes because its operation row is deleted is such a release and has no step of its own.
- Update steps without installation state: acknowledgment, health, backups, profile restore and the import repository.
- The workflow engine and its leases: only "a step may be run again after a crash" is kept.
- SseLines.BoundedLines: UTF-8 decoding is an arbitrary predicate, and the branch for responses that only offer text lines is not modelled.
- ContextSelection: the remote tokenizer is a function of the selected messages; its requests and their failures are not modelled.
- Chat transport: request payload, port and header checks, `on_timings`, durations, and the wrapper that turns invalid requests into a result; the thermal check before the first attempt.
- ChatTransport.Stream: `strip()` is a test of each character for being white space.
- Cancellation: the lock is part of each atomic step; an interrupt that raises is not modelled.
- Summary index: SQLite itself, symbolic links and directories among the files, file names that are not text, and text collation beyond code points.
- Conversation saves: title, message, draft and size checks, which only refuse earlier; branching, export and drafts are sequences of loads and saves.
- Client credentials: label and scope normalisation, display order of the fingerprints, descriptive columns.
- Backup archive: cancellation, timeouts, the staging copy, and the check that the file did not change while it was read; the manifest's fields are one predicate.
- BackupArchive.RoundTrip: needs a header encoder that decodes back, which stands for the tar header bytes.
- Artifact store: quarantine, the reflink fast path (the same bytes), modes and fsync; nobody but publishers writes the store.
- MarkdownSpans.Markdown: white space and marks are as in the source; how spans are drawn is not.
- Readiness: identities and summaries are not reduced, and the fallback keys and defaults with which a source mapping is read are applied before the model; the compatibility composer is left out.
- HTTP, subprocesses, timers, user interface, catalog data and signature checks.
