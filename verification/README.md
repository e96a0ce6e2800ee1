# Proofs about the protocol scripts

This project models the scripts of the repository that carry real protocol state, and proves what they keep over every
run. There are ten models; `Common.dfy` holds what they share, and `Publication` builds on `ProofFrame`:

- **Ledger** (`Ledger*.dfy`): the revision-checked intent ledger of `bounded_backend_workflow.py`. `LedgerModel` has the
  records and one function per command, `LedgerInvariant` what every reachable ledger satisfies, `LedgerSteps`,
  `LedgerReads` and `LedgerRuns` its preservation, `LedgerTheorems` the results over runs, `LedgerExamples` one
  concrete run from an initialisation to a dispatched metrics read, and `LedgerProgram` the program that updates the
  ledger in place, proved equal to those functions. `LedgerEffects` and `LedgerReadEffects` say of each command exactly
  when it is accepted and what it leaves, `LedgerGates` what stops it, and `LedgerRefusals` the class of
  every refusal.
- **KeyInstall** (`KeyInstall*.dfy`): the crash-safe SSH key installer and its rollback. An invocation is a plan of
  durable writes; `power` is the number of writes made before the machine stops.
- **NoteFlush**: flushing saved notes to a tracker that may lose answers, refuse or be down, with crashes in between.
- **AudioRuntime**: a job queue with one worker, cancellation, shutdown, crash and recovery, one step per lock section.
- **ProofFrame** and **Publication**: the length- and hash-bound stream of three files, and its hard-link publication to a
  waiting process under every interleaving.
- **CellDelta**, **CellDeltaTheorems**, **CellInverse**, **CellEffects**: declared cell changes between database
  snapshots and their inverse by full-row compare-and-set in one transaction.
- **Download**: the resumable download with retries.
- **StageJournal**: the hash-chained journal whose entries are written before they are acknowledged.
- **SchemaCodec**: the ASCII codec for schema rows, and the fraction of a file time.

Each model's `...Effects` file states once more, in terms of the stored bytes, records and cells alone and without the
functions that specify the code, what every operation does. The results over runs rest on those functions; the effects
say what the functions are.

Assumptions, each a parameter or a precondition where it is used:

- SHA-256 is an injective function on the byte strings a theorem compares (or, in the stream, one with 64 hex digits).
- A rename followed by a directory sync is one durable step; a step of the audio runtime is one section under its lock.
- JSON text is parsed by an uninterpreted reader. Where a round trip needs it, reading returns what was written, for the
  finitely many headers a sender can write. The ledger's encoding enters only through its size.
- The canonical order of database rows is a total order, that is, different rows have different JSON text.
- What comes from outside (clock readings, server answers, child exits, admission checks, crashes) is an input, and every
  theorem about a run holds for all of them.

Where the code and its description differ the model follows the code, and the difference is a theorem:

- `InterruptedRollbackIsStuck`: a rollback of a completed installation cut off between its two writes leaves the original
  bytes under an `Installed` receipt, and both commands refuse from then on.
- `OversizedInstallLocksOut`: an installation whose result exceeds the read limit writes it and can never read it again.
- `IntervalsMayTouch`: the intervals of two successful reads are ordered but may share one instant.
- `RepostAfterRefusalExactlyWhen` and `LostCommentIsPostedAgain`: flush also sends again a comment whose own POST was lost,
  so a second POST does not always follow a refusal.
- `RangeServerDelivers`: a partial file that is already complete is refused with 416 on every run and never promoted.
- `TruncationUndetectedExactlyWhen`: a body cut short passes when the server told no usable total.
- `BoundDependsOnChunking`: the journal's event bound is applied before splitting, so at the bound chunking matters.
- `HalfPublishedIsNeverConsumed`: a receiver stopped between its link and unlink leaves a marker nobody ever consumes.

## Model

| member | source | states |
|---|---|---|
| LedgerTheorems.InitialHolds | scripts/dev-env/bounded_backend_workflow.py:362-391 | every accepted initialisation satisfies the whole invariant and the size bound |
| LedgerTheorems.CasKeeps | scripts/dev-env/bounded_backend_workflow.py:260-273 | an accepted call keeps the invariant, loads again, raises the revision by exactly one and never turns the clock back |
| LedgerTheorems.WrittenLoadsAgain | scripts/dev-env/bounded_backend_workflow.py:113-202 | whatever an accepted call writes, from any loadable ledger at all, load_ledger accepts again |
| LedgerTheorems.OnlyRealRefusals | scripts/dev-env/bounded_backend_workflow.py:260-273 | on a reachable ledger the proof guard and the load checks never fire: of a call with the right binding and revision only the command itself or the size of what it would write can refuse |
| LedgerTheorems.RunKeeps | scripts/dev-env/bounded_backend_workflow.py:394-491 | after any sequence of calls, accepted or refused, the invariant holds and the ledger is a later one |
| LedgerTheorems.RunAfter | scripts/dev-env/bounded_backend_workflow.py:260-273 | of any two moments of a run the second ledger is later: no proof, intent, selection, merge, grant identity or blocker is lost |
| LedgerTheorems.OneWinnerPerRevision | scripts/dev-env/bounded_backend_workflow.py:264-265 | of two calls with the same expected revision at most one succeeds in a run |
| LedgerTheorems.ConsumedSlotsFormAPrefix | scripts/dev-env/bounded_backend_workflow.py:520-541 | consumed slots are a prefix of the fixed order, all but the last successful, intents and slots are mutually inverse, and counts never fall |
| LedgerTheorems.IntervalsFollowTheSlots | scripts/dev-env/bounded_backend_workflow.py:580-594 | the intervals of successful reads are well formed and ordered in time as the slots are |
| LedgerTheorems.DisjointExactlyWhen | scripts/dev-env/bounded_backend_workflow.py:580-594 | two such intervals are disjoint if and only if the later slot was admitted after the earlier observation or requested after its own admission |
| LedgerExamples.IntervalsMayTouch | scripts/dev-env/bounded_backend_workflow.py:520-595 | five accepted calls, from any initialisation with a covered endpoint and for any encoding under which their six ledgers fit, after which two slots succeeded over one and the same instant |
| LedgerExamples.MetricsReadReachable | scripts/dev-env/bounded_backend_workflow.py:394-595 | fourteen accepted calls from such an initialisation whose last one dispatches the metrics read, for any encoding under which their fifteen ledgers fit |
| LedgerExamples.FittingRun | scripts/dev-env/bounded_backend_workflow.py:222-226 | the size bound changes nothing in a run whose ledgers all fit |
| LedgerTheorems.DispatchConsumes | scripts/dev-env/bounded_backend_workflow.py:520-561 | a dispatch is the first admission of its slot, with a persistent, ready, live owner that was not lost, every blocker resolved and all earlier slots successful, and consumes the slot |
| LedgerTheorems.DispatchAtMostOnce | scripts/dev-env/bounded_backend_workflow.py:520-561 | over a whole run no slot is dispatched twice |
| LedgerTheorems.ReplayNeverDispatches | scripts/dev-env/bounded_backend_workflow.py:520-530 | a call for a recorded intent never dispatches, and if accepted changes nothing but the clock and the revision |
| LedgerTheorems.MetricsDispatchIsSafe | scripts/dev-env/bounded_backend_workflow.py:307-359 | a dispatched metrics read has agreeing discovery and revalidation proofs, ready delivery, Flux on the actual merge for a new branch, a transport deadline at least ten seconds away and the proof deadline 300 seconds after the revalidation request |
| LedgerTheorems.DeadEndsAbsorb | scripts/dev-env/bounded_backend_workflow.py:473-480 | after a spoiled slot, a lost owner or a final blocker no continuation dispatches or consumes anything new |
| LedgerTheorems.ResolvingRefundsNothing | scripts/dev-env/bounded_backend_workflow.py:494-517 | resolving a blocker changes no slot, intent or proof and is refused in every dead end |
| LedgerTheorems.ProofsAreAnswers | scripts/dev-env/bounded_backend_workflow.py:564-595 | after any run a proof exists exactly when its slot succeeded and is that slot's recorded answer, proofs never change, and select-candidate and the metrics admission never miss theirs |
| LedgerTheorems.CandidatesPrecedeDiscovery | scripts/dev-env/bounded_backend_workflow.py:409-428 | every prepared candidate finished its CI no later than the first discovery admission |
| LedgerTheorems.CleanMeansEveryGrantGone | scripts/dev-env/bounded_backend_workflow.py:626-682 | a stored clean evaluation means every recorded grant is inactive with its CNP absent |
| LedgerTheorems.GrantsKeepTheirIdentity | scripts/dev-env/bounded_backend_workflow.py:598-623 | grant UIDs are distinct, keep owner class, expiry and CNP UID for ever, and an inactive grant of another owner had expired when observed |
| LedgerRuns.ExecuteKeeps | scripts/dev-env/bounded_backend_workflow.py:394-491 | each of the twelve commands keeps the invariant and yields a later ledger |
| LedgerRuns.ApplyLoads | scripts/dev-env/bounded_backend_workflow.py:113-202 | from any readable ledger, reachable or not, a command's result is readable |
| LedgerReads.ReadableLoads | scripts/dev-env/bounded_backend_workflow.py:113-202 | the bound on the number of intents follows from the other load checks, so it never refuses a ledger by itself |
| LedgerProgram.Draft.Mutate | scripts/dev-env/bounded_backend_workflow.py:394-682 | the program that updates the draft field by field, handler by handler in the order of the source, ends in the ledger, refusal and advice of the command functions for every command |
| LedgerProgram.LedgerFile.Init | scripts/dev-env/bounded_backend_workflow.py:362-391 | the order of refusals, and that an existing ledger is never reset |
| LedgerProgram.LedgerFile.Cas | scripts/dev-env/bounded_backend_workflow.py:260-273 | the stored ledger moves exactly as the specification, keeps the invariant, and is untouched by every refusal |
| LedgerGates.DispatchNeedsFreeOwner | scripts/dev-env/bounded_backend_workflow.py:295-317 | nothing is dispatched unless the owner is persistent, ready, live and not lost, every blocker was resolved under this binding, the caller is the ledger's own and the reserve stays whole behind the read |
| LedgerGates.OpenBlockerStops | scripts/dev-env/bounded_backend_workflow.py:301-304 | while one blocker has no resolution, no run without a resolution dispatches, admits a new intent or moves along the route, and the blocker stays |
| LedgerGates.InitDoes | scripts/dev-env/bounded_backend_workflow.py:362-391 | initialisation is accepted exactly for an observed persistent owner, a planned revalidation and one to four distinct endpoints that include the covered ones, and starts with nothing done |
| LedgerGates.LoadsExactly | scripts/dev-env/bounded_backend_workflow.py:113-202 | a ledger loads if and only if it keeps every bound, names everything by tokens and endpoints, and its two maps are inverse |
| LedgerGates.TokensExactly | scripts/dev-env/bounded_backend_workflow.py:45-48 | a token is one to eighty letters, digits, underscores, full stops, colons or hyphens |
| LedgerGates.EndpointsExactly | scripts/dev-env/bounded_backend_workflow.py:57-66 | an endpoint is four decimal numbers up to 255 without leading zeros and the one port and path |
| LedgerGates.CallRefusals | scripts/dev-env/bounded_backend_workflow.py:260-266 | a malformed or foreign call is rejected, and only then a stale revision is a conflict |
| LedgerGates.StageRefusals | scripts/dev-env/bounded_backend_workflow.py:313-317 | a route command without a free owner, a running clock or the reserve is a gate |
| LedgerGates.AdmissionRefusals | scripts/dev-env/bounded_backend_workflow.py:520-536 | an admission conflicts exactly with a spent slot and with other words of its own intent |
| LedgerGates.OutcomeRefusals | scripts/dev-env/bounded_backend_workflow.py:575-577 | an answered read conflicts exactly with any other answer |
| LedgerGates.ProofsAreFixed | scripts/dev-env/bounded_backend_workflow.py:268-270 | from any ledger at all an accepted call keeps every proof, and a command that would change one is rejected |
| LedgerRefusals.PrepareRefused | scripts/dev-env/bounded_backend_workflow.py:409-428 | the class of every refusal of a candidate, in the order of the checks; a repeated head is the one conflict |
| LedgerRefusals.SelectRefused | scripts/dev-env/bounded_backend_workflow.py:429-446 | the class of every refusal of a selection; a second selection is the one conflict |
| LedgerRefusals.MergeRefused | scripts/dev-env/bounded_backend_workflow.py:447-458 | the class of every refusal of a merge; a second merge is the one conflict |
| LedgerRefusals.ReversalRefused | scripts/dev-env/bounded_backend_workflow.py:459-462 | a second reversal is a conflict and a malformed head is rejected |
| LedgerRefusals.DeliveryRefused | scripts/dev-env/bounded_backend_workflow.py:463-468 | a delivery before its selection or merge, or after the revalidation, is a gate |
| LedgerRefusals.AdmissionGated | scripts/dev-env/bounded_backend_workflow.py:531-541 | whatever bars a new intent on a free slot is a gate |
| LedgerRefusals.OutcomeRefused | scripts/dev-env/bounded_backend_workflow.py:564-592 | the class of every refusal of an outcome; another answer is the one conflict |
| LedgerRefusals.BlockerRefused | scripts/dev-env/bounded_backend_workflow.py:473-480 | a ninth blocker is rejected |
| LedgerRefusals.ResolveRefused | scripts/dev-env/bounded_backend_workflow.py:494-515 | the class of every refusal of a resolution |
| LedgerRefusals.ResidualRefused | scripts/dev-env/bounded_backend_workflow.py:598-622 | the class of every refusal of a grant report; a changed class, expiry or CNP is the one conflict |
| LedgerRefusals.EvaluateRefused | scripts/dev-env/bounded_backend_workflow.py:626-674 | the class of every refusal of an audit |
| LedgerEffects.ReserveDoes | scripts/dev-env/bounded_backend_workflow.py:402-408 | when a reserve is accepted and the whole ledger it leaves |
| LedgerEffects.PrepareDoes | scripts/dev-env/bounded_backend_workflow.py:409-428 | a candidate is added exactly before any read and selection, reviewed, green, with finished checks and an allowed endpoint, at most three of them with different heads |
| LedgerEffects.SelectExistingDoes | scripts/dev-env/bounded_backend_workflow.py:429-446 | an existing branch is selected exactly when all discovery reads succeeded, the discovery proof is fresh and quoted word for word and its endpoint is covered; the route is the proof's |
| LedgerEffects.SelectNewDoes | scripts/dev-env/bounded_backend_workflow.py:429-446 | a new branch goes to the only candidate on the discovered route, and its head is selected |
| LedgerEffects.SelectNeedsRoute | scripts/dev-env/bounded_backend_workflow.py:429-446 | no selection without a discovery proof, and no new branch with no or two candidates on its route |
| LedgerEffects.MergeDoes | scripts/dev-env/bounded_backend_workflow.py:447-458 | a merge is recorded exactly once, for the selected head, with a different squash commit that Flux fetched and applied |
| LedgerEffects.ReversalDoes | scripts/dev-env/bounded_backend_workflow.py:459-462 | a reversal head is recorded exactly once |
| LedgerEffects.DeliveryDoes | scripts/dev-env/bounded_backend_workflow.py:463-468 | an observation of the delivery is recorded exactly after the selection, for a new branch after the merge, and before the revalidation |
| LedgerEffects.BlockerDoes | scripts/dev-env/bounded_backend_workflow.py:473-480 | up to eight blockers are recorded, numbered in order, and a lost owner is lost |
| LedgerEffects.ResolveDoes | scripts/dev-env/bounded_backend_workflow.py:494-517 | a blocker is resolved exactly when it is open, every blocker is recoverable, every read so far succeeded and metrics was not touched, with the reserve of the next read; only its resolution is added |
| LedgerEffects.ClosingIsRefused | scripts/dev-env/bounded_backend_workflow.py:489-490 | closing, authorising a successor and publishing are refused for every ledger |
| LedgerReadEffects.ReplayDoes | scripts/dev-env/bounded_backend_workflow.py:524-530 | a known intent in its own words moves the clock and the revision alone, and is told to be a replay |
| LedgerReadEffects.AdmitDoes | scripts/dev-env/bounded_backend_workflow.py:531-561 | a slot is consumed exactly when it is free, its turn has come and the stage is open; the stored intent and the advice word for word |
| LedgerReadEffects.MetricsDoes | scripts/dev-env/bounded_backend_workflow.py:544-561 | an admitted metrics read is dispatched with both deadlines exactly when the revalidation is quoted word for word and has ten more seconds; otherwise it is denied and the slot is spent |
| LedgerReadEffects.AnsweredDoes | scripts/dev-env/bounded_backend_workflow.py:575-578 | the first answer of a read stays, and the same answer again is a replay |
| LedgerReadEffects.OutcomeDoes | scripts/dev-env/bounded_backend_workflow.py:564-595 | an outcome other than success is recorded on a dispatched, unanswered intent and nothing else moves |
| LedgerReadEffects.SuccessDoes | scripts/dev-env/bounded_backend_workflow.py:579-594 | a success is recorded with the proof it makes: its own times, receipt, body and route under the ledger's binding |
| LedgerReadEffects.ResidualDoes | scripts/dev-env/bounded_backend_workflow.py:598-623 | when a grant report is accepted, for a known and for a new grant, and where it is stored |
| LedgerReadEffects.EvaluateDoes | scripts/dev-env/bounded_backend_workflow.py:626-682 | an audit is accepted exactly when it enumerates the grants one by one in agreement and inventories their CNPs, and is clean exactly when complete with no policy, no CNP and no active grant left |
| KeyInstall.Installer.AtomicWrite | scripts/keeper-node-trust/node_install.py:69-93 | one durable write, made whole or not at all when power runs out |
| KeyInstall.Installer.Finish | scripts/keeper-node-trust/node_install.py:173-180 | replaces the keys and promotes the receipt; the disk is the plan's prefix the power allowed |
| KeyInstall.Installer.Install | scripts/keeper-node-trust/node_install.py:139-182 | the disk and the outcome after any power are those of the installation plan |
| KeyInstall.Installer.Resume | scripts/keeper-node-trust/node_install.py:147-160 | the same for an installation that finds a receipt |
| KeyInstall.Installer.Start | scripts/keeper-node-trust/node_install.py:161-180 | the same for a first installation: backup, receipt, then replace |
| KeyInstall.Installer.Rollback | scripts/keeper-node-trust/node_install.py:185-211 | the same for the rollback |
| KeyInstallTheorems.ReceiptAlwaysSound | scripts/keeper-node-trust/node_install.py:145-173 | over every run with crashes and edits a receipt's backup holds the bytes whose two hashes it records |
| KeyInstallTheorems.LaterEditRefused | scripts/keeper-node-trust/node_install.py:155-160 | a file that is neither original nor installed makes either command refuse and change nothing |
| KeyInstallTheorems.LaterEditSurvives | scripts/keeper-node-trust/node_install.py:189-206 | such an edit survives every later series of installs and rollbacks |
| KeyInstallTheorems.AlwaysOriginalOrOneEntry | scripts/keeper-node-trust/node_install.py:139-211 | without edits the file is always the original or the original with one entry (its bytes are in `EntryBytes`), through any crashes |
| KeyInstallTheorems.InstallCompletesExactlyWhen | scripts/keeper-node-trust/node_install.py:139-182 | the exact condition under which an uninterrupted install completes, and what it leaves |
| KeyInstallTheorems.InterruptedInstallResumes | scripts/keeper-node-trust/node_install.py:145-182 | after any series of interrupted installs the next one completes with a single entry |
| KeyInstallTheorems.RollbackCompletesExactlyWhen | scripts/keeper-node-trust/node_install.py:185-211 | the exact condition under which an uninterrupted rollback completes, restoring the original byte for byte |
| KeyInstallTheorems.InterruptedRollbackIsStuck | scripts/keeper-node-trust/node_install.py:189-208 | the window between the rollback's two writes: from there both commands always refuse and nothing moves |
| KeyInstallTheorems.OversizedInstallLocksOut | scripts/keeper-node-trust/node_install.py:45-59 | an install past the read limit leaves a file no later run can read |
| KeyInstallEffects.InstalledBytes | scripts/keeper-node-trust/node_install.py:139-182 | byte for byte: the original untouched, one newline, the restricting options with the principal, a space, the key, a space, the marker, one newline, and within the limit |
| KeyInstallEffects.AlwaysTheseBytes | scripts/keeper-node-trust/node_install.py:139-211 | without edits the file is always the original or the original followed by exactly those bytes for one key, wherever the runs were cut |
| KeyInstallEffects.MarkerOnce | scripts/keeper-node-trust/node_install.py:161-163 | when the original does not name the marker the installed file names it exactly once, at its end, if and only if the key does not name it |
| KeyInstallEffects.InstalledOnce | scripts/keeper-node-trust/node_install.py:161-182 | a completed first installation of such a key leaves exactly one marker |
| KeyInstallEffects.ReceiptAlwaysSays | scripts/keeper-node-trust/node_install.py:145-173 | after any runs, cuts and edits a receipt holds the digests of its backup, of the backup with one entry, and of that entry |
| KeyInstallEffects.BackupsStay | scripts/keeper-node-trust/node_install.py:165-172 | no run and no edit ever changes or removes a backup once made |
| KeyInstallEffects.CrashPoints | scripts/keeper-node-trust/node_install.py:161-180 | the disk and the outcome of a first installation cut after each of its five writes |
| KeyInstallEffects.WhyInstallEnds | scripts/keeper-node-trust/node_install.py:139-182 | the outcome of every uninterrupted installation, reason by reason |
| KeyInstallEffects.WhyRollbackEnds | scripts/keeper-node-trust/node_install.py:185-211 | the outcome of every uninterrupted rollback, reason by reason |
| NoteFlush.Flusher.WriteRecord | scripts/openproject/opwork.py:586-604 | the atomic record write: the old record, the new one, or the new one with a reported failure |
| NoteFlush.Flusher.SendPost | scripts/openproject/opwork.py:228-258 | one POST: it lands or not, and the try is remembered |
| NoteFlush.Flusher.RemoveRecord | scripts/openproject/opwork.py:726-730 | the record is removed last, or kept with a failure |
| NoteFlush.Flusher.FlushOne | scripts/openproject/opwork.py:680-730 | the imperative flush of one note ends as `FlushNote` for every answer, failed write and crash point, and leaves the store alone whenever it keeps a note without asking for a review; what `FlushNote` leaves after every reply is in `NoteFlushEffects` |
| NoteFlush.Flusher.Flush | scripts/openproject/opwork.py:733-766 | the loop over the store stops where the specification stops |
| NoteFlushTheorems.RunKeeps | scripts/openproject/opwork.py:680-730 | the invariant over every run of saving commands and flushes |
| NoteFlushTheorems.RepostAfterRefusalExactlyWhen | scripts/openproject/opwork.py:689-725 | a second POST of a note is always by flush and with the token absent from the history; the earlier try was cleanly refused with a 4xx if and only if flush sent it, and otherwise it is the first POST of all, by the command that wrote the note, and was lost or answered with neither a 2xx nor a 4xx |
| NoteFlushTheorems.LostCommentIsPostedAgain | scripts/openproject/opwork.py:850-854 | the run that shows it: a comment's POST is lost, the note is saved without a mark, and flush POSTs it again |
| NoteFlushTheorems.NeverLostNeverTwice | scripts/openproject/opwork.py:611-618 | every saved token is in the store or in the history, and in the history at most once |
| NoteFlushTheorems.RemovedOnlyOnceLanded | scripts/openproject/opwork.py:680-730 | a record leaves exactly when the flush reports success, only with its token landed, and no other record changes |
| NoteFlushTheorems.FlushedExactlyWhen | scripts/openproject/opwork.py:680-730 | a flush of any note, structured or not, succeeds if and only if its token was in the history or is delivered now and the record can be removed; the token is then there exactly once, and one already there is not POSTed |
| NoteFlushTheorems.WholeFlushIsARun | scripts/openproject/opwork.py:733-766 | a whole flush is a run of single flushes, so the results above hold of it |
| NoteFlushEffects.SendsExactly | scripts/openproject/opwork.py:689-714 | a flush sends its note exactly once when it is unmarked, absent from a complete page, checked and not superseded, and its marker was saved; otherwise not at all |
| NoteFlushEffects.LandsExactly | scripts/openproject/opwork.py:228-258 | the history grows by the note exactly when the server kept it |
| NoteFlushEffects.UnsentLeaves | scripts/openproject/opwork.py:680-705 | what each flush that sends nothing leaves and reports |
| NoteFlushEffects.MarkerLeaves | scripts/openproject/opwork.py:706-710 | what a failed marker write or a crash around it leaves: no POST, and the marker if it got to disk |
| NoteFlushEffects.ReplyLeaves | scripts/openproject/opwork.py:711-730 | the record after every reply: started after a lost one, unmarked after a clean refusal, started and accepted after an unconfirmed 2xx, started after any other, gone when read back |
| NoteFlushEffects.CrashLeaves | scripts/openproject/opwork.py:706-725 | a crash after the POST leaves the started mark |
| NoteFlushEffects.RefusedNoteIsSentAgain | scripts/openproject/opwork.py:715-717 | after a clean refusal whose rewrite was saved the store is as before, and the next flush with an honest complete page sends the note exactly once more |
| NoteFlushEffects.RefusalsChangeNothing | scripts/openproject/opwork.py:715-717 | so any number of refused flushes sends that many times and leaves store and history as they were |
| NoteFlushEffects.CommentLeaves | scripts/openproject/opwork.py:468-476 | what a comment command sends and saves for every reply |
| NoteFlushEffects.CheckpointLeaves | scripts/openproject/opwork.py:611-618 | an offline note is stored unmarked and nothing is sent |
| NoteFlushEffects.NothingAfterAStop | scripts/openproject/opwork.py:744-762 | after a failing local store, an unreachable tracker or a crash no later record is touched |
| NoteFlushEffects.OtherwiseTheNext | scripts/openproject/opwork.py:737-748 | after a flushed or kept record the next stored note is flushed; intents are passed over |
| AudioRuntime.Runtime.SubmitJob | scripts/audio-authoring/service.py:375-408 | the lock section: refused, or the job stored, written and queued once |
| AudioRuntime.Runtime.CancelJob | scripts/audio-authoring/service.py:425-443 | the lock section: finished jobs untouched, otherwise cancelled and the running process handed out for termination |
| AudioRuntime.Runtime.Take | scripts/audio-authoring/service.py:463-474 | the worker starts a job only while it is still queued |
| AudioRuntime.Runtime.Assign | scripts/audio-authoring/service.py:514-523 | the post-launch check asks for termination exactly when the job is no longer running or the service stops |
| AudioRuntime.Runtime.Clear | scripts/audio-authoring/service.py:537-540 | the current process is forgotten only by its own job |
| AudioRuntime.Runtime.FinishJob | scripts/audio-authoring/service.py:541-573 | a withdrawn job keeps its status, any other becomes completed when the run was good and failed when it was not, in memory and on disk |
| AudioRuntime.Runtime.FailJob | scripts/audio-authoring/service.py:475-487 | an unexpected error fails only an unfinished job |
| AudioRuntime.Runtime.Stop | scripts/audio-authoring/service.py:622-640 | the shutdown loop interrupts exactly the unfinished jobs, in any order |
| AudioRuntime.Runtime.RecoverJobs | scripts/audio-authoring/service.py:304-319 | the recovery loop loads every job and interrupts exactly the unfinished ones |
| AudioRuntime.DrainOutput | scripts/audio-authoring/service.py:576-584 | the kept tail is the last bytes of everything read, for any blocks |
| AudioRuntimeTheorems.RunKeeps | scripts/audio-authoring/service.py:277-640 | the invariant under every interleaving of lock sections, stops, crashes and restarts |
| AudioRuntimeTheorems.FinishedStaysFinished | scripts/audio-authoring/service.py:425-443 | a terminal status never changes, in memory or on disk, through any continuation |
| AudioRuntimeTheorems.ReportedStatusIsFinal | scripts/audio-authoring/service.py:410-416 | a terminal status once returned to a caller is the status for ever |
| AudioRuntimeTheorems.AtMostOneRunning | scripts/audio-authoring/service.py:463-487 | at most one job is running |
| AudioRuntimeTheorems.QueuedOnceOrInHand | scripts/audio-authoring/service.py:375-487 | a queued job is in the bounded queue exactly once or in the worker's hand |
| AudioRuntimeTheorems.CrashThenRecovery | scripts/audio-authoring/service.py:304-319 | a crash at any point and a recovery in any order leaves every job terminal and reported ones unchanged |
| AudioRuntimeTheorems.CancellationNeverMissed | scripts/audio-authoring/service.py:425-443 | without stop, a withdrawn job's live child is always committed to termination or about to be checked |
| AudioRuntimeTheorems.CancelledStaysCancelled | scripts/audio-authoring/service.py:565-573 | a cancelled job never ends as completed |
| AudioRuntimeTheorems.CompletedOnlyByAGoodRun | scripts/audio-authoring/service.py:546-573 | a job completes only from running, with exit zero in time and a valid artifact |
| AudioRuntimeEffects.QueuedExactly | scripts/audio-authoring/service.py:375-408 | a job is queued exactly by a submission to a ready service that is not stopping and has fewer than four waiting, at the end of the queue |
| AudioRuntimeEffects.RunningExactly | scripts/audio-authoring/service.py:463-474 | a job is running exactly from the worker's first section on, if it was still queued |
| AudioRuntimeEffects.CompletedExactly | scripts/audio-authoring/service.py:546-573 | completed exactly by the verdict on a running job whose child ended in time with code zero and a valid artifact |
| AudioRuntimeEffects.FailedExactly | scripts/audio-authoring/service.py:475-573 | failed exactly by the verdict on any other end, or by an unexpected error of the worker |
| AudioRuntimeEffects.CancelledExactly | scripts/audio-authoring/service.py:425-443 | cancelled exactly by a cancellation of an unfinished job |
| AudioRuntimeEffects.InterruptedExactly | scripts/audio-authoring/service.py:622-631 | interrupted exactly by a shutdown or a restart that finds the job unfinished |
| AudioRuntimeEffects.RecordsStay | scripts/audio-authoring/service.py:304-319 | no step loses a record, and only an unfinished one changes |
| AudioRuntimeEffects.VerdictDecides | scripts/audio-authoring/service.py:541-573 | the verdict leaves a withdrawn job alone and makes any other completed or failed on the merits, in memory and on disk alike, and no other job changes |
| AudioRuntimeEffects.MemoryIsDisk | scripts/audio-authoring/service.py:375-573 | in every reachable serving state a client reads from memory what is on disk |
| AudioRuntimeEffects.ReportedExactly | scripts/audio-authoring/service.py:410-443 | a terminal status is reported exactly by asking for or cancelling a finished job, and it is the job's |
| AudioRuntimeEffects.FirstInFirstOut | scripts/audio-authoring/service.py:463-466 | between crashes the worker takes the jobs in exactly the order they were accepted |
| AudioRuntimeEffects.CondemnedExactly | scripts/audio-authoring/service.py:425-535 | a child is to be ended exactly for a cancellation of the current job, its timeout, a shutdown, or a job withdrawn before the child was known |
| AudioRuntimeEffects.AliveExactly | scripts/audio-authoring/service.py:506-513 | a child lives from its start to its own end |
| AudioRuntimeEffects.WorkerExactly | scripts/audio-authoring/service.py:463-573 | where each section takes the worker from each place |
| AudioRuntimeEffects.CurrentExactly | scripts/audio-authoring/service.py:514-540 | the current child is known from its assignment to the clearing of the same job |
| AudioRuntimeEffects.PhaseExactly | scripts/audio-authoring/service.py:277-319 | shutdown, crash, restart and recovery of the service |
| AudioRuntimeEffects.JobRunsThrough | scripts/audio-authoring/service.py:463-573 | a queued job left alone runs to its end: completed or failed on the merits, no child alive, the worker free |
| AudioRuntimeEffects.TailIsTheEnd | scripts/audio-authoring/service.py:576-584 | what is kept of the output is its end, at most 16 KiB |
| ProofFrame.FirstLine | scripts/book-copy-writer/proof_transport.py:77-80 | the line is a bounded prefix with no newline before its end |
| ProofFrame.Stream.Read | scripts/book-copy-writer/proof_transport.py:109 | any nonempty part of what was asked for, empty only at the end |
| ProofFrame.Stream.ReadLine | scripts/book-copy-writer/proof_transport.py:77 | the bounded line at the current position |
| ProofFrame.ReadExactly | scripts/book-copy-writer/proof_transport.py:104-113 | whatever the chunks, exactly the declared bytes, or nothing when the stream is too short |
| ProofFrame.ReceiveAll | scripts/book-copy-writer/proof_transport.py:102-116 | the loop over the header's rows takes the files off the stream as specified |
| ProofFrame.ReceiveFiles | scripts/book-copy-writer/proof_transport.py:75-125 | the receiver returns what the specification says for every stream and every chunking |
| ProofFrame.Copy | scripts/book-copy-writer/proof_transport.py:149-155 | chunked writing writes the file |
| ProofFrame.Send | scripts/book-copy-writer/proof_transport.py:128-159 | the sender writes the header line and the three files, or refuses a wrong set, size or binding |
| ProofFrame.ReceiveInvertsSend | scripts/book-copy-writer/proof_transport.py:75-159 | what was sent is received back if and only if the gate carries the sender's binding and hashes |
| ProofFrame.AcceptedIsExact | scripts/book-copy-writer/proof_transport.py:75-125 | an accepted stream is one approved header line and exactly the declared bytes, each file with its approved hash |
| ProofFrame.GateDeterminesFiles | scripts/book-copy-writer/proof_transport.py:84-115 | without hash collisions one gate lets one set of files through |
| ProofFrameEffects.AcceptsExactly | scripts/book-copy-writer/proof_transport.py:75-125 | a stream is accepted as these files if and only if the gate is complete and the stream is one approved header line of at most 4096 bytes and then exactly the three files with their lengths and hashes |
| ProofFrameEffects.FirstLineExactly | scripts/book-copy-writer/proof_transport.py:77-80 | the line read goes to the first newline, or as far as the limit and the stream allow |
| ProofFrameEffects.SendsExactly | scripts/book-copy-writer/proof_transport.py:128-143 | a sender takes exactly the three files, each nonempty and within its limit, under a well-formed binding |
| ProofFrameEffects.SentBytes | scripts/book-copy-writer/proof_transport.py:144-158 | what is sent, byte for byte |
| PublicationTheorems.RunKeeps | scripts/book-copy-writer/proof_transport.py:97-125 | the invariant of files, names and receivers under every interleaving and every stop |
| PublicationTheorems.AtMostOnePublishes | scripts/book-copy-writer/proof_transport.py:186-191 | two receivers that ever link the marker in one run are the same receiver |
| PublicationTheorems.ConsumedIsPublished | scripts/book-copy-writer/proof_transport.py:197-222 | the waiter looks at the files only when one receiver has verified, synced, frozen and fully published all three |
| PublicationTheorems.WaiterNeverRefuses | scripts/book-copy-writer/proof_transport.py:215-262 | no interleaving makes any of the waiter's checks fail |
| PublicationTheorems.PublishedFilesStay | scripts/book-copy-writer/proof_transport.py:190-194 | from the link on no continuation changes a file |
| PublicationTheorems.HalfPublishedIsNeverConsumed | scripts/book-copy-writer/proof_transport.py:210-213 | a receiver stopped between link and unlink leaves two links for ever and the waiter never looks |
| PublicationTheorems.WaiterAccepts | scripts/book-copy-writer/proof_transport.py:204-262 | once the staging name is gone the waiter by itself accepts |
| PublicationEffects.AdvanceExactly | scripts/book-copy-writer/proof_transport.py:97-194 | each step of a receiver: it stops exactly when barred, and otherwise what it does to files, names and marker |
| PublicationEffects.AppendExactly | scripts/book-copy-writer/proof_transport.py:104-111 | bytes go to the file in hand and never past its declared length |
| PublicationEffects.ArriveExactly | scripts/book-copy-writer/proof_transport.py:82-93 | only three approved rows with different names let a receiver in |
| PublicationEffects.StopsExactly | scripts/book-copy-writer/proof_transport.py:167-194 | a stopped receiver does nothing more |
| PublicationEffects.WaiterExactly | scripts/book-copy-writer/proof_transport.py:197-222 | the waiter looks once the marker has one name, and accepts only after the listing, the marker, each file and the listing again |
| PublicationEffects.MarkerCheck | scripts/book-copy-writer/proof_transport.py:225-246 | the marker passes exactly when it names the three files with lengths within their limits |
| PublicationEffects.LeftAloneIsAccepted | scripts/book-copy-writer/proof_transport.py:167-222 | whatever happened before, with the directory made and empty a receiver left to itself publishes its bundle, in any chunks, and the waiter then accepts it |
| CellDelta.Find | scripts/book-native-scan-fixture/Program.cs:393 | the only row with a key, or none when it is missing or repeated |
| CellDelta.RequireDelta | scripts/book-native-scan-fixture/Program.cs:397-408 | passes if and only if the after-snapshot is the sorted before-snapshot with exactly the declared cells changed |
| CellDelta.Sort | scripts/book-native-scan-fixture/Program.cs:396 | sorts every table, in whatever order they are visited |
| CellDelta.SortIsCanonical | scripts/book-native-scan-fixture/Program.cs:396 | two tables sort to the same list if and only if they are equal as multisets |
| CellDelta.SortedComparison | scripts/book-native-scan-fixture/Program.cs:396-408 | the same for whole snapshots |
| CellDeltaTheorems.SameApply | scripts/book-native-scan-fixture/Program.cs:397-408 | applying changes does not depend on row order |
| CellDeltaTheorems.DeltasCompose | scripts/book-native-scan-fixture/Program.cs:489-496 | two declared steps are one step declaring both |
| CellDeltaTheorems.ApplyIsDeclared | scripts/book-native-scan-fixture/Program.cs:397-408 | every cell that differs was declared; rows keep place, columns and key |
| CellDeltaTheorems.CellsAtBothEnds | scripts/book-native-scan-fixture/Program.cs:494-496 | over distinct cells each declared before-value is in the first snapshot and each after-value in the last |
| CellInverse.RequireScanDelta | scripts/book-native-scan-fixture/Program.cs:427-446 | passes if and only if every allowed cell meets its rule and nothing else changed; a fixed cell then holds its reviewed value |
| CellInverse.HitsOne | scripts/book-native-scan-fixture/Program.cs:499-518 | a full-row compare-and-set hits exactly the row with that key |
| CellInverse.ApprovedStateIsExact | scripts/book-native-scan-fixture/Program.cs:489-496 | the reconstructed change from original to after always passes its check |
| CellInverse.OneUpdate | scripts/book-native-scan-fixture/Program.cs:499-519 | each grouped update finds its row as the scan left it, touches one row, and puts the original row back |
| CellInverse.Candidate.Restore | scripts/book-native-scan-fixture/Program.cs:499-519 | the loop of updates fails only for a column name with a double quote and otherwise restores the original |
| CellInverse.Candidate.InvertCatalog | scripts/book-native-scan-fixture/Program.cs:487-523 | succeeds if and only if its opening checks and the column names allow it; then the database is the original, undeclared cells included, and otherwise it is untouched |
| CellEffects.DeltaExactly | scripts/book-native-scan-fixture/Program.cs:397-408 | the delta check passes if and only if every declared cell holds its two values, no other cell changed and the tables are sorted |
| CellEffects.ScanExactly | scripts/book-native-scan-fixture/Program.cs:427-446 | the scan check passes if and only if every allowed cell held its before-value and now holds what its rule allows, and no other cell changed |
| CellEffects.ScannedCells | scripts/book-native-scan-fixture/Program.cs:430-443 | a fixed cell holds its reviewed value, a colour cell no colour or six upper-case hexadecimal digits, a clock cell an accepted reading, and all but colours something new |
| CellEffects.OtherCellsStay | scripts/book-native-scan-fixture/Program.cs:427-446 | every cell no allowance names is as before, and so is the schema |
| CellEffects.InvertsExactly | scripts/book-native-scan-fixture/Program.cs:487-498 | the checks before the inverse pass if and only if both steps are exact, thirty-two different cells in five rows go back and the database is the scanned one |
| CellEffects.RestorationExactly | scripts/book-native-scan-fixture/Program.cs:491-493 | the restoration names thirty-two different cells in five rows |
| CellEffects.QuotesExactly | scripts/book-native-scan-fixture/Program.cs:503 | the names of the columns to restore are free of double quotes |
| Download.Files.Seed | scripts/comfyui/provision.py:719-747 | the running hash has covered exactly the partial file kept |
| Download.Files.Transfer | scripts/comfyui/provision.py:774-806 | file and hash grow together block by block, restarting when the range was ignored |
| Download.Files.TryOnce | scripts/comfyui/provision.py:718-844 | at the end of every attempt the running hash has covered exactly the partial file that is left |
| Download.Files.DownloadFile | scripts/comfyui/provision.py:691-861 | hash and size returned are those of the destination, which is written once; failures leave it alone and the hash on the partial file; at most retries plus one requests; the last raise is reached only for negative retries |
| Download.HonestDelivers | scripts/comfyui/provision.py:721-855 | from any prefix an honest server with a known total yields only the full content, and failures leave a prefix |
| Download.SucceedsExactlyWhen | scripts/comfyui/provision.py:721-855 | with such a server the download succeeds if and only if some attempt completes before a fatal error and the hash agrees |
| Download.RangeServerDelivers | scripts/comfyui/provision.py:618-629 | resuming works if and only if the partial file is a proper prefix; a complete one is refused with 416 for ever |
| Download.TruncationUndetectedExactlyWhen | scripts/comfyui/provision.py:721-855 | for any retries, partial file and replies that send only bytes of the content, the download ends well with something else if and only if some attempt it reaches ends cleanly before the content does, told no total, zero or no more than it sent, and passes any expected hash |
| DownloadEffects.RefusedExactly | scripts/comfyui/provision.py:750-772 | a refused request leaves what was kept, and is tried again exactly for the listed statuses or a connection error, unless it was the last try |
| DownloadEffects.ReplyExactly | scripts/comfyui/provision.py:774-848 | what a reply leaves and when it is continued, dropped or done |
| DownloadEffects.RunsOn | scripts/comfyui/provision.py:716-722 | each attempt goes on from what the one before left, and only the one that uses up the retries is the last |
| DownloadEffects.PiecesAddUp | scripts/comfyui/provision.py:721-850 | a connection that breaks off every time still completes once the pieces make up the content |
| StageJournal.Session.TakeLine | scripts/book-reading-list-stage/run-stage.py:194-223 | one line: checked, written, then acknowledged, in that order, or stopped with what was written |
| StageJournal.Session.TakeChunk | scripts/book-reading-list-stage/run-stage.py:191-223 | one read: bounded before splitting, then every complete line |
| StageJournal.Session.Execute | scripts/book-reading-list-stage/run-stage.py:180-227 | the loop over all reads ends as specified, with the same journal and acknowledgements |
| StageJournal.ChunkingDoesNotMatter | scripts/book-reading-list-stage/run-stage.py:186-195 | two ways to cut the same bytes within the bound give the same outcome, journal and acknowledgements |
| StageJournal.BoundDependsOnChunking | scripts/book-reading-list-stage/run-stage.py:191-193 | after any run so far, two ways to cut the same bytes of which one is stopped by the bound and the other writes the line and reads on |
| StageJournal.ReadThroughExactlyWhen | scripts/book-reading-list-stage/run-stage.py:186-223 | a run is read through if and only if no read overran the bound and the lines form the chain |
| StageJournal.AcceptedExactly | scripts/book-reading-list-stage/run-stage.py:194-223 | bytes are read to their end if and only if their lines form the hash chain from the zeros |
| StageJournal.SuccessIsAChain | scripts/book-reading-list-stage/run-stage.py:224-232 | a successful stage received exactly its contiguous chain ending in complete, each entry on disk before its acknowledgement |
| StageJournal.EveryAckFollowsItsEntry | scripts/book-reading-list-stage/run-stage.py:210-221 | however a run ends, each acknowledgement is for the entry written just before it |
| StageJournal.FinalHashFixesJournal | scripts/book-reading-list-stage/run-stage.py:203-230 | without collisions two runs with the same final hash hold the same events |
| StageJournalEffects.LineExactly | scripts/book-reading-list-stage/run-stage.py:194-223 | what each line leads to: stopped unwritten, stopped after writing it, or written and acknowledged |
| StageJournalEffects.SucceedsExactly | scripts/book-reading-list-stage/run-stage.py:180-232 | a stage succeeds if and only if the child ended with zero and sent, in reads that never held more than 8 MiB, one chain of at most 32 MiB of admitted entries that ends complete, and nothing else |
| StageJournalEffects.LinesExactly | scripts/book-reading-list-stage/run-stage.py:194-195 | there is one way to cut bytes at their newlines |
| SchemaCodec.Quote | scripts/book-native-scan-fixture-host/schema_codec.py:12-24 | the escape loop writes the quoted text, and refuses anything outside ASCII |
| SchemaCodec.ReadInvertsQuote | scripts/book-native-scan-fixture-host/schema_codec.py:12-24 | a reader by section 7 of RFC 8259 recovers the string and the text after it |
| SchemaCodec.QuotingIsUniquelyDecodable | scripts/book-native-scan-fixture-host/schema_codec.py:12-24 | no quoted string is a prefix of another |
| SchemaCodec.QuotedIsPlain | scripts/book-native-scan-fixture-host/schema_codec.py:15-23 | the output is printable ASCII without the avoided characters |
| SchemaCodec.ReadInvertsSerialized | scripts/book-native-scan-fixture-host/schema_codec.py:27-28 | an array of strings is recovered exactly, whatever follows |
| SchemaCodec.SchemaText | scripts/book-native-scan-fixture-host/schema_codec.py:31-37 | refuses exactly the inadmissible rows, and quoting the rows again never fails |
| SchemaCodec.ReadInvertsCell | scripts/book-native-scan-fixture-host/schema_codec.py:36 | a null cell and any text cell stay apart |
| SchemaCodec.SchemaDetermined | scripts/book-native-scan-fixture-host/schema_codec.py:31-37 | the hashed text is equal if and only if the rows are |
| SchemaCodec.SuffixKeepsTicks | scripts/book-native-scan-fixture-host/schema_codec.py:43-46 | the fraction without trailing zeros still gives the tenths of microseconds |
| SchemaCodecEffects.CharExactly | scripts/book-native-scan-fixture-host/schema_codec.py:15-23 | how each character is written: a short escape, a code with two upper-case digits, or itself |
| SchemaCodecEffects.QuotedExactly | scripts/book-native-scan-fixture-host/schema_codec.py:16-24 | a quoted string is its characters one by one between two quotation marks |
| SchemaCodecEffects.ArrayExactly | scripts/book-native-scan-fixture-host/schema_codec.py:27-28 | an array is its quoted strings with commas in brackets |
| SchemaCodecEffects.RowExactly | scripts/book-native-scan-fixture-host/schema_codec.py:31-36 | a row is written exactly when it has four cells, is no trigger and is ASCII; its text |
| SchemaCodecEffects.SuffixExactly | scripts/book-native-scan-fixture-host/schema_codec.py:43-46 | the fraction is empty below a tenth of a microsecond, and otherwise a point and up to seven digits that end in no zero and stand for the tenths exactly |

## Left out

- Argument parsing, printing, error texts, JSON syntax, file modes, symlink, owner and identity checks, and every deadline that only aborts.
- Ledger: records with a choice outside the parser's enumerations cannot be written down in the model, and the duplicate copies of an outcome's receipt are one field.
- Ledger: `show`, the lock file itself and the temporary file of `atomic_dump`; a busy lock is an input.
- KeyInstall: edits between the last check and the replace, so the concurrent-edit and preservation refusals cannot arise; metadata changes and stage files.
- KeyInstall.Installer.AtomicWrite: does not model the comparison of the current file with the expected bytes before the replace, because in the model nothing edits the file in between.
- NoteFlush.Flusher.SendPost: does not model the read back and the classification of the answer, which are inputs that `FlushOne` reacts to.
- NoteFlush: two flush processes at once, a POST still in flight when the history is read, and the text of notes (a note is its token).
- AudioRuntime: a failing `atomic_write_job`, real subprocess behaviour, memory sampling, model hashing, and child processes orphaned by task cancellation inside `stop()`.
- ProofFrame.Send: does not model the second hash and identity check of each file while it is streamed, because a sender's file is a value that cannot change.
- ProofFrame: changes to a sender's file while it is read, and the JSON grammar of the header.
- Publication: modelled as steps on values, so the file objects of `receive_to_ready` are not mutable objects; tampering by a process that is neither a receiver nor the waiter, and a collision of two random staging names.
- CellInverse.Candidate.InvertCatalog: `NoKeyFields` stands for the fixed field lists that FixtureProtocol.cs checks beforehand; SQL constraints, triggers and integrity checks during the transaction are not modelled, and cell text is taken to decode back to the cell.
- CellDelta: the two reviewed clock and row-version computations are a parameter or a fixed value.
- Download: the lower-casing of an expected hash, redirects and tokens, backoff times, progress output, a failing `unlink`, and content that changes at the server between attempts.
- StageJournal: the messages exchanged before the first event, the child process and its exit beyond a status, and the content of the completion file.
- SchemaCodec: calendar and time zone conversion in `file_times`.
- The other scripts of the repository: gates over fixed sets, generators and I/O whose properties one reading settles.
