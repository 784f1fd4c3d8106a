# Koder protocols, modelled and proved in Dafny

The project models six parts of Koder whose correctness comes from an invariant kept by
several functions, and proves what they promise for every input and every run.

* **OAuth refresh.** `TokenStore` is the credential store: one register per provider spread
  over a Keychain item and a token file. `RefreshProtocol` runs any number of refreshers,
  logins, logouts and token updates over it in any interleaving; between two awaits of the
  source there is one event. `RefreshLegacy` says what a token file left by an
  older release does to it, `RefreshOutcome` what a caller gets, `TokenReplies` when the
  store's calls return and with what, `RefreshRuns` stretches of runs, `RefreshLease` holds the lease loop and `_commit_refresh` as
  written. The setting is section 6 of RFC 6749: a refresh may rotate the refresh token.
* **MCP tool names.** `McpNameText` has the text and hexadecimal helpers, `McpAllocation` the
  name of an identity as a function of the *set* of identities, `McpAllocator` the source's
  loops, which are proved to hand out exactly those names. `McpNameRules` says what the
  names look like in terms of the servers' and tools' own text. Both hashes are arbitrary
  functions to hexadecimal strings of their length.
* **History replacement and legacy import.** `ReplacementRows` says which rows and timestamps
  remain, `SessionReplace` runs the worker, the coordinator, the awaiting coroutine, other
  writers and cancellations against each other, `LegacyImport` is the import transaction.
* **Session goals.** `GoalStore` is the table, `GoalRuntime` the turn accounting and the
  prompts, `GoalAccounting` whole runs of turns, tools and other callers,
  `GoalContinuation` the automatic continuation loop.
* **Wrapped input.** `InputScroll` is the input window: wrapping, and the scroll position.
* **Tool pairing, approvals, queued input.** `ToolPairing` has the three passes,
  `ToolPairingProofs` what they achieve, `ToolCallIds` that ids do not collide, `ApprovalBroker` the single-slot rendezvous,
  `QueuedInput` the queue and the text that is added to a tool's output and taken off again.

Objects that the source updates in place are classes (`TokenStorage`,
`ReplacementCoordinator`, `SessionDatabase`, `GoalTable`, `Runtime`, `InputWindow`,
`ApprovalBroker`, `QueuedInputManager`); each method's `ensures` ties the new state to a
function of the old one, and the properties are proved about those functions. Loops of the
source are loops. Answers of the operating system, the network and the clock are parameters
or events, so every property holds for all of them.

Some promises do not hold on all inputs. For these there is a lemma with a concrete case or
a family of cases, and a lemma with the exact condition:

* a raised delete can bring back an unmarked token file of an older release. Every store
  operation is atomic on the register except exactly those deletes (`TokenStore.AtomicIff`;
  `DeleteResurfacesIff` gives the stores, `DeleteCanResurface` a case), and a tolerant load
  returns something else than the register exactly if such a file lies hidden under a
  Keychain item that cannot be read (`TokenStore.LoadMisreadsIff`). For the refresh protocol
  this means that four promises fail exactly on some of the stores that an old release left,
  and each condition is about the store before the first event: a caller can be handed
  credentials that the register never held (`RefreshLegacy.OutcomesAreStoredIff`) or did not
  hold since its job began (`OutcomesAreTimelyIff`), a replaced snapshot can be sent again
  (`NothingIsResentIff`), and a logout can fill an empty store (`OnlySaveFillsIff`).
  `HiddenCredentialsAreHandedOut`, `ReplacedSnapshotIsSentAgain` and `LogoutFillsTheStore` are
  cases. (The conditions name a valid provider identifier: for any other no refresh begins.)
  The theorems of `RefreshProtocol` hold for every store;
* an import that was stopped inside a transcript cannot be resumed
  (`LegacyImport.ResumeInsideRow`);
* `complete` does not absorb: `GoalStore.CompleteSurvivesStatementIff` says which statements
  let a complete goal go, `GoalRuntime.CompleteSurvivesIff` which turn ends do, and
  `GoalRuntime.CompleteIsNotAbsorbing` is such a turn end;
* after a cancelled or failed turn no continuation prompt follows for its goal
  (`GoalRuntime.ContinuationFollowsIff`), but the wrap-up prompt can, although nothing failed
  (`GoalRuntime.WrapUpFollowsIff`, `CancelledTurnGetsWrapUp`);
* `clear_turn_goal` is documented as detaching the turn from its goal, but it only forgets
  that the wrap-up prompt was given. So a goal gets a second wrap-up prompt exactly if it is
  still budget-limited and a tool call of the turn made the runtime forget
  (`GoalContinuation.SecondWrapUpIff`), and a model that reports "blocked" through the tool
  every time gets one after every turn that the scheduler's caps let through, 25 by default
  (`GoalContinuation.ClearingRepeatsTheWrapUp`, `DefaultCapsAllowTwentyFive`);
* the pairing pipeline is idempotent exactly when the responses without an id do not
  outnumber the calls of their name and no repair is hidden in a part that is also a call
  while orphans of its name are left (`ToolPairingProofs.IdempotentIff`;
  `SeparatePartsIdempotentIff` for histories without such parts);
* a repair can give out an id that a response of its name already has, exactly if the next
  free call is answered in a part that is also a call: such parts are overlooked when claims
  are collected (`ToolPairingProofs.DoubleClaimIff`, `BothCanDoubleClaim`);
* pass 3 writes an empty list of parts into a content that has none, so the pipeline changes
  nothing but ids exactly if no content lacks its parts (`ToolPairing.SameButIdsIff` and the
  contracts of `FixToolResponseGrouping` and `ApplyToolPairingFixes`;
  `ContentWithoutParts` is an input);
* activating the broker over a request on display lets it be answered in an activation that
  did not issue it: always from such a state (`ApprovalBroker.DisturbingCrosses`), and never
  otherwise (`ApprovalBroker.AnswersBelong`). `has_pending_request` tells before the call;
* queued input that quotes the marker stays visible when the tool's output is blank
  (`QueuedInput.StripHidesBlockIff`).

## Model

| member | source | states |
|---|---|---|
| TokenStore.Load | koder_agent/auth/token_storage.py:158-192 | a strict load that returns gives the register's value; a tolerant one never gives anything else unless an unmarked legacy file is present; only a strict load raises |
| TokenStore.SaveStep | koder_agent/auth/token_storage.py:114-144 | after a normal return the register holds the new credentials whatever stale copy either backend kept; after an exception it holds the old or the new value |
| TokenStore.DeleteStep | koder_agent/auth/token_storage.py:221-230 | after a normal return every read is empty; after an exception, without an unmarked file, the value is the old one or gone |
| TokenStore.DeleteResurfacesIff | koder_agent/auth/token_storage.py:221-230 | some answer of the backends makes a raised delete uncover a third value exactly if an unmarked file lies hidden under a different Keychain item |
| TokenStore.DeleteCanResurface | koder_agent/auth/token_storage.py:221-230 | a store and an answer for which the old credentials come back |
| TokenStore.LoadMisreadsIff | koder_agent/auth/token_storage.py:158-192 | a tolerant load returns credentials that are not the register's exactly if a legacy file lies hidden under a Keychain item that cannot be read |
| TokenStore.Apply | koder_agent/auth/token_storage.py:194-230 | what each reply tells the caller about the register: a successful compare-and-swap found the expected snapshot, a refused one found another value and wrote nothing |
| TokenStore.AtomicIff | koder_agent/auth/token_storage.py:80-230 | every mutating call is atomic on one register, its whole effect when it returns and its whole effect or none when it raises, except exactly the deletes that take the Keychain item from over a legacy file and leave the file |
| TokenStore.RunRefinesRegister | koder_agent/auth/token_storage.py:80-230 | every run in which no delete uncovers a legacy file is a run of one ideal register per provider in which every call that returned took effect, in order |
| TokenStore.CleanStoresUncoverNothing | koder_agent/auth/token_storage.py:80-230 | without legacy files, or without a Keychain, no run has such a delete |
| TokenStore.StrictLoadReturnsLastSave | koder_agent/auth/token_storage.py:114-192 | after any run, a strict load gives back the credentials of the last completed save, whatever happened to other providers since, or raises because the Keychain could not be asked |
| TokenStore.OtherProvidersUntouched | koder_agent/auth/token_storage.py:71-99 | calls for other providers leave a provider's copies alone |
| TokenReplies.LoadAnswers | koder_agent/auth/token_storage.py:158-192 | a load answers with the register wherever the Keychain has no say or can be read; otherwise exactly a strict one raises, and a tolerant one makes do with the file |
| TokenReplies.MarkedFileIsRead | koder_agent/auth/token_storage.py:160-170 | a marked file is read whatever the Keychain holds or answers |
| TokenReplies.SaveReturnsIff | koder_agent/auth/token_storage.py:114-144 | a save returns exactly if the Keychain is not left uncertain and the file step that its answer calls for succeeds, and leaves the credentials in the Keychain and no file, or in a marked file beside an untouched Keychain |
| TokenReplies.RefusedSaveIsFound | koder_agent/auth/token_storage.py:131-144 | credentials saved while the Keychain refuses are found by every later load, whatever the Keychain answers then |
| TokenReplies.DeleteReturnsIff | koder_agent/auth/token_storage.py:221-230 | a delete returns exactly if the Keychain confirms and the file, if there is one, goes |
| TokenReplies.SaveIfCurrentReplies | koder_agent/auth/token_storage.py:194-207 | true exactly if the register can be read, holds the expected snapshot and the save goes through; false exactly if it can be read and holds something else |
| TokenReplies.UpdateReplies | koder_agent/auth/token_storage.py:277-305 | when an update returns, that it changes the access token and the expiry, and that an empty refresh token keeps the old one |
| TokenReplies.ProviderNames | koder_agent/auth/token_storage.py:71-74 | an identifier is valid exactly if it is one or more letters, digits, underscores and hyphens |
| TokenStore.TokenStorage.LoadTokens | koder_agent/auth/token_storage.py:146-192 | the branches of _load, tied to Load; an invalid provider identifier raises |
| TokenStore.TokenStorage.Publish | koder_agent/auth/token_storage.py:114-144 | the in-place writes and unlinks of _save, tied to SaveStep |
| TokenStore.TokenStorage.SaveTokens | koder_agent/auth/token_storage.py:80-87 | save has the effect of its operation on this provider's copies and none on others |
| TokenStore.TokenStorage.SaveTokensIfCurrent | koder_agent/auth/token_storage.py:194-207 | returning true means that the register held the expected snapshot and now holds the refreshed one |
| TokenStore.TokenStorage.DeleteTokens | koder_agent/auth/token_storage.py:209-230 | a normal return means that the register is empty |
| TokenStore.TokenStorage.UpdateAccessToken | koder_agent/auth/token_storage.py:277-305 | the changed fields are written over what a strict load found; an empty refresh token keeps the old one |
| RefreshLease.AcquireLease | koder_agent/auth/client_integration.py:177-200 | the lease loop stops in the first round with a cancellation, a passed deadline, a failing lock or a free one, for that reason, and makes at most 600 attempts |
| RefreshLease.RoundStopsAtCheck | koder_agent/auth/client_integration.py:184-190 | the first event of a round in the protocol ends the job exactly where this loop stops without an attempt |
| RefreshLease.RoundTriesOnce | koder_agent/auth/client_integration.py:191-200 | the second takes the lease or ends the job exactly where this loop stops, and otherwise sleeps for the same time |
| RefreshLease.CommitRefresh | koder_agent/auth/client_integration.py:69-87 | the result is published only over the snapshot it was computed from; otherwise nothing is written and the concurrent winner is returned exactly if it is still valid |
| RefreshLease.CommitIsTwoEvents | koder_agent/auth/client_integration.py:69-87 | the commit and the reuse of a winner are two events of the protocol with the same outcome |
| RefreshProtocol.StepInv | koder_agent/auth/client_integration.py:127-225 | every event of every participant keeps the protocol's invariant |
| RefreshProtocol.AtMostOneHolder | koder_agent/auth/client_integration.py:177-225 | in every run at most one job is between acquiring and releasing the lease |
| RefreshProtocol.PublishedOverOwnSnapshot | koder_agent/auth/client_integration.py:69-87 | in every run a refresh is written only over the exact snapshot its own request was sent for, so a login or logout during the exchange is never overwritten; that snapshot was the register's value when the job loaded it, unless it misread the store |
| RefreshProtocol.StoreIsFilledIff | koder_agent/auth/token_storage.py:194-230 | in every run the writes that fill an empty store are exactly explicit saves and deletes that uncover a legacy file |
| RefreshLegacy.OnlySaveFillsIff | koder_agent/auth/token_storage.py:194-230 | some run fills an empty store otherwise than by an explicit save exactly if the store began with a legacy file hidden under a Keychain item and no credentials in the register |
| RefreshProtocol.NoResendAfterCommit | koder_agent/auth/client_integration.py:201-214 | in every run, once a different result replaced a snapshot its refresh token is not sent again, unless some later write put that snapshot back, or the store began with a legacy file of the provider and the job misread it |
| RefreshProtocol.OneRequestPerJob | koder_agent/auth/client_integration.py:201-214 | a job sends at most one request, before its deadline |
| RefreshProtocol.BoundedAttempts | koder_agent/auth/client_integration.py:184-200 | in every run every job makes at most 600 attempts on the lease |
| RefreshProtocol.CallerContinuesLast | koder_agent/auth/client_integration.py:139-151 | when the awaiting caller returns or raises, its job is finished, has let go of the lease, and a granted refresh went through its commit; the caller returns exactly if it was not cancelled |
| RefreshProtocol.OutcomeWasStored | koder_agent/auth/client_integration.py:69-87 | in every run credentials handed to a caller were the register's value at some moment since its job was spawned, unless the job misread the store; then they are those of the legacy file the store began with |
| RefreshLegacy.OutcomesAreStoredIff | koder_agent/auth/client_integration.py:201-207 | some run hands a caller credentials that the register never held exactly if the store began with a legacy file hidden under a different Keychain item |
| RefreshLegacy.OutcomesAreTimelyIff | koder_agent/auth/client_integration.py:201-207 | some run hands a caller credentials that the register did not hold since its job was spawned exactly if the store began with a legacy file of the provider under a Keychain |
| RefreshLegacy.NothingIsResentIff | koder_agent/auth/client_integration.py:201-214 | some run sends a replaced snapshot again, without its having been put back, exactly if the store began with such a file |
| RefreshLegacy.LogoutFillsTheStore | koder_agent/auth/token_storage.py:221-230 | a raised logout that fills a register that had no credentials |
| RefreshLegacy.HiddenCredentialsAreHandedOut | koder_agent/auth/client_integration.py:201-207 | a run in which a caller is handed the old release's credentials, which the register never held |
| RefreshLegacy.ReplacedSnapshotIsSentAgain | koder_agent/auth/client_integration.py:201-214 | a run in which the refresh token of a replaced snapshot is sent a second time |
| RefreshProtocol.NoRequestOnceBarred | koder_agent/auth/client_integration.py:184-214 | after cancellation was requested or the deadline has passed the job sends no request, whatever follows |
| RefreshProtocol.LeaseIsReleased | koder_agent/auth/client_integration.py:223-225 | the lease cannot be kept: after at most seven moves of its holder, whatever the answers, it has been released |
| RefreshProtocol.HolderCanMove | koder_agent/auth/client_integration.py:184-225 | the holder of the lease always has an enabled move |
| RefreshProtocol.OtherEventKeepsPhase | koder_agent/auth/client_integration.py:177-225 | nobody else's event moves the holder |
| RefreshOutcome.SleepIsShort | koder_agent/auth/client_integration.py:191-197 | a taken lease is followed by a sleep of 0.05 s, or what is left of the 30 s if that is less |
| RefreshOutcome.OutcomeIsHandedOn | koder_agent/auth/client_integration.py:139-151 | once a job has an outcome it keeps it in every run, and its caller is given nothing else |
| RefreshOutcome.GrantIsHandedOn | koder_agent/auth/client_integration.py:81-83 | a commit that finds the job's snapshot and goes through stores what was granted, and that is what the caller gets, whatever follows |
| RefreshOutcome.FailedCommit | koder_agent/auth/client_integration.py:69-87 | a commit that raises gives the caller nothing; one that finds another value writes nothing and looks for a winner |
| RefreshOutcome.WinnerIsHandedOn | koder_agent/auth/client_integration.py:84-87 | a superseded job hands on what the register holds, if it has not expired |
| RefreshOutcome.LoadsTheRegister | koder_agent/auth/client_integration.py:201-202 | under the lease a job loads the register as it is |
| RefreshOutcome.DecisionFollows | koder_agent/auth/client_integration.py:201-215 | nothing found gives nothing, other credentials are handed on if they are valid, and the own snapshot leads to exactly one request, unless cancellation, the deadline or a missing provider prevents it |
| RefreshOutcome.AnswerFollows | koder_agent/auth/client_integration.py:215-221 | a granted refresh goes to its commit; any other answer gives the caller nothing and leaves the store |
| RefreshOutcome.RefreshSucceeds | koder_agent/auth/client_integration.py:127-225 | from an idle world whose register holds the job's snapshot, with good answers before the deadline, the caller ends with the credentials granted, and so does the register, after one request, with the lease free |
| RefreshOutcome.NothingExpiredIsHandedOut | koder_agent/auth/client_integration.py:84-87 | in every run credentials handed to a caller were granted to its job, or found in the store and valid for a clock that the job read |
| McpNameText.SafePart | koder_agent/agentic/agent.py:114-117 | a cleaned part is never empty and has word characters only |
| McpNameText.WithSuffix | koder_agent/agentic/agent.py:140-146 | a suffix fits exactly if it leaves room for one character, and then the name has at most 64 word characters |
| McpNameText.Hex8Injective | koder_agent/agentic/agent.py:287-290 | zero-padded hexadecimal discriminators are equal only if the numbers are |
| McpAllocation.CandidatesDiffer | koder_agent/agentic/agent.py:283-290 | equal fallback candidates have equal discriminators, whatever the base names and hashes |
| McpAllocation.ProbesApart | koder_agent/agentic/agent.py:281-294 | two unresolved identities never compete for a candidate, and one identity's own candidates are pairwise different |
| McpAllocation.FirstFreeFinds | koder_agent/agentic/agent.py:285-296 | among different candidates the probe finds a free one within len(used) + 1 tries |
| McpAllocation.FallbackFinds | koder_agent/agentic/agent.py:277-296 | so the fallback of every unresolved identity ends at the first free candidate |
| McpAllocation.NameIsPublic | koder_agent/agentic/agent.py:204-298 | every name has 1 to 64 word characters and is not reserved |
| McpAllocation.NamesAreDistinct | koder_agent/agentic/agent.py:204-298 | different identities have different names, even with constant hashes |
| McpAllocation.EveryIdentityIsNamed | koder_agent/agentic/agent.py:277-298 | every identity has a name as long as the batch and the reserved names leave at most 16^49 candidates to try |
| McpNameRules.SafePartIsPart | koder_agent/agentic/agent.py:114-117 | cleaning keeps a part from its first to its last letter or digit and puts an underscore for every other character between; a part without any becomes "unknown" |
| McpNameRules.PrefersIff | koder_agent/agentic/agent.py:120-137 | the name an identity would have alone is mcp__server__tool with both parts cleaned, or its beginning with 8 digits of the digest of server and tool if that is longer than 64 characters |
| McpNameRules.UncontestedNameStands | koder_agent/agentic/agent.py:241-252 | that name is given if it is neither reserved nor the preferred name of another identity |
| McpNameRules.TidyNameStands | koder_agent/agentic/agent.py:114-123 | for a server and a tool that are words without underscores at their ends it is mcp__server__tool as written |
| McpNameRules.PromotedNameStands | koder_agent/agentic/agent.py:253-275 | a contested identity gets its text with the full digest if nobody else has that name |
| McpNameRules.NameShape | koder_agent/agentic/agent.py:204-298 | every name is the uncontested preferred one, exactly where it is uncontested, or the text cut for the full digest, or for 12 digits of the second digest and at least 8 digits of a number |
| McpAllocator.Deduplicate | koder_agent/agentic/agent.py:186-201 | the loop keeps the first entry of every identity |
| McpAllocator.DeduplicatedIsDistinct | koder_agent/agentic/agent.py:186-201 | deduplication loses no identity and keeps no two entries of one |
| McpAllocator.SortByIdentity | koder_agent/agentic/agent.py:216-219 | sorting rearranges the entries into identity order |
| McpAllocator.CountNames | koder_agent/agentic/agent.py:212-212 | the counter has the number of entries of every server and tool name |
| McpAllocator.ClaimSolitary | koder_agent/agentic/agent.py:241-275 | grouping by a name gives the name to exactly the records that are alone with it and find it free; every other record is left over |
| McpAllocator.Probe | koder_agent/agentic/agent.py:285-296 | the probe loop returns the first candidate that is not used |
| McpAllocator.AllocateFallbacks | koder_agent/agentic/agent.py:281-296 | ranked probing completes the allocation |
| McpAllocator.Allocate | koder_agent/agentic/agent.py:204-298 | the loops give every entry the name of its identity; the duplicate-identity error arises exactly for entries that share one, the length error only for an identity that has no name |
| McpAllocator.AllocationIsSound | koder_agent/agentic/agent.py:204-298 | all names handed out are acceptable, not reserved and pairwise different |
| McpAllocator.AllocationIgnoresOrder | koder_agent/agentic/agent.py:216-294 | an identity's name depends on the set of identities only, not on server or list-tools order |
| McpAllocator.SameIdentities | koder_agent/agentic/agent.py:216-219 | every permutation of the entries has the same set of identities |
| ReplacementRows.InsertReplacement | koder_agent/core/session.py:470-498 | the queues and the insertion loop produce the rows of Replacement |
| ReplacementRows.TimestampsSurvive | koder_agent/core/session.py:463-498 | the rows are the new items in order, and of every message the first min(old, new) occurrences keep the old timestamps in order |
| ReplacementRows.ReplacingByItselfIsIdentity | koder_agent/core/session.py:463-498 | replacing a history by its own messages changes nothing |
| SessionReplace.ReplacementCoordinator.RequestCancellation | koder_agent/core/session.py:94-100 | a request is accepted exactly if the commit has not been claimed |
| SessionReplace.ReplacementCoordinator.BeginCommit | koder_agent/core/session.py:107-112 | the claim succeeds exactly if no cancellation was accepted; never both |
| SessionReplace.StepInv | koder_agent/core/session.py:413-516 | every event of worker, canceller, caller and other writers keeps the invariant |
| SessionReplace.VerdictMatchesHistory | koder_agent/core/session.py:413-452 | the caller returns exactly if the replacement was committed and then the read evidence is cleared; a cancelled or failed call changed nothing and keeps the evidence |
| SessionReplace.PublishedOnceAndWhole | koder_agent/core/session.py:463-509 | a replacement is published at most once and replaces the whole history current at that moment |
| SessionReplace.ReadersSeeCommittedHistories | koder_agent/core/session.py:459-509 | readers see a committed history, never the emptied or half-filled one |
| SessionReplace.AcceptedCancellationRulesOutCommit | koder_agent/core/session.py:94-112 | once a cancellation was accepted no continuation of the run commits |
| SessionReplace.ClaimRefusesCancellation | koder_agent/core/session.py:94-112 | once the commit is claimed no cancellation was or will be accepted |
| SessionReplace.WorkerFinishes | koder_agent/core/session.py:446-516 | from every reachable state the worker's own events lead to an end and the caller to an answer: the whole replacement is committed exactly if no cancellation was accepted before the claim and nothing failed before |
| SessionReplace.ClaimCommitsIff | koder_agent/core/session.py:507-510 | a worker at its claim goes on to commit exactly if no cancellation was accepted before |
| SessionReplace.ClaimedCommits | koder_agent/core/session.py:508-510 | after the claim only a failure keeps it from committing |
| LegacyImport.ImportSettles | koder_agent/core/legacy_sessions.py:73-113 | after a row is imported its transcript is a prefix of the session's history and its title is kept |
| LegacyImport.RowAnswers | koder_agent/core/legacy_sessions.py:77-98 | whether a row can be imported and which error it is otherwise, over the row and the stored history |
| LegacyImport.SettledIsFixed | koder_agent/core/legacy_sessions.py:92-113 | importing an imported row again changes nothing |
| LegacyImport.AllRowsSettled | koder_agent/core/legacy_sessions.py:73-113 | on commit every legacy transcript is a prefix of its session's history |
| LegacyImport.ExistingDataIsKept | koder_agent/core/legacy_sessions.py:92-113 | existing histories and titles stay as they were, and a history that was empty becomes exactly one transcript |
| LegacyImport.ImportedRow | koder_agent/core/legacy_sessions.py:77-114 | an empty history becomes exactly the transcript, line by line, a title is taken over only where there is none, and other sessions stay |
| LegacyImport.TitlesAreTakenOver | koder_agent/core/legacy_sessions.py:109-114 | after an import a session has the title it had, or else the first legacy one |
| LegacyImport.ResumeAfterPartialImport | koder_agent/core/legacy_sessions.py:87-107 | a retry after an older version stopped between rows, with newer lines appended since, ends with the result of an uninterrupted import plus those lines |
| LegacyImport.ResumeInsideRow | koder_agent/core/legacy_sessions.py:79-107 | a retry after a stop inside a row goes through exactly if none or all of its transcript had been written, and then ends as an uninterrupted import; otherwise it is a conflict |
| LegacyImport.ImportSucceedsIff | koder_agent/core/legacy_sessions.py:73-107 | with unique session ids the import succeeds exactly if every single row can be imported into the state found |
| LegacyImport.SessionDatabase.Migrate | koder_agent/core/legacy_sessions.py:46-123 | all rows and the completion marker, or the state before the transaction; nothing without a legacy table or after completion |
| GoalStore.NewRow | koder_agent/core/goals.py:261-295 | a new goal never starts active without budget left |
| GoalStore.UpdateRow | koder_agent/core/goals.py:335-456 | all four update shapes keep the row's invariant, its usage and its identity |
| GoalStore.UpdateStores | koder_agent/core/goals.py:335-456 | an update stores the fields it names and no others, and which status results |
| GoalStore.ChargeRow | koder_agent/core/goals.py:530-558 | a charge adds its deltas exactly, an active goal stays active exactly while budget is left, and no other status but budget_limited is ever entered |
| GoalStore.ApplyKeepsInv | koder_agent/core/goals.py:261-565 | every statement keeps one goal per session with its invariant and leaves other sessions alone |
| GoalStore.ReachableStores | koder_agent/core/goals.py:261-565 | in every reachable store the invariant holds, and a goal id's counters never decrease and its creation time never changes |
| GoalStore.UnfinishedGoalsStay | koder_agent/core/goals.py:297-333 | in every run without a replacement, a deletion or an update to complete, an unfinished goal stays, however often goals are inserted |
| GoalStore.LimitsOutlastStops | koder_agent/core/goals.py:335-346 | in every run a budget-limited goal stays budget-limited through any pausing, blocking, charging, inserting and change of its budget |
| GoalStore.CompleteSurvivesStatementIff | koder_agent/core/goals.py:261-565 | a complete goal stays exactly unless it is replaced, inserted over, deleted, or given another status by a matching update |
| GoalRuntime.CompleteSurvivesIff | koder_agent/core/goal_runtime.py:67-154 | at a turn end a complete goal stays complete exactly unless the turn was bound to it and failed uncancelled and the block succeeded |
| GoalRuntime.CompleteIsNotAbsorbing | koder_agent/core/goal_runtime.py:142-154 | a turn end that blocks a complete goal |
| GoalStore.GoalTable.ReplaceGoal | koder_agent/core/goals.py:261-295 | the upsert, tied to the operation |
| GoalStore.GoalTable.InsertGoal | koder_agent/core/goals.py:297-333 | the guarded upsert answers with a goal exactly if it wrote one |
| GoalStore.GoalTable.StatusAfterBudgetLimit | koder_agent/core/goals.py:142-148 | exactly an active goal with its budget used up becomes budget-limited; every other status is kept |
| GoalStore.GoalTable.UpdateGoal | koder_agent/core/goals.py:335-456 | the four UPDATE statements and the empty update agree with one description of a partial update; nothing is answered exactly if there is no row or the goal id differs |
| GoalStore.GoalTable.UpdateActiveGoalStatus | koder_agent/core/goals.py:464-488 | pausing reaches active goals only, a usage limit also budget-limited ones |
| GoalStore.GoalTable.DeleteGoal | koder_agent/core/goals.py:490-500 | the session's goal is gone and is returned |
| GoalStore.GoalTable.AccountUsage | koder_agent/core/goals.py:502-565 | negative deltas count as zero; the row is charged exactly if a delta is positive, the mode admits its status and the goal id matches |
| GoalRuntime.ChargeLandsIff | koder_agent/core/goal_runtime.py:106-133 | a turn's tokens are recorded exactly if both calls succeed, the goal is still the turn's, and the mode chosen for the status read still admits the status charged |
| GoalRuntime.TurnIsCharged | koder_agent/core/goal_runtime.py:81-97 | a turn end without a failing call charges its goal what the counter gained and the whole seconds that passed, or nothing if the turn created it |
| GoalRuntime.TurnSpan | koder_agent/core/goal_runtime.py:41-97 | from its start to its end a turn charges the goal it found what was spent and, up to a second, the time that passed |
| GoalRuntime.TurnEndAnswers | koder_agent/core/goal_runtime.py:67-104 | the answer is the goal as it is afterwards, or nothing if no goal was bound, or it could not be read and nothing was stopped |
| GoalRuntime.ContinuationFollowsIff | koder_agent/core/goal_runtime.py:67-178 | exactly when a continuation prompt for an active goal follows a turn end; after an error or cancellation on the turn's goal only if the stop itself failed |
| GoalRuntime.WrapUpFollowsIff | koder_agent/core/goal_runtime.py:67-178 | exactly when the wrap-up prompt follows, stopped or not: it is not given yet, and the goal was out of budget or this turn's charge puts an unfinished goal there |
| GoalRuntime.CancelledTurnGetsWrapUp | koder_agent/core/goal_runtime.py:94-97 | a cancelled turn in which nothing failed and after which a prompt follows |
| GoalRuntime.Runtime.OnTurnStart | koder_agent/core/goal_runtime.py:41-55 | binds an active or budget-limited goal and forgets another goal's wrap-up |
| GoalRuntime.ClearingOnlyRenewsTheWrapUp | koder_agent/core/goal_runtime.py:63-65 | clear_turn_goal changes neither the charge nor the stop nor the answer of the turn, and the next prompt exactly if it is a wrap-up that was already given |
| GoalRuntime.Runtime.ChargeTurn | koder_agent/core/goal_runtime.py:106-133 | _account changes the row by one charge of the turn's goal or not at all |
| GoalRuntime.Runtime.ApplyStop | koder_agent/core/goal_runtime.py:135-154 | cancellation pauses the active goal, an error blocks the turn's goal |
| GoalRuntime.Runtime.OnTurnEnd | koder_agent/core/goal_runtime.py:67-104 | the fields, the row and the answer after a turn, for every failure of a store call |
| GoalRuntime.Runtime.NextContinuationPrompt | koder_agent/core/goal_runtime.py:158-178 | active goals continue, a budget-limited goal gets one wrap-up |
| GoalAccounting.NeverOvercharged | koder_agent/core/goal_runtime.py:41-133 | over any run, whatever fails and whoever writes between the calls of a turn end, a goal is never charged more than its turns owe, and all they owe fits in the growth of the counter |
| GoalAccounting.UsageIsConserved | koder_agent/core/goal_runtime.py:41-133 | over any run, with other callers between the calls of a turn end, a goal's usage plus the charge still to come is exactly its opening value plus what the turns bound to it owe, if no charging call fails and the mode chosen at the read still fits at the charge |
| GoalAccounting.TurnEndIsThreeCalls | koder_agent/core/goal_runtime.py:67-133 | with nobody in between the read, the charge and the stop are the runtime's turn end, and the charge lands if no call fails |
| GoalAccounting.RowIsTheStores | koder_agent/core/goals.py:261-565 | the statements of other callers and of the tools do to the row of a run what they do to the store |
| GoalAccounting.TurnOwesItsGrowth | koder_agent/core/goal_runtime.py:84-92 | a turn owes what the counter gained since its start to the goal bound then |
| GoalAccounting.CreatingTurnOwesNothing | koder_agent/core/goal_runtime.py:57-61 | the turn that creates a goal owes it nothing |
| GoalContinuation.ContinuationIsBounded | koder_agent/core/scheduler.py:806-825 | with a fixed budget and at least one token a turn there are at most as many continuation prompts as tokens left, one wrap-up plus one per call of clear_turn_goal, and never more prompts than the cap on continuations |
| GoalContinuation.DoneLoopTakesNoMore | koder_agent/core/scheduler.py:806-825 | a loop that has stopped takes no further turns, and one that has not took all it was given |
| GoalContinuation.SecondWrapUpIff | koder_agent/core/goal_runtime.py:63-65 | a goal that got its wrap-up prompt gets another after its next turn exactly if it is still budget-limited and a tool call since the turn's start made the runtime forget, wherever other callers come in |
| GoalContinuation.ContinuationTerminates | koder_agent/core/goal_runtime.py:158-178 | so the loop stops by itself, whatever its caps |
| GoalContinuation.AfterTurnIsARun | koder_agent/core/scheduler.py:806-825 | an automatic turn is its start, what happens during it, and the three calls of its end |
| GoalContinuation.ClearingRepeatsTheWrapUp | koder_agent/core/scheduler.py:802-825 | if the updating tool clears in every turn, the wrap-up prompts are exactly as many as the turns that the caps on continuations and tokens let through |
| GoalContinuation.DefaultCapsAllowTwentyFive | koder_agent/core/scheduler.py:137-145 | with the default caps that is 25 |
| InputScroll.RowsFit | koder_agent/core/interactive.py:91-102 | characters that share a row fit the window's width |
| InputScroll.BreaksAreNeeded | koder_agent/core/interactive.py:96-98 | a row ends only where the next character does not fit on it |
| InputScroll.RowsGrow | koder_agent/core/interactive.py:91-102 | rows follow the order of the characters, at most one new row a character |
| InputScroll.RowsCount | koder_agent/core/interactive.py:91-104 | rows count from the first character's, and a text has one more than its last character's number |
| InputScroll.ContainsIff | koder_agent/core/interactive.py:86-90 | a fragment is left out exactly if the marker stands somewhere in its style |
| InputScroll.BackUpIff | koder_agent/core/interactive.py:160-194 | a backward loop finds exactly the starting lines from which the lines fit the limit |
| InputScroll.CursorIsShown | koder_agent/core/interactive.py:157-200 | from any previous position and with any offsets the cursor's line ends up whole in the window |
| InputScroll.CursorRowIsShown | koder_agent/core/interactive.py:142-150 | in a line taller than the window the cursor's row is shown, nothing past the line's end is, and no position with both is nearer to the previous one |
| InputScroll.MovesLeast | koder_agent/core/interactive.py:157-200 | with no offsets no admissible position is nearer to the previous one |
| InputScroll.WindowStaysFull | koder_agent/core/interactive.py:181-200 | where scrolling past the end is not allowed no line is hidden above that would still fit |
| InputScroll.TopOffsetIsKept | koder_agent/core/interactive.py:171-194 | below the start of the text no further line above the cursor would fit the offset at the top |
| InputScroll.BottomOffsetIsKept | koder_agent/core/interactive.py:157-200 | the offset at the bottom is kept wherever neither the one at the top nor the end of the text stands against it |
| InputScroll.ScrollIsStable | koder_agent/core/interactive.py:196-200 | scrolling again changes nothing |
| InputScroll.InputWindow.WrappedLineMetrics | koder_agent/core/interactive.py:79-104 | the nested loops give the cursor's row and the number of rows of the visible text |
| InputScroll.InputWindow.FirstThatFits | koder_agent/core/interactive.py:157-194 | each of the three backward loops |
| InputScroll.InputWindow.ClampScroll | koder_agent/core/interactive.py:157-200 | the clamps end at ScrollTo |
| InputScroll.InputWindow.ScrollWhenLinewrapping | koder_agent/core/interactive.py:106-200 | both scroll fields for every branch, including those that leave what the inherited scrolling set |
| InputScroll.InputWindow.ScrollShowsCursor | koder_agent/core/interactive.py:106-200 | whatever the inherited scrolling set, the cursor ends on screen |
| ToolPairing.AssignToolCallIds | koder_agent/auth/tool_utils.py:2074-2119 | pass 1 changes nothing but ids of calls and returns the queues of all call ids by name |
| ToolPairing.MatchToolResponseIds | koder_agent/auth/tool_utils.py:2122-2172 | pass 2 changes nothing but ids, and the k-th response without one takes the k-th queued id of its name |
| ToolPairing.CollectIds | koder_agent/auth/tool_utils.py:2187-2214 | the ids of all calls and of all responses without a call beside them |
| ToolPairing.FixToolResponseGrouping | koder_agent/auth/tool_utils.py:2175-2258 | pass 3 changes nothing but ids of orphans exactly if no content lacks its parts; a content without them is given an empty list |
| ToolPairing.ApplyToolPairingFixes | koder_agent/auth/tool_utils.py:2261-2293 | the pipeline is the composition of the passes, and changes nothing but ids exactly if no content lacks its parts |
| ToolPairing.SameButIdsIff | koder_agent/auth/tool_utils.py:2219-2226 | filling in missing parts is a change exactly if there are any |
| ToolPairing.ContentWithoutParts | koder_agent/auth/tool_utils.py:2219-2226 | a content that does not come out as it went in |
| ToolPairingProofs.EveryCallHasAnId | koder_agent/auth/tool_utils.py:2107-2110 | every call ends with an id and keeps the one it came with |
| ToolCallIds.CallsShareOnlyGivenIds | koder_agent/auth/tool_utils.py:2107-2110 | if generated ids are new and different, two calls end with one id exactly if both came with it |
| ToolCallIds.CallsStayDistinct | koder_agent/auth/tool_utils.py:2107-2110 | so calls whose given ids are distinct all end with distinct ids |
| ToolCallIds.IdlessEndsWith | koder_agent/auth/tool_utils.py:2156-2164 | in any history a response without an id ends with that of the call of its name and rank, or with none |
| ToolCallIds.IdlessResponsesDiffer | koder_agent/auth/tool_utils.py:2156-2164 | then no two responses without an id end with the same one |
| ToolPairingProofs.Pass3IsIdentity | koder_agent/auth/tool_utils.py:2261-2293 | if no response carries an id pass 3 changes nothing |
| ToolPairingProofs.PairedInOrder | koder_agent/auth/tool_utils.py:2156-2164 | then the k-th response with a name ends with the id of the k-th call with that name |
| ToolPairingProofs.LateResponsesStayIdless | koder_agent/auth/tool_utils.py:2160-2162 | and a response after the last call of its name stays without an id |
| ToolPairingProofs.RepairTakesUnclaimed | koder_agent/auth/tool_utils.py:2240-2251 | a repair takes the id of a call with the response's name that no earlier repair took and no response with this name in a part of its own claims |
| ToolPairingProofs.RepairsDiffer | koder_agent/auth/tool_utils.py:2240-2251 | repaired responses with one name never share an id, and with distinct call ids none do |
| ToolPairingProofs.RepairedIff | koder_agent/auth/tool_utils.py:2217-2258 | an orphan is repaired exactly if its name has more unclaimed call ids than orphans before it, and takes the next one |
| ToolPairingProofs.MatchedResponsesAreKept | koder_agent/auth/tool_utils.py:2160-2241 | a response that already names a call is never changed |
| ToolPairingProofs.RepairIsIdempotentIff | koder_agent/auth/tool_utils.py:2175-2258 | repairing twice is repairing once exactly if no repair is hidden in a part that is also a call while orphans of its name are left |
| ToolPairingProofs.SeparatePartsAreSeen | koder_agent/auth/tool_utils.py:2202-2258 | in particular for every history whose parts hold a call or a response but not both |
| ToolPairingProofs.StillIdlessIff | koder_agent/auth/tool_utils.py:2261-2293 | which responses are without an id afterwards |
| ToolPairingProofs.IdempotentIff | koder_agent/auth/tool_utils.py:2261-2293 | running the pipeline again changes nothing exactly if the responses without an id do not outnumber the calls of their name and no repair is hidden |
| ToolPairingProofs.SeparatePartsIdempotentIff | koder_agent/auth/tool_utils.py:2261-2293 | for histories whose parts hold a call or a response but not both, exactly if every name with calls has at least as many as responses without an id |
| ToolPairingProofs.BothCanDoubleClaim | koder_agent/auth/tool_utils.py:2202-2214 | a history with a part that is both call and response, after whose repair two responses answer one call |
| ToolPairingProofs.DoubleClaimIff | koder_agent/auth/tool_utils.py:2202-2258 | a repair gives out an id that another response with its name ends with exactly if the next free call of that name is answered in a part that is also a call |
| ApprovalBroker.ActivationExpiresWaiters | koder_agent/core/queued_input.py:42-46 | a request that waits for the lock when the broker is activated is never displayed or answered |
| ApprovalBroker.ApprovalBroker.Deactivate | koder_agent/core/queued_input.py:48-56 | a displayed request is answered with nothing and taken off display |
| ApprovalBroker.UnavailableNeverAnswers | koder_agent/core/queued_input.py:58-61 | a request made without an active broker raises and never shows or answers, whatever follows |
| ApprovalBroker.ApprovalBroker.Display | koder_agent/core/queued_input.py:63-70 | a request goes on display exactly if the activation that issued it still runs |
| ApprovalBroker.ResumingMakesRoom | koder_agent/core/queued_input.py:71-77 | a request that resumes frees the display and the lock, and the next waiting request of the activation can be displayed |
| ApprovalBroker.ApprovalBroker.Submit | koder_agent/core/queued_input.py:79-85 | an answer is accepted exactly if an active broker displays an unanswered request |
| ApprovalBroker.RunKeepsInv | koder_agent/core/queued_input.py:42-85 | every run keeps one request on display at most and every accepted answer with its request |
| ApprovalBroker.AnswersBelong | koder_agent/core/queued_input.py:58-85 | a nonempty answer was accepted for that request while its own prompt was displayed, and in the activation that issued it if none was made over a request on display |
| ApprovalBroker.DisturbingCrosses | koder_agent/core/queued_input.py:42-46 | from every reachable state with a request on display one activation suffices for an answer to cross |
| ApprovalBroker.AlternatingIsUndisturbed | koder_agent/core/queued_input.py:42-56 | alternating activate and deactivate never does that |
| ApprovalBroker.ApprovalBroker.HasPendingRequest | koder_agent/core/queued_input.py:37-40 | true exactly in the states from which an activation disturbs |
| ApprovalBroker.AcceptedGoesToOne | koder_agent/core/queued_input.py:79-85 | no request gets two accepted answers, and an accepted answer is what its request returns unless it was cancelled before resuming |
| ApprovalBroker.DeactivationFailsClosed | koder_agent/core/queued_input.py:48-66 | in every run a request issued before a deactivation and not answered by then never returns an answer |
| ApprovalBroker.AnswerComesBack | koder_agent/core/queued_input.py:71-85 | in every run the answer to the request on display, or nothing at a deactivation, is what it returns when it resumes, unless it is cancelled |
| ApprovalBroker.CancelledNeverReturns | koder_agent/core/queued_input.py:63-77 | a request cancelled while it waits or is on display never returns |
| ApprovalBroker.DoubleActivationCrosses | koder_agent/core/queued_input.py:42-46 | a run with two activations in a row in which the first one's request is answered in the second |
| QueuedInput.TrimTakesSpace | koder_agent/core/queued_input.py:114-116 | trimming takes white space off both ends and nothing else |
| QueuedInput.QueuedInputManager.Enqueue | koder_agent/core/queued_input.py:114-119 | blank input is dropped, other input queued trimmed |
| QueuedInput.QueuedInputManager.DrainForToolResult | koder_agent/core/queued_input.py:121-127 | all queued items, once |
| QueuedInput.NothingIsLost | koder_agent/core/queued_input.py:114-127 | over any run the drained batches followed by the pending items are the trimmed nonblank inputs in order |
| QueuedInput.PendingMeansUndelivered | koder_agent/core/queued_input.py:132-133 | nothing is pending exactly when everything typed has been drained |
| QueuedInput.AppendIs | koder_agent/core/queued_input.py:151-166 | the output is kept and followed by the block after an empty line, or the block stands alone if it is none or blank |
| QueuedInput.BlockFirst | koder_agent/core/queued_input.py:157-163 | the block is the header, the advice and the first item under its number |
| QueuedInput.BlockNext | koder_agent/core/queued_input.py:163-163 | every further item is one more numbered line at its end |
| QueuedInput.DigitsCount | koder_agent/core/queued_input.py:163-163 | the numbers are decimal and without leading zeros |
| QueuedInput.FoundWhereAdded | koder_agent/core/queued_input.py:172-174 | the marker is first found where it was added, unless the text before holds it |
| QueuedInput.StripUndoesAppendIff | koder_agent/core/queued_input.py:151-177 | for an output that is not blank, stripping undoes appending exactly if the output does not hold the marker |
| QueuedInput.StripHidesBlockIff | koder_agent/core/queued_input.py:151-177 | for a blank output nothing remains exactly if no queued item quotes the marker |
| QueuedInput.StripIsIdentityIff | koder_agent/core/queued_input.py:169-177 | without queued input, exactly which outputs stripping leaves as they are |

## Left out

- TokenStore.TokenStorage.SaveTokens: JSON encoding and the symlink refusals are not modelled; a token file is a parsed record, a rejected one or missing.
- TokenStore.TokenStorage.LoadTokens: a filesystem error while reading the token file is not modelled; Keychain failures are.
- RefreshProtocol.OutcomeWasStored: nothing is said about how long the credentials stay current afterwards; another caller may replace them at once.
- RefreshProtocol.LeaseIsReleased: the operating system's lock is mutual exclusion that release always gives up; a crashed process and a failing release are not modelled.
- RefreshLease.AcquireLease: the clock is real numbers, where the source has floats; rounding of the deadline could allow one attempt more.
- RefreshProtocol.BoundedAttempts: the same holds for its 600.
- RefreshLease.CommitRefresh: the provider is taken as already stripped and lower-cased, and other callers' writes between the two store calls are a parameter.
- The exchange with the provider is an arbitrary answer; HTTP, the timeout of `wait_for` inside the request and the synchronous wrapper are left out.
- `list_providers`, `get_all_tokens` and the other readers of the store add nothing to the register.
- McpAllocator.SortByIdentity: the source sorts by identity, then by discovery index; the index only matters for equal identities, which deduplication excludes.
- The hash inputs are strings; UTF-8 encoding and the canonical JSON of a tool's metadata are opaque.
- SessionReplace.StepInv: rows with a NULL creation time, micro-compaction before appending and the connection's lifetime are not modelled; a transaction is a draft that excludes other writers.
- LegacyImport.SessionDatabase.Migrate: tables are maps; a write that fails does so at a chosen row, and the SDK's own schema setup is left out.
- GoalStore.GoalTable.UpdateGoal: objective length and positive budgets are validated by callers of the store, so the model also covers stores without that validation.
- GoalRuntime.Runtime.OnTurnEnd: other callers cannot write between the store calls of one call of the method; in the runs of GoalAccounting they can.
- GoalContinuation.ContinuationIsBounded: nothing happens between a prompt and the start of its turn; a pause there and a resume inside the turn would give a turn that is bound to no goal and charges nothing.
- InputScroll.InputWindow.WrappedLineMetrics: the cache of line metrics within one call is left out; it only saves recomputation.
- InputScroll.InputWindow.ScrollWhenLinewrapping: the inherited scrolling of prompt_toolkit is not part of this model and leaves arbitrary values; scroll offsets are taken as not negative.
- ToolPairing.AssignToolCallIds: generated ids are any nonempty strings; keys other than name and id are one opaque value, and a functionCall that is not a mapping (which raises) is left out.
- ApprovalBroker.ApprovalBroker.Display: change callbacks are left out, and requests waiting for the lock may get it in any order.
- QueuedInput.QueuedInputManager.Enqueue: change callbacks and the wrapping of tool functions are left out.
- The rest of the user interface, the shell command analysis, schema cleaning and provider format conversion, model requests, the command line and configuration are not modelled.
