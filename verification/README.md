# Newscraft: models and proofs of its stateful cores

This project models the parts of Newscraft where state, interleaving or arithmetic make mistakes easy, and proves what
those parts are for. It stands beside the repository: `dafny verify dfyconfig.toml` checks all of it. Paths below are
relative to the repository root.

Where the source changes state step by step (the durable store, the turn planner, the browser session's accounts, the
HTTP reader, the detail cache, the snapshot program), a class or a looping method does the same, and its contract
equates the new state with a specification function; the main results are lemmas about those functions over every
input, run or history. Where many actors interleave (browser containers, network relays, cache promises), the code
between two awaits is one step of a state machine, and any enabled step may come next.

## The components

**Durable store** (`ComputerStore`, `StoreSafety`, `StoreHistory`, `StoreOutcomes`, `DurableStore`). Every `connect()`
block is one transaction over five tables; a raise leaves the tables as they were. The admission query bounds bytes in
use plus reservations, which is not inductive: a tainting admission writes a profile after the check. The invariant
instead counts each busy conversation at the largest snapshot, profile, result and evidence it may still write. Over
every history of calls the store stays within its limits, terminal rows never move, admissions happen once, and
receipts replay; what is admitted can be finished, what is cancelled never is, cancelling frees the conversation, and
conversations do not touch each other.

**Browser lifecycle** (`BrowserLifecycle`, `BrowserRemoval`, `BrowserProgress`, `BrowserStaleClose`). Controllers of
several runs, the container daemon, the watchdog and crashes interleave over the real store transactions; a clean-up
closes its pipe session first and reads the row in a later step. Safety: a closed (or absent) session row means no
container exists or can still start, and at most one ever does. It fails in general: `closed` names a run and not a
container, so a delayed close can hit a newer row of its run over a live container; a lemma gives such a run. The
exact condition is proved for every interleaving: a run is safe throughout, reserved create requests included, if and
only if no close hits an open row in use other than the one its controller confirmed. Two sufficient forms follow:
every close finds no row of its run but the confirmed one; and, as a discipline of callers, only an ended run's
session is recovered by another run and an ended run opens no browser again. In every interleaving, whatever the
closes do, a container that is taken away belongs to the clean-up's own run or has exited; and an undisturbed action
or clean-up achieves exactly what its conditions allow.

**Story ledger** (`ClaimEvidence`, `ClaimEvents`, `ClaimHistory`, `ClaimPlanner`, `ClaimLaws`, `ClaimTurns`,
`ClaimLedger`, `ClaimWordings`, `TurnPlanner`, `ClaimSources`, `ClaimLandings`, `ClaimOutcomes`, `ClaimChecks`,
`ClaimMatcher`, `ClaimVerdicts`, `ClaimVariants`). A turn's plan is the event log folded claim by claim, for every
judge, score and text normalization; over any turns and reviews, in either mode, conflicts stay mutual. Where each
claim lands, what the log then asserts and links, and the evidence, conflicts, status and check that result are
determined exactly, and so is every match, by candidates and verdicts alone. Turns matched by the matcher that name no
claim they replace never give two claims one wording, and a wording asserted again lands on the claim that has it, as
long as normalizing a normal form changes nothing. Two statements hold only under a condition, proved both ways: a
created claim is the fold of its own events from the empty claim exactly when the turn's time is not negative, and the
recorded wordings are the new variants exactly when every incoming claim that lands normalizes to some text. A text
without Latin letters or digits does not; a lemma gives the turn, and another shows that two such texts merge whatever
they say, although `claim-matcher.ts` promises no wrong merges while the judge is out. Checks are not quite what the
source's comments promise: a fresh source can hide the model's flag, and the model's flag a conflict; two lemmas show
how.

**Message history** (`HistoryCursors`, `HistorySegments`, `HistoryRuns`, `HistoryOrder`, `HistoryRows`). Loaded
segments merge into the summaries of runs of touching ones, and the spaces between these are exactly the gaps; with
truthful segments every unloaded row lies in exactly one gap. The order in which segments are held can change what
they merge to: they merge alike in every order, up to the ids that record what was joined, if and only if no two that
start together disagree on what came before while an open stretch ends before them. Responses of different revisions
converge in every order of arrival, and a reconciled deletion is final for everything older.

**Browser network** (`RelayAccounting`, `RelayOutcomes`, `HttpReader`, `HttpText`, `HttpLaws`, `HttpHeads`,
`HttpBodies`, `HttpChunks`). Byte and request accounts over every interleaving of relays, cancellations, failures and
commands, counted from what really happened, and which requests reach the network and which answers the page; and the
incremental reader of HTTP/1.1 responses: header fields, framing, and chunked bodies, which are accepted exactly when
they are encodings (section 7.1 of RFC 9112). The bytes counted for a response are those consumed, and its price fits
the reservation the session made for it.

**Budgets and meter** (`Budgets`, `LedgerMeter`). Reservation arithmetic over the reals, and largest-remainder
apportionment. The documentation of the meter promises a block to every non-empty bucket when there are enough to go
round; the code does not do that (97, 1, 1 and 1 claims in five slots), and the project proves the quota rule and the
exact condition under which every bucket is shown.

**Events and cache** (`ServerEvents`, `EventWire`, `CacheSteps`, `CacheRetention`, `DetailCache`). The
server-sent-event printer and chunk-fed parser (sections 9.2.5 and 9.2.6 of the WHATWG HTML Standard), which return
what was sent exactly when names, ids and lines of data are trimmed, no data is empty and no name or id holds a line
break; and the least-recently-used cache of artifact details, which keeps a detail until enough other keys are used.

**Workspace archives** (`Archive`, `ArchiveLaws`, `ArchiveAcceptance`, `RestoreAcceptance`, `ArchiveRoundTrip`,
`ArchiveLength`, `ArchiveScreenshot`). Exactly which archives are accepted and unpacked, the canonical form of an
archive, and the programs that unpack and pack a workspace, over entry lists and trees, for any format and for the
lengths of ustar archives.

`Prelude`, `Totals`, `Numerals`, `Texts` and `Sorting` hold what several of them share.

## Model

| member | source | states |
|---|---|---|
| StoreSafety.WorstCaseWithinReservations | services/agent/src/newscraft_agent/executor_state.py:177-186 | the capacity query's used bytes plus reservations is never below the worst case in which every busy conversation writes its maximum |
| StoreSafety.AdmitActionWorstCase | services/agent/src/newscraft_agent/browser_store.py:87-110 | a tainting admission may write a profile after the capacity check, and the reservation taken covers that write |
| StoreSafety.WritesFit | services/agent/src/newscraft_agent/executor_state.py:208-218 | a snapshot or profile written within its limit fits the room its conversation had left |
| StoreHistory.EveryStoreIsSafe | services/agent/src/newscraft_agent/executor_state.py:150-222 | over every history of calls on both stores, bytes in use and their worst case stay within MAX_STORE, rows within MAX_OPERATIONS, workspaces within MAX_WORKSPACES, and a conversation never has two actions in flight |
| StoreHistory.TerminalNeverOwnsAtCompletion | services/agent/src/newscraft_agent/browser_store.py:112-130 | the re-check for a terminal operation when a screenshot is stored is never reached |
| StoreHistory.ReceiptIsStable | services/agent/src/newscraft_agent/executor_state.py:150-158 | a done operation's later identical admissions all replay its receipt and change nothing |
| StoreHistory.ActionReceiptIsStable | services/agent/src/newscraft_agent/browser_store.py:87-95 | the same for browser actions |
| StoreHistory.CancelledIsNeverRepeated | services/agent/src/newscraft_agent/executor_state.py:150-158 | a cancelled operation is never run again, whatever is called later |
| StoreHistory.FinishedResultIsReplayed | services/agent/src/newscraft_agent/executor_state.py:208-218 | a result once accepted is what every later identical admission gets back |
| StoreHistory.CancelledActionIsNeverRepeated | services/agent/src/newscraft_agent/browser_store.py:87-95 | a cancelled browser action is never run again, whatever is called later |
| StoreHistory.FinishedActionIsReplayed | services/agent/src/newscraft_agent/browser_store.py:112-130 | a browser receipt once accepted is what every later identical admission gets back |
| StoreHistory.AdmissionHandsOutTheLastFiles | services/agent/src/newscraft_agent/executor_state.py:150-167 | over every history of both stores an admitted operation starts from the files of the last completion that stored any |
| StoreHistory.RowsEvolve | services/agent/src/newscraft_agent/executor_state.py:197-222 | over any history a row keeps its run, request and terminal phase, and phases move only forward |
| StoreHistory.AtMostOneAdmission | services/agent/src/newscraft_agent/executor_state.py:150-167 | each operation is admitted at most once in any history |
| StoreOutcomes.ConversationsAreSeparate | services/agent/src/newscraft_agent/executor_state.py:150-222 | calls of other conversations, in any number, leave a conversation's files, profile, session, operations and actions as they were |
| StoreOutcomes.AdmittedExactlyWhen | services/agent/src/newscraft_agent/executor_state.py:150-167 | a new operation is admitted exactly when nothing of its conversation is in flight and there is room, and is then in flight; otherwise nothing changes |
| StoreOutcomes.ActionAdmittedExactlyWhen | services/agent/src/newscraft_agent/browser_store.py:87-110 | the same for a browser action, whose run must not find another run's session open; a tainting one stores the tainted profile |
| StoreOutcomes.KeysBelongToOneRequest | services/agent/src/newscraft_agent/browser_store.py:54-130 | a key is of the run and request it was admitted for: any other is refused, for operations and actions, and changes nothing |
| StoreOutcomes.CancelledForGood | services/agent/src/newscraft_agent/executor_state.py:220-222 | an operation cancelled in flight stays cancelled over every later history: it is not started, finished or admitted again |
| StoreOutcomes.CancelIsExact | services/agent/src/newscraft_agent/executor_state.py:220-222 | after a cancel the operation is not in flight, and no other row of any table has moved |
| StoreOutcomes.CancelFreesTheConversation | services/agent/src/newscraft_agent/executor_state.py:150-222 | in every reachable store, after a cancel of the operation in flight another one is admitted exactly when capacity allows |
| StoreOutcomes.ClosedActionIsCancelledForGood | services/agent/src/newscraft_agent/browser_store.py:132-136 | a pending action whose run is closed with its actions stays cancelled over every later history: no receipt, no session, no second admission |
| StoreOutcomes.CloseIsExact | services/agent/src/newscraft_agent/browser_store.py:132-136 | a close moves the session of that run and, if asked, its pending actions in the conversation, and nothing else |
| StoreOutcomes.CloseFreesTheConversation | services/agent/src/newscraft_agent/browser_store.py:87-136 | in every reachable store such a close frees the conversation, so the next action of any run is admitted exactly when capacity allows |
| StoreOutcomes.AdmittedRunsToCompletion | services/agent/src/newscraft_agent/executor_state.py:150-218 | an admitted operation that no other call names can be started and finished whatever happens meanwhile, exactly within the limits on result and snapshot, and its files are then the conversation's |
| StoreOutcomes.AdmittedActionRunsToCompletion | services/agent/src/newscraft_agent/browser_store.py:87-130 | an admitted action can be completed until its run's actions are closed, exactly when everything it writes fits, and receipt, evidence, profile and merged files are stored together or not at all |
| StoreOutcomes.SessionOpensOnce | services/agent/src/newscraft_agent/browser_store.py:54-70 | a pending action opens a session exactly over none or a closed one, and only its own run makes it live, once |
| DurableStore.Database.Capacity | services/agent/src/newscraft_agent/executor_state.py:177-186 | the five totals and two counts decide admission |
| DurableStore.Database.Admit | services/agent/src/newscraft_agent/executor_state.py:150-167 | admission of a terminal operation: replay, refusals in order, capacity, workspace, row |
| DurableStore.Database.Created | services/agent/src/newscraft_agent/executor_state.py:197-202 | only a creating operation becomes running |
| DurableStore.Database.Finish | services/agent/src/newscraft_agent/executor_state.py:208-218 | a running operation becomes done with its result and snapshot, within limits |
| DurableStore.Database.Cancelled | services/agent/src/newscraft_agent/executor_state.py:220-222 | only an operation in flight is cancelled |
| DurableStore.Database.OperationReceipt | services/agent/src/newscraft_agent/executor_state.py:188-195 | the receipt query answers exactly the stored result of a done operation of that run and request |
| DurableStore.Database.AdmitAction | services/agent/src/newscraft_agent/browser_store.py:87-110 | admission of a browser action with its refusals, capacity, workspace and taint |
| DurableStore.Database.AdmitSession | services/agent/src/newscraft_agent/browser_store.py:54-64 | a pending action admits a session over an absent or closed row |
| DurableStore.Database.SessionCreated | services/agent/src/newscraft_agent/browser_store.py:66-70 | only the run's own creating session becomes running |
| DurableStore.Database.FinishAction | services/agent/src/newscraft_agent/browser_store.py:112-130 | completion writes screenshot, profile and receipt together or not at all |
| DurableStore.Database.Close | services/agent/src/newscraft_agent/browser_store.py:132-136 | closing names the run, and cancels its pending actions if asked |
| BrowserLifecycle.SafeExactlyWhenNoneEndangers | services/agent/src/newscraft_agent/browser_controller.py:95-242 | for every interleaving of controllers, daemon, watchdog and crashes, every state is safe and stays so if a reserved create request is sent, if and only if no close hits an open row in use other than the one its controller confirmed |
| BrowserLifecycle.ConfirmedClosesAreSafe | services/agent/src/newscraft_agent/browser_controller.py:107-147 | while every close finds no row of its run but the confirmed one, a closed row has no container left that exists or can still start, and at most one exists |
| BrowserLifecycle.DisciplinedRunIsSafe | services/agent/src/newscraft_agent/browser_controller.py:95-171 | if only an ended run's session is recovered by another run and an ended run opens no browser again, every close finds the row it confirmed, so every such run is safe |
| BrowserRemoval.OnlyExitedBrowsersOfOthersAreRemoved | services/agent/src/newscraft_agent/browser_controller.py:107-147 | over every interleaving a container that is taken away is one of the clean-up's own run, or has exited, had a live row, and was to be recovered: no run stops another's running or not yet started browser |
| BrowserRemoval.CleanupsReadRows | services/agent/src/newscraft_agent/browser_controller.py:107-124 | every clean-up is about a row that was open at some moment of the run, of another run only if it was begun to recover |
| BrowserRemoval.NamesBelongToOneRun | services/agent/src/newscraft_agent/browser_controller.py:149-156 | all rows ever open under one container name are of one run |
| BrowserProgress.UndisturbedCleanUp | services/agent/src/newscraft_agent/browser_controller.py:107-147 | an undisturbed clean-up closes the open row exactly when it is of its own run, or to be recovered, live, and its container gone or exited (an absent container of a row still being created forbids it); container gone, no other touched, a waiting handler released; otherwise nothing is changed |
| BrowserProgress.CleanUpWithoutRow | services/agent/src/newscraft_agent/browser_controller.py:107-147 | with no open row a clean-up closes its own run at once |
| BrowserProgress.CleanUpCutsOffTheCommand | services/agent/src/newscraft_agent/browser_controller.py:110-117 | once a clean-up takes the pipe away the running command takes no further step but to fail |
| BrowserProgress.TakenExactlyWhenAdmitted | services/agent/src/newscraft_agent/browser_controller.py:173-179 | the action lock is kept exactly for an admitted action |
| BrowserProgress.ABrowserIsStarted | services/agent/src/newscraft_agent/browser_controller.py:149-166 | an admitted action with no browser open gets its own, reserved, created, recorded and started, and nothing else changes |
| BrowserProgress.ReceiptIsStored | services/agent/src/newscraft_agent/browser_controller.py:173-235 | a served action, or a failed one that was cleaned up, stores its receipt, evidence, profile and files exactly if all fit; only a served one keeps its browser |
| BrowserProgress.FailedActionIsCleanedUpFirst | services/agent/src/newscraft_agent/browser_controller.py:237-250 | a failed action is answered, or cancelled if uncertain, only after its row is closed and its container gone; if the clean-up cannot confirm that, row, action and container stay |
| BrowserProgress.BeginsExactlyWhen | services/agent/src/newscraft_agent/browser_controller.py:95-117 | a clean-up begins exactly when none of its run is under way, a recovery only without a pipe of its own |
| BrowserProgress.HandlersBelongToActions | services/agent/src/newscraft_agent/browser_controller.py:237-253 | an error handler is entered from within an action only, and left without a receipt from there only |
| BrowserStaleClose.RecoveringALiveRunLosesAContainer | services/agent/src/newscraft_agent/browser_controller.py:95-146 | after an action has returned its receipt, its run's delayed close, overtaken by another run's recovery and the run's next action, closes the newer row over a live container |
| ClaimEvidence.ResolveEvidence | src/lib/utils/claim-evidence.ts:55-64 | citations with a known page become sources, in order |
| ClaimEvidence.MergeEvidence | src/lib/utils/claim-evidence.ts:67-71 | the loop computes the union by page, first entry kept, cut at the cap |
| ClaimEvidence.MergeKeepsEvidence | src/lib/utils/claim-evidence.ts:67-71 | merging keeps every earlier source in place, stays free of repeated pages and within the cap |
| ClaimEvidence.BestTierIsBest | src/lib/utils/claim-evidence.ts:73-82 | the summarised tier is held by some source and none ranks higher |
| ClaimEvidence.CeilingNeverFalls | src/lib/utils/claim-evidence.ts:73-88 | more evidence never lowers what a claim can be called |
| ClaimEvidence.ConfirmedMeans | src/lib/utils/claim-evidence.ts:73-88 | derived as confirmed exactly when suggested so, uncontradicted, and carried by an official source or two distinct wire or major publishers |
| ClaimEvidence.DerivedStatusMeans | src/lib/utils/claim-evidence.ts:84-88 | the whole status rule: doubt and retraction stand; otherwise confirmed, reported or unverified by what carries the claim and whether it is contradicted |
| ClaimEvidence.CorroborationCountsPublishers | src/lib/utils/claim-evidence.ts:73-82 | corroboration is the number of distinct publishers that are no aggregators |
| ClaimEvidence.StaleByTheNewestDate | src/lib/utils/claim-evidence.ts:102-107 | sources are stale exactly when the newest readable date, the claim's own included, is more than 180 days past |
| ClaimSources.EvidenceIsWhatWasAsserted | src/lib/utils/claim-events.ts:123-160 | for any log a claim's evidence is what it had and what was asserted for it, the first source of each page in log order, cut at the cap |
| ClaimSources.ResolvedSources | src/lib/utils/claim-evidence.ts:55-64 | the resolved sources are one for each citation with a known page, in order, with its address and date and the publisher the classification gives |
| ClaimEvents.FoldReadsOwnEvents | src/lib/utils/claim-events.ts:123-206 | a claim's state is the fold of its own events, whatever else the log holds between them |
| ClaimEvents.ReviewSettlesTheClaim | src/lib/utils/claim-events.ts:392-407 | folding a review's events gives exactly the status and check the person named, and their mark |
| ClaimEvents.ReviewsAreLoggedExactly | src/lib/utils/claim-events.ts:392-407 | which events a review logs, if and only if, all in the person's name |
| ClaimHistory.WordsAreTheLatest | src/lib/utils/claim-events.ts:123-206 | the folded claim shows the latest wording, attribution, date and suggestion asserted, and the latest time |
| ClaimHistory.MessagesAreTheirs | src/lib/utils/claim-events.ts:123-160 | a claim is dated by the assertion that opened it, and shows the message of that one and of its latest event |
| ClaimHistory.DecisionsAreTheLatest | src/lib/utils/claim-events.ts:161-206 | the folded claim is settled by the latest decision of a person, and its check stands as the latest check event left it |
| ClaimHistory.ListsHoldWhatWasSaid | src/lib/utils/claim-events.ts:84-206 | variants are exactly the normalized wordings asserted, conflicts exactly the claims named, each once; citations are asserted ones, unique and capped |
| ClaimHistory.CitationsMerge | src/lib/utils/claim-events.ts:80-88 | new citations follow the old ones, each once, as far as the cap allows |
| ClaimLaws.ChecksAreLawful | src/lib/utils/claim-events.ts:322-335 | the check events respect reviews and checks opened by a person or a conflict, and touch nothing else |
| ClaimLedger.TurnFollowsTheLog | src/lib/utils/claim-events.ts:260-384 | each claim after a turn is its earlier state with the emitted events folded in; untouched claims are unchanged |
| ClaimLedger.EveryEventIsLawful | src/lib/utils/claim-events.ts:260-384 | every event of every turn is allowed in the state it meets: no event by a person, none of status or opened check on a reviewed claim, a status event changes the status and names who decided it, a retraction is logged as one, checks open only where none is open and close only for the model's or stale reasons |
| ClaimLedger.CreatedClaimIsTheFoldOfItsEvents | src/lib/utils/claim-events.ts:338-354 | a created claim equals the fold of its events from the empty claim, if and only if the turn's time is not negative |
| ClaimLandings.TurnLogsWhatLanded | src/lib/utils/claim-events.ts:260-384 | every claim lands on the one it restates, else on the next new one while there is room, else nowhere; the assertions logged are those of the landed claims, one each in order with the sources of their known citations, and the contradictions those of claims created against another, told to both |
| ClaimOutcomes.CitedPagesAreTheEvidence | src/lib/utils/claim-events.ts:302-316 | after a turn with pages a claim keeps its evidence in place, has a source for every known page cited by a claim that landed on it unless the evidence is full, and no new source but those |
| ClaimOutcomes.NoPagesNoEvidence | src/lib/utils/claim-events.ts:302-316 | a turn without pages adds no evidence |
| ClaimOutcomes.ConflictsAreTheContradictions | src/lib/utils/claim-events.ts:356-378 | after any turn a claim conflicts with exactly those it did before, those it was created against, and those created against it |
| ClaimChecks.AssertionDecides | src/lib/utils/claim-events.ts:302-336 | what one assertion makes of status, suggestion and check: when a check must be open, when it may not be, for which reason, and that a person's decision and every other claim stay |
| ClaimChecks.LinkDecides | src/lib/utils/claim-events.ts:367-374 | a link leaves both claims with a check, the older one unless reviewed, keeps an open check's reason, and moves no wording, evidence or given status |
| ClaimChecks.TheLastLandedDecides | src/lib/utils/claim-events.ts:302-336 | after a turn an unreviewed claim shows the suggestion of the last claim that landed on it, without pages its status, a model flag only if that one raises it, and a stale check exactly for stale sources |
| ClaimChecks.ContradictionOpensChecks | src/lib/utils/claim-events.ts:367-374 | in every turn a claim created against another has a check at once, and so has the other unless reviewed |
| ClaimChecks.FreshSourceHidesAFlag | src/lib/utils/claim-events.ts:318-335 | a claim with a check open for stale sources, asserted again with the model's flag and a fresh source, ends without a check |
| ClaimChecks.AnEarlierFlagHidesAConflict | src/lib/utils/claim-events.ts:318-374 | a conflict met while the model's own flag is open leaves no check once that flag is withdrawn, although a conflict's check is meant to stay |
| ClaimWordings.RecordedWordingsAreTheNewVariants | src/lib/utils/claim-events.ts:302-316 | the variants a claim gains are its recorded wordings that normalize to something, so all of them if and only if none normalizes to the empty text |
| ClaimWordings.WordingsAreVariantsExactlyWhen | src/lib/utils/claim-events.ts:302-378 | every claim's new variants are its recorded wordings if and only if every incoming claim that lands normalizes to some text; with room for all incoming claims, that is a condition on them alone |
| ClaimWordings.EmptyTextIsRecordedAlone | src/lib/utils/claim-similarity.ts:27-38 | a turn whose one claim normalizes to the empty text records a wording and adds no variant |
| ClaimWordings.RunKeepsVariants | src/lib/utils/claim-events.ts:123-206 | no history of turns and reviews gives a claim an empty variant if no stored claim had one |
| ClaimLedger.TurnsAdvance | src/lib/utils/claim-events.ts:260-384 | across any number of turns every claim keeps its place and only advances |
| ClaimLedger.TurnsKeepDecisions | src/lib/utils/claim-events.ts:302-376 | a claim a person settled keeps its status, check and their name; a check opened by a person or a conflict stays open; conflicts and variants only grow |
| ClaimLedger.TouchedIsSettled | src/lib/utils/claim-events.ts:291-376 | in evidence mode every unreviewed claim a turn touches ends with the status its evidence supports |
| ClaimLedger.EveryLedgerFollowsItsEvidence | src/lib/utils/claim-events.ts:123-384 | over every history of evidence-mode turns and reviews: settled status, summarised evidence unique by page and capped, mutual conflicts, and what an unreviewed confirmed claim rests on |
| ClaimLedger.ConflictsStayMutual | src/lib/utils/claim-events.ts:260-407 | over every history of turns, with or without sources, and reviews: ids stay distinct, a claim names another as conflicting exactly when that one names it, and never itself or an unknown one |
| TurnPlanner.PlanAnswer | src/lib/utils/claim-events.ts:260-384 | the imperative planner returns exactly the specified events, wordings, created and touched states, and resolutions |
| TurnPlanner.Planner.EmitEvent | src/lib/utils/claim-events.ts:271-280 | emitting updates the log and the one claim the event names |
| TurnPlanner.Planner.SettleClaim | src/lib/utils/claim-events.ts:291-300 | the status follows the evidence unless a person settled the claim |
| TurnPlanner.Planner.AssertClaim | src/lib/utils/claim-events.ts:302-336 | assertion, wording, status, flag and stale check in the source's order |
| TurnPlanner.Planner.Create | src/lib/utils/claim-events.ts:338-354 | a claim is created below the cap and counted as skipped at it |
| TurnPlanner.Planner.LinkClaims | src/lib/utils/claim-events.ts:367-374 | a contradiction links both claims, opens their checks and settles them again |
| TurnPlanner.Planner.Take | src/lib/utils/claim-events.ts:356-378 | where one incoming claim lands, including the second offer of a refused contradiction |
| ClaimMatcher.MatchIncoming | src/lib/utils/claim-matcher.ts:81-136 | the two passes compute the specified matches |
| ClaimMatcher.MatchesLookBack | src/lib/utils/claim-matcher.ts:86-134 | every reference names a stored claim or an earlier incoming one, whatever the judge answers |
| ClaimMatcher.RankedIsComplete | src/lib/utils/claim-matcher.ts:96-107 | the ranking holds exactly the entries above the threshold, as often as the pool does, best first and equal scores in the pool's order |
| ClaimVerdicts.MatchedExactly | src/lib/utils/claim-matcher.ts:86-136 | every match, for every judge: the claim it names, else the first entry with its normalized text, else what the verdicts on its at most three best-scored entries decide; the judge is asked about all of these |
| ClaimVerdicts.DecideIsDecided | src/lib/utils/claim-matcher.ts:122-135 | the decision is the first candidate that merges, by an allowed verdict or, with none, by score and equal figures; else the first in contradiction; else a new claim; and nothing else |
| ClaimVerdicts.PairsAsked | src/lib/utils/claim-matcher.ts:96-107 | the judge is asked about exactly the pairs of claims and their candidates |
| ClaimVerdicts.PoolHolds | src/lib/utils/claim-matcher.ts:68-75 | a claim is compared with every stored claim under all its wordings and with the earlier claims of its turn |
| ClaimMatcher.OutageNeverMergesLoosely | src/lib/utils/claim-matcher.ts:112-134 | without verdicts nothing is declared a contradiction, and a claim merges only into the stored claim it names, one with its normalized text, or a near-identical one with the same figures |
| ClaimMatcher.EmptyTextsMerge | src/lib/utils/claim-similarity.ts:27-38 | two claims that both normalize to the empty text merge whatever they say, with a judge or without |
| ClaimMatcher.DuplicatesLandTogether | src/lib/utils/claim-matcher.ts:86-134 | with the planner: two incoming claims with one normalized text end in the same claim or are both left out, for every judge and score |
| ClaimVariants.VariantsStayApart | src/lib/utils/claim-matcher.ts:81-136 | with the planner, over every history of matched turns of stable texts and of reviews: no two claims come to share a variant, for every judge and score |
| ClaimVariants.ReassertedWordingLands | src/lib/utils/claim-matcher.ts:81-136 | after any such history from the empty ledger a wording belongs to at most one claim, and asserted again it lands on that claim, whatever the judge says |
| ClaimVariants.KnownWordingLands | src/lib/utils/claim-matcher.ts:86-96 | one turn: a claim that names none to replace lands on the stored claim that has its normalized wording |
| ClaimVariants.UnstableWordingIsNotFound | src/lib/utils/claim-similarity.ts:27-38 | a wording whose normal form normalizes to something else is not found among the variants that hold it, so the premise of stable texts is needed |
| HistoryCursors.CursorOrder | src/lib/client/message-history.ts:32-35 | the comparison of cursors is a strict total order |
| HistoryCursors.SortIsStable | src/lib/client/message-history.ts:178-178 | sorting keeps the order of elements at one cursor |
| HistorySegments.MergeSegments | src/lib/client/message-history.ts:177-211 | the loop computes the specified merge |
| HistorySegments.DeriveHistoryGaps | src/lib/client/message-history.ts:213-227 | the loop computes the specified gaps |
| HistorySegments.MergedIsStable | src/lib/client/message-history.ts:177-211 | merged segments are strictly apart with both facing flags open, and merging again changes nothing |
| HistoryRuns.EachMergedSegmentIsARun | src/lib/client/message-history.ts:177-211 | the segments in order fall into consecutive runs of touching ones, and each merged segment is the summary of its run: first start, farthest end, open on a side exactly if a segment reaching that side is, ids joined |
| HistorySegments.EverySpaceIsAGap | src/lib/client/message-history.ts:213-227 | n merged segments give exactly n-1 gaps, one for each space |
| HistorySegments.EveryUnloadedRowIsInOneGap | src/lib/client/message-history.ts:177-227 | with truthful segments every unloaded row between the first start and the last end lies strictly inside exactly one gap |
| HistorySegments.NoLoadedRowIsInAGap | src/lib/client/message-history.ts:177-227 | no gap reaches into a loaded segment |
| HistoryOrder.MergesAlikeExactlyWhenTiesAreHarmless | src/lib/client/message-history.ts:177-211 | proper segments merge alike up to ids in every order, if and only if no two that start together disagree on hasBefore while the farthest of the earlier segments ends before them and is open after |
| HistoryOrder.AgreeingTiesMergeAlike | src/lib/client/message-history.ts:177-211 | proper segments whose ties agree on hasBefore merge alike up to ids in every order |
| HistoryOrder.DisagreeingTiesDependOnOrder | src/lib/client/message-history.ts:186-196 | for every two proper segments that start together and disagree on hasBefore there is an earlier one with which two orders merge differently |
| HistoryOrder.DistinctStartsMergeAlike | src/lib/client/message-history.ts:177-211 | segments that start apart merge alike, ids included, in any order |
| HistoryOrder.TiedStartsDependOnOrder | src/lib/client/message-history.ts:186-196 | one segment or two: a concrete tie that disagrees on hasBefore, in two orders |
| HistoryRows.MergeMessageRowsAtRevision | src/lib/client/message-history.ts:61-87 | the loops compute the specified rows, revisions and accepted rows |
| HistoryRows.MergeActsByRow | src/lib/client/message-history.ts:61-87 | a merge acts on each id by itself: newest accepted response wins, deleted ids are dropped, rows end id-unique and strictly sorted |
| HistoryRows.AcceptedRows | src/lib/client/message-history.ts:71-86 | the accepted list holds exactly the rows the merge took over, in order |
| HistoryRows.TwoResponsesCommute | src/lib/client/message-history.ts:61-87 | two responses with different revisions leave the same rows and revisions in either order |
| HistoryRows.EveryOrderConverges | src/lib/client/message-history.ts:61-87 | any number of responses with different revisions converge in every order of arrival |
| HistoryRows.ReconcileMessageBatch | src/lib/client/message-history.ts:94-130 | both loops compute the specified reconciliation |
| HistoryRows.ReconcileActsByRow | src/lib/client/message-history.ts:94-130 | the exact condition under which a row is deleted or an id stamped |
| HistoryRows.GoneStaysGone | src/lib/client/message-history.ts:61-130 | an id stamped without a row gets none from any merge or reconciliation of a smaller revision |
| HistoryRows.DeletedStaysDeleted | src/lib/client/message-history.ts:94-130 | what a reconciliation deletes is not brought back by any later event of an older request |
| RelayAccounting.EveryRunIsBounded | services/agent/src/newscraft_agent/browser_rpc.py:351-473 | over every interleaving: reserved bytes are the bound times the relays fetching, settled bytes stay within charged ones, charged plus reserved and the bytes really taken stay within the action budget, at most four fetches, 24 tasks, 80 requests per action and 400 per run |
| RelayAccounting.ResetFindsNothingReserved | services/agent/src/newscraft_agent/browser_rpc.py:421-429 | a new command resets the accounts only when no relay holds a reservation or a slot |
| RelayAccounting.PricedAnswersAreSent | services/agent/src/newscraft_agent/browser_rpc.py:382-398 | the byte check after the settlement never refuses a validly priced answer |
| RelayAccounting.SpendingOnlyGrows | services/agent/src/newscraft_agent/browser_rpc.py:387-396 | within an action nothing is refunded and a failed or cancelled fetch spends its whole reservation |
| RelayOutcomes.WhatHappensIsBounded | services/agent/src/newscraft_agent/browser_rpc.py:351-419 | over every interleaving the bytes really taken in one action stay within its budget, and at most 80 requests an action and 400 a run are let through, counted from what happened |
| RelayOutcomes.WaitsExactlyWhen | services/agent/src/newscraft_agent/browser_rpc.py:351-365 | a checked request goes on exactly if it is well formed, of the active action, allowed, and within both counts; those of the active action are counted, allowed or not |
| RelayOutcomes.EngagedRelaysWereAllowed | services/agent/src/newscraft_agent/browser_rpc.py:351-413 | in every run each relay that waits, fetches or sends was checked and found allowed |
| RelayOutcomes.ArrivesExactlyWhen | services/agent/src/newscraft_agent/browser_rpc.py:325-332 | a request becomes a relay exactly while there are fewer than 24 |
| RelayOutcomes.FetchesExactlyWhen | services/agent/src/newscraft_agent/browser_rpc.py:366-372 | a relay fetches exactly if the whole bound fits the action's budget, and then holds it and a slot |
| RelayOutcomes.SentExactlyWhenValid | services/agent/src/newscraft_agent/browser_rpc.py:373-398 | in every run an answer is sent exactly if it is valid and is charged the larger of body and wire bytes; any other costs the whole reservation and is refused |
| RelayOutcomes.CancelledHoldsNothing | services/agent/src/newscraft_agent/browser_rpc.py:387-413 | a cancelled relay is gone and gives back what it held, wherever it stood |
| RelayOutcomes.EndedCommandAdmitsNothing | services/agent/src/newscraft_agent/browser_rpc.py:466-473 | after a command ends nothing is let through until the next one, which comes only after its relays have left |
| RelayAccounting.BrowserSession.StartCommand | services/agent/src/newscraft_agent/browser_rpc.py:421-429 | the accounts restart with the new action |
| RelayAccounting.BrowserSession.AcceptRequest | services/agent/src/newscraft_agent/browser_rpc.py:325-332 | a request becomes a relay only below the concurrency bound |
| RelayAccounting.BrowserSession.CheckRequest | services/agent/src/newscraft_agent/browser_rpc.py:351-365 | identity, active action, counters, method and allowlist before the semaphore |
| RelayAccounting.BrowserSession.Reserve | services/agent/src/newscraft_agent/browser_rpc.py:366-372 | the whole bound is reserved before the fetch, or the request refused |
| RelayAccounting.BrowserSession.SettleResponse | services/agent/src/newscraft_agent/browser_rpc.py:373-398 | validation, charge or whole reservation, release, and the final check |
| RelayAccounting.BrowserSession.ReleaseSlot | services/agent/src/newscraft_agent/browser_rpc.py:410-419 | the slot is released when the answer is sent or its sending fails |
| RelayAccounting.BrowserSession.CancelRelay | services/agent/src/newscraft_agent/browser_rpc.py:387-413 | a cancellation at any await releases what the relay held |
| RelayAccounting.BrowserSession.FinishCommand | services/agent/src/newscraft_agent/browser_rpc.py:466-473 | the action ends and names the tasks to cancel and wait for |
| HttpReader.Reader.ReadLine | services/agent/src/newscraft_agent/browser_network.py:286-293 | one line within its bound, ended by CRLF, or an error |
| HttpReader.Reader.ResponseHead | services/agent/src/newscraft_agent/browser_network.py:296-333 | the loops compute the specified status, fields and byte count over up to five heads |
| HttpReader.Reader.BodyOf | services/agent/src/newscraft_agent/browser_network.py:357-391 | the body reader computes the specified body and count for every framing |
| HttpReader.Reader.ReadChunks | services/agent/src/newscraft_agent/browser_network.py:366-387 | the chunk loop computes the specified decoding |
| HttpReader.Reader.ReadToEnd | services/agent/src/newscraft_agent/browser_network.py:388-391 | a body framed by the end of the stream is the rest of it, however the transport cuts it |
| HttpLaws.HeadersMeanTheirFields | services/agent/src/newscraft_agent/browser_network.py:305-329 | a block of fields is accepted exactly when no field outside the lists comes twice, and the headers then hold its kept fields, lists joined in order |
| HttpLaws.AcceptedHeadersAreFields | services/agent/src/newscraft_agent/browser_network.py:305-329 | whatever is accepted is a well-formed block of fields |
| HttpLaws.FramingIsUnambiguous | services/agent/src/newscraft_agent/browser_network.py:336-347 | a body is framed by its one length field, its one chunked coding, or the end of the stream, never by two of them |
| HttpBodies.FramedExactlyWhen | services/agent/src/newscraft_agent/browser_network.py:336-347 | exactly which fields frame a body, and how; all else is refused |
| HttpBodies.BodyReadExactly | services/agent/src/newscraft_agent/browser_network.py:357-391 | exactly which bodies are read for each framing, and none where there can be none |
| HttpBodies.LengthRoundTrip | services/agent/src/newscraft_agent/browser_network.py:357-365 | any body within the limit, sent after its length in decimal, is read back and what follows stays unread |
| HttpText.TokensAreVisible | services/agent/src/newscraft_agent/browser_network.py:37-37 | token characters are the visible ones that are no delimiters (section 5.6.2 of RFC 9110) |
| HttpText.FieldsHoldNoControls | services/agent/src/newscraft_agent/browser_network.py:316-317 | field values hold no control character but the tab (section 5.5 of RFC 9110) |
| HttpText.NamesIgnoreCase | services/agent/src/newscraft_agent/browser_network.py:319-319 | field names are alike exactly when they differ in the case of letters at most |
| HttpLaws.HeadAccounts | services/agent/src/newscraft_agent/browser_network.py:296-333 | the head's count is the bytes consumed and stays within its bound |
| HttpHeads.StatusReads | services/agent/src/newscraft_agent/browser_network.py:38-38 | every well-formed status line is read as its code |
| HttpHeads.StatusParts | services/agent/src/newscraft_agent/browser_network.py:38-38 | every accepted status line is a well-formed one |
| HttpHeads.FieldReads | services/agent/src/newscraft_agent/browser_network.py:315-323 | every well-formed field line is read as its lower-cased name and stripped value |
| HttpHeads.FieldParts | services/agent/src/newscraft_agent/browser_network.py:315-323 | every accepted field line is a well-formed one |
| HttpHeads.StripMeans | services/agent/src/newscraft_agent/browser_network.py:323-323 | stripping removes the blanks at both ends of a value and nothing else |
| HttpHeads.InterimsAreSkipped | services/agent/src/newscraft_agent/browser_network.py:296-333 | up to four interim responses before the final one are skipped and their bytes counted |
| HttpHeads.ResponseHeadIsRead | services/agent/src/newscraft_agent/browser_network.py:296-333 | a sent head, interim responses included, is read back as its status and the meaning of its fields, and what follows stays unread |
| HttpChunks.ChunkedBodiesAreEncodings | services/agent/src/newscraft_agent/browser_network.py:366-387 | a chunked body is accepted exactly when it is an encoding of at most 4095 non-empty chunks and 2 MiB, and what is returned is what it encodes |
| HttpChunks.ChunkedRoundTrip | services/agent/src/newscraft_agent/browser_network.py:366-387 | any body sent in such chunks is read back and later bytes stay unread |
| HttpChunks.BodyAccounts | services/agent/src/newscraft_agent/browser_network.py:357-391 | for all framings the body's count is the bytes consumed, at least the body's length and at most that and the bounded chunk lines |
| HttpChunks.ResponseAccounts | services/agent/src/newscraft_agent/browser_network.py:296-391 | head count plus body count is exactly what was consumed of the connection, and within MAX_RECEIVED_HTTP_BYTES for every accepted response |
| HttpChunks.PriceFitsItsReservation | services/agent/src/newscraft_agent/browser_network.py:477-480 | every accepted response is priced at no less than its counted bytes, its body and what was received, and at no more than the reservation made for it |
| Budgets.Account.Reserve | services/agent/src/newscraft_agent/budgets.py:66-80 | a reservation charges tokens and rounded-up cost or raises without charging |
| Budgets.Account.Remaining | services/agent/src/newscraft_agent/budgets.py:83-92 | the number of further calls of this size that fit, counting each as at least a token and a micro-dollar; that many reservations succeed, and with tokens and a price on them one more does not |
| Budgets.CallsLeftIsExact | services/agent/src/newscraft_agent/budgets.py:66-92 | for positive input tokens and price, exactly the promised number of consecutive reservations succeed |
| Budgets.NextFits | services/agent/src/newscraft_agent/budgets.py:83-92 | for every call and budget the promised reservations succeed, and the exact condition under which one more still would |
| Budgets.PricesAreListed | services/agent/src/newscraft_agent/budgets.py:66-72 | the listed prices are those of a million tokens and of one search |
| Budgets.ChargesAdd | services/agent/src/newscraft_agent/budgets.py:66-72 | a call costs the sum of its parts |
| Budgets.RunStaysWithinLimits | services/agent/src/newscraft_agent/budgets.py:66-80 | from any account over any run of calls, tokens are counted exactly, true cost and tokens stay within the limits with what was spent before, and the account overstates the cost by less than a micro-dollar per call |
| LedgerMeter.LedgerMeterOf | src/lib/utils/story-ledger-view.ts:90-104 | the loop computes the specified blocks and its index never wraps |
| LedgerMeter.QuotaRule | src/lib/utils/story-ledger-view.ts:90-104 | the meter shows min(slots, claims) blocks, and with a slot for every claim exactly the claims |
| LedgerMeter.BlocksRound | src/lib/utils/story-ledger-view.ts:94-102 | each bucket gets its exact share rounded down, or up if the share is not whole |
| LedgerMeter.LeftTimesClaims | src/lib/utils/story-ledger-view.ts:95-100 | the blocks left over are the summed remainders over the claims, at most three |
| LedgerMeter.EveryBucketIsShown | src/lib/utils/story-ledger-view.ts:85-104 | every bucket with claims is shown exactly when the blocks left over cover the buckets that rounded to nothing |
| LedgerMeter.ALargeBucketCrowdsOutSmallOnes | src/lib/utils/story-ledger-view.ts:85-104 | the documented promise fails for 97, 1, 1 and 1 claims in five slots |
| ServerEvents.ReadSSE | src/lib/utils/sse-client.ts:10-39 | however the text is cut into chunks, the events and the unread buffer are those of the whole text |
| ServerEvents.ReadFrame | src/lib/utils/sse-client.ts:22-33 | one frame parsed line by line |
| ServerEvents.DrainInSteps | src/lib/utils/sse-client.ts:17-34 | draining the buffer early changes nothing |
| ServerEvents.SseFrame | packages/shared/src/sse.ts:12-22 | the printer's output is the specified frame |
| EventWire.FrameOnTheWire | packages/shared/src/sse.ts:12-22 | a frame has one line each for id, name and delay exactly if there is one, then the data line by line, and the blank line |
| EventWire.DataLinesAreTheData | packages/shared/src/sse.ts:18-19 | the data lines are the data cut at its line breaks, a carriage return counting only before a line feed |
| ServerEvents.FrameIsRead | packages/shared/src/sse.ts:12-22 | a frame of any event is read to its end whatever follows, and as its event when no name or id holds a line break |
| ServerEvents.FramesAreRead | src/lib/utils/sse-client.ts:13-34 | any run of frames, cut anywhere, is read frame by frame in order with nothing left, those of single-line names and ids as their events |
| ServerEvents.DataSurvives | packages/shared/src/sse.ts:18-19 | for an event whose name and id hold no line break, the data a reader gets is the data sent, blank lines included, exactly when it is non-empty and every line is trimmed |
| ServerEvents.EventsSentAreRead | packages/shared/src/sse.ts:12-22 | however the bytes are cut, the events read are the events sent with nothing left over, if and only if every name, id and line of data is trimmed, no data is empty and no name or id holds a line break |
| ServerEvents.BrokenNamesAreLost | packages/shared/src/sse.ts:14-15 | names and ids are written unescaped, so an event whose name or id holds a line break is never read back |
| CacheSteps.KeyOfIsInjective | src/lib/client/artifact-detail-cache.ts:22-26 | no two four-part keys share a cache key |
| CacheSteps.EveryHitIsExact | src/lib/client/artifact-detail-cache.ts:44-99 | over every run a hit is the last ready detail stored for exactly that key, a joined fetch is one for exactly that key, one fetch per key is outstanding, and the kept keys are the most recently used ones within the bound |
| CacheRetention.KeptUntilCrowdedOut | src/lib/client/artifact-detail-cache.ts:44-99 | in every run a kept detail is hit until the cache is cleared or its key answered again, as long as fewer than the bound of other keys are used meanwhile |
| CacheRetention.FetchRepliesExactly | src/lib/client/artifact-detail-cache.ts:62-84 | in every run a fetch is a hit if the detail is kept, else joins the request outstanding for its key, else starts one |
| CacheRetention.AnswersAreKeptExactly | src/lib/client/artifact-detail-cache.ts:69-91 | every caller of a request gets the detail exactly if it is the one asked for, else the reason; it is kept exactly if also ready |
| DetailCache.ArtifactDetailCache.Get | src/lib/client/artifact-detail-cache.ts:53-60 | a hit moves its entry to the end |
| DetailCache.ArtifactDetailCache.GetOrFetch | src/lib/client/artifact-detail-cache.ts:62-78 | hit, join or start, up to the first await |
| DetailCache.ArtifactDetailCache.Resolve | src/lib/client/artifact-detail-cache.ts:69-77 | only a found, matching and ready detail is kept |
| DetailCache.ArtifactDetailCache.Put | src/lib/client/artifact-detail-cache.ts:86-91 | the entry is stored last and the oldest are evicted until the bound holds |
| DetailCache.ArtifactDetailCache.Finish | src/lib/client/artifact-detail-cache.ts:79-83 | the starter removes its own pending fetch |
| Archive.CanonicalArchive | services/agent/src/newscraft_agent/executor_state.py:41-98 | the loop and checks compute the specified canonical archive or refuse |
| Archive.Restore | services/agent/src/newscraft_agent/executor_payloads.py:43-75 | the unpacking loop computes the specified tree or refuses |
| RestoreAcceptance.RestoredExactlyWhen | services/agent/src/newscraft_agent/executor_payloads.py:43-75 | exactly which archives are unpacked, and the tree is that of their items and the directories above them |
| RestoreAcceptance.OrderMakesNoDifference | services/agent/src/newscraft_agent/executor_payloads.py:43-75 | the order of an archive's items changes neither whether it is unpacked nor the tree |
| Archive.Packer.Visit | services/agent/src/newscraft_agent/executor_payloads.py:115-147 | the recursive visit packs the tree in tour order within its limits, whatever order the system lists names in |
| Archive.PackWorkspace | services/agent/src/newscraft_agent/executor_payloads.py:110-151 | the snapshot program as a whole |
| Archive.MergeScreenshot | services/agent/src/newscraft_agent/browser_store.py:24-37 | the merge loop computes the specified archive |
| ArchiveLaws.CanonicalIsCanon | services/agent/src/newscraft_agent/executor_state.py:41-98 | an accepted archive has the scanned entries, sorted, safe, unique, bounded and free of collisions |
| ArchiveLaws.CanonicalIsIdempotent | services/agent/src/newscraft_agent/executor_state.py:41-98 | canonicalising a canonical archive changes nothing |
| ArchiveAcceptance.AcceptedExactlyWhen | services/agent/src/newscraft_agent/executor_state.py:41-98 | exactly which archives the host accepts, in terms of their items, and what their canonical form is |
| ArchiveAcceptance.NamesAreCleaned | services/agent/src/newscraft_agent/executor_state.py:51-51 | one leading "./" and all trailing slashes make no difference to a name |
| ArchiveAcceptance.NameBytesAreItsText | services/agent/src/newscraft_agent/executor_state.py:61-61 | the length of a name is that of its text in UTF-8 |
| ArchiveRoundTrip.RestoreNeverRefuses | services/agent/src/newscraft_agent/executor_payloads.py:43-75 | every canonical archive, in any order of its entries, unpacks into an empty workspace, to its files and the directories they need |
| ArchiveRoundTrip.TourMeetsAll | services/agent/src/newscraft_agent/executor_payloads.py:115-147 | the visit meets every node of the tree exactly once |
| ArchiveRoundTrip.PackAllExactly | services/agent/src/newscraft_agent/executor_payloads.py:115-147 | packing succeeds exactly within the limits on count, names, sizes and total |
| ArchiveRoundTrip.SnapshotOfUnpacked | services/agent/src/newscraft_agent/executor_payloads.py:110-151 | the snapshot of an unpacked archive has its entries and the implied parents, and exactly when it succeeds |
| ArchiveRoundTrip.RoundTrip | services/agent/src/newscraft_agent/executor_state.py:41-98 | unpacked, packed and made canonical again, an archive has the same entries and its missing parents; one that names its directories comes back unchanged |
| ArchiveLength.WithinLimitsFits | services/agent/src/newscraft_agent/executor_payloads.py:148-149 | entries within the limits on count and content are never too long for the archive limit |
| ArchiveLength.UstarSnapshot | services/agent/src/newscraft_agent/executor_payloads.py:110-151 | in the ustar format packing an unpacked archive succeeds exactly when its nodes are at most 256 and their names fit |
| ArchiveLength.UstarRoundTrip | services/agent/src/newscraft_agent/executor_state.py:41-98 | in the ustar format whatever is packed from an unpacked archive is canonical again, with the same entries and the missing parents, and no premise on lengths |
| ArchiveScreenshot.ScreenshotChangesOneEntry | services/agent/src/newscraft_agent/browser_store.py:24-37 | a merged archive is canonical, holds the screenshot, every other old entry, and nothing else |
| ArchiveScreenshot.ScreenshotFits | services/agent/src/newscraft_agent/browser_store.py:24-37 | exactly when the merge succeeds |

## Left out

Assumptions shared by the proofs:

- Foreign calls (SQLite, the container daemon, DNS, TLS, Chromium, the judge model) appear as atomic transactions, as
  steps that may succeed, fail or not happen, or as arbitrary functions.
- Formats: JSON, tar bytes, SHA-256 and zlib are abstracted to values and lengths. Sources' tiers and publishers, text
  normalization and similarity scores are arbitrary functions.
- Texts are compared by character value; JavaScript compares UTF-16 units, which differs only outside the basic plane.

By member:

- BrowserLifecycle.SafeExactlyWhenNoneEndangers: modelled on values, because controllers interleave between any two
  awaits; assumes fresh container names, a truthful `inspect` and one live controller per run. An inspection is taken
  when the daemon looks and acted upon when the controller resumes. Label and image checks are left out.
- TurnPlanner.PlanAnswer: assumes fresh ids, non-empty claim texts and ids that never start with the prefix of
  incoming references; the descriptive fields of events (`from`, `first`, the reasons given for a status) are not
  modelled.
- ClaimMatcher.MatchIncoming: the diagnostic fields `how` and `judged` are not modelled, and the figures test and the
  judge's merge test are arbitrary functions.
- ClaimVariants.VariantsStayApart: normalization is an arbitrary function, so its stability on the texts asserted is a
  premise; "1,2,3" is a text on which the source's is not stable. No claim of these turns names one to replace, since
  that may put a wording on a second claim.
- ClaimWordings.WordingsAreVariantsExactlyWhen: normalization is an arbitrary function, so which texts normalize to
  nothing is a hypothesis of the witness.
- HistoryOrder.MergesAlikeExactlyWhenTiesAreHarmless: for segments that do not start after their end; up to ids, since
  joining concatenates them in order.
- HistorySegments.EveryUnloadedRowIsInOneGap: assumes proper segments (start not after end) that tell the truth about
  unloaded rows; whether a page's flags are truthful is the server's matter.
- RelayAccounting.EveryRunIsBounded: trusts the provider to take no more than the reservation and to price a valid
  answer at no less than it took, as `HttpChunks.PriceFitsItsReservation` shows of one response; interruption of a
  command's own wait for its relays is not modelled, because the controller then discards the session. The private
  document trace is left out.
- HttpReader.Reader.ResponseHead: all raised errors are one outcome, and a line beyond the stream reader's own limit
  is an error like any line beyond the line limit.
- Budgets.RunStaysWithinLimits: arithmetic is exact; the 28-digit rounding of Python's decimal context is not
  modelled.
- LedgerMeter.LedgerMeterOf: shares and remainders are exact rationals; the floating-point division of the source
  could order two equal remainders differently. `slots` is a natural number.
- ServerEvents.ReadSSE: chunks are decoded text; the UTF-8 decoder that joins split characters is a foreign call.
- DetailCache.ArtifactDetailCache.GetOrFetch: promises are request numbers, and a fetcher that throws before returning
  a promise, which changes nothing, is not a step; freezing of stored details is left out.
- Archive.Restore: the unpacked file system's own limits (8 MiB and 512 nodes of the in-memory mount) are not
  modelled; an archive of deep names can need more directories than that.
- Archive.PackWorkspace: which names fit the tar header is an arbitrary predicate; hard links, other file types and
  files changing during the walk are left out.
- HistoryRows.MergeMessageRowsAtRevision: the unrevised merge, which keeps the last row given for each id, and the
  segment constructors, which take the first and last cursor of a page with the flags passed in, are left out.

Not modelled at all:

- Conversation context, research contracts and small talk: heuristics over English text.
- Streaming citation tokenizing and fence stripping: dominated by pattern matching.
- The sandbox's guard and watchdog programs, path checks, certificate and address checks: single-branch checks on
  foreign state.
- Routes, stores, labels, dates and rendering of the user interface.
- The input bound of a request, which multiplies character classes by constants.
