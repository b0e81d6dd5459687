# AIR OTC: a verified model of the settlement core

AIR OTC settles over-the-counter deals between software agents. A middleman process keeps one record
per ticket, moves it through the deal's phases as messages and deposits arrive, and hands on-chain
actions to an executor; agents drive their side of a deal in a loop. This project models the parts of
that program that carry state and proves what every run of them keeps.

Where the program updates fields step by step the model is a class with those fields, each of whose
methods is proved against a specification function (`Apply`, `Next`, `Step`); the laws are proved about
the specification, for all runs. So that a specification function does not vouch for itself, further laws
(`DealCommands`, `AgentLaws` and the last sections of the other modules) tie it to the plain fields, names
and numbers of the program. Time, message texts, the chain, the database's failures and the
language models' answers are inputs or are left out, as listed at the end.

## What is modelled

- **Deals** (`DealTypes`, `AiJudge`, `DealPhase`, `DealManager`, `DealDriver`, `DealCommands`, `DealRuns`,
  `DealHistory`, `DealBudget`, `DealFunding`, `DealPayouts`). Memory, database row and handed-out actions of each ticket,
  under any sequence of commands, restarts and chain reconciliations.
- **Deposits** (`DepositConfluence`, `DepositQueue`, `DepositPipeline`). The per-ticket promise queue as
  four interleaving steps, and the deal it leads to in closed form.
- **Event stream reader** (`TextLines`, `SseText`, `SseChunks`, `SseParser`, `SseRoundTrip`, `SseLines`,
  `SseThinning`, `SseReading`, `SseCrLine`). The chunked reader against one call on the whole stream, and
  the reader against a sender that follows section 9.2.5 of the WHATWG HTML Standard with LF or CR LF line ends.
- **Agent loop** (`AgentLoop`, `AgentProcess`, `AgentRuns`, `AgentLaws`). Recommendation, actions that may fail and
  SDK events between any two awaits.
- **Buyer agent, seller agent and execution service** (`BuyerAgent`, `SellerAgent`, `Lifecycle`). Guarded
  transfers and the six-step orchestrator under interleaved calls.
- **Negotiation** (`Agreement`, `Score`, `Bags`, `Whitespace`), **learner** (`Learner`), **healer cache**
  (`HealerCache`), **audit log** (`AuditChain`), **sanitizer** (`Sanitizer`).

## Where the code does not do what it seems to promise

Each of these is a lemma with its exact condition or a concrete witness.

- A crash forgets finished tickets: they are not loaded again, and the next command starts such a
  ticket afresh (`RestartUnobservableIff`, `ForgottenTicketIsCreatedTwice`).
- Terms with a price of zero do not come back from their row (`RestoreInvertsPersistIff`).
- A completed pair of deposits on a deal already in delivery sets the lock in memory only; this is
  harmless exactly when delivery already implies the lock (`RowFollowsMemoryIff`).
- Chain reconciliation may move a deal back and may break the funding invariant, depending on the account
  it is served (`ReconcileMovesBackIff`, `ReconcileFundedIff`, and over runs `PathThroughoutIff`, `FundingInvariantIff`).
- `release_funds` does not settle a deal: it can be handed out again, and followed by a cancellation
  (`ReleaseIsNotFinal`). A verdict the judge's prompt does not know counts as a release when it is
  confident (`ReleaseJustifiedIff`).
- The split guardrail checks only that the shares sum to 100; one can be negative (`SplitSharesAreRatiosIff`).
- A CR CR LF in the stream makes the reader depend on the cuts. What was read so far is independent of
  them at every moment exactly without CR CR LF (`ReadingThroughoutIff`); at the end of a stream without a
  line of CRs alone, exactly when it reads the same without the CRs at the ends of its lines
  (`ReadingIff`), which CR CR LF behind comments and unknown fields of finished blocks leaves true
  (`HarmlessCrsDoNotShow`). A line of CRs alone can become blank and end its block (`CrLineShows`).
- The agent's progress flags belong to the process: after an agreement no other ticket can be agreed to
  (`NewTicketAgreedIff`), and a match with one takes the next action, funding included, to it
  (`NextActionFollowsTheMatch`, `OneTicketIff`). A late Umbra request takes evidence back from a deal that
  still counts as complete (`LateUmbraRequest`), and the Umbra lifecycle can run again after each new
  request (`UmbraRunsIff`, `UmbraTwice`).
- The seller's comment promises a retry of the collateral; once a sign of completion comes first, there is
  none (`CollateralIsRetriedIff`, `LostForGood`).
- The buyer's comment promises a retry for the payment too; a failed payment is never retried and the
  release command is sent all the same (`PaymentIsNotRetried`).
- A seller listens for the end of the deal only while it waits for delivery: once it has delivered it never
  gets to completed (`DeliveredNeverCompletes`).
- A lifecycle that stops after its creation can never be resumed (`HaltedForGood`).
- The learner's collateral ratio can fall: a failed read before a successful write puts an old value
  back (`RatioFallsIff`, `FailedReadLowersRatio`).
- The healer cache counts diagnoses of an error whether or not they agree (`DisagreeingDiagnosesAreCached`).
- The audit writer hashes JSON and the replay tool a bar-separated line, so a written entry passes the
  replay only by a collision (`WrittenEntryFailsReplay`); overlapping appends break the chain
  (`OverlappingAppendsBreakLinks`); the link verifier does not look at contents (`LinksIgnoreContents`).
- Truncated content is a fixed point of the sanitizer's last stages exactly when the cut does not fall
  behind a blank (`CutFixedIff`).

## Model

| member | source | states |
|---|---|---|
| `DealTypes.RestoreInvertsPersistIff` | middleman-agent/core/dealPhaseManager.ts:849-916 | restoring a deal from its row gives the deal back exactly when its terms, if any, have a nonzero price |
| `AiJudge.Adjudicate` | middleman-agent/core/aiJudge.ts:46-208 | a verdict other than cancel comes out exactly with terms, confidence of at least 60 and, for a split, shares that sum to 100; every other answer is a cancellation |
| `AiJudge.ActsIff` | middleman-agent/core/aiJudge.ts:46-208 | the judge acts exactly with terms, a stated confidence of at least 60, no cancel verdict and, for a split, shares, 50 where missing, that sum to 100 |
| `AiJudge.ConfidenceReported` | middleman-agent/core/aiJudge.ts:46-208 | the confidence each ruling reports: 100 without terms, 0 for an unusable or unbalanced answer, else the answer's, 50 where missing |
| `AiJudge.SplitSharesAreRatiosIff` | middleman-agent/core/aiJudge.ts:149-193 | both shares of an accepted split are percentages exactly when the model's buyer share is |
| `AiJudge.SplitMayExceedTheDeal` | middleman-agent/core/aiJudge.ts:149-193 | an accepted answer that refunds the buyer 150 percent |
| `DealManager.DealPhaseManager.InitDeal` | middleman-agent/core/dealPhaseManager.ts:192-212 | a fresh deal in negotiation, persisted; other tickets untouched |
| `DealManager.DealPhaseManager.UpsertNegotiationTerms` | middleman-agent/core/dealPhaseManager.ts:220-242 | loads or creates the deal, fills missing parties, replaces the terms and persists; other tickets untouched |
| `DealManager.DealPhaseManager.GetDealWithFallback` | middleman-agent/core/dealPhaseManager.ts:248-276 | a deal not in memory is rebuilt from its row and reconciled with the chain |
| `DealManager.DealPhaseManager.HandleAction` | middleman-agent/core/dealPhaseManager.ts:335-398 | the state change and answer the specification gives for each brain action, self-healing included |
| `DealManager.DealPhaseManager.HandleCreateEscrow` | middleman-agent/core/dealPhaseManager.ts:402-447 | creation only from negotiation and with complete terms; hands out create_deal |
| `DealManager.DealPhaseManager.HandleReleaseFunds` | middleman-agent/core/dealPhaseManager.ts:449-491 | release only in the two phases that allow it, for the buyer (`DealCommands.WhoReleasesIff` says who that is), with terms, both collaterals and the lock |
| `DealManager.DealPhaseManager.HandleDispute` | middleman-agent/core/dealPhaseManager.ts:493-557 | two transitions, to disputed and to the ruling's phase, and the ruling's action |
| `DealManager.DealPhaseManager.HandleCancel` | middleman-agent/core/dealPhaseManager.ts:559-579 | cancels any unfinished deal, on chain unless it was in negotiation |
| `DealManager.DealPhaseManager.RecordDeposit` | middleman-agent/core/dealPhaseManager.ts:590-653 | flags, lock, transition and row writes of a collateral deposit, duplicates and rejections included |
| `DealManager.DealPhaseManager.ConfirmBuyerPayment` | middleman-agent/src/index.ts:677-697 | a confirmed payment locks and persists the deal and moves it on only from awaiting_deposits |
| `DealManager.DealPhaseManager.SetEscrow` | middleman-agent/core/dealPhaseManager.ts:655-663 | the address is set and persisted on a deal in memory, and ignored otherwise |
| `DealManager.DealPhaseManager.AdvanceToAwaitingDeposits` | middleman-agent/core/dealPhaseManager.ts:665-688 | only from escrow_created, with terms and an escrow address |
| `DealManager.DealPhaseManager.ReconcileDealWithChain` | middleman-agent/core/dealPhaseManager.ts:692-726 | flags and phase follow the chain's snapshot, and the row is rewritten exactly when they differed |
| `DealManager.DealPhaseManager.TransitionTo` | middleman-agent/core/dealPhaseManager.ts:728-757 | phase, history entry and row of one transition |
| `DealManager.DealPhaseManager.SyncTerminalPhase` | middleman-agent/core/dealPhaseManager.ts:797-836 | the execution status's phase is forced on the deal, and terminal ones unlock it |
| `DealManager.DealPhaseManager.RecoverAllDeals` | middleman-agent/core/dealPhaseManager.ts:888-919 | after start-up every ticket is in the state recovery gives its own row; finished ones are not loaded |
| `DealCommands.WhoReleasesIff` | middleman-agent/core/dealPhaseManager.ts:102-131 | with everything else on record a release is handed out exactly to the buyer's own name or to one that stands for the same wallet, the registered non-empty one or else the name itself; anybody else is refused and nothing changes |
| `DealCommands.StrangersCannotRelease` | middleman-agent/core/dealPhaseManager.ts:120-131 | a sender whose wallet differs from the buyer's is refused, whatever the deal |
| `DealCommands.EmptyDirectoryIff` | middleman-agent/core/dealPhaseManager.ts:102-131 | with no agent registered exactly the buyer's own name releases |
| `DealCommands.UnreadyIsNotReleased` | middleman-agent/core/dealPhaseManager.ts:449-475 | without delivery, terms, both collaterals and the lock nobody releases |
| `DealCommands.CreatesIff` | middleman-agent/core/dealPhaseManager.ts:402-447 | a creation is accepted exactly from negotiation with three nonzero amounts, and takes the proposed terms |
| `DealCommands.CancelsIff` | middleman-agent/core/dealPhaseManager.ts:559-579 | a cancellation is refused exactly on the three final phases, and is on chain unless the deal was in negotiation |
| `DealCommands.DisputeRefusedIff` | middleman-agent/core/dealPhaseManager.ts:493-505 | a dispute is refused exactly in negotiation and the three final phases |
| `DealCommands.DisputeRecorded` | middleman-agent/core/dealPhaseManager.ts:506-557 | the phase, action and two history entries each confident verdict leads to |
| `DealCommands.ActionOnUnknownTicket` | middleman-agent/core/dealPhaseManager.ts:335-365 | an action on a ticket that is not in memory is that action on a new deal with the names it brings |
| `DealCommands.TermsNegotiated` | middleman-agent/core/dealPhaseManager.ts:220-242 | terms are replaced, missing names are filled in and those there are kept |
| `DealCommands.AdvancesIff` | middleman-agent/core/dealPhaseManager.ts:665-688 | the deal advances exactly from escrow_created with terms and an address, is refused exactly without the address, and is left alone otherwise |
| `DealCommands.DepositRefusedIff` | middleman-agent/core/dealPhaseManager.ts:590-612 | a deposit is refused exactly without an address or outside the two phases that expect one |
| `DealCommands.DepositCompletesIff` | middleman-agent/core/dealPhaseManager.ts:590-653 | a deposit raises its party's flag and no other, and exactly the one that completes the pair announces delivery |
| `DealCommands.PaymentLocks` | middleman-agent/src/index.ts:677-697 | a payment locks in any phase and moves the deal from awaiting_deposits only |
| `DealCommands.StatusDecides` | middleman-agent/core/dealPhaseManager.ts:797-836 | which execution status forces which phase, which ones unlock, and that all others change nothing |
| `DealCommands.ChainIsAuthoritative` | middleman-agent/core/dealPhaseManager.ts:139-181 | each flag and the phase a served account gives the deal, by the account's status |
| `DealCommands.LoadedIff` | middleman-agent/core/dealPhaseManager.ts:888-919 | start-up loads exactly the rows in none of the three final phases |
| `DealCommands.RowRewrittenIff` | middleman-agent/core/dealPhaseManager.ts:692-726 | loading leaves the row as it is exactly when the chain has nothing to correct |
| `DealCommands.WholeDeal` | middleman-agent/core/dealPhaseManager.ts:186-688 | an undisturbed deal from its first message to its release, for any names, terms and address: every answer, both on-chain actions and the history |
| `DealRuns.RowFollowsMemoryIff` | middleman-agent/core/dealPhaseManager.ts:590-653 | after every command the row equals the deal, except for the one write of the lock that is not persisted |
| `DealRuns.SyncedStepIff` | middleman-agent/core/dealPhaseManager.ts:192-242 | row and deal stay in step under every event without chain data, exactly when no zero price is stored |
| `DealRuns.RestartInvisibleIff` | middleman-agent/core/dealPhaseManager.ts:888-919 | a crash and recovery change nothing exactly when the ticket is unfinished and the chain agrees |
| `DealRuns.CrashTransparency` | middleman-agent/core/dealPhaseManager.ts:728-919 | restarts anywhere in a run, while the ticket is unfinished, change no answer and not the final state |
| `DealRuns.RestartUnobservableIff` | middleman-agent/core/dealPhaseManager.ts:888-892 | no later commands can tell a restart from none exactly when the ticket is unfinished |
| `DealHistory.ReconcileMovesBackIff` | middleman-agent/core/dealPhaseManager.ts:139-181 | which account statuses move a deal to a lower phase, compared with the phase it has |
| `DealHistory.OnPathStepIff` | middleman-agent/core/dealPhaseManager.ts:335-836 | every event, chain data and forced phases included, keeps the history a rising path exactly when it is no listed step back |
| `DealHistory.PathThroughoutIff` | middleman-agent/core/dealPhaseManager.ts:335-836 | over a run the history is a rising path at every moment exactly when no event steps back |
| `DealHistory.PlainRunsGoForward` | middleman-agent/core/dealPhaseManager.ts:335-757 | runs of commands and restarts, without forced phases and chain data, never step back |
| `DealHistory.PhaseProgress` | middleman-agent/core/dealPhaseManager.ts:335-836 | after every run in which no event steps back the history is a connected path of at most six strictly rising transitions from negotiation to the phase |
| `DealHistory.FinishedDealsStay` | middleman-agent/core/dealPhaseManager.ts:335-579 | in a terminal phase no command but a new initialisation or the terminal sync changes phase or history or hands out an action |
| `DealBudget.EmissionTold` | middleman-agent/core/dealPhaseManager.ts:402-579 | each answer tells exactly the action handed out, and creation and settlement leave the states that allow them |
| `DealBudget.BackwardStepsIff` | middleman-agent/core/dealPhaseManager.ts:192-212 | exactly which events take a ticket back before its creation or out of a settled phase, reconciliation included |
| `DealBudget.ActionBudget` | middleman-agent/core/dealPhaseManager.ts:402-579 | over every run, creations and settlements are at most one plus the number of such backward steps |
| `DealBudget.CreatedAndSettledAtMostOnce` | middleman-agent/core/dealPhaseManager.ts:402-579 | from start-up, without backward steps, one creation and one settlement at most |
| `DealBudget.ForgottenTicketIsCreatedTwice` | middleman-agent/core/dealPhaseManager.ts:888-892 | a run in which a cancelled, forgotten ticket is created a second time |
| `DealFunding.ReconcileFundedIff` | middleman-agent/core/dealPhaseManager.ts:692-726 | reconciliation gives a funded deal exactly when the served account funds the phase it leads to |
| `DealFunding.FundingStepIff` | middleman-agent/core/dealPhaseManager.ts:449-836 | every event, with any chain data, keeps the funding invariant exactly when it is no listed harm: an empty address under a deal that relies on one, or a load that does not fund its phase |
| `DealFunding.FundingInvariantIff` | middleman-agent/core/dealPhaseManager.ts:449-836 | from start-up, over any run: escrow and terms from awaiting_deposits on, the lock from delivery on, both collaterals in awaiting_release, at every moment exactly when no event harms |
| `DealFunding.FundingInvariant` | middleman-agent/core/dealPhaseManager.ts:449-836 | in particular runs without chain data, zero prices and empty addresses keep it |
| `DealFunding.ReconciliationBreaksFunding` | middleman-agent/core/dealPhaseManager.ts:139-181 | two account statuses that harm a deal awaiting deposits: one without the lock, one that moves it back |
| `DealPayouts.ReleaseJustifiedIff` | middleman-agent/core/dealPhaseManager.ts:449-557 | release_funds is handed out exactly to the buyer (`DealCommands.WhoReleasesIff`) with everything recorded or by a confident verdict that is neither cancel nor split |
| `DealPayouts.SplitJustifiedIff` | middleman-agent/core/dealPhaseManager.ts:493-557 | a split is handed out exactly by a confident split verdict with balanced shares, and its shares sum to 100 |
| `DealPayouts.CancelJustifiedIff` | middleman-agent/core/dealPhaseManager.ts:493-579 | a chain cancellation is handed out exactly by a cancel command or a cancel ruling on a deal past negotiation |
| `DealPayouts.DisputeEndsIff` | middleman-agent/core/dealPhaseManager.ts:493-557 | an accepted dispute ends at once, completed exactly with terms, confidence and balance, else cancelled, with two transitions recorded |
| `DealPayouts.ReleaseLooksBack` | middleman-agent/core/dealPhaseManager.ts:449-653 | over every run without chain data, the buyer's release follows a creation that was not undone by an initialisation and both collateral deposits since |
| `DealPayouts.ReleaseIsNotFinal` | middleman-agent/core/dealPhaseManager.ts:449-491 | in awaiting_release the release can be handed out again and the deal can still be cancelled |
| `DealDriver.RunEvents` | middleman-agent/core/dealPhaseManager.ts:186-919 | every run of the manager object, commands on any tickets and restarts, leaves each ticket in the state of the run of its own events |
| `DealRuns.TicketsAreIndependent` | middleman-agent/core/dealPhaseManager.ts:186-187 | the same for the state as a function of the ticket |
| `DepositConfluence.ConfirmIsFinal` | middleman-agent/src/index.ts:661-697 | any sequence of confirmed deposits leads to the closed form of the set of their kinds |
| `DepositConfluence.DepositsConfluent` | middleman-agent/src/index.ts:661-697 | order and duplicates do not matter |
| `DepositConfluence.DepositsReachDeliveryIff` | middleman-agent/core/dealPhaseManager.ts:590-653 | when exactly delivery is reached, by exactly one transition; with all three kinds all flags are set |
| `DepositQueue.DepositConfirmationQueues.OnDepositReceived` | middleman-agent/src/index.ts:703-720 | an arrival is chained behind the tail of its ticket and becomes the tail |
| `DepositQueue.DepositConfirmationQueues.RunFinally` | middleman-agent/src/index.ts:713-717 | a finished task removes the entry only while it is still the tail |
| `DepositQueue.QueueSafety` | middleman-agent/src/index.ts:703-720 | under every interleaving: one running handler per ticket, handlers begin in arrival order and none twice, an entry exactly while a task is unfinished |
| `DepositQueue.QuiescentHandledAll` | middleman-agent/src/index.ts:703-720 | once everything settled, each ticket's events were handled exactly once, in arrival order, and the map is empty |
| `DepositQueue.StepsRemain` | middleman-agent/src/index.ts:703-720 | while a task is unfinished some step is possible, and it brings the remaining work down |
| `DepositPipeline.PipelineIsFinal` | middleman-agent/src/index.ts:628-720 | at every moment of every interleaving the deal is the closed form of the kinds of the events that arrived for it and whose handlers ended confirmed, read off the run's own steps |
| `DepositPipeline.PipelineReachesDeliveryIff` | middleman-agent/src/index.ts:628-720 | the ticket is in delivery exactly when enough of the events that arrived for it was confirmed, after one transition |
| `DepositPipeline.TaskHoldsItsArrival` | middleman-agent/src/index.ts:703-712 | over every run from start-up task i holds the ticket and the deposit of the i-th event that arrived |
| `DepositPipeline.FlagsFollowArrivals` | middleman-agent/src/index.ts:661-697 | each party's flag is up exactly when it was before or an event of that party's collateral arrived and was confirmed |
| `DepositPipeline.HandleDepositReceived` | middleman-agent/src/index.ts:628-701 | the handler: a replay or a failed confirmation records nothing, otherwise the event's kind decides what is recorded for its ticket alone |
| `SseParser.ParseSseMessages` | api-server/scripts/txline-stream-smoke.js:45-78 | the messages of the finished blocks and the text after the last blank line |
| `SseParser.ReadStream` | api-server/scripts/txline-stream-smoke.js:157-173 | the read loop equals one call on the whole stream when it holds no CR CR LF |
| `SseChunks.ChunkIndependence` | api-server/scripts/txline-stream-smoke.js:157-173 | blocks and remainder do not depend on the cuts, also inside a CR LF or a blank line |
| `SseChunks.ChunkIndependenceIff` | api-server/scripts/txline-stream-smoke.js:45-49 | the texts of the blocks, with the remainder, are independent of the cuts exactly without CR CR LF |
| `SseChunks.CutShows` | api-server/scripts/txline-stream-smoke.js:45-49 | a cut behind a CR CR LF always changes the texts of the blocks or the remainder |
| `SseReading.ReadingThroughoutIff` | api-server/scripts/txline-stream-smoke.js:45-173 | at every moment of a stream the messages and the remainder read so far are independent of the cuts, exactly when the stream holds no CR CR LF |
| `SseReading.ReadsWithoutCrs` | api-server/scripts/txline-stream-smoke.js:45-173 | every stream can be cut so that it reads as if the CRs at the ends of its lines were not there |
| `SseReading.ReadingIff` | api-server/scripts/txline-stream-smoke.js:45-173 | for a stream without a line of CRs alone: messages and remainder are independent of the cuts exactly when it reads the same without the CRs at the ends of its lines |
| `SseReading.EveryFormReads` | api-server/scripts/txline-stream-smoke.js:45-173 | for every stream: the cuts do not show if every form of its lines, some CRs taken off, reads the same, and only if the barest form does |
| `SseReading.HarmlessCrsDoNotShow` | api-server/scripts/txline-stream-smoke.js:56-64 | CR CR LF behind comments and unknown fields of finished blocks changes nothing |
| `SseThinning.MessageBetween` | api-server/scripts/txline-stream-smoke.js:51-74 | a block that gives the same message with and without some CRs at its line ends gives it with any number of them between |
| `SseCrLine.CrLineShows` | api-server/scripts/txline-stream-smoke.js:45-173 | a stream with a line of CRs alone that reads as its bare form does, and a cut that shows in it |
| `SseText.SplitText` | api-server/scripts/txline-stream-smoke.js:47-48 | cutting at blank lines loses nothing |
| `SseRoundTrip.BlockGivesMessage` | api-server/scripts/txline-stream-smoke.js:51-74 | a message's lines parse back to it, each spelled with the space behind the colon, without it, or as the bare name |
| `SseRoundTrip.ReadUnspaced` | api-server/scripts/txline-stream-smoke.js:56-64 | a field line without the space sets all that is behind the colon |
| `SseRoundTrip.OthersIgnored` | api-server/scripts/txline-stream-smoke.js:56-64 | comments and unknown names set nothing |
| `SseRoundTrip.DeliveredExactly` | api-server/scripts/txline-stream-smoke.js:45-173 | well-formed messages, each line spelled as the sender likes, either line end, any cuts: exactly those messages come out and nothing is left |
| `AgentProcess.Agent.OnNews` | agents/elizaos-agent/services/meridianSDK.ts:560-644 | what each listener writes, and that news of another ticket is ignored |
| `AgentProcess.Agent.DecideNextAction` | agents/elizaos-agent/services/decisionEngine.ts:86-95 | the deterministic decision, on the snapshot of the moment |
| `AgentProcess.Agent.FinishAction` | agents/elizaos-agent/services/meridianSDK.ts:332-545 | what each action writes when it succeeds, and that a failed one writes nothing |
| `AgentProcess.Agent.RunLoop` | agents/elizaos-agent/index.ts:136-187 | the counted loop refines the step relation and always ends stopped |
| `AgentRuns.ActionsFollowScript` | agents/elizaos-agent/services/dealTracker.ts:146-282 | in every run the successful deal actions are the role's script in order, each at most once, then only Umbra lifecycles, no more than requests |
| `AgentRuns.RecommendsNextIff` | agents/elizaos-agent/services/dealTracker.ts:146-282 | when exactly a deal action is recommended: it is the next one and what it waits for is there |
| `AgentRuns.ActionCountsIff` | agents/elizaos-agent/services/meridianSDK.ts:408-545 | an action counts exactly when it did not fail; a failed one leaves the snapshot as it was |
| `AgentRuns.CompletedEvidenceIff` | agents/elizaos-agent/services/dealTracker.ts:125-144 | whenever a deal counts as complete, evidence is missing exactly when a new Umbra request took it back |
| `AgentRuns.NewTicketAgreedIff` | agents/elizaos-agent/services/meridianSDK.ts:408-432 | a ticket not agreed to can still be agreed to in some continuation exactly when no agreement was made at all |
| `AgentRuns.AgreedTicketIff` | agents/elizaos-agent/services/meridianSDK.ts:408-432 | in every run the only ticket agreed to is that of the first deal action |
| `AgentRuns.OneTicketRun` | agents/elizaos-agent/services/meridianSDK.ts:647-668 | over every run whose matches, recoveries and accepted offers name one ticket, every deal action is for it |
| `AgentRuns.OneTicketIff` | agents/elizaos-agent/services/meridianSDK.ts:647-668 | with a deal begun, all continuations stay on its ticket exactly when the events can name no other |
| `AgentRuns.NextActionFollowsTheMatch` | agents/elizaos-agent/services/meridianSDK.ts:647-668 | after a match with any ticket the next action of the script is for it, whatever was agreed |
| `AgentRuns.UmbraRunsIff` | agents/elizaos-agent/services/meridianSDK.ts:525-545 | with the script done, when exactly a request is answered by one more Umbra lifecycle |
| `AgentRuns.UmbraTwice` | agents/elizaos-agent/services/meridianSDK.ts:612-625 | a run from start-up with two Umbra successes |
| `AgentRuns.LateUmbraRequest` | agents/elizaos-agent/services/meridianSDK.ts:612-625 | a late request withdraws the evidence but not the completion |
| `AgentLaws.RecommendedIff` | agents/elizaos-agent/services/dealTracker.ts:146-282 | each action is recommended exactly when it is due on the snapshot's fields, offers and browsing included, and waiting exactly when no other is |
| `AgentLaws.EvidenceIff` | agents/elizaos-agent/services/dealTracker.ts:125-144 | which evidence the settings ask of which role |
| `AgentLaws.BeginsIff` | agents/elizaos-agent/services/dealTracker.ts:146-282 | a step begins an action exactly when the loop decides and the action is due, for the deal of that moment |
| `AgentLaws.EndsIff` | agents/elizaos-agent/index.ts:136-187 | the loop ends exactly where the deal counts as complete between two awaits, where stopping is due, and where its turns run out |
| `AgentLaws.RolesThroughout` | agents/elizaos-agent/services/dealTracker.ts:161-282 | over every run from the start only a seller posts offers or delivers, only a buyer browses, looks for the delivery or confirms, and offers are posted and taken only without a deal |
| `AgentLaws.FirstDecision` | agents/elizaos-agent/services/dealTracker.ts:161-180 | a buyer begins by browsing and a seller by posting its offer |
| `AgentLaws.NewsTaken` | agents/elizaos-agent/services/meridianSDK.ts:560-644 | what each news adds to the snapshot of the agent's own ticket, and that it ignores all others |
| `AgentLaws.PhaseTaken` | agents/elizaos-agent/services/meridianSDK.ts:560-644 | the phase each news leads to, and that only a phase or the end of the deal decides the completion flag |
| `AgentLaws.PhaseHeard` | agents/elizaos-agent/services/meridianSDK.ts:565-580 | a phase without a ticket is the current deal's, one without a phase decides completion anew, and the status counts only between turns |
| `AgentLaws.DealTaken` | agents/elizaos-agent/services/meridianSDK.ts:647-668 | exactly which steps give the agent another deal, and that what was done stays done |
| `AgentLaws.ActionLeaves` | agents/elizaos-agent/services/meridianSDK.ts:332-545 | the one flag or request each successful action changes, and that a failed one changes nothing |
| `AgentLaws.CompletionAfterAction` | agents/elizaos-agent/services/meridianSDK.ts:525-545 | of the actions only the Umbra lifecycle decides the completion flag, on phase and evidence |
| `BuyerAgent.BuyerAgentProcess.HandleIncomingMessage` | middleman-agent/agents/buyerAgent.ts:185-289 | the handler up to its first transfer: agreement, deposit trigger, payment trigger |
| `BuyerAgent.BuyerAgentProcess.ResumeAfterCollateral` | middleman-agent/agents/buyerAgent.ts:140-161 | what a finished or failed collateral transfer does, and how the handler goes on |
| `BuyerAgent.BuyerAgentProcess.ResumeAfterPayment` | middleman-agent/agents/buyerAgent.ts:163-183 | what a finished or failed payment does |
| `BuyerAgent.SendOnce` | middleman-agent/agents/buyerAgent.ts:140-289 | under every interleaving each of the buyer's transfers is in flight or done at most once, its flag is up exactly then, and payment follows collateral |
| `BuyerAgent.CollateralIsRetried` | middleman-agent/agents/buyerAgent.ts:157-160 | after a failed collateral transfer the next message with an address begins it again |
| `BuyerAgent.PaymentIsNotRetried` | middleman-agent/agents/buyerAgent.ts:179-182 | after a failed payment no message begins it again, and the release command still goes out once |
| `BuyerAgent.PaymentBeginsIff` | middleman-agent/agents/buyerAgent.ts:256-272 | a step begins a payment exactly for a message with a sign of delivery, on arrival or behind its own collateral, while delivery is waited for, the collateral is sent, no payment is and an address is known |
| `BuyerAgent.NoPaymentBeforeDelivery` | middleman-agent/agents/buyerAgent.ts:256-287 | over every run without a sign of delivery nothing is paid and no release is sent |
| `BuyerAgent.CollateralBeginsIff` | middleman-agent/agents/buyerAgent.ts:219-254 | exactly which messages begin the collateral transfer, and that it goes to the address they bear |
| `BuyerAgent.WholeDeal` | middleman-agent/agents/buyerAgent.ts:140-289 | the states of an undisturbed deal from offer to release |
| `SellerAgent.SellerAgentProcess.OnMemoLog` | middleman-agent/agents/sellerAgent.ts:79-137 | the memos of a log set the ticket and schedule an acceptance each |
| `SellerAgent.SellerAgentProcess.HandleIncomingMessage` | middleman-agent/agents/sellerAgent.ts:161-244 | the handler up to its transfer: final confirmation, deposit trigger, delivery and completion |
| `SellerAgent.SellerAgentProcess.ResumeAfterCollateral` | middleman-agent/agents/sellerAgent.ts:139-159 | what a finished or failed transfer does, and how the handler goes on |
| `SellerAgent.SendOnce` | middleman-agent/agents/sellerAgent.ts:139-244 | under every interleaving the seller's collateral is in flight or done at most once and its flag is up exactly then |
| `SellerAgent.CollateralIsRetriedIff` | middleman-agent/agents/sellerAgent.ts:155-244 | after a failed transfer in any run it can begin again exactly when, among its message and those since, no sign of completion came first, or another acceptance went out |
| `SellerAgent.LostForGood` | middleman-agent/agents/sellerAgent.ts:183-244 | completed without its collateral and with no acceptance due, the seller never sends it |
| `SellerAgent.CollateralBeginsIff` | middleman-agent/agents/sellerAgent.ts:183-212 | exactly which messages begin the transfer |
| `SellerAgent.NoCollateralBeforeAcceptance` | middleman-agent/agents/sellerAgent.ts:161-244 | over every run without an acceptance nothing is transferred |
| `SellerAgent.OfferIsAnswered` | middleman-agent/agents/sellerAgent.ts:79-137 | in every run an offer that was received and is not answered yet has its acceptance due |
| `SellerAgent.MessageHeard` | middleman-agent/agents/sellerAgent.ts:161-244 | what each message does to the state: confirmation, delivery and completion count only where they are waited for |
| `SellerAgent.DeliveredNeverCompletes` | middleman-agent/agents/sellerAgent.ts:214-242 | a seller that has delivered never gets to completed |
| `SellerAgent.OfferToConfirmation` | middleman-agent/agents/sellerAgent.ts:79-181 | the states of an undisturbed deal from authentication to the final confirmation |
| `SellerAgent.AddressToDelivery` | middleman-agent/agents/sellerAgent.ts:183-242 | the states from the address to the delivery |
| `Lifecycle.ExecutionService.ExecuteCreateDeal` | middleman-agent/services/executionService.ts:67-116 | creation succeeds exactly for an acceptable agreement of an uncreated ticket whose call succeeds; a failed one can be repeated |
| `Lifecycle.ExecutionService.ExecuteOnDeal` | middleman-agent/services/executionService.ts:122-280 | a later call needs a context and a successful call; closing removes the context |
| `Lifecycle.ExecutionService.ExecuteFullDealLifecycle` | middleman-agent/services/executionService.ts:286-311 | exactly the steps before the first failing call are performed, and that call is reported |
| `Lifecycle.LifecyclePrefix` | middleman-agent/services/executionService.ts:67-311 | under every interleaving of calls and failures the log of a ticket is a prefix of create, lock buyer, lock seller, lock payment, release, close; at most one call is at work, and the context is kept exactly until closing |
| `Lifecycle.CreationStartsIff` | middleman-agent/services/executionService.ts:67-116 | a creation starts exactly with a confidence of 80, a nonzero price and nonzero collaterals, while nothing was created and none is under way |
| `Lifecycle.HaltedForGood` | middleman-agent/services/executionService.ts:286-311 | a lifecycle stopped after its creation is never resumed |
| `Lifecycle.AloneIsTheLoop` | middleman-agent/services/executionService.ts:286-311 | the interleaved calls without interleaving do what the loop does |
| `Lifecycle.OnlyCreates` | middleman-agent/services/executionService.ts:286-311 | without a call of the full lifecycle nothing but the creation is ever done |
| `AuditChain.ReplayDeal` | middleman-agent/scripts/replayDeal.ts:47-71 | the replay accepts exactly the logs whose every hash is the hash of its line on the previous hash |
| `AuditChain.ReplayAcceptsIff` | middleman-agent/scripts/replayDeal.ts:47-71 | the accepted logs by their entries: GENESIS or the previous hash, ticket, event and data, with bars between |
| `AuditChain.AcceptedLogIsUnique` | middleman-agent/scripts/replayDeal.ts:47-71 | two accepted logs with hexadecimal hashes, no bar in ticket or event and the same last hash are equal entry by entry and in length, or hold a collision |
| `AuditChain.VerifyAuditChain` | middleman-agent/src/services/auditTrail.ts:109-136 | accepts exactly the unbroken chains and reports the first break |
| `AuditChain.LinksHoldIff` | middleman-agent/src/services/auditTrail.ts:109-136 | the unbroken chains by their entries: GENESIS first, then each predecessor's hash |
| `AuditChain.AppendKeepsLinksIff` | middleman-agent/src/services/auditTrail.ts:16-42 | an append keeps the chain exactly when the hash it read is still the last |
| `AuditChain.OverlappingAppendsBreakLinks` | middleman-agent/src/services/auditTrail.ts:16-42 | two appends that read the same hash break it |
| `AuditChain.LinksIgnoreContents` | middleman-agent/src/services/auditTrail.ts:109-136 | changed contents do not change the verifier's answer |
| `AuditChain.WrittenEntryFailsReplay` | middleman-agent/src/services/auditTrail.ts:16-42 | a written entry that passes the replay is a collision of the hash |
| `HealerCache.AutoHealer.GetCachedStrategy` | middleman-agent/core/autoHealerMemory.ts:62-109 | an answer exactly when the hash is in memory or has three hits, and the effect on both levels |
| `HealerCache.AutoHealer.CacheStrategy` | middleman-agent/core/autoHealerMemory.ts:119-151 | the row holds the latest diagnosis and one hit more |
| `HealerCache.AutoHealer.PruneStaleEntries` | middleman-agent/core/autoHealerMemory.ts:161-181 | stale rows and the whole memory level are gone |
| `HealerCache.AutoHealer.InterpretExecutionError` | middleman-agent/core/autoHealer.ts:43-124 | cache, then diagnosis, whitelist and storing |
| `HealerCache.CacheSafety` | middleman-agent/core/autoHealerMemory.ts:62-151 | after every run memory entries equal rows with three hits, three diagnoses at most, and every answer is on the whitelist |
| `HealerCache.ModelAskedIff` | middleman-agent/core/autoHealer.ts:43-124 | the model's reply matters exactly while fewer than three diagnoses are on record |
| `HealerCache.DisagreeingDiagnosesAreCached` | middleman-agent/core/autoHealerMemory.ts:119-151 | after three different diagnoses the last is answered |
| `HealerCache.ModelDecides` | middleman-agent/core/autoHealer.ts:43-124 | before the third diagnosis: which of the model's strategies stand, which message is used, what is stored, and the answer when the model fails |
| `HealerCache.RowDecides` | middleman-agent/core/autoHealerMemory.ts:62-109 | from the third diagnosis on the row answers, once copied to memory nothing is touched any more |
| `HealerCache.PruneForgets` | middleman-agent/core/autoHealerMemory.ts:161-181 | pruning makes exactly the stale errors new again and leaves every other answer as it is |
| `Agreement.DetectAgreement` | middleman-agent/services/agreementService.ts:39-162 | terms exactly when the last ten steps have two proposers, settle every value without conflict and reach confidence 50; the terms are the latest values |
| `Agreement.ReadHistory` | middleman-agent/services/agreementService.ts:39-162 | the loop's variables are each party's latest values and strong signals |
| `Agreement.LatestIff` | middleman-agent/services/agreementService.ts:39-162 | the latest value is that of the last step of the party that names it |
| `Agreement.InterleavingIrrelevant` | middleman-agent/services/agreementService.ts:39-162 | how the two sides interleave does not change values, convergence or confidence |
| `Agreement.AgreedValueIff` | middleman-agent/services/agreementService.ts:72-125 | a value is agreed exactly when the parties' last steps about it mean it, told on the steps themselves |
| `Agreement.AgreesIff` | middleman-agent/services/agreementService.ts:72-125 | a field is agreed on exactly when there is such a value |
| `Agreement.ConfidenceIs` | middleman-agent/services/agreementService.ts:127-144 | the confidence in numbers: score, ten more or thirty less, three points a step up to five, 100 at most |
| `Agreement.ConfidentIff` | middleman-agent/services/agreementService.ts:127-162 | the score and steps that suffice: 40 when both parties have a step scored 40 or more, 80 otherwise |
| `Agreement.WindowIs` | middleman-agent/services/agreementService.ts:39-59 | the window is the last ten steps, or all |
| `Score.CalculateAgreementScore` | middleman-agent/services/parserService.ts:147-179 | the nested loops compute the score |
| `Score.AgreementScore` | middleman-agent/services/parserService.ts:147-179 | the score lies in 0..100 |
| `Score.ScoreMonotone` | middleman-agent/services/parserService.ts:147-179 | a further message anywhere never lowers the score |
| `Score.ScoreOfPermutation` | middleman-agent/services/parserService.ts:147-179 | reordering the messages does not change it |
| `Score.ScoreOfJoined` | middleman-agent/services/parserService.ts:147-179 | a list scores as its newline-joined text when no message is blank or holds a newline |
| `Score.ScoreOfMessages` | middleman-agent/services/parserService.ts:147-179 | the score of a conversation from its words: 40, 25 or 10 for each, 20 for several messages with two words, 100 at most |
| `Score.IncludesIff` | middleman-agent/services/parserService.ts:147-179 | a text includes a word exactly when it can be cut around it |
| `Score.LowerIs` | middleman-agent/services/parserService.ts:147-179 | what lower-casing does to each character |
| `Score.BlankLineIsNoMessage` | middleman-agent/services/parserService.ts:147-179 | a blank line in a text changes nothing, the bonus included |
| `Learner.StrategyLearner.GetCurrentThresholds` | middleman-agent/core/strategyLearner.ts:62-100 | the time-limited cache, the bootstrap row and a failed read |
| `Learner.StrategyLearner.RunThresholdTuning` | middleman-agent/core/strategyLearner.ts:192-257 | one tuning cycle, any database call failing |
| `Learner.RulesExclude` | middleman-agent/core/strategyLearner.ts:153-235 | the tightening rules and the relaxing rule never apply together |
| `Learner.BoundsHold` | middleman-agent/core/strategyLearner.ts:192-257 | over every run the thresholds in use and in store stay in 60..95, 2..8 and 1..3 |
| `Learner.ReadsReturnStored` | middleman-agent/core/strategyLearner.ts:62-100 | after every run a successful read returns the stored thresholds |
| `Learner.RatioFallsIff` | middleman-agent/core/strategyLearner.ts:192-257 | the steps in which the stored ratio falls: a write from a cache whose refresh failed |
| `Learner.RatioNeverFallsWithReads` | middleman-agent/core/strategyLearner.ts:192-257 | with successful reads it never falls over a run |
| `Learner.FailedReadLowersRatio` | middleman-agent/core/strategyLearner.ts:62-100 | a run in which it falls |
| `Learner.RulesIff` | middleman-agent/core/strategyLearner.ts:153-235 | the three rules in counts of outcomes |
| `Learner.TuningMoves` | middleman-agent/core/strategyLearner.ts:192-257 | how far and in which direction a cycle moves each stored threshold, from the counts, up to its limit |
| `Learner.NothingTuned` | middleman-agent/core/strategyLearner.ts:192-257 | with fewer than ten outcomes, no rule that applies or a failed write the row stays |
| `Learner.ReadServes` | middleman-agent/core/strategyLearner.ts:62-100 | when a read is answered from the cache, and what it stores otherwise |
| `Sanitizer.SanitizeContent` | api-server/src/middleware/sanitizer.ts:40-60 | the pattern loop and the three last stages, for any patterns |
| `Sanitizer.SanitizeMessage` | api-server/src/middleware/sanitizer.ts:66-91 | rejected exactly when content becomes empty; what passes is safe and is the sanitized text cut to 2000 characters, or 200 for the asset |
| `Sanitizer.StripHtmlLeavesNoTag` | api-server/src/middleware/sanitizer.ts:26-28 | no '<' with a '>' after it is left |
| `Sanitizer.TailIsSafe` | api-server/src/middleware/sanitizer.ts:40-60 | no tag, no control character, trimmed, and a subsequence of the input |
| `Sanitizer.TailFixedIff` | api-server/src/middleware/sanitizer.ts:40-60 | the fixed points of the last three stages are exactly the safe, trimmed texts |
| `Sanitizer.TailIdempotent` | api-server/src/middleware/sanitizer.ts:40-60 | the last three stages are idempotent |
| `Sanitizer.CutFixedIff` | api-server/src/middleware/sanitizer.ts:80-84 | truncation keeps safety, and gives a fixed point exactly when it does not cut behind a blank |
| `Sanitizer.StripsTag` | api-server/src/middleware/sanitizer.ts:26-28 | the first tag is taken out from its '<' to the first '>' after it, and the rest is stripped in turn |
| `Sanitizer.StripsControl` | api-server/src/middleware/sanitizer.ts:33-35 | of the control characters exactly tab, line feed and carriage return stay |
| `Sanitizer.TrimIs` | api-server/src/middleware/sanitizer.ts:40-60 | trimming takes the blanks at both ends and nothing else |
| `Sanitizer.PatternsInOrder` | api-server/src/middleware/sanitizer.ts:40-60 | each pattern is applied to what those before it left |

## Left out

- HandleAction: an action is atomic; other messages of the ticket handled while it awaits texts or the judge are not interleaved with it.
- GetDealWithFallback: the legacy `Deal` table behind the phase rows and its status mapping are not modelled; a missing row means a missing deal.
- TransitionTo: the event bus, the audit entry and the deal tracker's status beside each transition are left out.
- PersistDeal: writes are atomic and succeed; lost or overlapping writes are not modelled.
- InitDeal: timestamps and message texts are dropped, and the history's JSON round trip is taken as exact.
- Deal aliasing: callers that keep a reference to a deal and change it later appear only as the payment branch of the deposit handler.
- SyncTerminalPhase: execution statuses are plain strings; a failed upsert is not modelled.
- Public `transition` calls from the standard escrow activation service are not among the commands.
- Adjudicate: gathering the evidence for the judge's prompt, and the prompt itself.
- IdentitiesMatch: a wallet directory that fails to answer counts as one without the agent.
- ParseSseMessages: decoding bytes and the data's JSON; counters and samples of the smoke test.
- OnNews: the funding-request-pending flag, offers, balances, notes and Umbra details, which no decision reads; events during initialisation.
- DecideNextAction: the language-model path, on which the loop only forces a stop.
- FinishAction: an action on a deal waits for a match when there is no deal; in every reachable state there is one, and the model fails the action otherwise.
- HandleIncomingMessage: how agreement, address and delivery are recognised in a text is an input.
- ExecuteOnDeal: cancel and refund calls, accounts and keys; amounts are compared with zero only.
- ReplayDeal: printing, and the phase check, which expects phase strings where the manager stores transition objects.
- ReadingIff: for streams with a line of CRs alone the condition is bounded from both sides (`EveryFormReads`) and not exact: it would have to follow how often each such line was folded before its block was cut off (`CrLineShows`).
- AppendKeepsLinksIff: sealed entries and failing database calls of the writer.
- InterpretExecutionError: normalising and hashing an error text; database failures and overlapping calls; which rows are stale.
- DetectAgreement: reading the ticket and its steps, and the executor's agreement record.
- RunThresholdTuning: more than one configuration row, and rows edited by hand; decision logging.
- ReadsReturnStored: the clock is past its first minute, as every real clock is.
- SanitizeMessage: the script, handler and iframe patterns are arbitrary functions; lengths count characters and not UTF-16 units.
- Solana, Anchor, Umbra, Zerion, MagicBlock and Ika calls are inputs that succeed or fail; rounding of amounts is left out.
- HTTP, WebSocket and database plumbing, rate limits, signatures, the frontend and the demo and certification scripts are not modelled.
