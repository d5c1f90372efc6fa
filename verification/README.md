# Witself: a Dafny model of its protocols and state machines

Witself runs a fleet of cells, a control plane and an operator dashboard. This project models the parts of
it where the order of events decides the outcome, and proves what holds over every run:

- **Outbound email** (`OutboundStore`, `OutboundWorker`, `OutboundProtocol`, `OutboundConclusions`,
  `OutboundExamples`). One queued message goes through
  a fenced store row, any number of workers, a network that loses replies, and an adapter that keeps one
  durable receipt per send id. The store's SQL statements, the worker's dispatch and the adapter's receipt
  machine are modelled from their own sources and composed; at most one provider call can have been accepted.
- **The operator dashboard** (`SupportPane`, `EventTail`, `Dashboard`, `DashboardView`, `DashboardRuns`, `DashboardShows`,
  `DashboardResume`, `PaneWindows`). The program calls its own `Update` a pure transition function over the view
  state, and the proofs about runs are about that function. `DashboardView.Program` runs it as the code does, one
  assignment after the other with the loops over tickets and events, and is proved equal to it.
- **The event feed** (`EventsWatch`, `EventsFanout`). A poller with a high-water mark against a ledger that keeps
  growing, through pages of each cell's newest events.
- **The billing rollout inventory** (`BillingFence`, `BillingArtifacts`, `BillingFlags`, `BillingPublish`). A
  BEFORE, scan, AFTER bracket, hash-bound canonical artifacts, and create-only publication under crashes.
- **The feature catalog** (`FeatureCatalog`), **self-upgrade decisions** (`SelfUpgrade`), the **Windows bundle
  exchange** (`BundleExchange`) and the **deferral counter** (`DeferralLog`).

Objects that change in place are classes (`Program`, `Watcher`, `Directory`, `Volume`, `DeferralCounter`),
loops are loops, and each such method is tied to a function or states outright what it establishes. Times are
integers on one clock unless a model says otherwise.

Some statements of the code's own comments turn out not to hold. The code is modelled as it is; each such place
has a lemma with the input or the run, and a lemma that says exactly when the code does meet the statement:

- A canceled, a rejected or a failed message is not proof that nothing was accepted, nor that nothing will be
  (`CanceledMayHaveBeenAccepted`, `RejectedMayHaveBeenAccepted`, `RejectedMayBeUnknown`,
  `RejectedMayBeAcceptedLater`, `FailedMayHaveBeenAccepted`; `CanceledIsProofExactly`, `RefusedIsTrueExactly`).
- The events watch promises no silent gap, but a cell that fills its own page drops older events without the
  cap flag (`FullPageLosesSilently`; `SilentGapExactly`).
- A repeat of an event that has rolled off the tail is counted again (`RepeatAfterRollOffCountsAgain`;
  `CountedOnceExactly`).
- A self-upgrade may restart under the operator's fingers, and with an action under way
  (`RefreshUncoversAction`; `RestartWhileComposingExactly`, `CutsOffExactly`).
- Not every view comes back after the restart, nor the list's cursor (`ListCursorIsNotRestored`;
  `ViewComesBackExactly`); the restored cursor may leave the filtered list or its render
  (`ResumeCursorInRangeExactly`, `ResumeBreaksRenderExactly`).
- Opening a second ticket before the first one's thread arrives draws one thread and answers, or sets the state
  of, the other (`HastyOpenCrossesThreads`, `HastyOpenActsOffScreen`; `ThreadShownIsThreadAnswered`,
  `MatchesExactlyWhenPatient`, `StateChangeIsOnScreenExactly`).
- The retry delay may wrap for counts no adapter reply can carry (`RetryDelayMayWrap`; `RetryDelayIsAccepted`).
- Version order ignores pre-releases (`PrereleaseIsNotOlder`).

`dafny verify dfyconfig.toml` checks the whole project.

## Model

| member | source | states |
|---|---|---|
| OutboundStore.StatementsMeetChecks | internal/store/migrations/0089_add_agent_email_outbound.sql:124-187 | no statement of the worker can break the table's CHECK constraints |
| OutboundStore.StatementsAreFenced | internal/store/agent_email_outbound_worker.go:81-617 | only the holder of the current claim moves a row, queued content never changes, generations only grow, one attempt per claim, at most twelve |
| OutboundStore.OneClaimPerLease | internal/store/agent_email_outbound_worker.go:81-145 | while a lease runs nobody else claims the row, whatever its holder and everybody else do meanwhile short of the holder's own retry |
| OutboundStore.RetryIsNotEarly | internal/store/agent_email_outbound_worker.go:340-438 | a retried row, queued or held past the boundary, is not claimed before its retry time |
| OutboundStore.DeliveryClaimsComeFromFinalize | internal/store/agent_email_outbound_worker.go:277-335 | a row comes to claim a delivery only through the finalization that names the provider's message |
| OutboundStore.CrossingComesFromStart | internal/store/agent_email_outbound_worker.go:152-271 | a row is past the provider boundary only by the claim holder's Start, and a re-claim takes a new generation |
| OutboundStore.ClosedRowsStayClosed | internal/store/agent_email_outbound_worker.go:277-535 | the worker never changes a closed row |
| OutboundStore.SettlingTwiceIsOnce | internal/store/agent_email_outbound_worker.go:277-335 | repeating a settling call whose reply was lost succeeds and changes nothing |
| OutboundStore.NoRowIsStranded | internal/store/agent_email_outbound_worker.go:81-145 | once its wait is over an open row can be claimed exactly while its account is active and it has budget; out of budget, and so at the latest at the end of its work age, reconciling closes it whatever its account |
| OutboundStore.UncertainIsNeverCalledUnsent | internal/store/agent_email_outbound_worker.go:340-438 | a message past the boundary is requeued, canceled, failed or refused only by its holder's finalization or certain retry |
| OutboundStore.ReconcileClosesExactly | internal/store/agent_email_outbound_worker.go:493-535 | reconciling closes exactly the exhausted rows nobody holds, as ambiguous when past the boundary and otherwise as canceled |
| OutboundStore.BoundaryForgottenExactlyBy | internal/store/agent_email_outbound_worker.go:340-438 | the recorded boundary is forgotten by exactly one statement: a fenced retry with a certain code, no preserve flag and budget left |
| OutboundStore.ClaimExactly | internal/store/agent_email_outbound_worker.go:81-145 | a claim takes exactly the open rows whose wait is over, with an active account and budget left, for one lease and under a new generation; whether the row is past the boundary stays |
| OutboundStore.StartAnswersExactly | internal/store/agent_email_outbound_worker.go:152-271 | the answer to a Start: who is denied, limited, started or sent to replay, and that only a start or a denial moves the row |
| OutboundStore.AmbiguousExactlyBy | internal/store/agent_email_outbound_worker.go:340-535 | exactly what closes an open row as ambiguous: it is past the boundary and denied, out of budget on an uncertain retry, marked, or expired without budget |
| OutboundStore.CanceledExactlyBy | internal/store/agent_email_outbound_worker.go:340-535 | exactly what closes one as canceled: it is not past the boundary and denied or out of budget |
| OutboundStore.MovesAreStamped | internal/store/agent_email_outbound_worker.go:152-535 | whatever closes a row or takes it past the boundary is stamped with its time and records why |
| OutboundStore.UnsettledNamesNoMessage | internal/store/agent_email_outbound_worker.go:152-535 | a row closed as canceled or ambiguous names no provider message but for one an abandoned call may have left |
| OutboundStore.OpenMovesExactlyBy | internal/store/agent_email_outbound_worker.go:340-438 | exactly what queues a claimed row again and what takes one past the boundary, and the error a retry records |
| OutboundStore.RetryWaitsAsAsked | internal/store/agent_email_outbound_worker.go:340-438 | a retry that leaves the row open makes it wait until the time asked, no longer |
| OutboundWorker.DispatchClaimed | cmd/witself-worker/agent_email_outbound.go:189-303 | the dispatch makes exactly the calls of its trace and comes to the outcome the answers to its Start and its last call fix |
| OutboundWorker.SettlementExactly | cmd/witself-worker/agent_email_outbound.go:242-277 | from the wire alone, as iffs: an accepted or queued success reply of the provider is finalized as accepted under its message id, a delivered one as delivered, a permanent bounce as bounced, a rejection as rejected |
| OutboundWorker.RetryableIsRetriedAsAsked | cmd/witself-worker/agent_email_outbound.go:278-290 | a valid Retryable reply is retried when it says, or after a second, without the boundary and under the code its text names |
| OutboundWorker.UnclearIsAskedAgain | cmd/witself-worker/agent_email_outbound.go:291-303 | everything else, and nothing else, is asked again a second later with the boundary kept, under the code that says what came back |
| OutboundWorker.BookedExactly | cmd/witself-worker/agent_email_outbound.go:189-303 | a dispatch is booked as accepted, delivered, bounced or rejected exactly on such a reply to a permitted Send whose settlement the store took |
| OutboundWorker.UnsentCalls | cmd/witself-worker/agent_email_outbound.go:195-239 | what a dispatch that sends nothing calls: nothing but Start, except a retry no sooner than the limit says, or a mark |
| OutboundWorker.UnsentOutcomes | cmd/witself-worker/agent_email_outbound.go:195-239 | and what it is booked as |
| OutboundWorker.DenialIsBookedAsLeft | cmd/witself-worker/agent_email_outbound.go:199-208 | a denied Start is booked as the state it left the row in |
| OutboundWorker.TakeClaim | cmd/witself-worker/agent_email_outbound.go:156-186 | one claim is dispatched, traced and booked under its own outcome, or not booked exactly when the dispatch failed |
| OutboundWorker.Count | cmd/witself-worker/agent_email_outbound.go:165-184 | an outcome is added to its own counter and to no other |
| OutboundWorker.ProcessBatch | cmd/witself-worker/agent_email_outbound.go:133-187 | the k-th claim of a batch is traced and booked under what its own dispatch came to; claims exceed the booked ones by one exactly when a dispatch failed, and never exceed the batch size |
| OutboundWorker.CountersAddUp | cmd/witself-worker/agent_email_outbound.go:74-85 | balanced books conserve claims: each counter holds its own outcomes, and the eight add up to the booked dispatches |
| OutboundWorker.SendsAreStartedAndSettled | cmd/witself-worker/agent_email_outbound.go:189-303 | a Send follows a recorded start, carries the projected envelope, and is followed by exactly one Finalize or Retry on a context the parent cannot cancel |
| OutboundWorker.EnvelopeIsFaithful | cmd/witself-worker/agent_email_outbound.go:309-326 | the projection to the wire drops and merges nothing |
| OutboundWorker.EnvelopeFits | internal/agentemailoutbound/dispatch.go:131-180 | of the limits modelled, a projection is refused only for the size of its text, subject or references |
| OutboundWorker.ValidReplyIs | internal/agentemailoutbound/dispatch.go:463-490 | a valid reply either names the provider's message and no error or an error, and only a Retryable one a delay, of at most a day |
| OutboundWorker.FinalizeNeedsTrustedAnswer | cmd/witself-worker/agent_email_outbound.go:242-277 | Finalize needs an explicit valid reply of the expected provider, and a delivery a success status and the reply's message id |
| OutboundWorker.RetryIsBookedAsLeft | cmd/witself-worker/agent_email_outbound.go:328-357 | a retry is booked as queued exactly when it left the row open, otherwise as what the row became |
| OutboundWorker.BoundaryGivenUpExactlyOnRetryable | cmd/witself-worker/agent_email_outbound.go:278-301 | after a Send the boundary is given up exactly on a valid Retryable reply of the expected provider |
| OutboundWorker.RetryDelayIsAccepted | cmd/witself-worker/agent_email_outbound.go:278-301 | every retry after a Send is between one second and the store's 24 hours, with a code the store takes |
| OutboundWorker.RetryDelayMayWrap | cmd/witself-worker/agent_email_outbound.go:279-282 | the delay is at least a second for every count within a duration; one count beyond it wraps to 512 nanoseconds |
| OutboundProtocol.StepKeepsInv | infra/cloudflare/agent-email-send/src/dispatch.mjs:344-527 | every action of worker, store, network, adapter and clock keeps the protocol's invariant |
| OutboundProtocol.RunKeepsInv | cmd/witself-worker/agent_email_outbound.go:133-303 | so does every run |
| OutboundProtocol.AtMostOneAcceptance | cmd/witself-worker/agent_email_outbound.go:328-357 | over every interleaving of claims, timeouts, lost replies, crashes and retries all provider calls but the last were throttled, and every call and replay carries the one queued envelope |
| OutboundProtocol.AcceptedRowsAreTrue | cmd/witself-worker/agent_email_outbound.go:236-277 | a row says accepted or delivered only if the provider accepted under that message id |
| OutboundProtocol.CallsAreStartedAndBounded | internal/store/agent_email_outbound_worker.go:152-271 | nothing is sent before a Start let it past, no claim sends twice, at most twelve provider calls |
| OutboundProtocol.ReceiptOutlivesWork | infra/cloudflare/agent-email-send/src/dispatch.mjs:344-527 | a receipt never expires while an envelope of its message can still arrive |
| OutboundProtocol.SettlementIsTrue | cmd/witself-worker/agent_email_outbound.go:242-277 | what a worker finalizes as accepted the provider accepted under that id |
| OutboundProtocol.RunKeepsContent | internal/store/agent_email_outbound_worker.go:81-617 | no run rewrites the queued content or breaks the table's constraints |
| OutboundProtocol.StepKeepsThrottledUncrossed | cmd/witself-worker/agent_email_outbound.go:214-226 | a worker stopped by a rate limit holds no row past the boundary |
| OutboundConclusions.RunsForgetExactly | cmd/witself-worker/agent_email_outbound.go:278-301 | over every run the boundary is cleared exactly by such a settlement |
| OutboundConclusions.CallsMoveAtTheEdge | infra/cloudflare/agent-email-send/src/dispatch.mjs:344-527 | a provider call begins only with no receipt or a refused one, and ends only by the provider's answer |
| OutboundConclusions.BoundaryForgottenExactly | cmd/witself-worker/agent_email_outbound.go:278-301 | exactly when a step clears the recorded boundary, by what is there before it: the claim holder settles a delivered valid Retryable reply with budget left |
| OutboundConclusions.BoundaryLostExactlyBy | internal/agentemailoutbound/dispatch.go:280-308 | the exact steps at which a row loses and regains track of a possible acceptance, by what is there before them |
| OutboundConclusions.AstrayExactly | internal/agentemailoutbound/dispatch.go:280-308 | over every run: track is lost at the end exactly when some step forgot and no later one recalled |
| OutboundConclusions.CanceledIsProofExactly | internal/store/agent_email_outbound_worker.go:493-535 | over every run of a fresh message: a canceled row's message may have been accepted (a call that the provider neither throttled nor declined) exactly when some step forgot and no later one recalled |
| OutboundConclusions.OpenCallMoves | infra/cloudflare/agent-email-send/src/dispatch.mjs:463-515 | a step leaves a possible acceptance exactly when it begins a call, or one was there and the provider does not answer that it refused |
| OutboundConclusions.RefusedExactlyBy | cmd/witself-worker/agent_email_outbound.go:236-301 | exactly when a step closes an open row as rejected (its holder settles a valid rejection) and when as failed (a valid Retryable reply without budget), by what is there before it |
| OutboundConclusions.MisledExactlyBy | infra/cloudflare/agent-email-send/src/index.js:250-252 | exactly which steps make a rejected or failed row misleading, and which answer of the provider ends that |
| OutboundConclusions.RefusedIsTrueExactly | internal/store/agent_email_outbound_worker.go:277-438 | over every run of a fresh message: a rejected or failed row's message may have been accepted exactly when some step misled and the provider refused the call at no later one |
| OutboundConclusions.ReceiptTellsExactly | infra/cloudflare/agent-email-send/src/dispatch.mjs:344-527 | over every run and whatever the row says, until the receipt may have expired: the message may have been accepted exactly when the receipt has a call in flight or is closed with anything but a rejection |
| OutboundConclusions.FinalizedExactlyBy | cmd/witself-worker/agent_email_outbound.go:242-277 | exactly when a step closes an open row as accepted, delivered or bounced, by what is there before it; the row then carries the reply's message id |
| OutboundConclusions.ReplayRepeatsOutcome | infra/cloudflare/agent-email-send/src/dispatch.mjs:344-440 | a replay begins no call and is answered with what the one call before it came to |
| OutboundConclusions.OutcomeReplySays | infra/cloudflare/agent-email-send/src/dispatch.mjs:463-527 | what the adapter's reply to each outcome says to the worker, and when it may ask again |
| OutboundConclusions.ReplayRecoversAcceptance | cmd/witself-worker/agent_email_outbound.go:328-357 | an acceptance whose reply was lost is recovered: the holder's replay, once settled, leaves the row accepted under the id the provider gave in the first place |
| OutboundConclusions.StartFollowsTrace | cmd/witself-worker/agent_email_outbound.go:195-239 | after its Start a protocol session does exactly what the dispatch's trace does next, statement for statement; a lost answer ends it |
| OutboundConclusions.SettlingFollowsTrace | cmd/witself-worker/agent_email_outbound.go:239-303 | and what settles its Send is the trace's last call, on whatever came back |
| OutboundExamples.CanceledMayHaveBeenAccepted | infra/cloudflare/agent-email-send/src/index.js:164-278 | a run that ends canceled, with no boundary on record, although the provider accepted |
| OutboundExamples.AcceptedMessageIsAccepted | cmd/witself-worker/agent_email_outbound.go:189-257 | the plain run: a fresh message is sent, accepted, and its row finalized as accepted under the provider's id |
| OutboundExamples.RejectedMayHaveBeenAccepted | infra/cloudflare/agent-email-send/src/index.js:250-252 | a run that ends rejected although the provider accepted, because the front door barred the replay |
| OutboundExamples.RejectedMayBeUnknown | infra/cloudflare/agent-email-send/src/dispatch.mjs:463-515 | a run that ends rejected while the crashed call may have been accepted: nothing is on record, and nothing rules it out |
| OutboundExamples.RejectedMayBeAcceptedLater | infra/cloudflare/agent-email-send/src/dispatch.mjs:344-527 | a run that is rejected before any call began, and is accepted afterwards when the first envelope comes late |
| OutboundExamples.FailedMayHaveBeenAccepted | internal/store/agent_email_outbound_worker.go:340-438 | a run that ends failed although the provider accepted, because the front door's rate limit met a row whose work age was over |
| OutboundExamples.ForgottenMayBeRecalled | infra/cloudflare/agent-email-send/src/dispatch.mjs:344-527 | a run that forgets and yet ends canceled with every call refused, so that recalling matters |
| EventTail.AppendEvent | cmd/witself-admin/tui_model.go:459-470 | appends unless the id is there, keeps the newest 200, and says which |
| EventTail.ReverseEvents | cmd/witself-admin/tui_model.go:787-793 | the seed's loop reverses the newest-first list |
| EventTail.WatchKeepsSelection | cmd/witself-admin/tui_model.go:796-807 | a repeat moves nothing; a paused view keeps its event or the oldest left, a live view follows |
| EventTail.KeysSelectNeighbours | cmd/witself-admin/tui_model.go:922-955 | j and k select the neighbouring events and stop at the ends |
| EventTail.PausedSelection | cmd/witself-admin/tui_model.go:556-562 | the paused selection moves down with the trim and stops at the oldest, for every tail length and every stale scroll |
| EventTail.PausedEventStays | cmd/witself-admin/tui_model.go:796-807 | the paused event stays selected exactly while it is in the tail, otherwise the oldest survivor is |
| EventTail.TailStaysDistinct | cmd/witself-admin/tui_model.go:451-470 | however a stream repeats itself, no id is in the tail twice and the bound holds |
| EventTail.TailIsFirstSeen | cmd/witself-admin/tui_model.go:451-470 | until something rolls off the tail is the first appearances in order, each counted once |
| EventTail.CountedOnceExactly | cmd/witself-admin/tui_model.go:451-470 | each event of a stream is counted exactly once precisely when no repeat comes of an event that has rolled off the tail |
| EventTail.RepeatAfterRollOffCountsAgain | cmd/witself-admin/tui_model.go:451-458 | past the cap a repeat is appended and counted again |
| EventTail.FedDistinct | cmd/witself-admin/tui_model.go:459-470 | distinct events leave the last 200 of them, each counted |
| EventsWatch.NewestEventTime | cmd/witself-admin/fleet_cmd.go:255-263 | the loop computes the newest time |
| EventsWatch.NewestIsMaximum | cmd/witself-admin/fleet_cmd.go:255-263 | which is at least every event's and the fallback, and one of them |
| EventsWatch.DegradedCellCount | cmd/witself-admin/fleet_cmd.go:289-298 | the number of cells that did not answer ok, zero exactly when all did |
| EventsWatch.Watcher.Tick | cmd/witself-admin/fleet_cmd.go:198-236 | one tick of the closure: emission, hold, cap warning and mark |
| EventsWatch.StepKeepsInv | cmd/witself-admin/fleet_cmd.go:198-236 | a tick never lowers the mark and never shows an event that was late for it |
| EventsWatch.LostExactlyBySkip | cmd/witself-admin/fleet_cmd.go:213-235 | a tick loses an event exactly by moving the mark past it unshown; failed and degraded ticks lose none |
| EventsWatch.RunLosesExactlySkipped | cmd/witself-admin/fleet_cmd.go:198-236 | over every run the mark never falls, and the events lost are those some advancing tick moved past |
| EventsWatch.FirstAnswerIsBaseline | cmd/witself-admin/fleet_cmd.go:209-213 | the first answer prints nothing and sets the baseline at its newest event or at the floor |
| EventsWatch.NothingOldIsPrinted | cmd/witself-admin/fleet_cmd.go:209-219 | over every run nothing at or before the baseline is ever printed, and nothing the ledger does not hold |
| EventsWatch.AfterKeepsOrder | cmd/witself-admin/fleet_cmd.go:214-219 | what is printed of an answer is in the answer's order |
| EventsFanout.OffPageMeansFull | internal/store/events.go:1300-1345 | an event is off its cell's page only when the page is full |
| EventsFanout.SkipsExactly | internal/store/events.go:1275-1345 | an advancing tick loses exactly the unprinted events past the mark that have a page's worth of newer events in their own cell; under a declared cap, those left out of the answer and not newer than all of it |
| EventsFanout.CutIsPassedToTheMillisecond | infra/cloudflare/control-plane/src/index.js:1531-1536 | the cap cuts by the millisecond: the mark stays behind a cut event at most within that event's own millisecond |
| EventsFanout.LostExactlyByPages | cmd/witself-admin/fleet_cmd.go:198-236 | so over every run from the start |
| EventsFanout.SilentGapExactly | cmd/witself-admin/fleet_cmd.go:229-235 | a run that never warned has lost an event exactly when at some advancing tick its cell held a page's worth of newer events |
| EventsFanout.NothingMissed | cmd/witself-admin/fleet_cmd.go:219-228 | with pages that are never full, what was printed of (baseline, mark] is exactly what was in the ledger in time |
| EventsFanout.FullPageLosesSilently | internal/store/events.go:1275-1345 | a run that loses an event with every cell ok, no cap flag and no warning, because one cell filled its page |
| EventsWatch.PrintedOnceUnlessHeld | cmd/witself-admin/fleet_cmd.go:211-228 | without held ticks no event is printed twice |
| EventsWatch.HeldTickRepeats | cmd/witself-admin/fleet_cmd.go:219-228 | a held tick prints the same window again |
| EventsFanout.TailShowsEveryEventOnce | cmd/witself-admin/tui_model.go:796-807 | watch and tail together: each id once, and every event there in time, until something rolls off |
| SupportPane.SortedIsStable | cmd/witself-admin/tui_model.go:494-502 | stage first, newest activity within it, nothing gained or lost, ties in their old order |
| SupportPane.AttentionFirst | cmd/witself-admin/tui_model.go:472-490 | stage after stage from what waits for the admin to finished work, an unknown state last, and newest first within one state |
| SupportPane.StableSortIsUnique | cmd/witself-admin/tui_model.go:494-502 | the order and the ties determine the list, so any stable sort returns this one |
| SupportPane.UpsertTicket | cmd/witself-admin/tui_model.go:506-520 | the loop replaces the first row of that id or appends, then sorts |
| SupportPane.UpsertKeepsOthers | cmd/witself-admin/tui_model.go:504-520 | one row per id, every other record unchanged, the new record shown, pane order kept |
| SupportPane.VisibleTickets | cmd/witself-admin/tui_model.go:526-544 | the loop computes the stage's list |
| SupportPane.VisibleIsTheStage | cmd/witself-admin/tui_model.go:522-544 | exactly the tickets of the stage, order and distinctness preserved |
| SupportPane.StagesPartTheList | cmd/witself-admin/tui_model.go:526-544 | the three stages part the list: every ticket is in exactly one, finished work in the one named after its state |
| SupportPane.AnchorCursor | cmd/witself-admin/tui_model.go:584-597 | the loop finds the first row of the id, or clamps |
| SupportPane.AnchorFollowsTicket | cmd/witself-admin/tui_model.go:581-597 | re-anchoring always lands in range: on the same ticket whenever it is still shown, else at the same place or the last |
| DashboardView.Program.Update | cmd/witself-admin/tui_model.go:599-844 | every message handler, one assignment after the other with its loops, equals the step function |
| DashboardShows.TicketsShown | cmd/witself-admin/tui_model.go:606-619 | a loaded list is what the support pane shows: all of it, in pane order, ties as they came |
| DashboardShows.LiveTicketShown | cmd/witself-admin/tui_model.go:721-728 | a live ticket becomes a row, every record with another id stays, and no row is doubled |
| DashboardShows.CellsShown | cmd/witself-admin/tui_model.go:746-753 | loaded cells are what the strip shows |
| DashboardShows.EventsShown | cmd/witself-admin/tui_model.go:780-807 | the events pane takes a seed whole, newest last, and a live event at its newest end unless it has it |
| DashboardShows.OnlyLoadsChangeLists | cmd/witself-admin/tui_model.go:599-840 | nothing else changes a list: no failed load, no other message, no key |
| DashboardShows.KeysSelectNextAndPrevious | cmd/witself-admin/tui_model.go:922-955 | down selects the next row of the focused pane and up the one before, each stopping at its end |
| DashboardShows.TabsCycle | cmd/witself-admin/tui_model.go:896-903 | which pane follows which, and that shift+tab goes back |
| DashboardShows.FilterCycles | cmd/witself-admin/tui_model.go:904-921 | which stage follows which, in the support pane only |
| DashboardShows.OtherKeysMoveNothing | cmd/witself-admin/tui_model.go:845-1040 | no other key moves a selection or the focus |
| DashboardShows.ViewsMoveExactly | cmd/witself-admin/tui_model.go:599-1040 | which view every key leads to from every view, and that a message moves the view only by bringing a thread |
| DashboardShows.EscForgets | cmd/witself-admin/tui_model.go:985-1003 | esc drops what the view it leaves had open and touches nothing else |
| DashboardShows.CommandsExactly | cmd/witself-admin/tui_model.go:599-1040 | command by command, exactly which steps ask for it |
| DashboardShows.DeferredUpgradeIsKept | cmd/witself-admin/tui_model.go:688-718 | an installed upgrade is remembered exactly while work holds it back and let go exactly by the restart it waited for |
| DashboardShows.UpgradeLight | cmd/witself-admin/tui_model.go:668-704 | what the upgrade light says after every step |
| DashboardShows.WatchesStopOnce | cmd/witself-admin/tui_model.go:741-813 | a watch is given up exactly when it stops |
| DashboardShows.TopologyIsPlaces | cmd/witself-admin/tui_model.go:1132-1152 | a reload counts as a change of topology exactly when some cell came, went or moved, in whatever order they are listed |
| DashboardShows.BackfillIsRecount | cmd/witself-admin/tui_model.go:1154-1175 | and as a backfill exactly when a cell listed before comes back with other account counts |
| DashboardView.Program.KeyPressed | cmd/witself-admin/tui_model.go:846-1071 | likewise every key inside and outside the composer, each handler assignment by assignment |
| DashboardView.CellTopologyChanged | cmd/witself-admin/tui_model.go:1132-1152 | sorting and comparing the spelled cells detects exactly that a cell came, went or moved |
| DashboardView.CellEventBackfillChanged | cmd/witself-admin/tui_model.go:1154-1172 | the map and loop detect exactly that a cell listed before has other counts |
| DashboardView.Program.CellOfRow | cmd/witself-admin/tui_model.go:1017-1025 | the loop finds the list row that supplies a thread record's cell |
| DashboardView.Program.TicketChanges | cmd/witself-admin/tui_model.go:721-739 | a live ticket is upserted, the cursor re-anchored by id and an open thread reloaded |
| DashboardView.Program.AnchorCursor | cmd/witself-admin/tui_model.go:584-597 | only the cursor moves, to the ticket id or into range |
| DashboardView.Program.RelaunchWhenReady | cmd/witself-admin/tui_model.go:1099-1106 | quits exactly with a staged tag, then with a snapshot of the view it leaves untouched, draft included, and the tag is used up |
| DashboardRuns.NextKeepsSane | cmd/witself-admin/tui_model.go:599-844 | without an armed resume every message and key keeps the cursor inside the filtered list, the list in order, and a thread or record behind every view that shows one |
| DashboardRuns.SelectionStays | cmd/witself-admin/tui_model.go:606-618 | no message or key but the cursor's own ever slides another ticket under the cursor while its ticket is still shown |
| DashboardRuns.KeysTakeBack | cmd/witself-admin/tui_model.go:896-955 | the cursor keys take each other back in every pane, so do tab and shift+tab, and four presses of f come round |
| DashboardRuns.EscReturnsToList | cmd/witself-admin/tui_model.go:956-1002 | a drill-down shows the selected event or cell, and esc returns to an unchanged master view |
| DashboardRuns.InspectReturns | cmd/witself-admin/tui_model.go:985-1028 | the record inspector shows the ticket on screen, actions there name it, and esc goes back to where it was opened |
| DashboardRuns.NextActions | cmd/witself-admin/tui_model.go:846-1071 | a step issues at most one action, and which |
| DashboardRuns.StateChangesAreKeyed | cmd/witself-admin/tui_model.go:1041-1062 | states are set by state keys only, on the action target only |
| DashboardRuns.StateChangeIsOnScreenExactly | cmd/witself-admin/tui_model.go:1108-1130 | the ticket a state key acts on is the row, drawn thread or record on screen, except exactly in a thread view that draws another thread than the coordinates name |
| DashboardRuns.UncrossedRunsActOnScreen | cmd/witself-admin/tui_model.go:1108-1130 | so in every run in which no crossed load lands, a state key acts on the ticket on screen |
| DashboardRuns.RestartsExactly | cmd/witself-admin/tui_model.go:673-711 | exactly when a step restarts the process, always with a snapshot of the view it leaves |
| DashboardRuns.ReplyIsWhatWasTyped | cmd/witself-admin/tui_model.go:860-880 | a reply is the trimmed text typed since compose was entered, for the coordinates fixed then |
| DashboardRuns.FreshRunsReplyHonestly | cmd/witself-admin/tui_model.go:848-887 | so it is at every point of every run started without a resume |
| DashboardRuns.StepKeepsThread | cmd/witself-admin/tui_model.go:960-968 | a step keeps thread, coordinates and loads together exactly when it opens no second ticket during a load |
| DashboardRuns.MatchesExactlyWhenPatient | cmd/witself-admin/tui_model.go:386-394 | so over runs: they agree at every point exactly when no second ticket is opened during a load |
| DashboardRuns.ShownPartsExactly | cmd/witself-admin/tui_model.go:620-658 | the thread drawn and the thread answered part exactly when a thread load lands whose thread the coordinates do not name |
| DashboardRuns.ThreadShownIsThreadAnswered | cmd/witself-admin/tui_model.go:386-394 | over every run: the thread drawn is the one answered at every point exactly when no such load lands |
| DashboardRuns.PatientIsNeverCrossed | cmd/witself-admin/tui_model.go:386-394 | and none lands while no second ticket is opened during a load |
| DashboardResume.DecodeEncode | cmd/witself-admin/tui_upgrade.go:442-467 | decoding inverts encoding, with empty members left out |
| DashboardResume.HealthRestored | cmd/witself-admin/tui_model.go:262-280 | a health view comes back at once and consumes the resume |
| DashboardResume.ThreadViewRestored | cmd/witself-admin/tui_model.go:348-376 | detail and compose come back when the thread load lands, with coordinates, draft and cursor, whatever happened meanwhile short of opening another ticket |
| DashboardResume.ViewComesBackExactly | cmd/witself-admin/tui_model.go:352-376 | for all seven modes exactly which views come back: health always, a thread view with coordinates, the list without any left over, a drill-down never |
| DashboardResume.OnlyKeysMoveTheView | cmd/witself-admin/tui_model.go:620-639 | no message moves a settled view, only a key does, over every run |
| DashboardResume.RestoredViewStays | cmd/witself-admin/tui_model.go:352-376 | once its startup load has landed a restarted view stays what it came back as until a key moves it |
| DashboardResume.ListCursorIsNotRestored | cmd/witself-admin/tui_model.go:262-280 | a list resume leaves the cursor at the top and stays armed |
| DashboardResume.ResumeCursorInRangeExactly | cmd/witself-admin/tui_model.go:640-654 | when the restored cursor is inside the filtered list |
| DashboardResume.ResumeBreaksRenderExactly | cmd/witself-admin/tui_model.go:1382-1390 | when the restored cursor makes the support window index past its list |
| DashboardResume.RestartWhileComposingExactly | cmd/witself-admin/tui_model.go:688-713 | a restart comes while a reply is typed exactly when a finished action releases a deferred upgrade; the draft rides along |
| DashboardResume.StepKeepsLoading | cmd/witself-admin/tui_model.go:688-701 | while no load answers during an action, the loading flag covers it |
| DashboardResume.CutsOffExactly | cmd/witself-admin/tui_model.go:688-711 | for every step exactly when a restart leaves an action under way |
| DashboardResume.UndisturbedIsCutOffByExit | cmd/witself-admin/tui_model.go:1095-1106 | while nothing disturbs the action, exactly when a reply is abandoned during it |
| DashboardResume.RefreshUncoversAction | cmd/witself-admin/tui_model.go:688-701 | a run in which a background refresh clears the flag and the upgrade restarts during a state change |
| DashboardResume.HastyOpenCrossesThreads | cmd/witself-admin/tui_model.go:960-968 | a run that shows one thread under the coordinates of another |
| DashboardResume.HastyOpenActsOffScreen | cmd/witself-admin/tui_model.go:1108-1130 | in such a run a state key acts on the ticket that is not drawn |
| PaneWindows.HeightBudget | cmd/witself-admin/tui_model.go:1278-1298 | the rows given out total the terminal height exactly from 16 rows on, with at least four for each window |
| PaneWindows.FrameFitsExactly | cmd/witself-admin/tui_model.go:1286-1298 | panes, strip and the two footer rows total the terminal height exactly from 16 rows on; below that 16 rows, or 30 where no size is known |
| PaneWindows.SupportWindow | cmd/witself-admin/tui_model.go:1382-1430 | the render's loop and clip, and the one case in which it indexes past the list |
| PaneWindows.CursorRowOnScreen | cmd/witself-admin/tui_model.go:1419-1430 | the clipped window has at most topRows lines and holds the cursor's row despite the markers, also after paneBox |
| PaneWindows.SelectedTicketOnScreen | cmd/witself-admin/tui_model.go:1508-1514 | so the selected ticket is on screen for every list, filter and cursor in range |
| PaneWindows.PanicsExactlyFarPast | cmd/witself-admin/tui_model.go:1382-1390 | only a cursor a whole window past the list makes the render index past it |
| PaneWindows.FilteredHasNoMarkers | cmd/witself-admin/tui_model.go:1394-1398 | a stage filter shows rows only |
| PaneWindows.RowsInOrder | cmd/witself-admin/tui_model.go:1391-1418 | the lines hold every row walked once and in order |
| PaneWindows.MarkersStandBetweenStages | cmd/witself-admin/tui_model.go:1394-1398 | a marker stands right above a row of another stage than the one before it, and above every such row, unless a filter is on |
| PaneWindows.WindowIsFull | cmd/witself-admin/tui_model.go:1382-1430 | the window walks as many rows as there are from its first, up to the frame, starts at the list's first row unless the cursor stands on its last, and shows as many lines as the frame has in one piece |
| PaneWindows.EventWindow | cmd/witself-admin/tui_model.go:1439-1446 | the window holds the selected event within eventRows lines, and when it is full |
| PaneWindows.SelectedEventOnScreen | cmd/witself-admin/tui_model.go:1439-1446 | it holds the selected event, and is full exactly unless the selection is near the oldest end with a window of newer events below |
| PaneWindows.SelectedCellOnScreen | cmd/witself-admin/tui_model.go:1357-1363 | the selected cell's three lines stay together on screen, also after the fleet shrank |
| BillingFence.ZeroExactlyWithoutReconcilers | cmd/witself-control-plane/billing_rollout_inventory.go:669-689 | for a validated fence the whole zero-count demand passes exactly without reconciler replicas |
| BillingFence.ReconcilersCoverApi | cmd/witself-control-plane/billing_rollout_inventory.go:585-667 | reconcilers are never fewer than API replicas, and exactly when each exceeds what it is derived from |
| BillingFence.ValidatedExactly | cmd/witself-control-plane/billing_rollout_inventory.go:585-667 | the validator passes exactly the fences in form: every hash, uuid, digest and release spelled out, counts in range and adding up, observations in order, replicas derived |
| BillingFence.StableExactly | cmd/witself-control-plane/billing_rollout_inventory.go:1083-1089 | two identities are stably one exactly when they differ in nothing but the five counts and inventories |
| BillingFence.StableZerosAgree | cmd/witself-control-plane/billing_rollout_inventory.go:1083-1089 | two zero fences of one stable identity differ only in observation time, container inventory and hash |
| BillingArtifacts.CountDown | cmd/witself-control-plane/billing_rollout_inventory.go:774-784 | a countdown loop passes exactly when no count is negative and their sum fits |
| BillingArtifacts.ValidPrivateCounts | cmd/witself-control-plane/billing_rollout_inventory.go:764-796 | no object is counted in two classes and none beyond those scanned |
| BillingArtifacts.CountsFitExactly | cmd/witself-control-plane/billing_rollout_inventory.go:764-796 | the counts accepted are exactly those a scan can come to: each object scanned is in one class or in none |
| BillingArtifacts.DecodeSigned | cmd/witself-control-plane/billing_rollout_inventory.go:1121-1145 | decoding inverts the canonical encoding |
| BillingArtifacts.StrictDecodingIsExact | cmd/witself-control-plane/billing_rollout_inventory.go:798-826 | a record has exactly one accepted file up to one trailing newline |
| BillingArtifacts.ReadExactly | cmd/witself-control-plane/billing_rollout_inventory.go:691-731 | the reader takes a file for a record exactly when the file is its canonical text with at most one newline, the record is in form, and its own hash is that of its other members |
| BillingArtifacts.HashFixesRecord | cmd/witself-control-plane/billing_rollout_inventory.go:723-729 | no record can be altered under its hash: two accepted files with one provisional hash are one text and one record |
| BillingArtifacts.ScanIsReadBack | cmd/witself-control-plane/billing_rollout_inventory.go:312-340 | what scan writes the provisional reader accepts as the same record |
| BillingArtifacts.ScanLosesNothing | cmd/witself-control-plane/billing_rollout_inventory.go:733-762 | two captures that scan to one file are the same, to the nanosecond and the time zone |
| BillingArtifacts.ScanExactly | cmd/witself-control-plane/billing_rollout_inventory.go:260-340 | exactly when a scan publishes; its completion check never refuses |
| BillingArtifacts.FinalizeExactly | cmd/witself-control-plane/billing_rollout_inventory.go:343-440 | exactly when finalize publishes; its changed-counts and public-fence refusals never come |
| BillingArtifacts.PublishedIsAttested | cmd/witself-control-plane/billing_rollout_inventory.go:421-456 | BEFORE, scan and AFTER bracket the capture, the zeros are what both fences attest, more than four minutes after the lifecycle was disabled |
| BillingArtifacts.ScanThenFinalize | cmd/witself-control-plane/billing_rollout_inventory.go:260-456 | a scan's artifact finalizes under the same BEFORE exactly when AFTER attests zero for the same source no earlier than the scan completed |
| BillingArtifacts.BoundToOneBefore | cmd/witself-control-plane/billing_rollout_inventory.go:691-731 | two accepted files with one provisional hash that finalize hold one record and are bound to one BEFORE fence and one registry authority |
| BillingFlags.Pigeonhole | cmd/witself-control-plane/billing_rollout_inventory.go:252-256 | as many distinct allowed names as required ones leave none missing |
| BillingFlags.TakePairs | cmd/witself-control-plane/billing_rollout_inventory.go:238-251 | the pair loop passes exactly distinct allowed names with values, and binds each |
| BillingFlags.ParseExact | cmd/witself-control-plane/billing_rollout_inventory.go:227-258 | accepts exactly the orderings of the required flags with non-empty values; the missing-name loop never fires |
| BillingPublish.Directory.WriteAtomic | cmd/witself-control-plane/billing_rollout_inventory.go:906-968 | no existing name is replaced, every crash state keeps what was there and names only complete synchronized data, success leaves exactly the one entry, failure none unless a clean-up call failed too; it fails exactly when the name exists, a call refused or every staging name was taken |
| BillingPublish.Directory.Stage | cmd/witself-control-plane/billing_rollout_inventory.go:992-1012 | staging creates a new name, never spelled as the output, or changes nothing |
| BillingPublish.Directory.Settle | cmd/witself-control-plane/billing_rollout_inventory.go:947-967 | after the link the output is completed and synchronized or taken back |
| Prelude.BelowIsStrict | featurestatus/catalog.go:221 | Go's string order is strict and total |
| Prelude.SortsAlikeExactly | cmd/witself-admin/tui_model.go:1144-1150 | two lists of strings sort to the same list exactly when one rearranges the other |
| FeatureCatalog.ValidateSorted | featurestatus/catalog.go:404-440 | the sorted-list loop accepts exactly strictly ascending lists of valid entries |
| FeatureCatalog.ValidateGates | featurestatus/catalog.go:286-302 | the gate loop accumulates the states, the uncovered gates and whether any is conditional or failed |
| FeatureCatalog.AccumulatedIsNeeding | featurestatus/catalog.go:286-302 | what it accumulates are exactly the conditional and failed gates |
| FeatureCatalog.ValidateOpenGates | featurestatus/catalog.go:309-345 | the open-gate loop accepts exactly valid ascending entries and marks exactly the listed gates |
| FeatureCatalog.ValidateFeature | featurestatus/catalog.go:229-370 | the whole feature validator accepts exactly the declarative contract |
| FeatureCatalog.ExactCover | featurestatus/catalog.go:286-350 | the open gates of a validated feature list exactly its conditional and failed gates |
| FeatureCatalog.GateTally | featurestatus/catalog.go:140-155 | the tally loop counts each state |
| FeatureCatalog.ReadinessIsFixed | featurestatus/catalog.go:159-174 | when each headline comes: accepted or retired exactly without open gates, blocked exactly when a gate fails, not ready and conditional by implementation, rollout and gates; the tally counts all seven |
| FeatureCatalog.AcceptedIsEvidenced | featurestatus/catalog.go:229-370 | a validated feature that reads accepted is rolled out, names its release and scope, and each gate passes with evidence or does not apply |
| FeatureCatalog.RetiredIsClosed | featurestatus/catalog.go:229-370 | a retired feature has its rollout retired, no gate that applies and nothing open |
| FeatureCatalog.LeastIsAccepted | featurestatus/catalog.go:229-370 | a feature with one document, one piece of evidence a gate and one release is valid and accepted |
| FeatureCatalog.ReferencesStayInside | featurestatus/catalog.go:442-470 | no prefix of an accepted repository path climbs above its root or stands still, and no separator hides in a segment |
| FeatureCatalog.IdExactly | featurestatus/catalog.go:48 | an id is lower-case words, none empty, with hyphens between |
| FeatureCatalog.LineExactly | featurestatus/catalog.go:388-402 | a text is accepted only as one line that trimming leaves alone |
| FeatureCatalog.ReleaseExactly | featurestatus/catalog.go:49 | a release is v and three runs of digits with dots between |
| FeatureCatalog.Validate | featurestatus/catalog.go:204-227 | a catalog is accepted exactly with 1 to 64 valid features in strictly ascending id order |
| SelfUpgrade.ParseSemver | cmd/witself-admin/tui_upgrade.go:93-109 | the array loop parses exactly the three numbers |
| SelfUpgrade.NewerVersion | cmd/witself-admin/tui_upgrade.go:79-91 | the loop decides whether the latest version's number is the greater one; what does not parse is never newer |
| SelfUpgrade.NewerIsStrictOrder | cmd/witself-admin/tui_upgrade.go:76-91 | a strict order, total up to the triple |
| SelfUpgrade.NewerTagIsGreater | cmd/witself-admin/tui_upgrade.go:79-91 | on printed tags newer means the greater number, the components read as digits to any base above them |
| SelfUpgrade.ParseCanonical | cmd/witself-admin/tui_upgrade.go:313 | parsing inverts printing |
| SelfUpgrade.ParseIsLenient | cmd/witself-admin/tui_upgrade.go:93-109 | the v, a suffix after a hyphen and space around do not matter to the parser |
| SelfUpgrade.ThreePartsOnly | cmd/witself-admin/tui_upgrade.go:93-109 | of dotted numerals exactly three in range make a version |
| SelfUpgrade.AcceptsExactlyPrinted | cmd/witself-admin/tui_upgrade.go:311-318 | the release identity accepts exactly the tags that print and parse back |
| SelfUpgrade.RelaunchRaises | cmd/witself-admin/tui_model.go:330-347 | a relaunch strictly raises the version's number, at least to the tag's, or lands on one that never upgrades again |
| SelfUpgrade.RelaunchesAreBounded | cmd/witself-admin/tui_upgrade.go:153-173 | no restart loop: at most one relaunch per published tag |
| SelfUpgrade.PrereleaseIsNotOlder | cmd/witself-admin/tui_upgrade.go:93-96 | a pre-release is neither older nor newer than its release |
| BundleExchange.EachBundleOnce | cmd/witself/antigravity_bundle_exchange_windows.go:80-84 | in every layout the old and the new bundle are there, each under exactly one name |
| BundleExchange.Volume.Exchange | cmd/witself/antigravity_bundle_exchange_windows.go:85-114 | every state on the way is a layout; success exactly when both renames went through; every error leaves the original layout except exactly when live was not seen free or putting the old bundle back was tried and refused, which leaves old in quarantine with new still staged |
| DeferralLog.DeferralCounter.Observe | cmd/witself-server/agent_email_cohort_deferral.go:29-41 | a line is printed exactly on the first call or a minute after the last line, and printed plus pending grows by the call |
| DeferralLog.CountsAddUp | cmd/witself-server/agent_email_cohort_deferral.go:29-41 | printed counts and pending add up to the calls less the counter's width per wrap, so exactly when it never wraps |
| DeferralLog.LinesAreSpaced | cmd/witself-server/agent_email_cohort_deferral.go:34-36 | successive lines are a minute apart, for every clock |
| DeferralLog.LinesTakeMinutes | cmd/witself-server/agent_email_cohort_deferral.go:10 | k lines take at least k - 1 minutes |
| DeferralLog.HeldBackOnlyBriefly | cmd/witself-server/agent_email_cohort_deferral.go:29-41 | with a clock that never steps back, the first call prints and counts are held back only within a minute of a line |

## Left out

- OutboundProtocol: edge clocks are assumed within 24 hours of the cell's (the proofs need three times the skew
  below the receipt's seven days less the 72 hours of work and the windows), and the cell's clock is one clock.
- OutboundProtocol: a receipt is assumed not to expire while its provider call is still running.
- OutboundProtocol: route registration at the adapter, receipt replay proofs, provider lifecycle events, the
  rate-limit arithmetic and legacy receipts.
- OutboundStore: the deferred_at and updated_at columns and the conversion of clock readings to SQL timestamps.
- OutboundWorker: the address and id patterns of Dispatch.Validate.
- EventsFanout: the verb filter (the ledger is what passes it), and an ok answer whose body lists no events.
- OutboundStore: which of several candidates the claim query picks; the model is of one row it picks or not.
- Dashboard: terminal styling, wide characters, the text area's own editing (any function of its text and
  caret), status texts, health samples, and timers beyond the commands that start them.
- Dashboard: the two places that return the model beside a call that changes it are read in the order the
  program intends, call first.
- DashboardResume.DecodeEncode: JSON and hexadecimal spelling; the record is its set of members.
- PaneWindows: widths; a window is its sequence of rows.
- BillingFence: the calendar; a timestamp text is its second or not canonical.
- BillingArtifacts.BoundToOneBefore: the hash is any function that does not collide on the two candidates.
- BillingArtifacts: reading files (modes, symlinks, changed identity), the R2 configuration, the spelling of
  public JSON, and path checks.
- BillingPublish: directory permissions and the resolution of the parent path; a directory is its entries.
- FeatureCatalog: url.Parse is its host part; path.Clean adds nothing to the segment checks; error texts.
- SelfUpgrade: downloads, cosign and process execution; the version an installed binary prints is an input.
- BundleExchange: handles, volumes and case folding; paths are already normalized.
- Health charts, catalog rendering, regions, admin command handlers and configuration parsers: they would add
  only easy members.
