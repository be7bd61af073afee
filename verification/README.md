# Remote session runner: a verified model

This project models the four cores of the remote session runner and proves what its design promises
about them: the execution authority (sessions, commands, one-off jobs and their capacity), canonical JSON
and its numbers, remote delivery with event mirroring, and the execution-context registries.

`dafny verify dfyconfig.toml` checks everything.

## How the model is built

**Execution authority.** `Authority` is a transition system. A row joins what the store records about a
session or command with what is true of the host runtime and of calls in flight (creating tokens, claims,
whether a script was sent, whether its end was reported). `Apply` is one store transaction with the
store's own guards, one runtime event, or a crash; a crash starts the next executor epoch, so tokens and
claims of the old one are dead. `Licensed` is the discipline the service keeps: nothing is released
without a proof, and nobody settles or stops a session whose creating call is still running. `Runs`
proves what holds after every disciplined trace. `Interference` gives the rely condition of one call:
others may take any licensed steps that do not use this call's tokens. `Scheduler` is the choice of the
next command and the order it keeps.

`ExecutionService`, `Commands`, `Closing`, `Policy` and `Coordinator` are the service's methods in the
source's own shape; between any two of their steps other callers run (`Service.Yield` promises no more than
the rely condition), a transaction may be refused or fail, and runtime answers are arbitrary. Each method
keeps `Reachable(w)`, so every world that any interleaving of calls and crashes can reach is one the
theorems of `Runs` and `Scheduler` are about. A call also counts the store steps that did not commit, so
that a contract can say what happens when none of them failed. `Startup` and `Recovery` run without other
callers, as the source does, but with store failures and crashes anywhere. `Finalization` adds the
ownership markers on the host and the work items that a recovery release leaves for the pass that clears
them.

Assumptions, all taken from the source's callers: the runtime supports command control; a runtime that
reports an error without a generation created nothing; a confirmed stop, cleanup or command boundary is
true; `CloseSession` acts on sessions whose creation has settled (the exact consequence of breaking this
is `Runs.CloseDuringCreation`).

**Canonical JSON.** `Decimal`, `Numbers` and `Int64` treat number texts by the grammar of section 6 of
RFC 8259, with exact real values. `JsonLexemes`, `JsonTree` and `CanonicalJson` hold a concrete string
escaper, a sorted-key printer, and a reader for JSON texts (RFC 8259); `MutationRequest` is the
canonicalizer. Texts are sequences of Unicode scalar values; sorting by code point is sorting by UTF-8
bytes, and byte limits use the UTF-8 length. `UnicodeEscapes` is the scanner over raw bytes, `EscapedTexts`
the same scan over characters, and `LenientReader` the decoder that would replace lone surrogates: on every
text the scan followed by that decoder is the strict reader of `JsonTree`.

**Remote delivery and mirroring.** `Delivery` is the protocol: intents with the reason of their settlement,
frames with the reply the bridge relayed (whole, broken or none), a clock, and what the target took up, that
is, recorded under the intent's idempotency key. For a create, submit or run that is the write that creates
the resource; for a cancel or close it precedes the effect. A frame without a reply may still land at any
later time. `RemoteDriver` holds the driver's operations, one at a time as its callers run them. The target
answers with a result only what it has taken up. A create, submit or run that was taken up is rejected only
through a broken reply or after an earlier frame without a reply got in between; a cancel or close also when
its handler fails after it was taken up. `EventLog`, `Mirror` and `TerminalProof` are the event grammar, the
prefix mirror and the terminal-proof rule. `Rotation` is the recovery scan.

**Registries.** `Registry` is the version 3 validation, `Mailboxes` the version 2 registries over maps that
may be visited in any order.

## Where a promise is not quite what the code does

- "Live runtimes never exceed held reservations" needs a close to act only on settled sessions.
  `CreateSession` does not take `mutationMu`. `Runs.CloseDuringCreation` shows that a close of a creating
  session leaves a startable session without a reservation exactly when a creating call was in flight, and
  `Runs.CloseDuringCreationIsReachable` runs into it, ending with two live runtimes under a limit of one. A
  caller can check the stored state: by `Runs.StoredStateIsAGuard` any state but `creating` rules the trap
  out. The store cannot tell more: by `Runs.CreatingIsAmbiguous` the same stored rows occur with and without
  the call in flight.
- "No frame is sent at or after its idempotency expiry" holds of the clock reading of the check, not of the
  sending: `Delivery.LateFrameIsPossible` is a run with a late frame. `Delivery.OnTimeIffMargin` gives the
  margin a caller needs: with a delay of at most d between check and sending, every frame is on time exactly
  when the check leaves more than d. On dispatch of a submit that delay contains a remote read
  (src/internal/dispatcher/remote.go:478-499), so d is not small.
- `accepted` and `not_delivered` do not always say whether the target took an intent up.
  Reconciliation accepts an uncertain cancel or close as soon as the controlled resource is found, even if
  no frame was ever sent (`Delivery.AcceptedButNeverSent`). The bridge reports a reply that breaks after the
  target answered as a plain rejection (src/internal/sshbridge/forward.go:755-758,
  src/internal/sshbridge/server.go:102-105, src/internal/sshbridge/protocol.go:407-418,
  src/internal/dispatcher/remote.go:910-920), so any operation that was taken up may be recorded as not
  delivered; for a close this also happens when the target closes and then fails to confirm its cleanup
  (src/internal/execution/service.go:1895-1900, src/internal/runnerd/server.go:876-884). Both are
  `Delivery.NotDeliveredButTaken`. A frame may even land after its intent was given up
  (`Delivery.TakenAfterRefusal`). A run abandoned by its owner is `reconciled` without proof.
- The stored reason says how far the state can be trusted. `Delivery.SettledRows` lists exactly the settled
  rows that runs reach. By `Delivery.ReasonDecides` the reason leaves the outcome open exactly for every
  rejection, for a cancel or close settled by a reading, and for an abandoned run. By
  `Delivery.WholeRepliesDecide`, where every reply came whole a rejection leaves it open only for a cancel or
  close: a rejected create, submit or run was taken up only if a reply to one of its
  frames was broken or missing (`Delivery.DeliveryIsTruthful`).
- A one-off job in `closing_session` whose session is `expired` never advances. The policy sweep makes it so
  between the checkpoint and the close (`Coordinator.StuckJobIsReachable`). `Coordinator.ClosePass` states
  both directions: with any other session state the job completes or is lost, unless a store step of the
  pass did not commit.

## Model

| member | source | states |
|---|---|---|
| Lifecycle.TerminalMeansNoEdge | src/internal/domain/state.go:34-60 | a session or command state is terminal exactly when its transition table has no edge out of it |
| Authority.SessionStepSound | src/internal/store/sessions.go:339-640 | every licensed write to a session row keeps: released only if proved gone, released at most once, alive only if not proved gone |
| Authority.CommandStepSound | src/internal/store/commands.go:289-365 | every write to a command row keeps: active means slot held, script sent at most once, one terminal write |
| Authority.CompleteSound | src/internal/store/commands.go:366-466 | completing a command moves command, session and slot together and releases only after the boundary |
| Authority.ReleaseAllSound | src/internal/store/commandless_lost_recovery.go:63-138 | the one-transaction release of lost capacity keeps every row's invariant |
| Authority.StepSound | src/internal/store/scheduler.go:46-262 | every licensed step of the authority keeps all rows and both capacity limits, and takes nothing back |
| Runs.CapacityIsNeverOverrun | src/internal/execution/service.go:565-608 | after every disciplined run live runtimes are among held reservations, running scripts among held slots, both within their limits |
| Runs.ReleasesFollowProofs | src/internal/execution/service.go:1752-1912 | in every run a released reservation is preceded by a proof event for its own session, a released slot by its own boundary or such a proof |
| Runs.ScriptIsSentAtMostOnce | src/internal/execution/service.go:682-691 | no run, with any crashes and resumptions, hands one command's script to the runtime twice |
| Runs.SettledOnce | src/internal/execution/service.go:813-853 | in every run a command gets at most one terminal state, which never changes, and slot and reservation are released at most once |
| Runs.JobsOnlyAdvance | src/internal/store/jobs.go:365-437 | job phases never go back over a run, and a complete job has its own session closed and its own command terminal |
| Runs.CloseDuringCreation | src/internal/execution/service.go:1884-1901 | after a close of a creating session one more start gives a live runtime without a reservation exactly when a creating call was in flight |
| Runs.CloseDuringCreationIsReachable | src/internal/execution/service.go:1807-1903 | a run disciplined up to the close, then the close and one more start: a live runtime without a reservation, and a second one beyond the limit |
| Runs.StoredStateIsAGuard | src/internal/execution/service.go:1833-1840 | in every run a stored state other than creating means no creating call is in flight and the stop is licensed |
| Runs.CreatingIsAmbiguous | src/internal/execution/service.go:495-530 | the same stored rows are reached with the creating call in flight and, after a crash, without it |
| Scheduler.BeforeIsTotal | src/internal/store/scheduler.go:159-171 | the four-key order of the candidates is a strict total order |
| Scheduler.CheckHead | src/internal/store/scheduler.go:339-367 | a candidate passes exactly when no unfinished command of its session comes before it |
| Scheduler.Pick | src/internal/store/scheduler.go:74-244 | under the controlled-restart hold and the handoff filter the search finds a command exactly when one may run, and then the oldest |
| Scheduler.SessionsRunInOrder | src/internal/store/commands.go:508-598 | in every run no command is started and no script sent while an earlier command of its session is unfinished, and the ordinals of each session are one to n without gap or repetition |
| Scheduler.ReachableIsOrderly | src/internal/store/scheduler.go:339-367 | the same of every world that any interleaving of service calls and crashes reaches |
| Interference.CreationIsPrivate | src/internal/execution/service.go:455-557 | no licensed step of another caller touches a session whose creating call is in flight |
| Interference.LicenceStable | src/internal/execution/service.go:813-853 | a licence earned by a proof or boundary is not lost to other callers |
| Interference.ReachableIsSafe | src/internal/execution/service.go:565-608 | every world a service call can leave is within capacity, with scripts sent and things released at most once and only after proof |
| ExecutionService.Service.constructor | src/internal/execution/service.go:425-433 | a new service starts from the empty authority |
| ExecutionService.Service.Commit | src/internal/store/sessions.go:1044-1083 | a transaction commits whole, is refused by its guards, or fails without effect, after others ran |
| ExecutionService.Service.Complete | src/internal/store/commands.go:366-466 | a committed completion leaves the terminal state, the session state and, if asked, the released slot |
| ExecutionService.Service.Prepare | src/internal/execution/service.go:523-536 | an error without a generation proves the session never started; any other answer keeps the creating token |
| ExecutionService.Service.FinishPreStartFailure | src/internal/execution/service.go:565-573 | a recorded pre-start failure is failed and released, with the proof |
| ExecutionService.Service.FinishRuntimeFailure | src/internal/execution/service.go:575-608 | a recorded runtime failure is failed exactly when cleanup is confirmed, then with proof and, for a known generation, released; otherwise lost |
| ExecutionService.Service.StartPrepared | src/internal/execution/service.go:537-557 | a prepared session becomes ready with a generation, or its failure is recorded truthfully |
| ExecutionService.Service.CreateSession | src/internal/execution/service.go:455-557 | an accepted creation ends ready, failed with proof or lost unless the store lost the record; a duplicate starts nothing |
| Commands.UseClaim | src/internal/execution/service.go:709-760 | a claim is used up once: the script is sent once or not at all |
| Commands.RunScript | src/internal/execution/service.go:752-789 | only a reported exit of a sent script is a completion boundary |
| Commands.FinishCommandFailure | src/internal/execution/service.go:1604-1649 | a failure without an error returns only when the stored command is terminal |
| Commands.RecordExit | src/internal/execution/service.go:831-853 | a winning completion stores success for exit zero and failure otherwise, frees the slot and readies the session; a loser returns the stored winner |
| Commands.SettleAnswer | src/internal/execution/service.go:787-853 | a signal exit during a cancellation is left to the cancellation; every other answer is recorded |
| Commands.ExecuteClaimed | src/internal/execution/service.go:709-853 | every path uses up the claim; a return without error leaves the command terminal or owned by a cancellation |
| Commands.ClaimNext | src/internal/execution/service.go:686-702 | one transaction commits the running state of the oldest command that may run, unsent, before any runtime call; it is refused only when nothing may run |
| Commands.ResumeCommand | src/internal/execution/service.go:860-905 | whatever the scheduler handed to this call, foreign or its own, is attended to before a return without error, and no claim is left behind |
| Commands.Accept | src/internal/execution/service.go:629-680 | a new command is queued last in its session; a known id is a duplicate and writes nothing |
| Commands.Submit | src/internal/execution/service.go:615-623 | accept, then resume unless the command was known |
| Commands.CancelAtRuntime | src/internal/execution/service.go:1733-1741 | a cancellation counts as confirmed only with the stop boundary and stored output |
| Commands.FinishCancelled | src/internal/execution/service.go:1752-1793 | a confirmed stop cancels and frees the slot, an unconfirmed one loses the command; a terminal winner is returned as stored |
| Commands.CancelCommand | src/internal/execution/service.go:1677-1742 | a first cancellation without error returns the terminal state that is stored, whoever wrote it; what it wrote itself is cancelled or, with an error, lost |
| Closing.CloseCommand | src/internal/execution/service.go:1850-1882 | one turn of the close loop leaves its command terminal (cancelled, if it was not before), reports an unconfirmed stop, or reports a store refusal |
| Closing.CloseCommands | src/internal/execution/service.go:1844-1883 | when the loop ends normally every command of the session, not only the listed ones, is terminal |
| Closing.FinishClose | src/internal/execution/service.go:1884-1903 | closed only with the stop proof and the released reservation; otherwise lost |
| Closing.MarkClosingLost | src/internal/execution/service.go:1905-1912 | an unconfirmed stop is recorded as lost |
| Closing.CloseSession | src/internal/execution/service.go:1807-1903 | a close that did the work leaves the session closed, proved gone and released with all its commands terminal; one that could not confirm leaves it lost; an error for a known session means a store step did not commit |
| Policy.TimeoutCommand | src/internal/execution/policy.go:141-174 | a timed-out command has its slot back; an unconfirmed stop records command and session as lost |
| Policy.ExpireIdle | src/internal/execution/policy.go:188-224 | an idle session expires only with the stop proof and its release |
| Policy.ExpireActive | src/internal/execution/policy.go:225-273 | an active command is stopped before its session; every verdict is durable |
| Policy.CancelQueued | src/internal/execution/policy.go:197-206 | every queued command of the snapshot is terminal before the runtime is asked to stop |
| Policy.FirstActive | src/internal/execution/policy.go:188-196 | the first active command of the snapshot, if any |
| Policy.ExpireSession | src/internal/execution/policy.go:188-273 | every verdict of an expiry is durable and names the session's own command, and only a store failure leaves none |
| Policy.IdleSince | src/internal/execution/policy.go:90-95 | the latest change of the session or of one of its commands |
| Policy.IsIdle | src/internal/execution/policy.go:89-96 | idle exactly when no work is open and nothing of the session changed for its idle timeout |
| Policy.FindOverdue | src/internal/execution/policy.go:69-73 | a running command past its timeout, exactly when the session has one |
| Policy.SweepSession | src/internal/execution/policy.go:45-108 | acts exactly when lifetime, timeout or idleness ask for it by the stored times; what is asked ends durably or a store step failed; otherwise nothing is touched |
| Policy.SweepTurn | src/internal/execution/policy.go:43-53 | one turn: settled and creating sessions are left alone, a failed listing is a store failure |
| Policy.EnforcePolicies | src/internal/execution/policy.go:29-110 | every session of the snapshot has exactly one turn; each one past its lifetime ended durably or met a store failure; the report counts durable outcomes, each still true when the pass ends |
| Coordinator.CheckpointJob | src/internal/execution/service.go:1038-1056 | a checkpoint is compare-and-set, and what the new phase promises holds |
| Coordinator.CreatePass | src/internal/execution/service.go:1223-1297 | the creating phase only moves on, and continues only with a higher phase |
| Coordinator.AcceptPass | src/internal/execution/service.go:1298-1415 | the accepting phase hands over its own session's command, and continues only with a higher phase |
| Coordinator.AwaitPass | src/internal/execution/service.go:1416-1463 | the awaiting phase moves to closing only with its command terminal |
| Coordinator.ClosePass | src/internal/execution/service.go:1465-1533 | the closing phase completes only with the session closed; it stays closing if the session was expired, and otherwise only if a store step of the pass did not commit |
| Coordinator.ResumeJob | src/internal/execution/service.go:1213-1545 | the loop ends because each continue raises the phase rank; phases never go back; complete means own session closed and own command terminal; a closing job advances exactly as its closing pass does |
| Coordinator.StuckJobIsReachable | src/internal/execution/policy.go:84-104 | a disciplined run reaches a closing job whose own session the sweep has expired |
| Startup.SweepSettles | src/internal/execution/reconciliation.go:54-153 | after a whole sweep all sessions but the preserved one are terminal, all commands of swept sessions are terminal, and only confirmed cleanups released anything |
| Startup.SecondSweepChangesNothing | src/internal/execution/reconciliation.go:13-15 | a second sweep with the same answers changes nothing |
| Startup.Offline.ReconcileCreating | src/internal/execution/reconciliation.go:195-216 | a creating session ends failed and released if cleanup is confirmed, else lost with its reservation |
| Startup.Offline.SettleCommands | src/internal/execution/reconciliation.go:218-248 | active commands become lost, with their slots released only if cleanup is confirmed, queued ones rejected, nothing else moves |
| Startup.Offline.ReconcileLive | src/internal/execution/reconciliation.go:218-274 | exactly the specified session row and command rows |
| Startup.Offline.ReconcileStartup | src/internal/execution/reconciliation.go:54-153 | unless the store fails, exactly the sweep of every session; no guard of the store refuses a step |
| Startup.Offline.ReconcileWithPlan | src/internal/execution/controlled_restart.go:47-102 | with a plan for an untouched queued one-off everything else is swept and the planned session, command and job stay as they were |
| Startup.PreservedIsUntouched | src/internal/execution/controlled_restart.go:104-126 | the planned session still passes the plan's own check after the sweep |
| Recovery.CountsAreExact | src/internal/execution/commandless_lost_recovery.go:171-181 | for distinct selections the counts agree exactly when the selected retained runtimes are all live slots and reservations |
| Recovery.CheckPairs | src/internal/execution/commandless_lost_recovery.go:113-142 | the pair loop accepts exactly distinct eligible pairs and counts the retained ones |
| Recovery.CheckBare | src/internal/execution/commandless_lost_recovery.go:143-168 | the commandless loop accepts exactly distinct eligible sessions and counts the retained ones |
| Recovery.CheckSet | src/internal/execution/commandless_lost_recovery.go:113-183 | the check passes exactly for distinct eligible requests whose retained runtimes are everything live |
| Recovery.CheckBatch | src/internal/execution/lost_recovery.go:394-440 | the same for pairs only; when all are released already nothing is counted |
| Recovery.ProveAll | src/internal/execution/commandless_lost_recovery.go:60-91 | succeeds exactly when every retained runtime is confirmed, and releases nothing |
| Recovery.ReleaseEmpties | src/internal/execution/commandless_lost_recovery.go:91-93 | releasing an exact selection leaves no live capacity |
| Recovery.ReleaseTwice | src/internal/store/commandless_lost_recovery.go:63-138 | a retry of a committed release is accepted and writes nothing |
| Recovery.Recover | src/internal/execution/commandless_lost_recovery.go:46-111 | all or nothing: success needs every retained runtime proved gone and leaves no live capacity, anything else leaves all capacity as it was |
| Recovery.RecoverBatch | src/internal/execution/lost_recovery.go:65-101 | the same for pairs; a batch already released changes nothing at all |
| Finalization.EventKeeps | src/internal/store/lost_recovery.go:768-834 | a release and its work items are one write; every later step keeps each item true of a released lost runtime and each unfinalized released runtime listed |
| Finalization.PendingIsExact | src/internal/execution/lost_recovery.go:240-244 | after every history, so after a crash at any point, items and remaining markers name exactly the released runtimes not yet finalized, none alive and none holding capacity |
| Finalization.CheckRequests | src/internal/execution/lost_recovery.go:206-229 | the request loop accepts exactly distinct sessions and distinct commands whose release is durable |
| Finalization.Keeper.CheckPending | src/internal/execution/lost_recovery.go:245-262 | the checks before finalization never refuse what a release left behind |
| Finalization.Keeper.FinalizePair | src/internal/execution/lost_recovery.go:345-373 | the marker goes if the runtime confirms, and then the item if the store records it |
| Finalization.Keeper.FinalizeBare | src/internal/execution/commandless_lost_recovery.go:185-207 | the same for a session without a command |
| Finalization.Keeper.FinalizePending | src/internal/execution/lost_recovery.go:245-281 | removes the markers of exactly the released runtimes that are confirmed, no live one and no capacity; it succeeds exactly when all is confirmed and recorded, and then nothing is left |
| Decimal.SignificandUnique | src/internal/domain/canonical.go:325-367 | an exact decimal with a significand not divisible by ten determines significand and power |
| Numbers.ReadSpelled | src/internal/domain/canonical.go:328-350 | a number text reads back as its own sign, digits and power of ten |
| Numbers.DecomposeKeepsValue | src/internal/domain/canonical.go:328-360 | trimming zeros keeps the exact value |
| Numbers.CanonicalKeepsValue | src/internal/domain/canonical.go:325-367 | every number text of the grammar is mapped to a number text of the grammar with the same exact value |
| Numbers.SameSpellingIffSameValue | src/internal/domain/canonical.go:325-367 | two number texts get one spelling exactly when their exact values are equal |
| Numbers.CanonicalIdempotent | src/internal/domain/canonical.go:325-367 | the canonical spelling is its own canonical spelling |
| Int64.LimitRoundTrip | src/internal/execution/service.go:1151-1207 | reading a canonical spelling gives v exactly when the original text denotes the integer v within 64 bits |
| JsonLexemes.StringRead | src/internal/domain/canonical.go:315-323 | a printed string literal reads back as its string |
| JsonLexemes.NumberRead | src/internal/domain/canonical.go:188-206 | a number text that nothing continues reads back as itself |
| JsonTree.SortedKeys | src/internal/domain/canonical.go:289-294 | the keys, each once, in increasing order |
| JsonTree.DecodePrinted | src/internal/domain/canonical.go:207-258 | decoding what was printed gives the normal form of what was printed |
| JsonTree.ValueIsValid | src/internal/domain/canonical.go:207-258 | everything that is read has only numbers of the grammar |
| CanonicalJson.JsonIsFaithful | src/internal/domain/canonical.go:260-313 | printed leaves and keys read back as their normal forms wherever they stand |
| CanonicalJson.SameIffNorm | src/internal/domain/canonical.go:95-102 | equality with numbers as exact decimals is equality of normal forms |
| CanonicalJson.PrintNorm | src/internal/domain/canonical.go:260-313 | normalising first does not change the bytes |
| CanonicalJson.PrintAlikeIffSame | src/internal/domain/canonical.go:260-313 | two values print alike exactly when they are equal with numbers compared as exact decimals |
| EscapedTexts.OutsideAlike | src/internal/domain/canonical.go:369-412 | the scan over the UTF-8 bytes of a text is the scan over its characters |
| LenientReader.ScanThenDecodeIsStrict | src/internal/domain/canonical.go:188-206 | on every text the scan followed by a decoder that replaces lone surrogates reads exactly what the strict reader reads |
| MutationRequest.DecodeText | src/internal/domain/canonical.go:188-206 | scanning the bytes and then decoding gives the strict reading |
| MutationRequest.Canonicalize | src/internal/domain/canonical.go:103-162 | the step-by-step edit of the request gives the declared effective request or the declared refusal |
| MutationRequest.FillDefaults | src/internal/domain/canonical.go:137-158 | the default loop refuses exactly unusable defaults and never overwrites a field of the request |
| MutationRequest.SameBytesIffSameRequest | src/internal/domain/canonical.go:103-162 | under one operation and defaults two requests give identical bytes exactly when their effective requests are equal up to number spelling |
| MutationRequest.CanonicalBytesAreFixed | src/internal/domain/canonical.go:103-162 | canonicalizing an output that fits the limit returns it unchanged |
| UnicodeEscapes.UnicodeEscapeValue | src/internal/domain/canonical.go:414-433 | the four-digit loop gives the hexadecimal value or refuses |
| UnicodeEscapes.ValidUnicodeEscapes | src/internal/domain/canonical.go:369-412 | never out of bounds, always ends, and gives the scan's verdict |
| UnicodeEscapes.LiteralScan | src/internal/domain/canonical.go:375-408 | a literal is passed exactly when its surrogate escapes are paired |
| UnicodeEscapes.ScanAcceptsPairedTexts | src/internal/domain/canonical.go:369-412 | on lexically well-formed texts the scan accepts exactly those with all surrogates paired high then low |
| Delivery.StepSound | src/internal/dispatcher/remote.go:226-335 | every licensed step keeps the truth of delivery states and the identity of frames, and takes nothing back |
| Delivery.LandingKeepsLicence | src/internal/dispatcher/remote.go:303-335 | what the driver may settle stays so if a frame lands before it does |
| Delivery.DeliveryIsTruthful | src/internal/dispatcher/remote.go:465-556 | in every run and every continuation a settled intent keeps its frames and reason; where the reason decides, the target took it up exactly when it is not recorded as not delivered; a rejected create, submit or run is taken up only if one of its replies was broken or missing; all its frames are one frame sent after a passed expiry check |
| Delivery.SettledRows | src/internal/dispatcher/remote.go:226-335 | exactly which settled rows (operation, state, reason, taken up or not, replies whole or not) runs reach |
| Delivery.ReasonDecides | src/internal/dispatcher/remote.go:910-1045 | operation and stored reason leave open what the target did exactly for every rejection, for a cancel or close settled by a reading, and for an abandoned run |
| Delivery.WholeRepliesDecide | src/internal/sshbridge/forward.go:751-771 | where every reply came whole they leave it open exactly for a cancel or close settled by a rejection or a reading, and for an abandoned run |
| Delivery.AcceptedButNeverSent | src/internal/dispatcher/remote.go:258-274 | a run that accepts a cancel of which nothing was ever sent |
| Delivery.NotDeliveredButTaken | src/internal/dispatcher/remote.go:519-530 | for every operation a run that records as not delivered what was taken up: after a broken reply, and for a cancel or close also after a whole one |
| Delivery.TakenAfterRefusal | src/internal/dispatcher/remote.go:299-320 | a run in which a frame without a reply lands after its intent was given up |
| Delivery.SubmitsAreSentInOrder | src/internal/store/local_intents.go:775-793 | in every run a frame of a submit leaves only after every earlier submit of its session was reconciled or recorded as not delivered |
| Delivery.OnTimeIffMargin | src/internal/dispatcher/remote.go:285-297 | with a delay of at most d between check and sending no run sends a late frame exactly when the check left more than d |
| Delivery.LateFrameIsPossible | src/internal/dispatcher/remote.go:478-505 | a run with a late frame |
| RemoteDriver.Driver.Call | src/internal/dispatcher/remote.go:499-530 | one frame with the time of its check and of its sending; a result means taken up; a rejection of a create, submit or run means not taken up if every reply came whole; an error before sending changes nothing |
| RemoteDriver.Driver.Retry | src/internal/dispatcher/remote.go:299-335 | inside the window a result becomes accepted by answer and a rejection not delivered by refusal, with what each proves; any other answer leaves the state |
| RemoteDriver.Driver.ReconcileIntent | src/internal/dispatcher/remote.go:226-283 | a found resource becomes accepted by reading and nothing is sent; past the uncertainty window, without a reading, or past the expiry nothing is written or sent; otherwise the same frame is retried |
| RemoteDriver.Driver.AcceptAfterGap | src/internal/dispatcher/events.go:382-388 | an uncertain submit whose command the target has is accepted by reading |
| RemoteDriver.Driver.Reconcile | src/internal/store/local_intents.go:547-566 | only an accepted or reconciled submit or run is reconciled |
| RemoteDriver.Driver.Abandon | src/internal/store/mailbox_exchanges.go:905-919 | only an uncertain run is abandoned, and its reason says so |
| RemoteDriver.Driver.Deliver | src/internal/dispatcher/remote.go:499-556 | claim, call and transition take only licensed steps; an intent that is not recorded is not sent; the stored state and reason say what the answer proved |
| RemoteDriver.Driver.RecordAnswer | src/internal/dispatcher/remote.go:505-556 | the stored state and reason are those the answer proves, a result that cannot be used leaving the intent uncertain |
| RemoteDriver.Driver.Guard | src/internal/dispatcher/remote.go:562-674 | the guard only marks recorded intents, and keeps unsent sessions unsent with the create given up before the close |
| RemoteDriver.Driver.SubmitReadiness | src/internal/dispatcher/remote.go:360-407 | a submit whose create is not delivered is reported as failed |
| RemoteDriver.Driver.DispatchIntent | src/internal/dispatcher/remote.go:465-556 | dispatching an intent of an unsent session sends nothing and leaves it not delivered |
| RemoteDriver.Driver.DispatchInOrder | src/internal/dispatcher/remote.go:562-674 | in every order, repeats included, nothing is sent and everything dispatched ends not delivered |
| EventLog.InspectLifecycle | src/internal/store/remote_events.go:575-644 | the one-pass inspector gives the grammar's verdict |
| EventLog.MachineLogsAreValid | src/internal/domain/state.go:162-182 | every log the command machine can write is accepted with the machine's own verdict |
| EventLog.ValidLogsAreWritten | src/internal/store/remote_events.go:575-644 | every accepted log is one the command machine can write |
| EventLog.MinimumIsTight | src/internal/dispatcher/projections.go:446-457 | the minimum terminal sequence is a lower bound over all logs and is reached |
| Mirror.EventMirror.MirrorEvent | src/internal/store/remote_events.go:328-410 | in-order events of a truthful target are always appended, duplicates recognised, everything else refused |
| Mirror.EventMirror.MirrorStream | src/internal/dispatcher/events.go:81-164 | under any stream the mirror stays a prefix of the target's log, never shrinks, and an accepted stream end equals the cursor; an undisturbed stream is mirrored whole |
| Mirror.EventMirror.RecordGap | src/internal/dispatcher/events.go:285-368 | recorded exactly for a strict terminal view beyond an unfinished, uncontradicted prefix; it covers what the mirror lacks and is never replaced |
| Mirror.EventMirror.BoundaryHolds | src/internal/dispatcher/jobs.go:417-490 | true exactly with the certificate that the view's kind needs |
| TerminalProof.AcceptedIntent.MarkProof | src/internal/store/local_intents.go:539-584 | a proof is recorded once, only for a delivered intent that the target carried out, and only with supporting evidence; the delivery state follows the protocol |
| TerminalProof.AcceptedIntent.SettleAfterGap | src/internal/dispatcher/events.go:367-400 | a gap settles a submit that the target has, accepting it first if it was uncertain, by steps of the delivery protocol and with the gap as certificate |
| TerminalProof.AcceptedIntent.ReconcileSubmit | src/internal/dispatcher/jobs.go:151-179 | a submit gains a proof only with a certificate |
| TerminalProof.AcceptedIntent.ReconcileRun | src/internal/dispatcher/jobs.go:232-295 | a run gains a proof only with a certificate and an agreeing terminal job, or with a proven pre-session failure |
| TerminalProof.FullLogIsEverything | src/internal/dispatcher/jobs.go:477-489 | a full-log certificate is the target's whole log |
| TerminalProof.SettledMirrorIsFinal | src/internal/dispatcher/jobs.go:454-489 | after a full-log or gap certificate the mirror never changes, so the certificate stays exact |
| Rotation.Scan.NextPage | src/internal/dispatcher/jobs.go:85-128 | the next page and cursor, wrapping at the end; an excessive limit moves nothing |
| Rotation.TurnProgress | src/internal/dispatcher/jobs.go:90-107 | a call that does not return an intent brings it one call closer |
| Rotation.NobodyStarves | src/internal/dispatcher/jobs.go:85-128 | over a set that does not grow every intent that stays is returned within c+1 calls of limit k from any cursor, for every c with n <= c*k, so within ceil(n/k)+1 |
| Registry.PairKeyInjective | src/internal/config/lane_profiles.go:521-523 | pair keys are unambiguous between an allowed pair and whatever a context holds |
| Registry.CheckEnvironments | src/internal/config/lane_profiles.go:384-436 | accepts exactly distinct valid environments with distinct valid targets, and collects their pairs |
| Registry.CheckContexts | src/internal/config/lane_profiles.go:435-461 | accepts exactly distinct valid contexts for allowed pairs |
| Registry.ValidateRegistry | src/internal/config/lane_profiles.go:379-473 | accepts exactly registries whose contexts and allowed pairs correspond one to one |
| Registry.Resolve | src/internal/config/lane_profiles.go:261-268 | finds a context of the pair exactly when there is one |
| Registry.ValidateThenResolve | src/internal/config/lane_profiles.go:261-268 | in a registry that validation accepted resolution succeeds on exactly the allowed pairs, with the only context of the pair |
| Mailboxes.PopulateContexts | src/internal/config/v2.go:168-181 | verdict and result are the same for every visiting order: fitting contexts with distinct pairs |
| Mailboxes.ExecutionContextFor | src/internal/config/config.go:317-324 | with distinct pairs every visiting order finds the same context |
| Mailboxes.ValidateMailbox | src/internal/config/v2.go:277-325 | accepts exactly mailboxes with distinct usable contexts, queued bridges for remote ones, and an allowed default |
| Mailboxes.ResolveMailboxExecution | src/internal/config/mailbox_execution.go:90-145 | a selection is on the mailbox's allow-list and usable; the default always resolves; an explicit pair gets its own context |

## Left out

- Everything under src/cmd, HTTP, TLS, SSH, file ownership, flags: input and output.
- SHA-256 digests and idempotency-hash comparison: the canonical bytes are modelled, their digest is taken as injective.
- Controller identity checks, idempotency keys, audit rows, lifecycle publication, counters and context cancellation: they appear as arbitrary refusals.
- Runtime adapters: their answers are arbitrary within the stated contract; runtimes without command control are outside the model.
- Closing.CloseSession: excludes a session whose creating call is in flight, although the source accepts one, because the promise is false there; Runs.CloseDuringCreation gives the exact condition.
- Startup.Offline.ReconcileStartup: leaves out the ownership audit, which may refuse to start a sweep, and the report's counters; the pending-finalization pass that precedes it is Finalization.Keeper.FinalizePending.
- Startup.Offline.ReconcileWithPlan: takes the rebuilt shell as an answer of the runtime, not as a runtime event; the session stays as it was.
- Recovery.CheckSet: leaves out the final-event conditions of a target (output flags and the stored command_lost tail).
- Recovery.CheckBatch: leaves out the same conditions.
- Recovery.Recover: ends with the release; the finalization that follows is in Finalization.
- Recovery.RecoverBatch: ends with the release in the same way; the queue-preserving variant is left out.
- src/internal/execution/completed_teardown_recovery.go and src/internal/execution/mixed_runtime_recovery.go: the same prove, release, finalize shape. A crash between the closed state and the release leaves a reservation that only the former frees; the model keeps it held.
- RemoteDriver.Driver.SubmitReadiness: the target's readiness and terminal readings are arbitrary answers, because they depend on the target's own runs.
- Local targets of the dispatcher (src/internal/dispatcher/local.go): the same claim and transition shape without a bridge.
- Registry.ValidateRegistry: leaves out accounts, controllers, fingerprints, endpoints and profile usage, which do not bear on resolution.
- Mailboxes.ValidateMailbox: leaves out the mailbox root paths and their nesting.
- The reader's nesting limit and non-UTF-8 input of the JSON decoder.
