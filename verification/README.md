# Ghosttea: concurrency and buffering, verified

Ghosttea is a terminal service. A daemon owns PTY sessions; views in other
processes attach to them, take control, type, read selections and follow their
frames. This project models the machinery that has to be right when many threads,
sockets and users act at once, and proves what it promises. Times are in
milliseconds over `real`; 64-bit epochs and revisions saturate as they do in the
code.

| files | what they model |
|---|---|
| `Authority`, `AuthorityLaws` | who is attached, who controls, attach watermarks: a value, its operations, and who may do what |
| `SessionModel`, `SessionLocks`, `SessionBase`, `SessionRuns`, `SessionProgress`, `SessionSelection`, `SessionSeal`, `SessionControl`, `SessionResize`, `SessionOrder`, `SessionInput` | one session as a transition system: any number of threads, a program counter each, one step for each lock taken; and its invariants |
| `SessionWhole`, `SessionAlone` | each operation of a session as one step, and that running it alone comes to exactly that |
| `Framing`, `FrameFlow`, `FrameBridge` | length-prefixed packets, credit flow control, and the frame half of a renderer's bridge |
| `FrameHub` | frame fan-out with bounded loss attribution |
| `Tombstones`, `TombstoneStore` | why sessions ended: one list ordered by last use, and the map and queue that keep it behind the registry |
| `Ladder` | the exit latch, the scaled graces and the termination escalator |
| `Client` | the control client: its parser and its requests |
| `ConfigEditor` | the settings editor of the Apple app, cut at its awaits |
| `Selection` | copying from a retained viewport |

In the session model a guard is in scope exactly at the program counters where the
source has it in scope, so the locks a thread holds are a function of its counter.
The order is `lifecycle`, `authority`, `input_order`, `model_operation`, `model`,
`selection_txs`. A reply is sent after `model_operation` is dropped and needs none
of them. `Next` runs one event of one thread; `Execute` runs any sequence of them.

Classes stand for the objects the source updates in place. Each of their methods is
what runs in one callback, or between two awaits, so a sequence of calls is an
interleaving; `Bridge.Run`, `AutomationClient.Run` and `Editor.Interleave` state the
invariants over all of them. In `Ladder`, `coming` is what the other threads are
about to do and when.

## Where the code falls short of its promise

Each of these is a lemma or method below, with the condition under which the
promise does hold.

- An unfenced selection read can leave a selection and a publisher behind for a
  view that is not attached (`SessionSelection.UnfencedReadResurrects`): exactly
  when its view is neither attached nor owed a removal as it takes
  `model_operation` (`UnfencedReadIsSafeExactly`). The fenced read never does.
- Size agreement holds unless the PTY refuses the rollback of a failed resize, whose
  result the code ignores (`SessionResize.ResizeIsTransactional`,
  `LostRollbackDisagrees`).
- The second rung overruns exactly the deadlines that are set after it began and
  fall due while it watches the tree of a concluded session
  (`Ladder.RungMissesExactly`, `LaterDeadlineIsMissed`).
- A failed reload after adopting a conflict leaves the draft waiting for a
  validation that was cancelled, exactly when it was waiting as the adoption was
  asked for and has not been edited or reverted since
  (`ConfigEditor.Editor.FailedAdoption`, `FailedAdoptionStrandsTheDraft`).
- A valid draft is marked invalid over another text by a validation that a revert
  cancelled (`ConfigEditor.StaleFailureInvalidatesARevert`) and by the check of a
  save of an older draft (`StaleSaveCheckInvalidatesANewerDraft`);
  `ConfigEditor.Editor.Perform` says exactly which events do so.
- A request outlives the close of its socket exactly when the client had left that
  socket, as a failed hello makes it (`Client.AutomationClient.OnSocketClose`,
  `Client.FailedHelloForgetsRequests`). A disposed client stays disconnected if and
  only if no open was in progress of which a socket comes
  (`Client.AutomationClient.Run`, `OpenInProgressConnects`).
- A selection ending below the retained viewport is cut at a column meant for another
  row (`Selection.PastTheEnd`), and a selection of column 65535 takes nothing
  (`Selection.OnlyFittingCellsAreTakenRightly`).
- Fences stop fencing when their 64-bit counters saturate
  (`Authority.SaturatedEpochReturns`, `SessionControl.SaturatedClearIsSilent`,
  `SessionOrder.SaturatedFenceIsOpen`).

## Model

| member | source | states |
|---|---|---|
| Authority.RunsKeepValid | native/ghosttea/crates/ghosttea-core/src/authority.rs:224-811 | over any run of operations the controller is a live writable incarnation and no client exceeds its watermark allowance |
| Authority.RetiredIsRefused | native/ghosttea/crates/ghosttea-core/src/authority.rs:496-775 | a superseded or detached incarnation is refused by input, read, checked claim, checked resize and checked detach |
| Authority.RetiredForever | native/ghosttea/crates/ghosttea-core/src/authority.rs:256-510 | once retired, an incarnation never comes back, whatever runs afterwards, short of counter saturation |
| Authority.SaturatedEpochReturns | native/ghosttea/crates/ghosttea-core/src/authority.rs:256-286 | at the saturated epoch a retired incarnation does come back |
| Authority.TakeOverSupersedes | native/ghosttea/crates/ghosttea-core/src/authority.rs:288-419 | an accepted takeover makes its epoch current, retires every other of that view, drops control the view held, says whether it resumed, and leaves other views alone |
| Authority.WatermarkStep | native/ghosttea/crates/ghosttea-core/src/authority.rs:288-447 | an attach watermark never falls, and disappears only by collecting a detached view whose fence has terminated |
| Authority.DelayedAttemptStaysRefused | native/ghosttea/crates/ghosttea-core/src/authority.rs:288-447 | a delayed attach attempt is refused, with no effect, as long as a connection that could deliver it has not terminated |
| Authority.AcceptedAttemptFences | native/ghosttea/crates/ghosttea-core/src/authority.rs:288-419 | an accepted attempt leaves a watermark that refuses its own replay; a refused one changes nothing |
| Authority.RevisionTracksController | native/ghosttea/crates/ghosttea-core/src/authority.rs:515-611 | below saturation the control revision moves, by one, exactly when the controller does |
| AuthorityLaws.WhoMayType | native/ghosttea/crates/ghosttea-core/src/authority.rs:739-763 | input is accepted from exactly the client of a live writable incarnation, a sequence number being new exactly when above the last; a duplicate or refused one leaves no trace |
| AuthorityLaws.WhoMayRead | native/ghosttea/crates/ghosttea-core/src/authority.rs:765-776 | a read is granted to exactly the client of the live incarnation, read-only or not |
| AuthorityLaws.RefusalsSayWhy | native/ghosttea/crates/ghosttea-core/src/authority.rs:739-763 | each refusal of input names what is wrong, if and only if it is the first thing wrong; a checked claim is refused alike |
| AuthorityLaws.WhoMayClaim | native/ghosttea/crates/ghosttea-core/src/authority.rs:515-536 | a claim is granted to exactly an attached writable view, and takes control, the size and fresh epochs |
| AuthorityLaws.WhoMayClaimChecked | native/ghosttea/crates/ghosttea-core/src/authority.rs:538-597 | a checked claim is granted to exactly a live writable incarnation that expects the revision there is, or none; a late one learns the controller and changes nothing |
| AuthorityLaws.WhoMayResize | native/ghosttea/crates/ghosttea-core/src/authority.rs:691-724 | exactly the controller resizes, by its control epoch; a sequence number not above the last is ignored |
| AuthorityLaws.WhoMayResizeChecked | native/ghosttea/crates/ghosttea-core/src/authority.rs:667-689 | and a checked resize exactly by the incarnation that claimed |
| AuthorityLaws.ResizeIsWhatWasAsked | native/ghosttea/crates/ghosttea-core/src/authority.rs:726-737 | a resize leaves the size asked for, at a new layout epoch if that is a change, and control as it was |
| AuthorityLaws.WhoMayAttach | native/ghosttea/crates/ghosttea-core/src/authority.rs:256-286 | who is attached, to a fresh incarnation if the view was free and to its own if it was not |
| AuthorityLaws.TakeOverInstalls | native/ghosttea/crates/ghosttea-core/src/authority.rs:288-419 | an accepted takeover installs the access asked for under the next epoch with no number used, and disturbs no other watermark or size |
| AuthorityLaws.TakeOverRefusals | native/ghosttea/crates/ghosttea-core/src/authority.rs:288-360 | a takeover is accepted if and only if nothing the four rejections name is wrong |
| AuthorityLaws.WhoMayDetach | native/ghosttea/crates/ghosttea-core/src/authority.rs:478-513 | exactly its client detaches a view, a checked detach exactly the incarnation named; the control it held lapses, and nothing else |
| AuthorityLaws.CollectsExactly | native/ghosttea/crates/ghosttea-core/src/authority.rs:421-447 | collection frees exactly the watermarks of detached views whose fence has terminated, and keeps no empty entry |
| AuthorityLaws.SequencesRise | native/ghosttea/crates/ghosttea-core/src/authority.rs:691-763 | over any run the input, and the resize, numbers accepted from one incarnation rise strictly, and the last is what is remembered |
| AuthorityLaws.AcceptedOnce | native/ghosttea/crates/ghosttea-core/src/authority.rs:739-763 | an input is new exactly when its incarnation is live and writable and its number is above all accepted from it since the session began |
| AuthorityLaws.DeposedForever | native/ghosttea/crates/ghosttea-core/src/authority.rs:691-707 | a control epoch that is no longer the controller's never resizes again, over any run |
| AuthorityLaws.ClaimDeposes | native/ghosttea/crates/ghosttea-core/src/authority.rs:566-597 | every granted claim deposes every control epoch before it |
| AuthorityLaws.SupersededClaimLoses | native/ghosttea/crates/ghosttea-core/src/authority.rs:555-564 | over any run a claim that expects a superseded revision is not granted and changes nothing |
| AuthorityLaws.OneClaimWins | native/ghosttea/crates/ghosttea-core/src/authority.rs:555-564 | of all claims that expect one revision at most one is granted |
| SessionLocks.AcquiresInOrder | native/ghosttea/src/session.rs:2067-2106 | every acquisition is above every lock already held |
| SessionLocks.ClimbToRunnable | native/ghosttea/src/session.rs:1905-1951 | from any unfinished thread, following lock holders reaches one that can step |
| SessionLocks.NoDeadlock | native/ghosttea/src/session.rs:1905-2707 | in every reachable state with an unfinished thread some unfinished thread can step |
| SessionProgress.EverythingCanFinish | native/ghosttea/src/session.rs:1905-2707 | from every state some run of the threads there are ends with all of them finished |
| SessionLocks.ReachableIsExclusive | native/ghosttea/src/session.rs:1905-2707 | no two threads ever hold the same lock |
| SessionLocks.GateIsPassedAlone | native/ghosttea/src/session.rs:2203-2707 | what is serialized with conditional release, the snapshot of an attach and the termination of a release included, happens one at a time |
| SessionLocks.OperationsAreSerial | native/ghosttea/src/session.rs:1905-3021 | updates until their effects are out, resizes, removals and selection reads happen one at a time |
| SessionBase.WritesAreGuarded | native/ghosttea/src/session.rs:1905-3021 | every step that changes the authority, the terminal, the selection marks, the input or the release flags holds the lock that protects them; `announced` is a channel and `terminating` an atomic, which no lock protects |
| SessionBase.CommitIsTheOperation | native/ghosttea/src/session.rs:2385-2510 | deciding on a clone and committing after the terminal followed is the authority operation itself |
| SessionBase.AuthorityLinearizes | native/ghosttea/src/session.rs:2203-2510 | under every interleaving the authority has run exactly the operations the threads asked for, each whole, in the order of the steps at which it takes effect |
| SessionBase.RetiredStaysRefused | native/ghosttea/src/session.rs:2084-2110 | a retired incarnation is refused input, reads and epoch-checked detaches in every later state of every interleaving |
| SessionSelection.DetachedSelectionStaysGone | native/ghosttea/src/session.rs:2067-2128 | in every interleaving in which each unfenced read finds its view backed, a tracked selection or publisher belongs to an attached view, or a detach of that view still owes its removal |
| SessionSelection.QuiescentMarksAreAttached | native/ghosttea/src/session.rs:2154-2174 | in those interleavings, when every operation has returned, only attached views have selections or publishers |
| SessionSelection.FencedReadsFindBacked | native/ghosttea/src/session.rs:2067-2128 | a run that starts no unfenced read is such an interleaving |
| SessionSelection.UnfencedReadIsSafeExactly | native/ghosttea/src/session.rs:2036-2062 | an unfenced read can do no harm from the step in which it takes `model_operation` if and only if its view is attached, or owed a removal, at that step |
| SessionSelection.UnfencedReadResurrects | native/ghosttea/src/session.rs:2036-2062 | and harm is done: in a new session such a read of any view leaves its selection and publisher behind when everything has finished |
| SessionSeal.ReleasedIsTrue | native/ghosttea/src/session.rs:2639-2669 | a release that answered `Released` found no view; one conditional on `Exited` found the child gone; one conditional on `Unused` was of an interactive shell and found no consuming input ever accepted, under all races |
| SessionSeal.RefusedReleaseIsTrue | native/ghosttea/src/session.rs:2639-2663 | and every other answer is true of the state it is given in: a view attached, a child running, a consuming input in the queue, no shell |
| SessionSeal.SealedForever | native/ghosttea/src/session.rs:2639-2707 | after it no view is ever attached and the queue accepts nothing from views or automation |
| SessionSeal.LateComersAreRefused | native/ghosttea/src/session.rs:2203-2282 | every attach, takeover, view input and automation still to pass the gate ends refused |
| SessionControl.ControlOnlyMovesForward | native/ghosttea/src/session.rs:2540-2575 | revisions only rise, one revision is one control state, and what was announced stays announced |
| SessionControl.ObserveKeepsHighest | native/ghosttea/src/session.rs:2540-2575 | keeping the highest revision of what was delivered, in any order |
| SessionControl.ObserversConverge | native/ghosttea/src/session.rs:2290-2445 | at quiescence an observer that subscribed, read, and kept the highest revision delivered agrees with the authority's controller and revision, clears included |
| SessionControl.SaturatedClearIsSilent | native/ghosttea/src/session.rs:2298-2316 | at the saturated revision a detach that clears control announces nothing |
| SessionControl.DeposedNeverResizes | native/ghosttea/src/session.rs:2451-2510 | under every interleaving a resize by a controller once deposed is denied at its turn and changes nothing |
| SessionControl.SupersededNeverClaims | native/ghosttea/src/session.rs:2414-2449 | and a claim that expects a superseded revision is denied or told it lost |
| SessionResize.ResizeIsTransactional | native/ghosttea/src/session.rs:2385-3021 | whenever the authority is free it agrees with the model on size and layout epoch, and with a live PTY if and only if no rollback was lost |
| SessionResize.LostRollbackDisagrees | native/ghosttea/src/session.rs:2997-3021 | the exception is reached: from any new session a claim of any other size can end, everything finished, with the PTY at that size and the authority and model not |
| SessionResize.CommitNeverPanics | native/ghosttea/crates/ghosttea-core/src/authority.rs:726-737 | a prepared resize never finds its view gone when it commits |
| SessionOrder.QueueIsRecorded | native/ghosttea/src/session.rs:2584-2617 | whenever the order is free, what it recorded is the input accepted by the queue, entry for entry, and its counters are the counts |
| SessionOrder.EpochToldIsTrue | native/ghosttea/src/session.rs:2671-2707 | the human epoch answered by `automation_state`, by an accepted and by a fenced automation is the number of human operations ever queued; an accepted one is told its place in the queue |
| SessionOrder.FenceIsExact | native/ghosttea/src/session.rs:2671-2707 | automation carrying an epoch its caller was told passes the fence if and only if no human operation was queued between the answer and its turn |
| SessionOrder.AutomationIsQueuedExactly | native/ghosttea/src/session.rs:2671-2707 | its turn puts it next in the queue if and only if no human operation came in since the answer and there is room; otherwise the turn changes nothing and says which |
| SessionOrder.SaturatedFenceIsOpen | native/ghosttea/crates/ghosttea-core/src/input_order.rs:18-33 | at the saturated epoch human input no longer invalidates automation |
| SessionInput.TypedInOrder | native/ghosttea/src/session.rs:2584-2617 | in every reachable state the queue holds what one incarnation typed in the order of its numbers, each once, however the messages raced |
| SessionInput.TypedByWriters | native/ghosttea/src/session.rs:2584-2617 | whatever of a view stands in the queue was typed, at some moment of the run, by the client of a live writable incarnation of it that had been accepted no number as high |
| SessionAlone.AloneIsExactly | native/ghosttea/src/session.rs:1905-3221 | from any state, what an operation run alone can end with, state and answer, is exactly what `SessionWhole.Does` says as one step: no end besides, and every one of them when the calls on the way turn out so |
| SessionWhole.AcceptedInputCounts | native/ghosttea/src/session.rs:2584-2707 | an accepted input is the next entry of the queue, only a human one moves the human epoch, and one that consumes leaves the session used |
| SessionWhole.SizesAreDecided | native/ghosttea/src/session.rs:2385-2510 | when a claim or resize is denied, lost or ignored, and the size and layout epoch it otherwise moves the terminal to |
| SessionWhole.NewSessionIsOpen | native/ghosttea/src/session.rs:2639-2669 | a new session answers `Running` to whoever waits for its exit, and only an interactive shell counts as unused |
| SessionWhole.NewSessionTerminates | native/ghosttea/src/session.rs:3077-3221 | terminating it starts the ladder, or fails and leaves it running |
| Framing.LittleRoundTrip | packages/ghosttea-electron/src/bridge-socket.ts:4-9 | a number read back from its little-endian bytes is the number |
| Framing.ValueRoundTrip | packages/ghosttea-electron/src/bridge-socket.ts:62 | bytes written back from the number they spell are the bytes |
| Framing.ByteWeighs | packages/ghosttea-electron/src/bridge-socket.ts:4-9 | one more in byte i is 256 to the i more: the least significant byte comes first |
| Framing.NoBytesNoValue | packages/ghosttea-electron/src/bridge-socket.ts:62 | and all bytes zero spell zero |
| Framing.DecodeEncoded | packages/ghosttea-electron/src/bridge-socket.ts:4-9 | decoding an encoded list within quota gives the list, whatever follows it |
| Framing.DecodeConserves | packages/ghosttea-electron/src/bridge-socket.ts:57-90 | what was decoded and what is left re-encode to the bytes that came |
| Framing.DecodeChunk | packages/ghosttea-electron/src/bridge-socket.ts:92-96 | a chunk boundary changes nothing |
| Framing.OverQuotaIsFinal | packages/ghosttea-electron/src/bridge-socket.ts:63-66 | bytes after a refused length change neither the packets nor the refusal |
| Framing.DecodePartial | packages/ghosttea-electron/src/bridge-socket.ts:57-96 | any cut of an encoded list decodes to a prefix of it and the start of the rest |
| Framing.AccountIsPrefix | packages/ghosttea-client/src/index.ts:489-533 | a parser whose packets and buffer account for what it received has taken a prefix of what was sent, and all of it once everything arrived |
| FrameFlow.PausedExactly | packages/ghosttea-electron/src/frame-flow.ts:42-62 | over any run the controller is paused exactly when the bytes in flight have reached the high-water mark and not come down to the low-water mark since |
| FrameFlow.CreditingAllResumesOnce | packages/ghosttea-electron/src/frame-flow.ts:42-62 | crediting everything outstanding, in any portions, resumes a paused controller exactly once |
| FrameBridge.Bridge.HandlePacket | packages/ghosttea-electron/src/bridge-entry.ts:58-88 | a packet is forwarded if and only if the port takes messages and it is a frame or a channel message, and under credit a forwarded frame's bytes are in flight; anything else leaves the flow as it was, reports the connection lost and destroys its socket |
| FrameBridge.Bridge.DrainPackets | packages/ghosttea-electron/src/bridge-socket.ts:57-90 | takes exactly the decoder's packets in order, nothing while paused; a running one leaves no whole packet and no length over quota, and only such a length or a refused authentication destroys a working one |
| FrameBridge.Bridge.OnCredit | packages/ghosttea-electron/src/bridge-entry.ts:117-127 | valid credit is counted and invalid credit changes nothing; crediting all that is in flight leaves the socket running |
| FrameBridge.Bridge.OnDisconnect | packages/ghosttea-electron/src/bridge-socket.ts:36-54 | a connection that fails or closes is reported lost exactly when it had been authenticated and the renderer had not gone |
| FrameBridge.Bridge.OnAuthenticationTimeout | packages/ghosttea-electron/src/bridge-socket.ts:27-35 | destroys the socket if and only if it had not been settled |
| FrameBridge.Bridge.Perform | packages/ghosttea-electron/src/bridge-entry.ts:54-163 | what each event of the process does, and that the others do nothing to the bytes received or to an enabled flow |
| FrameBridge.Bridge.Run | packages/ghosttea-electron/src/bridge-entry.ts:54-163 | over every interleaving, the bytes of the frames forwarded since credits were switched on, less those credited, stay below 32 MiB + 16 MiB, and above the low-water mark while paused; and no more is credited than the renderer offered |
| FrameBridge.Bridge.TakenIsPrefix | packages/ghosttea-electron/src/bridge-socket.ts:57-96 | whatever the chunking and pausing, packets taken and forwarded are a prefix of those sent and the buffer is the start of the rest |
| FrameHub.GapAttribution | native/ghosttea/src/frame_hub.rs:101-142 | complete attribution is exactly the subscriptions that lost a frame; incomplete attribution is every one that started before the gap's end, and never misses one |
| FrameHub.CompleteExactly | native/ghosttea/src/frame_hub.rs:101-142 | it is complete exactly when there is nothing to attribute or the gap lies within the retained ordinals |
| FrameHub.SortedHolds | native/ghosttea/src/frame_hub.rs:136-142 | the sorted answer holds the same handles |
| FrameHub.SortedIsAscending | native/ghosttea/src/frame_hub.rs:136-142 | strictly ascending, so without duplicates |
| FrameHub.Hub.Publish | native/ghosttea/src/frame_hub.rs:62-86 | ordinals run from one without gaps, the history is always the last ones, short frames are dropped and overflow is a panic |
| FrameHub.Hub.AffectedHandles | native/ghosttea/src/frame_hub.rs:101-142 | the answer over everything ever published, exact or conservative, ascending |
| FrameHub.Hub.SubscriberReceivesAll | native/ghosttea/src/frame_hub.rs:62-99 | a subscriber is put every frame published after it subscribed that names its session, whole, once and in order, numbered from one past its baseline |
| Tombstones.LastsADay | native/ghosttea/src/session.rs:762-767 | evidence is fresh exactly until one day after the end it records |
| Tombstones.RunsAreOrdered | native/ghosttea/src/session.rs:689-784 | over any run with any clock there are at most 128 entries, ordered by last use |
| Tombstones.StaysUntilDue | native/ghosttea/src/session.rs:730-765 | an entry stays until it expires or is the least recently used of a full store that takes another |
| Tombstones.EnteredOnlyByCommit | native/ghosttea/src/session.rs:737-758 | nothing enters but the commit of an id not retained |
| Tombstones.WhatIsLeftIsFresh | native/ghosttea/src/session.rs:762-771 | after every event only entries within the TTL are left |
| Tombstones.FirstWriterStands | native/ghosttea/src/session.rs:644-713 | a retained tombstone was written by one commit and retained at every moment since |
| TombstoneStore.HoldsSameIds | native/ghosttea/src/session.rs:618-624 | map and queue hold the same ids, each once |
| TombstoneStore.PrunedHoldsUnexpired | native/ghosttea/src/session.rs:762-771 | retaining in the map and then in the queue is dropping the expired from the list |
| TombstoneStore.TombstoneEntries.Expire | native/ghosttea/src/session.rs:762-771 | the pair drops exactly the expired entries and still agrees |
| TombstoneStore.TombstoneEntries.Touch | native/ghosttea/src/session.rs:773-783 | the pair moves the id to the most recently used end, or does nothing |
| TombstoneStore.TombstoneEntries.Evict | native/ghosttea/src/session.rs:752-757 | the pair keeps the 128 most recently used |
| TombstoneStore.Host.RemoveWithCause | native/ghosttea/src/session.rs:666-680 | removal and its cause are one event; an observed exit wins; an absent id changes nothing |
| TombstoneStore.Host.LookupTombstone | native/ghosttea/src/session.rs:717-724 | finds exactly the unexpired tombstone of the id and refreshes it |
| TombstoneStore.Host.Status | native/ghosttea/src/session.rs:695-713 | with the registry held, `Live` if and only if registered; `Ended` carries the cause the first removal still retained decided; otherwise `Unknown` |
| TombstoneStore.Host.StatusAfterRegistry | native/ghosttea/src/session.rs:683-713 | the same given what the registry said when it was read, which may be earlier |
| TombstoneStore.Host.Serve | native/ghosttea/src/session.rs:644-724 | each request changes the registry, and asks of the store, exactly what it should |
| TombstoneStore.Host.ObservedExitIsToldOrForgotten | native/ghosttea/src/session.rs:652-713 | a session removed after its exit was observed, with no earlier tombstone of its id retained, is reported with that exit and code or not at all until the id is registered again, whatever is asked of the host in between and at whatever times |
| Ladder.GracesAreBounded | native/ghosttea/src/session.rs:1120-1147 | every scaled grace lies between 50 ms and its default |
| Ladder.GracesSpendTheBudget | native/ghosttea/src/session.rs:1120-1147 | the graces sum to the remaining time if and only if it is between 250 ms and 5 s; below, to less than 250 ms |
| Ladder.DeadlineIsTheBudget | native/ghosttea/src/session.rs:1120-1147 | the graces used under a deadline sum to the time left to it between 250 ms and 5 s, and to 5 s without one |
| Ladder.BudgetIsSplitInProportion | native/ghosttea/src/session.rs:1138-1146 | two, two and one fifth of it |
| Ladder.GracesAreMonotone | native/ghosttea/src/session.rs:1120-1147 | more time never buys a shorter grace |
| Ladder.DeadlineIsTheTightest | native/ghosttea/src/session.rs:834-845 | the deadline is never later than any that was set |
| Ladder.OnlyTightens | native/ghosttea/src/session.rs:829-845 | a deadline is never loosened and an exit never undone |
| Ladder.NoRungOutlastsADeadline | native/ghosttea/src/session.rs:855-883 | a rung ends by its grace and by every deadline, including one set while it waits |
| Ladder.ExitLatch.WaitPhase | native/ghosttea/src/session.rs:855-883 | returns at the first instant it has reason to, and its answer is true: exit first, then deadline, then grace |
| Ladder.ExitLatch.WaitForExit | native/ghosttea/src/session/unix_process_tree.rs:286-301 | ends at the first look that finds nobody, or at its bound, and says which |
| Ladder.ExitLatch.Escalate | native/ghosttea/src/session.rs:3112-3189 | what it did is a run of the ladder: each rung began when the one before ended and ended at the first instant it had reason to, and the tree was watched within the bound read at the rung's start |
| Ladder.DeadlineIsShared | native/ghosttea/src/session.rs:3112-3189 | a session that never concludes, with one deadline 250 ms to 5 s away, gets SIGTERM at two fifths of that time and the sweep two fifths after SIGTERM was sent, or at the deadline |
| Ladder.WaitsFitTheBudget | native/ghosttea/src/session.rs:3128-3189 | in every run of the ladder the three waits total at most 5 s, and so does the whole but for sending the signals |
| Ladder.SignalsAreInOrder | native/ghosttea/src/session.rs:3144-3189 | SIGTERM precedes the sweep, which precedes the forced end of file |
| Ladder.NoStepIsEarly | native/ghosttea/src/session.rs:3128-3189 | no step is taken before its grace is over, but on a deadline that has come; SIGTERM also goes early to a tree its session left |
| Ladder.NothingIsLeftRunning | native/ghosttea/src/session.rs:3128-3189 | it stops before the forced end only if the session concluded, and before the sweep only if nothing is left of the tree |
| Ladder.RungMissesExactly | native/ghosttea/src/session.rs:3155-3172 | the second rung overruns a deadline if and only if the session concluded in it by then, the bound read at its start is later, and the last look at the tree by then found someone |
| Ladder.EarlyDeadlinesAreNotMissed | native/ghosttea/src/session.rs:3155-3172 | a deadline set by the time that rung begins is never overrun |
| Ladder.LadderMeetsDeadlines | native/ghosttea/src/session.rs:3112-3189 | every deadline not overrun there ends the whole ladder in time, but for sending the signals |
| Ladder.LaterDeadlineIsMissed | native/ghosttea/src/session.rs:3155-3172 | one is overrun whenever the session concludes in the first rung, its tree outlives it, and a deadline then arrives that falls due within the second grace |
| Client.FirstAnswerSettles | packages/ghosttea-client/src/index.ts:522-531 | the first event bearing an id settles it; later ones, and events for ids not out, change nothing |
| Client.HearingIsHonest | packages/ghosttea-client/src/index.ts:522-531 | an answer is an event that was heard for that id, a success only if it is no error |
| Client.AutomationClient.Connect | packages/ghosttea-client/src/index.ts:135-142 | refused once disposed; otherwise at most one open is begun while one is promised |
| Client.AutomationClient.Request | packages/ghosttea-client/src/index.ts:422-468 | ids are fresh and nonzero; a request over quota uses up its id without being issued |
| Client.AutomationClient.OnData | packages/ghosttea-client/src/index.ts:489-533 | takes exactly the decoder's packets, hears the events in them, settles what they answer, and destroys the socket exactly at a refusal |
| Client.AutomationClient.OnSocketClose | packages/ghosttea-client/src/index.ts:541-550 | the current socket's close settles everything that is out; a request outlives the close of its own socket exactly when the client had left that socket |
| Client.AutomationClient.Dispose | packages/ghosttea-client/src/index.ts:479-487 | settles everything that is out, once |
| Client.AutomationClient.TakenIsPrefix | packages/ghosttea-client/src/index.ts:489-533 | packets taken off a connection are a prefix of those sent |
| Client.AutomationClient.Run | packages/ghosttea-client/src/index.ts:135-558 | over every run each issued id is out or settled, never both, and stays as it was settled; a success came in a packet for its id; what is out went to the current socket or one that was left; a disposed client without a socket stays so unless an open was in progress and a socket comes of it |
| Client.AutomationClient.OpenInProgressConnects | packages/ghosttea-client/src/index.ts:144-208 | and if an open is in progress, disposed or not, the client can come to be connected |
| Client.FailedHelloForgetsRequests | packages/ghosttea-client/src/index.ts:189-208 | a hello that fails leaves another request out past the close of its socket |
| ConfigEditor.ReloadDocument | apple/GhostteaKit/Sources/GhostteaCore/GhostteaConfiguration.swift:460-476 | answers with the first of three tries whose revision is the same on both sides, unless one threw before it, and fails otherwise |
| ConfigEditor.Editor.constructor | apple/GhostteaApp/App/GhostteaConfigurationModel.swift:36-66 | the pair is of one version exactly when the snapshot was resolved from the document read after it |
| ConfigEditor.Editor.ScheduleValidation | apple/GhostteaApp/App/GhostteaConfigurationModel.swift:350-382 | a draft within the limit gets a live validation of itself; one over it is invalid |
| ConfigEditor.Editor.CheckAnswers | apple/GhostteaApp/App/GhostteaConfigurationModel.swift:359-375 | only a wanted task for the current draft changes anything, and then to exactly its result |
| ConfigEditor.Editor.SaveableExactly | apple/GhostteaApp/App/GhostteaConfigurationModel.swift:80-84 | what may be saved: another text than the editable document's, of at most 64 KiB, valid with no error the saved one has not, while nothing is being saved |
| ConfigEditor.WidthIsUtf8 | apple/GhostteaApp/App/GhostteaConfigurationModel.swift:75 | a character counts the bytes of its UTF-8 form |
| ConfigEditor.BytesAdd | apple/GhostteaApp/App/GhostteaConfigurationModel.swift:75 | and a text the sum of its parts |
| ConfigEditor.Editor.SaveIsChecked | apple/GhostteaApp/App/GhostteaConfigurationModel.swift:187-208 | the store is asked to replace only with the draft as it is now, free of new errors, against the revision last read; a new error marks whatever draft there is invalid |
| ConfigEditor.Editor.SaveReplaces | apple/GhostteaApp/App/GhostteaConfigurationModel.swift:205-243 | a newer draft stays, over the version saved; a conflict or failure changes nothing else |
| ConfigEditor.Editor.AdoptConflict | apple/GhostteaApp/App/GhostteaConfigurationModel.swift:256-271 | cancels the current validation and starts one adoption at a time |
| ConfigEditor.Editor.AdoptionEnds | apple/GhostteaApp/App/GhostteaConfigurationModel.swift:273-316 | the draft gives way only if the user chose so and it is still the draft they chose it for; a failed reload changes nothing but puts the conflict back |
| ConfigEditor.Editor.CompletedAdoption | apple/GhostteaApp/App/GhostteaConfigurationModel.swift:256-316 | over every run from the adoption asked for to its reload, the draft as the user last left it stays, unless they chose to drop the draft and it is the text they chose that for |
| ConfigEditor.Editor.FailedAdoption | apple/GhostteaApp/App/GhostteaConfigurationModel.swift:256-316 | over every run from the adoption asked for to its failed reload, the draft ends up waiting with no validation to come if and only if it was waiting when that was asked and has neither been edited nor reverted since |
| ConfigEditor.Editor.Revert | apple/GhostteaApp/App/GhostteaConfigurationModel.swift:322-336 | back to the base under the configuration read with it |
| ConfigEditor.Editor.Perform | apple/GhostteaApp/App/GhostteaConfigurationModel.swift:187-382 | exactly which events take a valid draft out of being valid, and what every event keeps |
| ConfigEditor.Editor.Interleave | apple/GhostteaApp/App/GhostteaConfigurationModel.swift:187-382 | over every interleaving: no completing validation or save changes the draft; while reads are of one version, a valid draft is in effect as validated; a draft waits unattended only after a failed adoption |
| ConfigEditor.FailedAdoptionStrandsTheDraft | apple/GhostteaApp/App/GhostteaConfigurationModel.swift:256-316 | after a save that conflicts under a newer draft, adopting and failing to reload leaves that draft validating with no task |
| ConfigEditor.StaleFailureInvalidatesARevert | apple/GhostteaApp/App/GhostteaConfigurationModel.swift:322-380 | a cancelled validation that then fails marks the reverted draft invalid |
| ConfigEditor.StaleSaveCheckInvalidatesANewerDraft | apple/GhostteaApp/App/GhostteaConfigurationModel.swift:192-204 | a save's check of an older draft marks a newer, validated one invalid, with no task left to say otherwise |
| Selection.TakesWhatItMeets | native/ghosttea/src/replica.rs:255-266 | any cell is taken if and only if a column it covers is selected, except that a selection of the very last column takes nothing |
| Selection.OnlyFittingCellsAreTakenRightly | native/ghosttea/src/replica.rs:255-266 | so every selection takes a cell exactly when it meets it if and only if the cell ends before column 65535 |
| Selection.TakenTextInOrder | native/ghosttea/src/replica.rs:255-266 | the text of a taken cell appears whole and once, between that of the cells before and after it |
| Selection.CharactersInRange | native/ghosttea/src/replica.rs:246-254 | a row without cells yields exactly the characters in the range |
| Selection.TrimsOnlyTheEnd | native/ghosttea/src/replica.rs:237-241 | trimming takes off white space, all of it, and only at the end |
| Selection.SpacesAre | native/ghosttea/src/replica.rs:237-241 | white space is the 25 code points of Unicode White_Space |
| Selection.OneRowIsItsColumns | native/ghosttea/src/replica.rs:162-186 | within a row a selection is that row's columns, trimmed |
| Selection.AnswersWithinViewport | native/ghosttea/src/replica.rs:150-176 | there is text exactly when the upper end is on a retained row or the viewport is empty; otherwise which error |
| Selection.DirectionIndependent | native/ghosttea/src/replica.rs:162-167 | the direction of the drag does not matter |
| Selection.ShiftInvariant | native/ghosttea/src/replica.rs:162-186 | shifting the viewport and the ends together changes nothing |
| Selection.SplitsAtRows | native/ghosttea/src/replica.rs:177-244 | a selection is its two halves at any row boundary, joined by a newline |
| Selection.FullRangeIsSelectAll | native/ghosttea/src/replica.rs:156-160 | the full range is select-all |
| Selection.PastTheEnd | native/ghosttea/src/replica.rs:174-186 | ending below the viewport copies to its end if and only if cutting the last row at the end column drops only blanks, in whatever order its cells come |
| Selection.PastTheEndLosesText | native/ghosttea/src/replica.rs:174-186 | a concrete drag that loses text |

## Left out

- PTY, processes, signals, sockets, pipes, message ports and files: a step that succeeds, fails or waits as the environment chooses.
- Parsing and encoding of JSON, and which bodies are server or channel events: a parameter of the client and the bridge.
- Terminal model internals, rendering and key encoding; `session_epoch`, summary and metadata locks, which are leaves, are folded into the step that uses them.
- `master` and the reply queue: the PTY is released by an event of its own, and a reply is sent with no lock of the model held.
- SessionOrder.QueueIsRecorded: the reader's own wake-up at end of file (`Shutdown`, session.rs:1852) goes into the input queue unordered and unrecorded; the model's queue holds input only.
- SessionAlone.AloneIsExactly: is about an operation that runs alone; what threads do to one another is what the invariants of the other session modules say.
- State-stream cancellers in the authority: they carry no decision. The authority is a value in the model and one field of the session.
- `subscribe_selection`, which may create a publisher for any view.
- The Windows and fallback ladders; process-tree discovery (the tree is the time its last member goes); wake-up latency, so a wait ends at the instant it is woken.
- Ladder.GracesAreBounded: the rounding of `mul_f64` to nanoseconds is not modelled; the shares are exact reals.
- Events that two threads cause at the same instant of the ladder's clock happen before a wait that ends at that instant returns.
- Microtask order in the client: an open's end, its failure and a socket's close come in any order the model allows.
- Listeners of the client that call back into it while a chunk is being parsed; request ids past 2^53; which commands need which protocol minor.
- FrameBridge.Bridge.Run: the bound is stated while the bridge works, that is until a post fails, a packet is refused or the renderer closes.
- The control half of the bridge, which relays packets without state.
- FrameHub.Hub.SubscriberReceivesAll: a receiver's queue is unbounded here; one that lags behind the broadcast channel loses frames, which is what the gap attribution is then asked about.
- ConfigEditor.Editor.Interleave: `Whole` is a hypothesis on each read, since neither the two reads at start nor a reload around an edit and its undoing can promise it; and the store is taken to save the text it was given.
- Messages shown to the user, the friendly and appearance panels, and task cancellation on deinit.
- ConfigEditor.Editor.AdoptionEnds: an edit made during an adoption and undone before it ends counts as no edit.
- Registry locking around removal: removal and its tombstone are one step, as the held write guard makes them.
- Environment stripping, exit classification, colour and key tables, UI, probes and packaging: easy or foreign.
