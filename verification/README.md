# River stream node: verified model

River's stream node keeps each chat stream as a hash-linked chain of miniblocks and a pool of pending events (the
minipool). A node holds only a trimmed suffix of the chain in memory, based on a snapshot that caches a fold over the
whole history; clients resume from a (generation, slot) cookie. Blocks are proposed, stored as candidates, registered on
chain and committed, while other requests interleave between these steps. This project models that engine, the
transaction pool that carries its registrations, the chain monitor that feeds both, and the quorum that replicates
writes, and proves what holds over every run.

## How the model is laid out

- `Messages`, `ByteStrings`, `Wrappers`: the protobuf messages as values. A hash is the hashed event under a constructor,
  so hashing is injective and an event's hash fixes its previous-block reference.
- `SortedLists`, `RecentLists`, `Inbox`, `Snapshots`: the snapshot and its updaters. A failed update is "no change" when
  a header is built, and an error at genesis.
- `Chains`: what a chain of blocks is, and `Replay`, the reference fold over every event since genesis.
- `Views`, `ViewProcedures`, `ViewTheorems`: the cached view; each loop is a method proved against a function.
- `Queries`, `QueryProcedures`, `Membership`: questions answered from the snapshot plus the events after it.
- `Histories`, `MemberRecords`, `StreamContents`, `QueryAnswers`: what snapshots and answers say in terms of the events
  alone, without the updaters.
- `Storage`, `Engine`, `EngineProofs`, `EngineTheorems`, `EngineLimits`: one stream as a state machine: database rows,
  on-chain record, cached view, block maker, live notifications; its invariant; the theorems; where they end.
- `EngineWindows`, `Acceptance`: exactly which blocks are kept and carry a snapshot, and which events are accepted.
- `Sync`, `Clients`: resuming with a cookie, and a client over a whole run.
- `Streams`: the stream object with its fields updated in place, and the batch over many streams.
- `SharedBlocks`: what sharing block arrays on the heap does.
- `SharedMessages`, `SharedSolicitations`, `SharedAnswers`: what sharing the events' messages does to one message, to the
  replays of a tail, and to what a node answers and a header records.
- `GenesisBlocks`: building the first block.
- `Pricing`, `TransactionPool`, `PendingList`: fees, the pool as a state machine, and its linked list on the heap.
- `Monitor`, `LogFilter`, `MonitorLogs`: the polling loop, the merged log filter, and both over a whole run.
- `Quorum`: waiting for acknowledgements.

Clocks, signatures, storage outcomes, chain answers and arrival orders are parameters. "Admissible" runs are those in
which every added event passed validation on the view it is added to and has a payload of the stream's kind, as the
callers of the stream object ensure.

Where a name or comment and the code disagree, the model follows the code: group-channel properties record the
miniblock number as their event number, and reading from the last snapshot ignores the number of blocks asked for.

## What is not true of the code

- Nothing keeps a genesis block from holding an event twice. What is added later never repeats; the whole history is free
  of repeats exactly when the genesis block is (`ExactlyOnce`, with such a block in `RepeatedGenesis`).
- Storage is written before an added event is checked for being a header or a duplicate, so an unvalidated add leaves
  storage and view apart (`AddDiverges` says exactly when). Validating on an earlier view lets an event in twice
  (`StaleValidationDuplicates`), exactly when it was itself sent in between (`StaleAddExactly`).
- A write that lands and is reported as failed leaves storage ahead of the view until a reload; every add is refused
  meanwhile (`UnreportedAdd`, `UnreportedCommit`), and a commit before the reload forgets the added event
  (`UnreportedAddForgotten`).
- The registry contract's check that a block follows the on-chain head is commented out. Agreement between registry and
  node holds over every run of one node's own registrations. A registration that lands later keeps it exactly when no
  block was committed since, or just that one (`LateRegistrationExactly`). A node's own transactions are ordered by
  nonce, so the late sender is another registered node.
- `GetMembership` depends on where the snapshot is (`SnapshotChangesMembership` and `MembershipExactly` say exactly
  when, `LeaveIsForgotten` and `InviteHidesMember` give the cases). The member list depends on it when malformed
  addresses were mentioned (`MemberListExactly`).
- After a reload, events and cookies that refer to a block before the snapshot are treated differently, because storage
  does not return the blocks a cached view keeps before it (`ReloadValidates`, `ReloadResponds` say exactly which).
- A view built from a remote response pairs the first block's snapshot with the position of the last one
  (`RemoteViewConsistent`, with a failing chain in `RemoteViewFails`); what a node serves is always consistent
  (`ServedResponseRebuilds`).
- An old acknowledgement can expire an inbox entry that holds fresh messages (`AckDropsFreshMessages`).
- `sort.StringSlice` converts and does not sort. Removing fulfilled session ids is the multiset difference for every
  sorted fulfillment exactly when the solicited ids are sorted (`RemoveCommonExactly`), and for every sorted
  solicitation exactly when the fulfilled ids are (`RemovalExactly`).
- Replaying key solicitations edits the events' own messages, so queries change later answers. On a tail that grows, every
  later answer is that of the replay over values exactly when each query was safe (`QueriesAreValues`; `AnswersChange`
  gives a tail where it is not, `AskWithSortedIds` shows that sorted ids suffice).
- A header for an older proposal shows such edits exactly when a listed message is affected, whether the queries came
  before it was built (`BuiltAfterQueries`) or between building and committing (`BuiltBeforeQueries`). Here sorted ids do
  not suffice (`SortedHeaderIsAffected`).
- The receipt loop spins while a mined transaction has no receipt (`ReceiptLoopSpins` says exactly when).
- A first poll below the initial block hands out blocks the chain does not have (`WithinHead` says exactly when). Their
  logs are never fetched again, so they are lost exactly if there are any (`EveryLogOnce`, `FirstPollLosesLogs`).
- `(n + 1) / 2` is a majority only for odd n (`WritesShareExactly` says exactly when two writes must share a node).

## Model

| member | source | states |
|---|---|---|
| SortedLists.BinarySearch | core/node/events/snapshot.go:502-510 | on a strictly sorted list the search returns the insertion point, and reports presence exactly for the keys in the list |
| SortedLists.FindSorted | core/node/events/snapshot.go:502-510 | lookup answers as the finite map the list represents, absent keys included |
| SortedLists.InsertShifting | core/node/events/snapshot.go:512-524 | insertion, by shifting the tail or overwriting, keeps the list strictly increasing and is the map update |
| SortedLists.RemoveShifting | core/node/events/snapshot.go:526-534 | removal keeps the list strictly increasing and is removal from the map; an absent key changes nothing |
| SortedLists.RunRefinesMap | core/node/events/snapshot.go:502-534 | over any run of insertions and removals the list is strictly increasing and equals the map run |
| SortedLists.SortedIsCanonical | core/node/events/snapshot.go:502-534 | two strictly sorted lists with the same elements are the same list |
| ByteStrings.LessIsLexicographic | core/node/events/snapshot.go:502-510 | the order is the lexicographic one: at the first difference the smaller byte, or the shorter string, comes first |
| RecentLists.PushDevice | core/node/events/snapshot.go:305-326 | the in-place device-key update, with its overwrite-the-last-slot case, is: drop the same key, keep the newest ten, append |
| RecentLists.PushSolicitation | core/node/events/snapshot.go:687-705 | the in-place solicitation update is the same push on every list |
| RecentLists.PushAllIsRecent | core/node/events/snapshot.go:305-326 | after any sequence of pushes no device key repeats, at most eleven entries remain, and the newest is last |
| RecentLists.PushAllNewest | core/node/events/snapshot.go:305-326 | after any sequence of pushes the list is the eleven entries mentioned last, each once, in the order of their last mention |
| RecentLists.RemoveCommonScan | core/node/events/snapshot.go:476-498 | the two-index loop computes the merge-style removal |
| RecentLists.RemoveCommonIsDifference | core/node/events/snapshot.go:476-498 | on ascending inputs the removal is exactly the multiset difference |
| RecentLists.RemoveCommonKeepsOrder | core/node/events/snapshot.go:476-498 | an ascending list stays ascending and gains nothing |
| RecentLists.RemoveCommonNeedsOrder | core/node/events/snapshot.go:711-713 | on an unsorted list a fulfilled id survives, although the caller's conversion is meant to sort |
| RecentLists.RemoveCommonExactly | core/node/events/snapshot.go:476-498 | the removal is the multiset difference for every ascending second list if and only if the first list is ascending |
| RecentLists.RemovalExactly | core/node/events/snapshot.go:476-498 | the removal is the multiset difference for every ascending first list if and only if the second list is ascending |
| RecentLists.RemoveCommonFixes | core/node/rules/can_add_event.go:1177-1191 | for all lists, sorted or not, the removal changes nothing if and only if the guard on fulfillments finds no common id |
| RecentLists.HasCommonScan | core/node/rules/can_add_event.go:1177-1191 | the two-index loop of the guard |
| RecentLists.HasCommonIsIntersection | core/node/rules/can_add_event.go:1177-1191 | on ascending lists the guard finds a common id if and only if there is one |
| Inbox.SummariesCoverUnacknowledged | core/node/events/snapshot.go:332-394 | over any run with nondecreasing block numbers: lower <= upper <= current, nothing older than 3600 blocks after an update, and every unacknowledged unexpired message lies in its device's range |
| Inbox.SummariesAreTight | core/node/events/snapshot.go:332-394 | over any run every entry ends at an unacknowledged message, so a device has an entry only if it has one |
| Inbox.RangesBegin | core/node/events/snapshot.go:344-377 | over any run a range begins after the device's last acknowledgement, or at a message with none after it |
| Inbox.SessionsKeepExactly | core/node/events/snapshot.go:344-363 | exactly the noted and known devices whose range began at most 3600 blocks ago are kept, the noted ones up to now |
| Inbox.AckKeepsExactly | core/node/events/snapshot.go:364-377 | exactly the acknowledging device's range is cut, dropped if nothing is left or it counts as expired |
| Inbox.AckDropsFreshMessages | core/node/events/snapshot.go:364-377 | an acknowledgement below the range drops the whole entry exactly when the lowered bound counts as expired |
| Inbox.StaleAckLosesMessage | core/node/events/snapshot.go:364-377 | a concrete old acknowledgement forgets a message that arrived one block ago |
| Inbox.UpdateSessions | core/node/events/snapshot.go:344-363 | the loops over device keys and expired entries compute the summary update |
| Inbox.UpdateAck | core/node/events/snapshot.go:364-377 | the acknowledgement with its cleanup computes the summary update |
| Inbox.DeleteExpired | core/node/events/snapshot.go:380-394 | deleting while iterating leaves exactly the unexpired entries |
| Snapshots.SnapshotCell.UpdateSnapshot | core/node/events/snapshot.go:156-182 | updating the message in place is the update function, reports failure exactly when it fails, media, header and unknown payloads included, keeps every list in order and the kind |
| Snapshots.SnapshotCell.UpdateKind | core/node/events/snapshot.go:184-330 | the per-payload updaters on the mutable content compute the content update and fail exactly when it does |
| Snapshots.SnapshotCell.UpdateMember | core/node/events/snapshot.go:396-474 | the member updater on the mutable joined list computes the member update and fails exactly when it does |
| Snapshots.ApplyKeySolicitation | core/node/events/snapshot.go:687-705 | a solicitation pushes onto the member's list |
| Snapshots.ApplyKeyFulfillment | core/node/events/snapshot.go:707-718 | a fulfillment removes ids from the first solicitation of the device only and marks it as not new |
| Snapshots.ApplyKeeps | core/node/events/snapshot.go:156-182 | every update keeps all lists sorted or recent, and the kind and inception of the stream |
| Snapshots.FoldEventsKeeps | core/node/events/stream_view.go:252-277 | so does any sequence of updates, failed ones skipped |
| Snapshots.GenesisSnapshotIsFold | core/node/events/snapshot.go:14-52 | the genesis snapshot is the fold over the events after the inception, numbered from 1 in block 0, and is well-formed |
| StreamContents.UpdatesExactly | core/node/events/snapshot.go:156-474 | exactly which events update a snapshot: by kind and content, and for member events by the operation or by the sender or addressee being joined |
| StreamContents.StreamIdsExactly | core/node/shared/stream_id.go:68-138 | exactly which byte strings are stream ids |
| StreamContents.InceptionMembers | core/node/events/snapshot.go:54-153 | an inception starts a snapshot exactly if it is one and a user stream's id names a user; then the two parties, the user or the creator are joined with empty records, and all contents are empty |
| MemberRecords.RecordsAfter | core/node/events/snapshot.go:396-474 | after any events a user has a record exactly by their last Join or Leave; it has that Join's block and number, and display name, user name, ENS address and NFT are those of the user's last such event since, with its own number and hash; solicitations are those since |
| StreamContents.ChannelLatest | core/node/events/snapshot.go:184-198 | after any events each channel of a space is what its last update says |
| StreamContents.MembershipLatest | core/node/events/snapshot.go:260-276 | after any events each membership of a user is what its last record says |
| StreamContents.MarkerLatest | core/node/events/snapshot.go:278-295 | after any events each read marker is the last one for its stream |
| StreamContents.EntriesCollected | core/node/events/snapshot.go:278-295 | after any events a user's block list is every entry for that user in order |
| StreamContents.PropertiesLatest | core/node/events/snapshot.go:236-258 | after any events group-channel properties are those of the last event that sets them, with its block's number |
| StreamContents.DevicesNewest | core/node/events/snapshot.go:297-330 | after any events the devices are the eleven mentioned last |
| StreamContents.InboxIsRun | core/node/events/snapshot.go:332-394 | after any events the summaries are those of the run of its messages and acknowledgements |
| StreamContents.ReplaySays | core/node/events/stream_view.go:252-277 | so for every chain: member records and contents of the replay are those of the last events that set them |
| StreamContents.HeaderSays | core/node/events/stream_view.go:252-279 | and so says every snapshot in a header about the events up to its block |
| Histories.LatestIsLast | core/node/events/snapshot.go:156-474 | what these rows call the last event that sets something: no later one sets it, and without one the start stays |
| Histories.HistoryAt | core/node/events/stream_view.go:242-266 | every event is numbered with its block and its own position among all events and headers |
| GenesisBlocks.MakeGenesisSnapshot | core/node/events/snapshot.go:14-52 | the loop gives the genesis snapshot, or nothing as soon as one update fails |
| GenesisBlocks.MakeGenesisMiniblockHeader | core/node/events/miniblock.go:14-49 | succeeds exactly when the first event is the only inception, no event is a header and the snapshot builds; gives every field of the header, which then makes a genesis block, or the error code |
| GenesisBlocks.NewStreamIsReachable | core/node/storage/pg_storage.go:257-281 | a stream created with such a block starts in a state that satisfies the engine's invariant |
| GenesisBlocks.RepeatedGenesis | core/node/rules/can_create_stream.go:658-725 | a group channel whose genesis block holds one join twice can be created, and the history of every run from it holds an event twice |
| GenesisBlocks.StreamsExist | core/node/events/snapshot.go:54-153 | there is such a stream, so the theorems are not vacuous |
| Chains.ChainFacts | core/node/events/stream_view.go:242-292 | in a chain numbers are consecutive, hashes linked, offsets count all earlier events and headers, and the snapshot pointer names the latest earlier snapshot |
| Chains.TimestampsIncrease | core/node/events/miniblock.go:77-89 | timestamps strictly increase along the whole chain, whatever the clock |
| Chains.SnapshotAt | core/node/events/stream_view.go:252-279 | every snapshot in a header is the replay of every event up to and including its block |
| Chains.FoldTailIsReplay | core/node/events/stream_view.go:252-277 | continuing from any block's replay with the header fields of the later blocks gives the replay of everything |
| Chains.HashFixesPosition | core/node/events/stream_view.go:527-545 | equal block hashes mean the same block of the chain |
| Chains.SinceIsBounded | core/node/events/stream_view.go:495-516 | fewer events, and no more blocks than events, than the threshold since the latest snapshot |
| Views.NextTimestamp | core/node/events/miniblock.go:77-89 | the result is after the previous timestamp for any clock, and is the clock when that is after it |
| Views.NextTimestampIsLeast | core/node/events/miniblock.go:77-89 | when the clock is not after the previous timestamp the result is the next whole second |
| ViewProcedures.MakeStreamView | core/node/events/stream_view.go:51-105 | the loop checks consecutive numbers and takes the first snapshot; every error case is returned |
| ViewTheorems.BuiltExactly | core/node/events/stream_view.go:51-105 | for any blocks: a view is built exactly if they are consecutive and the first snapshot among them names a valid stream, and is based on that one |
| ViewProcedures.ShouldSnapshotScan | core/node/events/stream_view.go:495-516 | counting backwards with early exit decides whether pool plus blocks since the latest snapshot reach the threshold |
| ViewProcedures.ValidateNextEvent | core/node/events/stream_view.go:518-588 | the loops return the error, or none, of the validation function |
| ViewProcedures.CollectEvents | core/node/events/stream_view.go:219-232 | the pooled events of a proposal in its order, or failure when one is missing |
| ViewProcedures.BuildSnapshot | core/node/events/stream_view.go:252-277 | updating the cloned snapshot over the tail blocks and the new events is the fold |
| ViewProcedures.MakeMiniblock | core/node/events/stream_view.go:208-293 | builds the header and block of the proposal, or the mismatch or missing-event error |
| ViewProcedures.DeleteEvents | core/node/events/stream_view.go:333-344 | deleting from a copy of the pool's map succeeds exactly when the block holds distinct pooled events, and leaves the rest |
| ViewProcedures.CopyAndApplyBlock | core/node/events/stream_view.go:295-373 | computes the new view, trimmed when the block has a snapshot, or the error |
| ViewProcedures.ComputeStats | core/node/events/stream_view.go:604-625 | the loops compute the statistics of the window |
| ViewTheorems.WindowReplay | core/node/events/stream_view.go:242-279 | whatever was trimmed and whichever snapshot is the base, replaying the window's tail is the replay from genesis |
| ViewTheorems.NextHeaderFields | core/node/events/stream_view.go:242-292 | number, offset and snapshot pointer taken from the last header are those of the whole chain |
| ViewTheorems.BuiltBlockFollows | core/node/events/stream_view.go:208-293 | a block built from a proposal is a proper next block of the chain, its snapshot the fold since genesis |
| ViewTheorems.ApplyConservesEvents | core/node/events/stream_view.go:327-351 | block events plus new pool are a permutation of the old pool, and the new pool keeps the order |
| ViewTheorems.CandidateAppliesAfterAdds | core/node/events/stream_view.go:311-373 | after any number of adds a candidate still applies and leaves exactly the events added since, in order |
| ViewTheorems.StaleCandidateRejected | core/node/events/stream_view.go:295-326 | after another block was applied, a candidate and every proposal for the old tip are rejected |
| ViewTheorems.ApplyKeepsWindow | core/node/events/stream_view.go:353-373 | the new view is a suffix of the longer chain, based on a block that carries its snapshot |
| EngineWindows.ApplyTrims | core/node/events/stream_view.go:353-373 | after a snapshot block exactly the last generations former blocks remain before it, or all if there are fewer; otherwise all |
| ViewTheorems.BoundedCheckIsExact | core/node/events/stream_view.go:558-586 | searching only the blocks after the referenced one and the pool finds a duplicate if and only if the whole history has one |
| ViewTheorems.ValidatedIsNew | core/node/events/stream_view.go:518-588 | a validated event is new to the entire history, trimmed blocks included |
| Acceptance.AcceptedExactly | core/node/events/stream_view.go:518-602 | for every window of every chain and every clock: an event is accepted if and only if it refers to the tip, or to another block of the window whose successor is at most the configured seconds old, five by default, and is new to the whole history; otherwise the code says which failed |
| Acceptance.AcceptedLater | core/node/events/stream.go:489-498 | an event made for the tip of one state is accepted in any later state of a run if and only if it was not sent in between and no block was made since, or its block is in the window and the next one at most that old |
| ViewTheorems.TotalEverIsTrueTotal | core/node/events/stream_view.go:604-625 | the total event count is the true total although only a window is in memory; the other counts are those of the window |
| ViewTheorems.RemoteViewConsistent | core/node/events/stream_view.go:107-156 | a remote view is a window of the chain exactly when the last snapshot in the response equals the first block's; in particular when no later block has one |
| GenesisBlocks.RemoteViewFails | core/node/events/stream_view.go:115-131 | a chain of two blocks whose remote view is built without an error and is not a window of it |
| Queries.StepMirrorsUpdate | core/node/events/snapshot.go:156-182 | for each query, updating the snapshot with an event and stepping the running answer agree |
| Queries.SnapshotIndependence | core/node/events/stream_viewstate_joinable.go:22-60 | each of the four queries answers, for every window, as a full replay from the inception event; the member list needs twenty-byte addresses |
| Queries.MemberListExactly | core/node/events/stream_viewstate_joinable.go:22-60 | with malformed addresses the member list is snapshot-independent exactly unless one was mentioned up to the base block and base snapshot and tail are free of them |
| QueryAnswers.ChannelMembersSay | core/node/events/stream_viewstate_joinable.go:22-60 | for every window the member list is exactly the users whose last Join or Leave is a Join, or whom the inception joined; an error exactly if one of them has no twenty-byte address |
| QueryAnswers.UserMembershipSays | core/node/events/stream_viewstate_user.go:49-84 | for every window the answer is the operation of the last record about the stream, or unspecified |
| QueryAnswers.ChannelInfoSays | core/node/events/stream_viewstate_space.go:38-68 | for every window the answer is the last update of the channel |
| QueryAnswers.KeySolicitationsSay | core/node/events/stream_viewstate_joinable.go:96-143 | for every window a user not joined has no answer; for others it is what solicitations by and fulfillments for the user leave since their last Join |
| QueryProcedures.GetChannelMembers | core/node/events/stream_viewstate_joinable.go:22-60 | the replay with a captured set computes the member list or the address error |
| QueryProcedures.GetKeySolicitations | core/node/events/stream_viewstate_joinable.go:96-143 | the replay with a cloned member computes the outstanding solicitations |
| QueryProcedures.GetMembershipOp | core/node/events/stream_viewstate_joinable.go:62-91 | the replay with a captured operation computes the membership |
| QueryProcedures.GetUserMembership | core/node/events/stream_viewstate_user.go:49-84 | the replay computes the user's operation in a stream, or the wrong-type error |
| QueryProcedures.IsMemberOf | core/node/events/stream_viewstate_user.go:37-47 | true exactly for the user's own stream or a joined one |
| QueryProcedures.GetChannelInfo | core/node/events/stream_viewstate_space.go:38-68 | the replay computes the latest channel record, or the wrong-type error |
| Membership.FoldJoined | core/node/events/snapshot.go:408-426 | after any events the joined set holds a user exactly by their last Join or Leave |
| Membership.SnapshotChangesMembership | core/node/events/stream_viewstate_joinable.go:62-91 | folding events into the snapshot keeps the user's answer if and only if a later event mentions the user, or the folded ones do not, or the last folded operation is Join, or it is unspecified and the user is not joined |
| Membership.MembershipExactly | core/node/events/stream_viewstate_joinable.go:62-91 | for every window of every chain the membership reported is that of the full replay exactly under that condition |
| Membership.LeaveIsForgotten | core/node/events/stream_viewstate_joinable.go:62-91 | a member who left is reported as left before the snapshot and as unspecified after it |
| Membership.InviteHidesMember | core/node/events/stream_viewstate_joinable.go:62-91 | inviting a joined member reports an invitation before the snapshot and a join after it |
| EngineProofs.LoadShows | core/node/events/stream.go:110-134 | in every state loading succeeds and shows the stored chain and pool from the latest snapshot |
| Storage.ReadExactly | core/node/storage/pg_storage.go:453-563 | reading returns the blocks from the last snapshot on and the pool, and fails exactly if the rows contradict each other |
| EngineProofs.AddKeeps | core/node/events/stream.go:489-546 | a validated add keeps the invariant, whether or not the write succeeds |
| EngineProofs.ProposeKeeps | core/node/events/stream_view.go:188-206 | a proposal names the current tip and a prefix of the pool |
| EngineProofs.BuildKeeps | core/node/events/stream.go:148-181 | building always succeeds on a loaded view, however many events were added since the proposal |
| EngineProofs.StoreKeeps | core/node/storage/pg_storage.go:754-788 | a stored candidate is a proper successor of the tip, keyed by number and hash |
| EngineProofs.RegisterKeeps | core/node/events/stream.go:342-353 | registration keeps agreement for all three outcomes, an unreported success included |
| EngineProofs.CommitResult | core/node/storage/pg_storage.go:821-914 | a commit appends exactly the registered block, leaves the rest of the pool and clears the candidates |
| EngineProofs.RunKeeps | core/node/events/stream.go:312-361 | the invariant holds in every state of every admissible run from genesis |
| EngineTheorems.ExactlyOnce | core/node/events/stream_view.go:518-588 | in every reachable state, from every genesis block: no event added since genesis occurs twice in the blocks and the pool or was in the genesis block, and the whole history is free of repeats if and only if the genesis block is |
| EngineTheorems.AddDiverges | core/node/events/stream.go:516-546 | after an unvalidated add stored and cached pool agree exactly when the event is neither a header nor pending |
| EngineTheorems.StaleValidationDuplicates | core/node/events/stream.go:489-498 | an event validated once, added, put in a block and added again is in the history twice |
| EngineLimits.StaleAddExactly | core/node/events/stream.go:489-546 | an event validated in one state and added in any later state of a run leaves everything added since genesis without duplicates if and only if it was not itself sent in between, and the whole history if and only if the genesis block has none either |
| EngineLimits.UnreportedAdd | core/node/events/stream.go:522-533 | after a validated add whose write lands and is reported as failed, storage has exactly that event more than the view, every add is refused, and a reload restores the invariant with the event pending once |
| EngineLimits.UnreportedAddForgotten | core/node/storage/pg_storage.go:843-889 | a commit before the reload writes the pool of the view, so the event is gone as if never added, and the invariant holds |
| EngineLimits.UnreportedCommit | core/node/events/stream.go:241-251 | after a commit that lands and is reported as failed, every add and every candidate for the old tip is refused, the registry agrees, and a reload restores the invariant with the block appended once |
| EngineTheorems.SnapshotsAreReplays | core/node/events/stream_view.go:242-279 | in every reachable state every snapshot in a header equals the fold over every event since genesis with true numbers |
| EngineTheorems.ViewsAreUsable | core/node/events/snapshot.go:156-182 | in every state no update of the tail or pool can panic |
| EngineTheorems.BoundedWindow | core/node/events/stream_view.go:353-373 | in every reachable state fewer events than the threshold since the snapshot and at most generations + threshold blocks in memory |
| EngineWindows.WindowSize | core/node/events/stream_view.go:353-373 | from loading until it is dropped, over every run, a view holds exactly the blocks from the snapshot it was loaded from, or if that is less, those since the latest snapshot and generations before it |
| EngineWindows.WindowSizeSinceCreation | core/node/events/stream_view.go:353-373 | in particular since the creation of the stream: the smaller of all blocks and that number |
| EngineWindows.ProposedExactly | core/node/events/stream_view.go:188-206 | in every state a proposal takes the whole pool for the tip, and asks for a snapshot exactly when forced or when pool and events since the latest snapshot reach the configured number |
| EngineWindows.SnapshotsExactly | core/node/events/stream_view.go:495-516 | in every run without forced proposals a block carries a snapshot if and only if the events since the snapshot before it, its own included, reach the configured number |
| EngineTheorems.RegistryAgreement | core/node/events/stream.go:148-181 | in every reachable state the on-chain head is the local tip or a stored candidate whose parent is the tip, and every applied block was accepted |
| EngineLimits.RegistrationAgrees | contracts/src/river/registry/facets/stream/StreamRegistry.sol:90-135 | in every state, registering a block leaves agreement if and only if the block is a stored candidate or the tip |
| EngineLimits.LateRegistrationExactly | contracts/src/river/registry/facets/stream/StreamRegistry.sol:90-135 | a candidate stored in any state and registered in any later state of a run leaves agreement if and only if no block was committed since, or just that one |
| EngineLimits.LateRegistrationBreaksAgreement | contracts/src/river/registry/facets/stream/StreamRegistry.sol:104-120 | a schedule in which a refused candidate is registered after another block was committed and agreement is lost; the disabled check would refuse it |
| EngineTheorems.BlockUnderWayApplies | core/node/events/stream.go:216-259 | a block under way applies in every state, and its events plus what remains are the pool in order |
| EngineTheorems.MakeBlockCommits | core/node/events/stream.go:312-361 | without failures the five steps move the whole pool into one new block, later than the tip for any clock |
| EngineLimits.FailureEndsAttempt | core/node/events/stream.go:148-259 | in every state a failed build, write, registration or commit frees the block maker and changes nothing stored or sent; the registry moves only on an unreported acceptance |
| EngineLimits.SuccessGoesOn | core/node/events/stream.go:148-259 | in every state a step of the block maker that does not fail leads to the next one |
| EngineTheorems.ReloadIsTransparent | core/node/events/stream.go:439-457 | unloading in any state and rebuilding from storage gives the same last block, cookie, total count and query answers |
| EngineTheorems.AnySuffixIsTransparent | core/node/events/stream.go:110-134 | so does rebuilding from any stored suffix that holds a snapshot |
| EngineLimits.ShorterWindowValidates | core/node/events/stream_view.go:518-588 | a window that starts later validates an event alike if and only if the block it refers to is in neither window or in both, or its successor is not recent |
| EngineLimits.ReloadValidates | core/node/storage/pg_storage.go:453-563 | in every state an event is validated after a reload as before if and only if it refers to no kept block, or one at or after the snapshot, or one whose successor is not recent |
| EngineLimits.ReloadResponds | core/node/events/stream.go:548-648 | in every state the first response after a reload is the same if and only if the cookie is not for a kept block before the snapshot; for such a one it is a reset instead of a delivery |
| EngineLimits.ServedResponseRebuilds | core/node/rpc/get_stream.go:52-58 | in every state the served blocks rebuild, on the receiving side, into a window of the chain |
| EngineLimits.SubscribedExactly | core/node/events/stream.go:548-648 | in every state exactly which cookies are refused; every other one adds the receiver and gets a first response |
| EngineLimits.UnloadedExactly | core/node/events/stream.go:439-457 | in every state a view is unloaded exactly if it is expired, nobody listens and nothing is pending |
| Sync.RunIsLater | core/node/events/stream.go:501-546 | between any two states of a run: what was pending plus what was sent is what new blocks deliver plus what is pending |
| Sync.ResumeDelivers | core/node/events/stream.go:548-648 | resuming with any earlier cookie delivers exactly the later events if the generation is the same; if its block is in the window exactly the pending and later envelopes, the events in the order of chain and pool and each header right after its block's events; otherwise a reset whose blocks are exactly those from the latest snapshot to now |
| Clients.ClientNeverMisses | core/node/events/stream.go:501-648 | a client that is cut off and resumes at any times has, whenever live, received exactly the envelopes since its base block: the events that were new to it in the order of chain and pool, the headers in order and once; and that block's snapshot is the replay of all before |
| Streams.ForEachEvent | core/node/events/stream_view.go:421-434 | iteration visits block events, each header after its block, then the pool |
| Streams.Stream.constructor | core/node/storage/pg_storage.go:257-281 | a created stream satisfies the invariant |
| Streams.Stream.Load | core/node/events/stream.go:110-134 | loads the view the engine loads, and never fails in a valid state |
| Streams.Stream.AddEvent | core/node/events/stream.go:489-546 | takes the engine's add step for any event; a validated one keeps the invariant and succeeds exactly if the write does |
| Streams.Stream.GenerateProposal | core/node/events/stream.go:136-146 | takes the engine's propose step |
| Streams.Stream.ConstructMiniblock | core/node/events/stream.go:261-288 | takes the engine's build step |
| Streams.Stream.StoreCandidate | core/node/events/stream.go:200-213 | takes the engine's store step |
| Streams.Stream.SetStreamLastMiniblock | core/node/registries/river_registry_contract.go:424-473 | takes the engine's register step for all outcomes |
| Streams.Stream.ApplyMiniblock | core/node/events/stream.go:216-259 | takes the engine's commit step; succeeds exactly if the write does and then appends exactly the registered block |
| Streams.Stream.ProposeNextMiniblock | core/node/events/stream.go:148-181 | is the first three steps, and ends with a stored candidate or nothing |
| Streams.Stream.MakeMiniblockImpl | core/node/events/stream.go:312-361 | is the five steps whatever fails on the way; returns the new block's hash and number, the last block's if there is nothing to propose and the caller does not know it, and nothing after a failure |
| Streams.Stream.TryCleanup | core/node/events/stream.go:439-457 | unloads only an expired, unobserved view with an empty pool |
| Streams.Stream.Subscribe | core/node/events/stream.go:548-648 | adds the receiver exactly for acceptable cookies and returns the first response |
| Streams.Stream.ForceFlush | core/node/events/stream.go:663-674 | drops view and receivers, sends every receiver an error, and keeps the stored stream |
| Streams.Stream.Unsubscribe | core/node/events/stream.go:652-658 | removes only the receiver, present or not |
| Streams.ProcessMiniblockProposalBatch | core/node/events/stream_cache.go:336-418 | every idle stream of a batch takes its own five steps and keeps its invariant, independent of what fails for the others; busy streams are skipped |
| SharedBlocks.Append | core/node/events/stream_view.go:366-372 | appending writes only the first spare cell of the shared array, or copies to a fresh one |
| SharedBlocks.AppendLeaves | core/node/events/stream_view.go:366-372 | an append in place leaves another slice of the array as it was exactly when it does not cover the written cell or held the same block there |
| SharedBlocks.BlockHolder.Share | core/node/events/stream_view.go:168-181 | a view that adds an event shares the slice without changing any view |
| SharedBlocks.BlockHolder.Extend | core/node/events/stream_view.go:366-372 | extending the current slice leaves every view handed out before as it was |
| SharedBlocks.BlockHolder.Apply | core/node/events/stream_view.go:353-373 | applying a block, committed or discarded, changes no view handed out before |
| SharedMessages.FulfilledAgain | core/node/events/snapshot.go:707-718 | for all id lists, replaying the first of some fulfillments on a message edited by all of them gives the same message if and only if the guard finds nothing for any of them and no new-device flag was lost |
| SharedMessages.GrowingReplay | core/node/rules/can_add_event.go:1102-1127 | for all id lists, after one replay every replay of whatever its fulfillments grow to gives the message of a first replay, if and only if the guard finds nothing for the same fulfillments in what the first left |
| SharedMessages.GrowingReplays | core/node/rules/can_add_event.go:1102-1127 | so for any number of replays of growing fulfillments: after each of them all further ones are unchanged if and only if each was safe in this sense |
| SharedMessages.OlderReplay | core/node/events/snapshot.go:707-718 | a replay of fewer fulfillments after any number of growing replays, safe but for the last, is unchanged if and only if the message is unaffected |
| SharedMessages.LaterReplays | core/node/events/snapshot.go:687-718 | a message that a header lists stays as it was under any number of later growing replays if and only if it is unaffected |
| SharedMessages.SortedIsSafe | core/node/events/snapshot.go:697-700 | with sorted ids named once every replay is safe |
| SharedMessages.SortedHeaderIsAffected | core/node/events/snapshot.go:698-703 | even a single sorted id is removed under a header built before its fulfillment |
| SharedMessages.UnsortedIsAffected | core/node/events/snapshot.go:697-713 | the ids [a, c, b] with [b, c] fulfilled are answered [a, b] first and [a] the second time |
| SharedMessages.GrowingIsAffected | core/node/rules/can_add_event.go:1102-1127 | the ids [c, b, a] with [b, a, c] and then [b] fulfilled: the query that validates the second leaves the answer empty where the value replay gives [a], although asking twice at the end would not show it |
| SharedSolicitations.ApplyFulfillment | core/node/events/snapshot.go:707-718 | a fulfillment edits the first listed message of the device in place |
| SharedSolicitations.ReplayTail | core/node/events/stream_viewstate_joinable.go:96-143 | the replay over the events' own message objects, with joins and leaves resetting the list, lists and edits them as the shared-message model says |
| SharedSolicitations.PlayEdits | core/node/events/stream_viewstate_joinable.go:96-143 | after a replay every message of the tail is fulfilled by exactly the fulfillments that reach it |
| SharedSolicitations.QueriesOfGrowingTail | core/node/events/stream_viewstate_joinable.go:96-143 | any tail, queried any number of times as it grows: after each query all replays of what it has grown to are undisturbed if and only if every query left each message it listed safe |
| SharedSolicitations.SortedQueriesAreSafe | core/node/events/snapshot.go:697-700 | with sorted ids named once every query of every tail is safe |
| SharedSolicitations.ReplayAfterQueries | core/node/events/stream_view.go:252-277 | a replay of the first events of a tail, after queries that ended with the whole of it, is undisturbed if and only if every listed message of the tail is unaffected |
| SharedSolicitations.HeaderEditedLater | core/node/events/snapshot.go:698-703 | what a built header shows stays as built under later queries of the whole tail if and only if every listed message of the tail is unaffected |
| SharedAnswers.FirstAnswerIsQuery | core/node/events/stream_viewstate_joinable.go:96-143 | for every user, every start and every events, the first replay over shared messages answers as the query over values |
| SharedAnswers.QueriesAreValues | core/node/events/stream_viewstate_joinable.go:96-143 | for every snapshot, user and tail queried as it grows: after each query all replays answer as the query over values if and only if all queries were safe |
| SharedAnswers.OneSolicitation | core/node/rules/can_add_event.go:1102-1127 | for one solicitation and its fulfillment a query is safe if and only if the message is left safe |
| SharedAnswers.AnswersChange | core/node/rules/can_add_event.go:1102-1127 | a tail of events in which one query changes a later answer |
| SharedAnswers.AskAfterQueries | core/node/events/stream_viewstate_joinable.go:96-143 | on every view, after safe queries, the answer is the one the view's query gives over values |
| SharedAnswers.AskWithSortedIds | core/node/events/snapshot.go:697-713 | with sorted ids in its tail a view answers the same however often it was queried |
| SharedAnswers.BuiltAfterQueries | core/node/events/stream_view.go:252-277 | the solicitations in a header for the first events, built after queries over more, are those of the fold over values if and only if no listed message is affected |
| SharedAnswers.BuiltBeforeQueries | core/node/events/stream_view.go:252-277 | the solicitations in a header that was built first go on being those of the fold, under any queries before the commit, if and only if no listed message is affected |
| Pricing.IncreaseOutbids | core/node/crypto/chain_txpool_policy.go:100-113 | the new amount exceeds 110% exactly at ten percent or when the rounding loss is below the excess percentage |
| Pricing.LargeIncreaseOutbids | core/node/crypto/chain_txpool_policy.go:100-113 | it does at ten percent always, and above it from 100 wei on |
| Pricing.SmallIncreaseFails | core/node/crypto/chain_txpool_policy.go:100-113 | eleven percent on 5 wei does not outbid although ten percent does |
| Pricing.TipCompounds | core/node/crypto/chain_txpool_policy.go:95-129 | k raises of ten percent give tip * 10^k >= 11^k * tip0 and at least k more |
| Pricing.RepriceWithinCap | core/node/crypto/chain_txpool_policy.go:115-126 | the repriced fee cap never exceeds the operator's, and below it always outbids the former one |
| Pricing.QuotedExactly | core/node/crypto/chain_txpool_policy.go:61-129 | the quoted fee cap is one more than the least amount that outbids the former, or the operator's cap if that is less, or open without one; the tip is the least that outbids the former at ten percent, otherwise the percentage more; zero stands for ten percent |
| Pricing.LegacyQuotedExactly | core/node/crypto/chain_txpool_policy.go:127-129 | a legacy transaction is quoted only a gas price, by the same rule |
| Pricing.ReplacementWellFormed | core/node/crypto/chain_txpool_policy.go:61-126 | at the default percentages the replacement's tip stays within its fee cap exactly while the raised tip is within the operator's cap |
| Pricing.ReplacementsRunOut | core/node/crypto/chain_txpool_policy.go:115-126 | so after enough replacements the tip alone exceeds the operator's cap |
| TransactionPool.RunIsGood | core/node/crypto/chain_txpool.go:295-522 | over every run: processed + pending = submitted, consecutive pending nonces, empty pending listeners, exactly one receipt for one of its own hashes per settled listener, no fee cap above the operator's |
| TransactionPool.RunContinues | core/node/crypto/chain_txpool.go:396-522 | a settled transaction keeps its one receipt for the rest of the run, and every replacement keeps nonce and former hashes |
| TransactionPool.SubmittedExactly | core/node/crypto/chain_txpool.go:250-378 | a submission fails exactly without a nonce, a transaction within the cap or a successful send; otherwise it appends one pending transaction with the client's nonce if nothing was pending, else the next one |
| TransactionPool.BlockReplacesExactly | core/node/crypto/chain_txpool.go:466-520 | a block callback replaces exactly the transactions still pending that are due, five seconds by default, if the receipt loop finished and creating and sending succeed |
| TransactionPool.RunCounts | core/node/crypto/chain_txpool.go:499-503 | over every run the counter of replacements is the number of hashes beyond the first of each transaction |
| TransactionPool.AskIsFirst | core/node/crypto/chain_txpool.go:418-462 | the first recorded hash with a receipt or an error decides |
| TransactionPool.DeliverAllKeeps | core/node/crypto/chain_txpool.go:416-464 | receipts go out from the front in nonce order, each the client's first answer for one of the hashes; the loop ends, aborts or spins exactly as described |
| TransactionPool.ReceiptLoopSpins | core/node/crypto/chain_txpool.go:416-464 | the loop spins exactly when a mined transaction has neither receipt nor error under any hash and all mined ones before it have receipts |
| TransactionPool.ReceiptLoopTerminates | core/node/crypto/chain_txpool.go:416-464 | it terminates when every mined transaction has a receipt under some recorded hash |
| TransactionPool.ReplaceFromKeeps | core/node/crypto/chain_txpool.go:466-520 | every pending transaction is visited once, replaced ones keep nonce and place, nothing else changes |
| TransactionPool.ReplacedKeeps | core/node/crypto/chain_txpool.go:477-505 | a replacement keeps the nonce and the cap, and at ten percent outbids the former tip |
| TransactionPool.RunRaises | core/node/crypto/chain_txpool.go:477-505 | over every run a transaction that has gained j hashes has had its tip raised exactly j times |
| TransactionPool.RunTipsCompound | core/node/crypto/chain_txpool_policy.go:95-129 | so over every run at ten percent tip * 10^j >= 11^j * the earlier tip |
| TransactionPool.NoncesIncrease | core/node/crypto/chain_txpool.go:250-256 | if an idle pool is told a nonce above those used, nonces increase over its whole life, so none is used twice |
| PendingList.FindReceipt | core/node/crypto/chain_txpool.go:418-462 | the loop over hashes stops at the first receipt or error |
| PendingList.PendingTx.Replace | core/node/crypto/chain_txpool.go:477-520 | the pending record in place becomes the replaced entry |
| PendingList.TxPool.Submit | core/node/crypto/chain_txpool.go:295-378 | on the heap list: takes the submit step, fails exactly when the step does, and appends one fresh node |
| PendingList.TxPool.DeliverFirst | core/node/crypto/chain_txpool.go:420-429 | unlinking the first node, with the last one recognised by its nonce, is the deliver step |
| PendingList.TxPool.DeliverReceipts | core/node/crypto/chain_txpool.go:416-464 | the loop over the list is the deliver loop of the state machine |
| PendingList.TxPool.ReplaceEligible | core/node/crypto/chain_txpool.go:466-520 | the walk along `next` visits every pending entry once and keeps the list |
| PendingList.TxPool.OnBlock | core/node/crypto/chain_txpool.go:396-522 | the whole callback is the block step of the state machine and keeps the list invariant |
| Monitor.EveryBlockOnce | core/node/crypto/chain_monitor.go:213-322 | for every sequence of heads, failures and registrations each block callback has seen every block since it was added once and in order, and log ranges of at most 26 blocks partition the processed blocks |
| Monitor.SeenFromTheStart | core/node/crypto/chain_monitor_builder.go:119-126 | a callback added before the start sees initialBlock, initialBlock + 1, ... without gap or repeat |
| Monitor.WithinHead | core/node/crypto/chain_monitor.go:255-260 | a poll stays within the observed head exactly when it is not a first poll below the initial block |
| Monitor.CatchesUp | core/node/crypto/chain_monitor.go:255-260 | successful polls of one head advance by 26 blocks each until exactly that head is processed |
| Monitor.ChainMonitor.OnBlockReceived | core/node/crypto/chain_monitor_builder.go:119-126 | hands the block to exactly the callbacks that have not seen it |
| Monitor.ChainMonitor.PollOnce | core/node/crypto/chain_monitor.go:229-320 | one iteration is one step of the state machine, failures included |
| Monitor.ChainMonitor.RunWithBlockPeriod | core/node/crypto/chain_monitor.go:181-324 | the loop over any observations is the run of the state machine |
| Monitor.PollInterval.Interval | core/node/crypto/chain_monitor.go:115-129 | the wait after errors is the number of errors in a row, at most 10000, times the period, up to the limit; after success what is left of the period, or nothing when blocks remain |
| Monitor.PollInterval.constructor | core/node/crypto/chain_monitor.go:105-113 | the limit is the larger of the configured one and a second |
| LogFilter.MatchTopics | core/node/crypto/chain_utils.go:9-26 | true exactly when every position the callback filters on holds one of its topics |
| LogFilter.EmptyPositionMatchesNothing | core/node/crypto/chain_utils.go:9-26 | a position without topics matches nothing, unlike in the client's query language |
| LogFilter.MergedLosesNothing | core/node/crypto/chain_monitor_builder.go:22-41 | fetching with the merged query and then filtering by a callback is filtering all logs by it |
| LogFilter.UnregistrableIsLost | core/node/crypto/chain_monitor_builder.go:27-35 | a callback with topics but no address would lose logs; none can be registered |
| LogFilter.Builder.GetQuery | core/node/crypto/chain_monitor_builder.go:22-41 | the cached query always equals the one recomputed from the callbacks |
| LogFilter.Builder.OnAllEvents | core/node/crypto/chain_monitor_builder.go:53-56 | registers a callback for everything and keeps the cache honest |
| LogFilter.Builder.OnContractEvent | core/node/crypto/chain_monitor_builder.go:58-61 | registers a callback for an address and keeps the cache honest |
| LogFilter.Builder.OnContractWithTopicsEvent | core/node/crypto/chain_monitor_builder.go:63-70 | registers a callback for an address and topics and keeps the cache honest |
| LogFilter.Builder.OnLogReceived | core/node/crypto/chain_monitor_builder.go:87-93 | gives the log to exactly the callbacks that want it |
| LogFilter.Builder.Deliver | core/node/crypto/chain_monitor.go:276-306 | over a range each callback receives exactly the logs matching its own address and topics, in order |
| MonitorLogs.EveryFetchedLogOnce | core/node/crypto/chain_monitor.go:213-322 | with fetches that return nothing beyond the observed head: over every sequence of heads, failures and registrations each event callback has received exactly its own logs, once and in order, of all blocks since it was added or since the block serving starts at |
| MonitorLogs.ServedFromExactly | core/node/crypto/chain_monitor.go:255-260 | serving starts at the initial block, or 26 blocks later exactly if the first poll saw a head below it |
| MonitorLogs.EveryLogOnce | core/node/crypto/chain_monitor.go:213-322 | a callback has all its logs since it was added if and only if no first poll came too early or none of its logs lies in the 26 skipped blocks |
| MonitorLogs.FirstPollLosesLogs | core/node/crypto/chain_monitor.go:255-260 | started at block 5 with the head observed at 0, the log of block 5 never arrives |
| Quorum.QuorumPool.GoLocal | core/node/rpc/quorum_pool.go:21-27 | opens a local channel that waits for one answer |
| Quorum.QuorumPool.LocalReturns | core/node/rpc/quorum_pool.go:23-26 | the local call sends exactly one answer |
| Quorum.QuorumPool.GoRemote | core/node/rpc/quorum_pool.go:29-35 | counts one more call whose answer is awaited |
| Quorum.QuorumPool.RemoteReturns | core/node/rpc/quorum_pool.go:31-34 | answers queue up in the order of arrival, never more than calls |
| Quorum.QuorumPool.Wait | core/node/rpc/quorum_pool.go:37-73 | succeeds exactly when the local call did and enough remotes did, at least one if there are any; otherwise returns the local or first remote error; the answers used already decide |
| Quorum.QuorumPool.WaitRemotes | core/node/rpc/quorum_pool.go:46-69 | counting with early exit decides whether the quorum, and at least one, succeed |
| Quorum.OrderDoesNotMatter | core/node/rpc/quorum_pool.go:46-69 | the verdict is the same for every arrival order |
| Quorum.WritesShareANode | core/node/rpc/util.go:44-55 | two successful writes share a node whenever the least numbers of holders exceed the number of nodes |
| Quorum.QuorumIsLeast | core/node/rpc/util.go:44-55 | for an odd number of nodes, and for two with a local one, the least number that holds a write is the least for which any two writes must share a node; for other even numbers it is one less |
| Quorum.WritesShareExactly | core/node/rpc/util.go:44-55 | any two successful writes share a node exactly for an odd number of nodes, or two nodes of which one is a writer's own |

## Left out

- Loading a stream that is missing from storage from the chain (`initFromBlockchain`), archiving and scrubbing.
- Reading block ranges for clients (`GetMiniblocks`) and the terminus flag.
- Protobuf encoding, envelopes, signing, hashing and key recovery; hashes are collision-free constructors.
- `MigrateSnapshot` is the identity at the current version.
- Event rules beyond the payload-kind match (permissions, entitlements); the caller of an add is assumed to apply them.
- Queries.SnapshotIndependence: messages are values; what the edits of earlier queries change is in SharedAnswers.QueriesAreValues.
- QueryProcedures.GetKeySolicitations: messages are values; the edits of the events' own messages are in SharedSolicitations.ReplayTail, their effect in SharedAnswers.
- EngineTheorems.SnapshotsAreReplays: messages are values; queries before a header is built are in SharedAnswers.QueriesAreValues and BuiltAfterQueries, queries between building and committing in BuiltBeforeQueries.
- EngineTheorems.ReloadIsTransparent: messages are values; a reload parses the events anew, so its first answer is that of SharedAnswers.FirstAnswerIsQuery and what was answered before is in QueriesAreValues. What a reload changes for validation and resuming is in EngineLimits.
- SharedAnswers.QueriesAreValues: the tail grows at its end, and a block that takes the front of the pool in order leaves it as it is; a block that takes pooled events in another order is not covered.
- SharedAnswers.BuiltAfterQueries: the queries before the last one are assumed to have left the listed messages safe; with one query nothing is assumed.
- EngineProofs.AddKeeps: a write that lands and is reported as failed is in EngineLimits.UnreportedAdd.
- Streams.Stream.AddEvent: a write that lands and is reported as failed is in EngineLimits.UnreportedAdd.
- Streams.Stream.ApplyMiniblock: a write that lands and is reported as failed is in EngineLimits.UnreportedCommit.
- EngineTheorems.AnySuffixIsTransparent: covers the last block, cookie, total and queries; validation over a shorter window is in EngineLimits.ShorterWindowValidates.
- EngineTheorems.ExactlyOnce: needs every add validated on the view it is added to; for stale validation see EngineLimits.StaleAddExactly.
- EngineTheorems.RegistryAgreement: is about a node's own registrations, which land in the step that sends them; for later ones see EngineLimits.LateRegistrationExactly.
- Mutexes: each locked section is one step and every interleaving of steps is a run; data races inside a section are not modelled.
- Several nodes making blocks for the same stream; the engine is one node's view with one block maker.
- PendingList.TxPool.Submit: the created transaction is assumed to carry the nonce and fees of its options.
- Legacy transactions in the pool; the pricing policy's branch for them is in Pricing.Reprice.
- Negative percentages in the pricing configuration.
- Monitor.EveryBlockOnce: block numbers are below 2^63, so adding a range does not wrap.
- Header callbacks and the stop callbacks of the monitor, metrics and logging.
- RPC plumbing, forwarding, TLS, the space and entitlement contracts, the Olm client code.
