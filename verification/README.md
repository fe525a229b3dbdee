# ChatCommons: a verified model

ChatCommons replicates a graph of signed events between peers and derives a chat community from it: who
owns it, who administers it, who its members are, which invitations are open. This project models the parts
that have to agree on every machine and proves what they promise.

- **Resolver** (`Chat`, `Governance`, `Causality`, `DecisionOrder`, `Resolver`, `ResolveRounds`,
  `ResolverTheorems`, `Authority`, `Roles`, `RoundOrder`, `Removals`). `resolve` takes an unordered set of
  candidate events, decides them in causal rounds with a priority and Event ID tie-break, and yields an accepted
  order, rejections and a snapshot. The round loop is proved to compute the one accepted order that a
  declarative definition allows: increasing in (depth, priority, id), each event judged after the accepted
  events before it. Determinism, irrelevance of rejected events and stability under late arrivals follow from
  that definition. `Authority` says for each kind of payload exactly when it is accepted and for each reason
  exactly when it is given, `Roles` tells every role from the accepted events alone, and `Removals` settles a
  removal against what the removed user authors on the same heads.
- **Node** (`Closure`, `Node`, `NodeTheorems`). Ingestion is a fixpoint; it takes in exactly the least
  parent-closed part of a batch, so known events never form a cycle.
- **Synchronization** (`Json`, `JsonText`, `Packing`, `SyncMessages`, `ByteCount`, `SyncState`, `SyncTheorems`,
  `SyncPeers`, `TwoPeers`, `Convergence`, `Termination`, `Exchange`, `Agreement`, `Frames`). One peer first:
  quota, answers, independence from delivery order. Then two peers with any messages in flight and any schedule:
  nothing is refused, the exchange ends, both end up knowing what either knew, and both resolve it alike.
- **Archive** (`Archives`, `Kahn`, `Import`, `ImportCommand`). Export, validation, the topological sort and the
  batched import, with the round trip and the projection checks of the command.
- **Authoring** (`Authoring`, `Projection`, `Rivals`). What an event on top of all heads does to heads and
  resolution, the resolution of everything a node knows, and two acceptances of one invitation.
- **Network** (`Devices`, `Bootstrap`, `Network`, `NetworkNodes`, `Joining`, `NetworkSync`, `NetworkRuns`,
  `Refresh`, `Decision`). The sets and maps of the network node as a class whose invariant every operation
  keeps, a history of the invitation bootstrap that is proved safe, both ends of a join, the decision on an
  acceptance, and the refresh that keeps authorization in step with the community.
- **Bytes** (`Bytes`, `Protocol`, `SignedBytes`). The canonical layouts and their injectivity.
- **Samples** (`Samples`, `LongAncestry`, `StuckRefresh`, `RivalSample`). Concrete valid events over a sample
  cryptography, for showing that a situation arises.

Identifiers are 256-bit numbers; their order is the lexicographic order of their 32 bytes. BLAKE3 and Ed25519
are parameters (`Crypto`), and so are payload decoding (`Profile.decode`, with `ChatProfile` for the program's
decoder over a JSON parser parameter), nonces, signing, and the transport's peer id of a key. The only thing
ever assumed about the hash is that equal ids among the events at hand belong to equal events (`NoCollisions`,
`NoClash`, `Agree`); `EqualIdsMeanEqualEvents` shows that this follows from the hash not colliding on those
two preimages. The SQLite store is a map from id to event in which an insert keeps an existing row.

The node's fields in `NetworkNodes.NetworkNode` are one record-valued field, `state`, that the methods
update; `trace` is a ghost history.

## Where the code and its documents or expectations part

- `docs/adr/0009-transport-independent-event-sync.md` says that a peer never serves an Event ID absent from
  its known set. `serve` reads the whole store (crates/sync/src/lib.rs:231-237). `ServesOnlyKnown` proves the
  promise equivalent to every stored row being known, and `OpenedServesOnlyKnown` to every row being of the
  community the node was opened for. `SomeUnknownRowIsServed` gives a sound peer that breaks it, with the
  answer, and `ReachableKnowsItsRows` shows that a node started on an empty store keeps it.
- When the last connection to a peer closes, the node forgets the peer, except that it returns early for
  relay peers (crates/sync/src/network.rs:630-632). `DisconnectForgetsUnlessRelay` is the exact condition.
  So a relay peer stays authenticated (`RememberRelay`) and may answer a challenge issued before it
  disconnected (`AnswerLater`).
- An approval removes the invitation's grant, but decisions do not consult the grants
  (crates/sync/src/network.rs:556-570): whoever else was waiting with an acceptance of the same invitation can
  still be approved. `SecondApproval` is the exact condition and `ApproveBoth` such a run. The caller judges by
  the resolution (`Judge`), in which at most one acceptance of an invitation stands (`OneRedemptionStands`).
  That does not mean that only one is ever approved: a rival acceptance with a smaller Event ID displaces one
  that was approved before (`LaterRivalDisplaces`, `SomeRivals`). An approved peer outlives the refresh that
  follows (`ApprovedOutlivesItsRefresh`), and a later one dismisses it exactly when `RefreshDismissesExactly`
  says.
- A refresh of the network's authorization fails when an active invitation has more than 256 ancestors or
  its disclosure exceeds 1 MiB. `RefreshAuthorization` states this as an equivalence, that in the first case
  the old authorization stays in force, and that in the second only the old grants do.
  `SomeInvitationIsTooLong` and `SomeDisclosureIsTooLarge` are communities in the two cases. This is about the
  network node object: the command's loop passes the error on (crates/cli/src/main.rs:1101-1106), so the
  program stops.

## Model

| member | source | states |
|---|---|---|
| `Protocol.CanonicalContentIsRecoverable` | crates/protocol/src/lib.rs:221-245 | parsing the canonical bytes gives the content back, for all content with fewer than 2^32 parents and bytes per field |
| `Protocol.EventIdPreimageIsInjective` | crates/protocol/src/lib.rs:212-219 | the Event ID preimage determines content, key and signature |
| `Protocol.EqualIdsMeanEqualEvents` | crates/protocol/src/lib.rs:165-219 | two valid events with one id are equal unless the hash collides on their preimages |
| `Protocol.FirstFaultIsAt` | crates/protocol/src/lib.rs:165-206 | the fault reported for a list is that of its first invalid event |
| `Protocol.ValidityIs` | crates/protocol/src/lib.rs:165-206 | an event is valid if and only if version, type, payload, ascending parents, genesis shape and lengths are in order, the signature verifies over the canonical bytes under its key, and its id is the hash of the preimage |
| `Protocol.FaultIsFirstFailure` | crates/protocol/src/lib.rs:165-206 | each error is reported if and only if its check fails and the checks made before it pass |
| `SignedBytes.SignedBytesMeanOneThing` | crates/sync/src/auth.rs:244-262 | content, acceptance, certificate, revocation and possession layouts are injective on fixed-length fields and pairwise disjoint |
| `SignedBytes.PossessionIsInjective` | crates/sync/src/bootstrap.rs:188-209 | possession bytes determine every field, peers up to their hashes |
| `SignedBytes.AcceptanceIsInjective` | crates/profile-chat/src/lib.rs:725-732 | acceptance bytes determine community, invitation and invitee |
| `Authoring.CreatedIsValid` | crates/protocol/src/lib.rs:114-127 | an honestly signed event is valid if and only if version, type, payload, at most 32 distinct parents and genesis shape are in order; its parents are the given ones, sorted and deduplicated |
| `Chat.CheckHomeServer` | crates/profile-chat/src/lib.rs:645-669 | the check loop returns exactly the specified verdict |
| `Chat.LiveState.Apply` | crates/profile-chat/src/lib.rs:671-723 | updating the fields in place is the specified state change for each payload kind |
| `Chat.DecodesByType` | crates/profile-chat/src/lib.rs:389-400 | an event's type alone says what kind of payload it decodes to, and only foundings of this profile decode |
| `Governance.RolesAreNested` | crates/profile-chat/src/lib.rs:508-723 | in every reachable state owner is an administrator, administrators are members, redeemed invitations were issued |
| `Governance.GenesisLeads` | crates/profile-chat/src/lib.rs:508-545 | the first accepted event founds the community, all others carry it and found nothing |
| `Governance.AdmissionIsConserved` | crates/profile-chat/src/lib.rs:546-582 | members plus active invitations never exceed one plus the invitations accepted |
| `Governance.RedemptionIsSingleUse` | crates/profile-chat/src/lib.rs:546-582 | an invitation is redeemed at most once, only after it was accepted, under its key |
| `Governance.RedeemedInLog` | crates/profile-chat/src/lib.rs:671-723 | the state remembers exactly the invitations the log issued and those it redeemed |
| `Governance.MembershipIsTheLog` | crates/profile-chat/src/lib.rs:671-723 | a user is a member if and only if some founding or redemption by them has no later removal in the log |
| `Roles.AdministrationIsTheLog` | crates/profile-chat/src/lib.rs:671-723 | a user administers if and only if the log founded with, granted or transferred to them with no later revocation or removal of them |
| `Roles.OwnershipIsTheLog` | crates/profile-chat/src/lib.rs:671-723 | the owner is the target of the last transfer, or the founder if there is none |
| `Roles.ChannelsAreTheLog` | crates/profile-chat/src/lib.rs:671-723 | the channels are exactly those the log created |
| `Roles.InvitationKeysAreTheLog` | crates/profile-chat/src/lib.rs:671-723 | an invitation has the key it was issued with |
| `Roles.HomeServerIsTheLog` | crates/profile-chat/src/lib.rs:671-723 | the home server is the one declared last, with its event, key, hashed id, endpoints and parents, and there is none if none was declared |
| `Roles.SnapshotIsTheLog` | crates/profile-chat/src/lib.rs:478-497 | the active invitations of a snapshot are those the accepted events issued and have not redeemed, and its events are the accepted ones |
| `Roles.RoleIsInTheLog` | crates/profile-chat/src/lib.rs:508-643 | whether an author has the role its payload asks for can be read off the log, in both directions |
| `Roles.AcceptedWithAuthority` | crates/profile-chat/src/lib.rs:508-643 | every accepted event was authored by the owner, an administrator or a member of that moment, as its kind asks, and never removes or revokes the owner |
| `Authority.AdmissibleIs` | crates/profile-chat/src/lib.rs:508-669 | per payload kind the exact condition, in the fields of the state after the log, under which an event may follow it |
| `Authority.RejectionIs` | crates/profile-chat/src/lib.rs:440-477 | a resolution rejects a candidate with a reason if and only if that reason is in place: undecodable, behind a missing parent or cycle, behind a rejected parent, or the one objection of the state before it |
| `Authority.AcceptedOrObjected` | crates/profile-chat/src/lib.rs:440-477 | a candidate is accepted if and only if no reason is in place |
| `DecisionOrder.ResolvedIsUnique` | crates/profile-chat/src/lib.rs:424-474 | for any keys and any admission rule there is at most one accepted order |
| `DecisionOrder.AgreeOnSegment` | crates/profile-chat/src/lib.rs:424-474 | two resolutions whose keys and rules agree on an initial segment accept the same events there |
| `ResolveRounds.DecideRound` | crates/profile-chat/src/lib.rs:424-474 | one round decides all events of one depth in priority and id order |
| `RoundOrder.KeysFollowKinds` | crates/profile-chat/src/lib.rs:440-441 | within a round foundings come first, then removals and revocations, then the rest, and the like by Event ID |
| `RoundOrder.AcceptedFollowKinds` | crates/profile-chat/src/lib.rs:500-506 | of any two accepted events the one with the shorter chain of ancestors comes first, and within a round the order is by kind and id |
| `RoundOrder.FirstStands` | crates/profile-chat/src/lib.rs:424-474 | of two events on the same accepted heads the first in that order stands, and the other is accepted if and only if it may follow the first |
| `Removals.RemovalWins` | crates/profile-chat/src/lib.rs:500-506 | a removal or revocation stands against what its target authors on the same heads, whichever id is smaller, unless that is another removal with a smaller id |
| `Removals.EarlierRemovalStands` | crates/profile-chat/src/lib.rs:500-506 | a removal with a smaller id by the target stands, and the other follows it if and only if its own author and its target are still there |
| `Removals.RemovedIsRejected` | crates/profile-chat/src/lib.rs:500-590 | the event that lost is the only one rejected, for its author being no member or no administrator any more, and the snapshot has taken the role away |
| `ResolveRounds.Resolve` | crates/profile-chat/src/lib.rs:402-498 | fails exactly when an event fails validation, with the first fault, and otherwise returns the resolution of the candidate set with every rejection reason and the snapshot |
| `Resolver.VerdictIsRule` | crates/profile-chat/src/lib.rs:443-472 | what the loop decides about a candidate is what admission after the accepted log says |
| `ResolverTheorems.ResolvesIsUnique` | crates/profile-chat/src/lib.rs:402-498 | a candidate set has one resolution: order, rejections, snapshot |
| `ResolverTheorems.ResolutionIgnoresArrivalOrder` | crates/profile-chat/src/lib.rs:402-498 | lists with the same events, in any order and with duplicates, resolve identically |
| `ResolverTheorems.AcceptedLogIsAuthorized` | crates/profile-chat/src/lib.rs:440-498 | every accepted event is admissible in the state after the accepted events before it |
| `ResolverTheorems.AcceptedEventsAreSigned` | crates/profile-chat/src/lib.rs:402-412 | every event a resolution accepts was among the candidates, with a signature that verifies under the key its author id is the hash of |
| `ResolverTheorems.AcceptedOrderIsCausal` | crates/profile-chat/src/lib.rs:440-474 | the parents of an accepted event are accepted before it |
| `ResolverTheorems.LeftoversAreBehindCycles` | crates/profile-chat/src/lib.rs:475-477 | the undecided leftovers are exactly the candidates from which a cycle is reachable |
| `ResolverTheorems.DecisionsFollowCausality` | crates/profile-chat/src/lib.rs:424-441 | decodable candidate parents are decided in earlier rounds |
| `ResolverTheorems.CommunityIsLeastFounder` | crates/profile-chat/src/lib.rs:508-545 | the community is the least id among parentless community-create candidates |
| `ResolverTheorems.RejectedEventsAreIrrelevant` | crates/profile-chat/src/lib.rs:402-498 | any set between the accepted events and the candidates resolves to the same order |
| `ResolverTheorems.RejectedEventsKeepTheSnapshot` | crates/profile-chat/src/lib.rs:402-498 | and to the same snapshot |
| `ResolverTheorems.AcceptedEventsAreAFixedPoint` | crates/profile-chat/src/lib.rs:402-498 | resolving the accepted events alone gives the same order and snapshot and no rejections |
| `ResolverTheorems.LateArrivalKeepsThePast` | crates/profile-chat/src/lib.rs:424-474 | an event nobody names as a parent leaves the accepted order before its own key as it was |
| `ResolverTheorems.LateArrivalKeepsTheState` | crates/profile-chat/src/lib.rs:424-474 | the state reached by then is the same |
| `ResolverTheorems.LateArrivalKeepsDecisions` | crates/profile-chat/src/lib.rs:424-474 | and every verdict and reason before its key |
| `ResolverTheorems.LastArrivalExtends` | crates/profile-chat/src/lib.rs:424-474 | a late event with the greatest key extends the order by itself or not at all |
| `Closure.AbsorbedIsClosed` | crates/node-core/src/lib.rs:89-113 | what ingestion takes in, with what was known, contains every batch event whose parents it contains |
| `Closure.AbsorbedIsLeast` | crates/node-core/src/lib.rs:89-113 | and is the least such set |
| `Closure.AbsorbInTwoSteps` | crates/node-core/src/lib.rs:89-113 | ingesting in two batches, keeping what was left, is ingesting at once |
| `Node.CoreNode.Open` | crates/node-core/src/lib.rs:42-57 | a named community must have stored events, all of which are known then |
| `Node.CoreNode.Ingest` | crates/node-core/src/lib.rs:59-121 | refuses a batch whole for the first of its faults, or takes in exactly the parent closure and reports the counts and the unresolved ids |
| `Node.BatchRefusalIs` | crates/node-core/src/lib.rs:59-81 | a batch is taken if and only if it has at most 1024 events, all valid and of one community; each reason for refusing it means that its check fails and the checks before it pass |
| `Node.CoreNode.Ancestry` | crates/node-core/src/lib.rs:146-165 | ends and returns exactly the ancestor closure in id order, or fails because every parent-closed set with the event exceeds the limit or none exists |
| `Node.CoreNode.Heads` | crates/node-core/src/lib.rs:167-175 | the known events no known event names as a parent, in id order |
| `NodeTheorems.IngestKeepsSound` | crates/node-core/src/lib.rs:59-121 | known events stay valid, of one community, parent-closed and free of cycles |
| `NodeTheorems.ReachableIsSound` | crates/node-core/src/lib.rs:59-121 | after any sequence of batches, refused ones included, the node is sound |
| `NodeTheorems.KnownEventsAreSigned` | crates/node-core/src/lib.rs:59-121 | every event a node knows after any batches is filed under its id and signed by the author it is attributed to |
| `NodeTheorems.ReachableKnowsItsRows` | crates/node-core/src/lib.rs:89-113 | started on an empty store, it has no rows but those it knows |
| `NodeTheorems.CommunityIsLearned` | crates/node-core/src/lib.rs:59-121 | an ingested batch fixes the community and its genesis is known |
| `NodeTheorems.OnlyKnownRowsAreWritten` | crates/node-core/src/lib.rs:89-113 | a store whose rows are all known stays so |
| `NodeTheorems.ReopeningRestores` | crates/node-core/src/lib.rs:42-57 | opening a store again finds the same known ids, if the community's own rows were known |
| `NodeTheorems.EveryEventIsBelowAHead` | crates/node-core/src/lib.rs:167-175 | every known event is reached from some head by parent links |
| `NodeTheorems.HeadsCoverEverything` | crates/node-core/src/lib.rs:167-175 | whatever holds the heads and the parents of its members holds everything known |
| `Json.ValidEventJsonBound` | crates/protocol/src/lib.rs:165-206 | a valid event's compact JSON has at most 268,000 bytes |
| `JsonText.EventTextLength` | crates/protocol/src/lib.rs:41-57 | the size of an event is the length of its compact JSON text |
| `JsonText.MessageTextLength` | crates/sync/src/lib.rs:18-37 | so is the size of a synchronization message |
| `JsonText.FrameTextLength` | crates/sync/src/network.rs:58-63 | and of a frame of messages |
| `JsonText.AncestryTextLength` | crates/sync/src/network.rs:58-71 | and of a disclosed ancestry |
| `JsonText.ArchiveTextLength` | crates/storage/src/archive.rs:10-16 | and of an archive |
| `SyncMessages.ValidMessageIs` | crates/sync/src/lib.rs:89-136 | the exact condition for each kind of message to be valid |
| `SyncMessages.MessageRefusalIs` | crates/sync/src/lib.rs:89-136 | each reason for refusing a message means that its check fails and the checks before it pass |
| `SyncMessages.PackEvents` | crates/sync/src/lib.rs:331-372 | succeeds on ascending valid events; the messages concatenate to the input, are valid, and none but the last has room for the next event |
| `SyncTheorems.AnswersAreValid` | crates/sync/src/lib.rs:177-300 | everything a peer answers passes validation and is for its community |
| `SyncTheorems.WantsCover` | crates/sync/src/lib.rs:322-329 | every id that is to be requested is named by one of the Wants |
| `SyncTheorems.WantsAreValid` | crates/sync/src/lib.rs:322-329 | the Wants are valid, not empty, and name nothing else |
| `SyncTheorems.HeadsCover` | crates/sync/src/lib.rs:206-221 | every head is advertised |
| `SyncTheorems.StoredEventsAreServable` | crates/sync/src/lib.rs:231-237 | stored events asked for in order can always be packed |
| `SyncTheorems.ServesOnlyKnown` | crates/sync/src/lib.rs:231-237 | every answer of a sound peer to every Want delivers only known events if and only if every stored row is known |
| `SyncTheorems.OpenedServesOnlyKnown` | crates/sync/src/lib.rs:231-237 | for a node opened on a store, if and only if every row of the store is of its community |
| `SyncTheorems.SomeUnknownRowIsServed` | crates/sync/src/lib.rs:231-237 | a sound peer opened for one community whose store also holds the valid genesis of another, and the answer that delivers it |
| `SyncTheorems.IngestionMovesBytes` | crates/sync/src/lib.rs:254-289 | stored plus pending bytes before and after ingestion differ only by rows that were there already |
| `SyncTheorems.AcceptKeepsQuota` | crates/sync/src/lib.rs:254-289 | a delivery that is not refused leaves stored plus pending bytes within the quota |
| `SyncState.DeliveryIsTaken` | crates/sync/src/lib.rs:239-271 | a delivery is taken if and only if it is of the community, at most 1024 events are then pending, and stored, pending and incoming bytes are within the quota |
| `SyncState.DeliveryRefusalIs` | crates/sync/src/lib.rs:239-271 | each reason for refusing a delivery means that its check fails and the checks before it pass |
| `SyncState.ReceiptIs` | crates/sync/src/lib.rs:177-188 | a message is taken if and only if it is valid, of the community and no delivery that is refused; otherwise the first of these faults is reported |
| `SyncTheorems.RunsStayWithinQuota` | crates/sync/src/lib.rs:177-300 | after any run of received messages, refused ones included, bytes are within the quota, at most 1024 events are pending and the peer is sound |
| `SyncTheorems.EveryRunStaysWithinQuota` | crates/sync/src/lib.rs:177-300 | the same at every point of every run of messages and answers, and every answer is valid |
| `SyncTheorems.RunIsAfterRun` | crates/sync/src/lib.rs:177-188 | a run of answers goes through exactly the states that quota and order results speak of |
| `SyncTheorems.DeliveriesYieldClosure` | crates/sync/src/lib.rs:239-300 | after any error-free deliveries, known is the least parent-closed extension by everything received and pending exactly the rest |
| `SyncTheorems.DeliveryOrderIsIrrelevant` | crates/sync/src/lib.rs:239-300 | the same events in any order and grouping leave the same known and pending |
| `SyncTheorems.ReceivedIsASet` | crates/sync/src/lib.rs:239-300 | what was received depends only on the set of delivered events |
| `SyncState.AcceptKeepsSound` | crates/sync/src/lib.rs:239-300 | accepting keeps a peer sound and yields the parent closure of all it has seen |
| `SyncState.IngestIsNotRefused` | crates/sync/src/lib.rs:254-289 | the ingestion inside accept never hits a limit, a fault or another community |
| `SyncPeers.SyncPeer.New` | crates/sync/src/lib.rs:146-156 | refuses exactly a node of another community |
| `SyncPeers.SyncPeer.SetStorageQuota` | crates/sync/src/lib.rs:158-167 | the quota must be positive and cover what is stored |
| `SyncPeers.SyncPeer.Receive` | crates/sync/src/lib.rs:177-188 | fails exactly when it should, with nothing changed, and otherwise answers and changes as specified per message kind, staying sound |
| `SyncPeers.SyncPeer.Serve` | crates/sync/src/lib.rs:231-237 | never fails on a sound peer; packs exactly the stored events asked for |
| `SyncPeers.SyncPeer.Accept` | crates/sync/src/lib.rs:239-300 | wants exactly the parents of pending events that are neither known nor pending |
| `TwoPeers.NoMessageIsRefused` | crates/sync/src/lib.rs:177-188 | in every reachable state of an exchange no message in flight is refused |
| `TwoPeers.QuiescenceIsConvergence` | crates/sync/src/lib.rs:177-300 | with nothing in flight both known sets are the union and both pending maps empty |
| `Convergence.StepKeepsGood` | crates/sync/src/lib.rs:177-300 | whatever arrives next at either peer keeps the invariant of the exchange |
| `Termination.StepDescends` | crates/sync/src/lib.rs:223-300 | every arrival descends in (unseen; Hello, Heads, stale Want, stale Events, unseen Want, fresh Events) |
| `Termination.RunEndsFrom` | crates/sync/src/lib.rs:223-300 | no schedule of arrivals is infinite |
| `Exchange.StartIsGood` | crates/sync/src/lib.rs:146-175 | two fresh peers of one community, each lacking at most 1024 events, with both greetings in flight, satisfy the invariant |
| `Exchange.SyncConverges` | crates/sync/src/lib.rs:177-300 | whatever the schedule, nothing is ever refused, finitely many arrivals empty the network, and then both peers know the union with nothing pending |
| `Exchange.Drive` | crates/sync/tests/sync_flow.rs:33-47 | delivering messages in any order ends without error, both peer objects knowing the union with nothing pending |
| `Agreement.PeersAgree` | crates/profile-chat/src/lib.rs:402-498 | after any exchange both peers resolve what they know to the same accepted order, rejections and snapshot |
| `Frames.NormalizeMessages` | crates/sync/src/network.rs:1239-1266 | fails exactly when the split messages exceed 64 or 1 MiB |
| `Frames.NormalizingLosesNothing` | crates/sync/src/network.rs:1239-1254 | the same ids are asked for in the same order and other messages are kept |
| `Frames.NormalizedLength` | crates/sync/src/network.rs:1255-1257 | the count is the ids asked for plus the other messages, so more than 64 are refused |
| `Frames.NormalizedIsAdmissible` | crates/sync/src/network.rs:818-825 | what is sent is valid and has one id per Want, as the receiver insists |
| `Frames.SingleWantAnswerFits` | crates/sync/src/network.rs:818-837 | the answer to a single-id Want always fits a frame |
| `NetworkSync.HandleSync` | crates/sync/src/network.rs:809-837 | a request of an unauthenticated peer, a Want for other than one id, or an invalid message changes nothing; otherwise the answer is sent if it fits a frame |
| `NetworkSync.WantsAreAnswered` | crates/sync/src/network.rs:818-837 | a Want that passes the gate is never turned down for size |
| `Archives.ValidationIsExact` | crates/storage/src/archive.rs:95-143 | validation accepts exactly the ascending, parent-closed lists of 1 to 65,536 valid events of one community with its genesis |
| `Archives.ArchiveFaultIs` | crates/storage/src/archive.rs:95-143 | each reason for refusing an archive means that its check fails and the checks before it pass |
| `Archives.EncodingIs` | crates/storage/src/archive.rs:74-93 | encoding succeeds if and only if the sorted events make a wholesome archive of at most 64 MiB |
| `Archives.EncodingIgnoresOrder` | crates/storage/src/archive.rs:74-93 | however the events are listed, the archive is the same |
| `Archives.ExportIsWholesome` | crates/storage/src/archive.rs:74-143 | a sound node with a community and at most 65,536 events passes validation |
| `Archives.ReachableExports` | crates/storage/src/archive.rs:74-143 | so does every node reached by ingesting any batches |
| `Archives.ExportSucceeds` | crates/cli/src/main.rs:484-494 | export fails only on the 64 MiB limit |
| `Kahn.CountParents` | crates/cli/src/main.rs:556-569 | counts and child lists are exact; fails exactly on a parent neither pending nor known |
| `Kahn.Release` | crates/cli/src/main.rs:578-586 | lowers each child's counter once, no counter goes below zero |
| `Kahn.Sort` | crates/cli/src/main.rs:570-587 | each id once, after its parents, and every id that can be ordered |
| `Import.GenesisComesFirst` | crates/cli/src/main.rs:570-592 | for an empty node the first id is the genesis |
| `Import.BatchIsTaken` | crates/cli/src/main.rs:591-604 | every batch of at most 1024 is accepted and absorbed whole |
| `Import.IngestArchive` | crates/cli/src/main.rs:543-606 | all or nothing: succeeds exactly when parent closure takes in every new event, with the counts, and otherwise leaves the node as it was |
| `Import.OnlyRingsAreRefused` | crates/cli/src/main.rs:588-590 | a valid archive is refused exactly when some of its new events form a ring of parents |
| `Import.RoundTrip` | crates/cli/src/main.rs:543-606 | importing a node's export into an empty node succeeds and reproduces community, known ids and rows |
| `ImportCommand.ProjectionNamesTheCommunity` | crates/cli/src/main.rs:513-516 | the projection of valid events of one community names it if and only if its genesis founds a chat |
| `ImportCommand.ImportCommunity` | crates/cli/src/main.rs:506-541 | refused exactly for an invalid archive, a genesis that founds no chat, a database of another community, or a ring; otherwise the node knows the archive's events too, the second projection passes, and the counts are the rows written and the events known before |
| `ImportCommand.Transfer` | crates/cli/src/main.rs:484-541 | export and import on an empty database: refused exactly for size or a genesis that founds no chat, and otherwise the same node |
| `Authoring.AuthoredIsOnlyHead` | crates/node-core/src/lib.rs:167-175 | an event on all heads becomes the only head |
| `Authoring.HeadsCarryEverything` | crates/cli/src/main.rs:413-428 | if all heads are accepted, everything known is accepted |
| `Authoring.AuthoredIsLast` | crates/profile-chat/src/lib.rs:424-445 | every known event is decided in an earlier round than an event on all heads |
| `Authoring.AuthoringExtends` | crates/cli/src/main.rs:413-428 | resolving with an event on accepted heads extends the order by exactly that event, or leaves it as it was |
| `Authoring.AuthoringIsDecidedByTheState` | crates/cli/src/main.rs:413-428 | the candidate is accepted if and only if the state after the accepted order allows it |
| `Devices.ProofIsBound` | crates/sync/src/bootstrap.rs:188-209 | a possession proof is good for one community, invitation, user, device, nonce and pair of peers |
| `Devices.IdentifiedIs` | crates/sync/src/network.rs:1124-1143 | a peer is identified if and only if the user's key signed a certificate for a device key of that peer id, and the device is not revoked |
| `Devices.CertificateRefusalIs` | crates/sync/src/auth.rs:132-161 | each reason for a certificate being invalid means that its check fails and the checks before it pass |
| `Devices.RefusalIs` | crates/sync/src/network.rs:1124-1143 | the reason a certificate is refused for |
| `Bootstrap.DisclosureAnswersAChallenge` | crates/sync/src/network.rs:893-933 | every disclosure answers a challenge issued to that peer for that invitation, verified under the grant's key, with no other answer or challenge between, and no disconnection of the peer unless it was a relay peer at that moment |
| `Bootstrap.DisclosedIsProven` | crates/sync/src/network.rs:893-933 | every disclosure was earned by a 64-byte signature of the challenge's bytes under the key of the grant |
| `Bootstrap.SurfacedIsSigned` | crates/sync/src/network.rs:935-983 | every surfaced acceptance is an event of the community on the invitation, signed by the proven user |
| `Bootstrap.ChallengesAreAnsweredOnce` | crates/sync/src/network.rs:893-933 | no challenge is answered by two disclosures |
| `Bootstrap.AcceptanceSpendsADisclosure` | crates/sync/src/network.rs:935-983 | every surfaced acceptance spends a disclosure with the same invitation and user; since the challenge the peer has disconnected only while it was a relay peer |
| `Bootstrap.DisclosuresAreSpentOnce` | crates/sync/src/network.rs:935-983 | no disclosure is spent by two acceptances |
| `Bootstrap.DecisionSettlesAnAcceptance` | crates/sync/src/network.rs:556-590 | every decision settles one surfaced acceptance and traces back to one challenge, since when the peer has disconnected only while it was a relay peer |
| `Bootstrap.ApprovalUsesUp` | crates/sync/src/network.rs:565-570 | after an approval the invitation is not challenged for, disclosed or surfaced until it is granted again |
| `Bootstrap.SecondApproval` | crates/sync/src/network.rs:556-590 | until then another acceptance of it may be approved if and only if it was waiting at the first approval and nothing has settled or cancelled it since |
| `Network.NoRevokedDevice` | crates/sync/src/network.rs:1099-1143 | an authenticated peer has an unrevoked device that is an allowed user's or trusted |
| `Network.AuthenticatedAreCertified` | crates/sync/src/network.rs:1099-1143 | every authenticated peer holds the key of a device that the user it acts for certified |
| `Network.ValidGrantIs` | crates/sync/src/network.rs:425-463 | a grant is valid if and only if it discloses 1 to 256 valid events of the community, the invitation among them, in at most 1 MiB of JSON |
| `NetworkNodes.NetworkNode.Create` | crates/sync/src/network.rs:226-291 | refuses exactly a certificate that is invalid or not for the node's own device; otherwise the node starts with the invariant and an empty history |
| `NetworkNodes.NetworkNode.Authenticate` | crates/sync/src/network.rs:1099-1122 | full, provisional or refused exactly as certificate, authorization and target say; the invariant is kept |
| `NetworkNodes.NetworkNode.BeginBootstrap` | crates/sync/src/network.rs:856-891 | a challenge is issued exactly to an identified peer for a granted invitation |
| `NetworkNodes.NetworkNode.ProveBootstrap` | crates/sync/src/network.rs:893-933 | consumes the challenge in any case; discloses the current grant's ancestry exactly on a valid answer |
| `NetworkNodes.NetworkNode.HandleAcceptance` | crates/sync/src/network.rs:935-983 | consumes the proof in any case; surfaces exactly a valid acceptance by the proven user while no other waits |
| `NetworkNodes.NetworkNode.ResolveAcceptance` | crates/sync/src/network.rs:556-590 | settles the waiting acceptance and starts sync when it may |
| `NetworkNodes.NetworkNode.HandleResponse` | crates/sync/src/network.rs:985-1097 | for all answers but Sync: refuses exactly as specified without change, turns a challenge into the bytes to sign, and otherwise records acceptance and may start sync |
| `NetworkNodes.ResponseIsTaken` | crates/sync/src/network.rs:985-1097 | the exact condition for each kind of answer to be taken |
| `NetworkNodes.RefusedResponseIs` | crates/sync/src/network.rs:985-1097 | what each kind of refused answer is reported as |
| `NetworkNodes.AnswersProve` | crates/sync/src/network.rs:893-933 | a challenge is answered if and only if it stands open for that granted invitation and the signature proves possession of the grant's key |
| `Joining.AnswerFitsOneChallenge` | crates/sync/src/network.rs:1012-1034 | what the joining side signs is what the inviting side stored if and only if community, invitation, nonce, device and both peers are the same |
| `Joining.ChallengeJoiner` | crates/sync/src/network.rs:856-891 | over two nodes: the joiner's answer to the inviter's challenge is exactly the bytes stored at the inviter |
| `Joining.ProvePossession` | crates/sync/src/network.rs:893-933 | a signature of those bytes under the grant's key makes the inviter disclose, and the joiner takes the disclosure |
| `Joining.Join` | crates/sync/src/network.rs:856-1071 | carried through, the inviter admits the joiner's device, the joiner the inviter's, and the invitation is used up |
| `NetworkRuns.SomeoneJoins` | crates/sync/src/network.rs:856-1071 | there are two nodes that come to admit each other |
| `NetworkSync.HandleSyncAnswer` | crates/sync/src/network.rs:996-1011 | a Sync answer is refused at the gate, or its messages are taken in order until one is refused or its answer exceeds a frame; those before stay applied and answered |
| `NetworkNodes.OnlyApprovedTargetsAreAdmitted` | crates/sync/src/network.rs:1067-1086 | a response authenticates a new peer only if it is the configured, identified and approved target |
| `NetworkNodes.NetworkNode.MaybeStartSync` | crates/sync/src/network.rs:1193-1206 | sync starts once per peer, only when authenticated and accepted by the remote |
| `NetworkNodes.NetworkNode.ConnectionClosed` | crates/sync/src/network.rs:622-643 | forgets the peer on its last disconnection unless it is a relay peer, and records it either way |
| `NetworkNodes.DisconnectForgetsUnlessRelay` | crates/sync/src/network.rs:622-643 | nothing about a disconnected peer remains if and only if it is no relay peer or nothing was there |
| `NetworkRuns.RememberRelay` | crates/sync/src/network.rs:622-643 | any allowed peer that authenticates, becomes a relay peer and disconnects is still authenticated |
| `NetworkRuns.SomeRelayPeerIsRemembered` | crates/sync/src/network.rs:630-632 | a concrete run in which this happens |
| `NetworkRuns.AnswerLater` | crates/sync/src/network.rs:856-933 | any holder of an invitation that is a relay peer may be challenged, disconnect, and have the ancestry disclosed to it |
| `NetworkRuns.ApproveBoth` | crates/sync/src/network.rs:556-590 | any two holders brought forward before either is decided can both be admitted on one invitation |
| `NetworkRuns.SomeHoldersArePrepared` | crates/sync/src/network.rs:856-983 | there are two users with valid certificates, proofs and acceptances for one valid grant |
| `NetworkNodes.NetworkNode.ReplaceAuthorization` | crates/sync/src/network.rs:370-396 | dismisses peers one by one and keeps the invariant |
| `NetworkNodes.ReauthorizationIsExact` | crates/sync/src/network.rs:370-396 | exactly the peers that may act under the new projection stay authenticated; of the dismissed nothing is kept outside the bootstrap, and the others keep everything |
| `NetworkNodes.NetworkNode.ReplaceGrants` | crates/sync/src/network.rs:412-463 | all grants are valid and replace the old ones, which is recorded, or nothing changes |
| `NetworkNodes.NetworkNode.RegisterGrant` | crates/sync/src/network.rs:406-410 | a valid grant is added, which is recorded, or nothing changes |
| `NetworkNodes.NetworkNode.ConfigureTarget` | crates/sync/src/network.rs:465-481 | a target is configured at most once |
| `NetworkNodes.NetworkNode.ApproveEndpoint` | crates/sync/src/network.rs:491-504 | only the target, after presenting a certificate, is approved |
| `NetworkNodes.NetworkNode.ConnectionEstablished` | crates/sync/src/network.rs:598-620 | a certificate is sent once to peers that are neither relays nor authenticated |
| `Refresh.GatherGrants` | crates/cli/src/main.rs:1145-1155 | one grant per active invitation with its key and exactly its ancestry; fails if and only if some ancestry exceeds 256 events |
| `Projection.ActiveAreKnown` | crates/profile-chat/src/lib.rs:478-492 | active invitations of a resolution are known events |
| `Refresh.RefreshAuthorization` | crates/cli/src/main.rs:1125-1167 | for any node, its community learnt or not: succeeds if and only if the home server matches and every active invitation is disclosable, and then allowed users are the explicit ones plus members and grants are exactly the active invitations; past the home-server check the error is the ancestry's, with nothing changed, if and only if some active invitation has more than 256 ancestors |
| `Refresh.HomeFaultIs` | crates/cli/src/main.rs:1125-1144 | a node that acts as home server must be the one declared; others need no declaration |
| `StuckRefresh.SomeInvitationIsTooLong` | crates/cli/src/main.rs:1145-1155 | a sound node and the resolution of what it knows in which an active invitation has 257 ancestors |
| `StuckRefresh.SomeDisclosureIsTooLarge` | crates/cli/src/main.rs:1145-1165 | one in which no active invitation has more than 256 ancestors but a disclosure exceeds 1 MiB |
| `Decision.Judge` | crates/cli/src/main.rs:1082-1090 | approves if and only if, in the resolution of everything known and the acceptance, it is accepted, its author a member and the invitation not active |
| `Decision.ApprovedIs` | crates/cli/src/main.rs:1082-1090 | an approval means exactly: accepted, the user a member, the invitation no longer active |
| `Decision.Act` | crates/cli/src/main.rs:1091-1098 | an approved acceptance becomes known, the peer is answered, and node and network stay sound |
| `Decision.ApprovalStands` | crates/cli/src/main.rs:1091-1106 | the resolution after taking the acceptance in is the one it was judged by |
| `Decision.ApprovedOutlivesItsRefresh` | crates/cli/src/main.rs:1097-1106 | the refresh right after an approval keeps the approved peer |
| `Decision.RefreshDismissesExactly` | crates/cli/src/main.rs:1156-1163 | any refresh keeps an authenticated peer if and only if its user is listed explicitly or a member by then, or its device is the home server's |
| `Decision.MembersAreBroughtIn` | crates/profile-chat/src/lib.rs:671-723 | a member was the founder or redeemed an invitation by an accepted event, and was not removed since |
| `Decision.OneRedemptionStands` | crates/profile-chat/src/lib.rs:546-582 | of all acceptances of one invitation at most one is accepted |
| `Rivals.AloneEitherWins` | crates/profile-chat/src/lib.rs:424-474 | two acceptances of one invitation on the same heads are each accepted alone |
| `Rivals.SmallerIdWins` | crates/profile-chat/src/lib.rs:424-474 | together the one with the smaller Event ID is accepted and the other is not, whichever came first |
| `Rivals.LaterRivalDisplaces` | crates/profile-chat/src/lib.rs:424-492 | so the member that came first is displaced: exact members before and after |
| `RivalSample.SomeRivals` | crates/profile-chat/src/lib.rs:424-474 | two different users for whom this happens |

## Left out

- libp2p swarm, relay, hole punching, dialing and event loops: foreign behaviour; only the node's own sets and maps are modelled, with the number of remaining connections, the nonce and whether a response channel is open as parameters.
- SQLite, files, locks, permissions, identity files: I/O; the store is a map, and storage errors are not modelled.
- Ed25519, BLAKE3, randomness, base64 and serde parsing: parameters; the JSON that is written is modelled for its length (`JsonText`), reading it back is not.
- Desktop client, browser prototype, review server, deploy scripts, CLI options and printing: no hard property.
- Multiaddr route checks and invite-code text: thin layers over library types.
- Convergence over network frames: a node that wants more than 64 ids at once is refused by the frame limit (`NormalizedLength`), so convergence is proved one layer down.
- `protocol::parse_json`: its 256 KiB limit can refuse a valid event with a large payload, so no claim is made about it.
- 64-bit overflow of byte counts: totals are unbounded numbers.
- `submit_bootstrap_proof`, `submit_bootstrap_acceptance`, `RevocationSet::apply`: single insertions or checked sends that would only add easy members; the revocation set is fixed when a node is created, as in the program.
- `node_mut` bypasses the quota; the quota claims are about runs of received messages only.
- RefreshAuthorization: takes the resolution of everything the node knows as an argument (`Projection.ResolveKnown` computes it), because the source resolves first and only then touches the network node.
- NetworkNode: update in place is modelled on one record-valued field, so it says nothing about the order of writes within one operation.
