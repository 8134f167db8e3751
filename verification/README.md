# GlacialCast protocol verification

A Dafny model of the protocols of GlacialCast, an encrypted screen-casting system: a publisher
seals H.264 and cursor objects, an untrusted relay stores and forwards them, viewers follow
streams live, and viewers and publishers pair offline through the relay.

`dafny verify dfyconfig.toml` checks everything.

## What is modelled

| module | part of the system |
|---|---|
| `LiveFollow`, `LiveRelay`, `LiveSession` | a viewer's subscription loops; committing, broadcasting, eviction and one subscription as interleaved steps; that the second refines the first |
| `StreamOwnership` | claims, commits, finalization and release of streams by any number of publisher sessions |
| `PairingRecords`, `PairingStore`, `PairingCeremony` | signed pairing records and their time checks; the relay's transactional table, what its answers mean, and whole ceremonies |
| `Ordering`, `PublisherState`, `PublisherRefresh`, `PublisherRuns`, `BlockedApproval` | the publisher's saved grants, revocations and outboxes, and the invariant of every run of commands |
| `PairingProtocol`, `PairingDelivery`, `OfferDelivery`, `PairingVerdicts`, `PairingEndToEnd` | both sides together, with crashes, lost connections and other peers between any two steps; when queued records are taken and when they never will be; what becomes of offers, verdicts and revocations; a pairing that completes |
| `PublicationLoop`, `PublicationGroups`, `NativeSealing`, `KeyHistory` | approval reads, group rotation, envelopes, sealing, opening, the live guard, pruning of retained keys |
| `AnnexB`, `CursorCodec`, `CursorDelta`, `NoiseFraming`, `BigEndian` | byte-level scanners, codecs and framing, and the cursor bitmap encoder |
| `MachineInts`, `Wrappers`, `Writes` | fixed-width integers with saturation written out; options and results; what gets through of a list of messages |

Code that updates state is a class whose methods are proved equal to functions on values, and the
properties are proved about those functions over all inputs or all runs. Protocols are step
functions over an action type; an action that is not possible in a state leaves it as it is, so
"every sequence of actions" covers every interleaving. A socket write, an acknowledgement or a file
replacement may fail wherever the program can observe it: a connection takes any number of writes and then
fails, and the methods' results are stated exactly for every such number.

Four things are what the properties rest on, and each is stated where it is used:

* Cryptography is ideal: a ciphertext opens only under its own key, nonce and header, a signature
  names its signer and content, and a transcript hash is the pair it was derived from. Fresh keys
  differ (`FreshKeys`). Nobody else signs with the publisher's
  key (`Unforged`, `PairingProtocol.Allowed`), and in `PairingProtocol` an identifier determines its request.
* The relay's pairing clock does not go back (`ClockGoesOn`). Queue bounds, rate limits and ceremony
  integrity do not need it; what does need it has a witness that it does.
* A saved publisher state is replaced atomically and one process holds its lock.
* The store commits consecutive sequences and lists retained ones in order (`Numbered`, `ListedBy`).
  `LiveFollow.GaplessForAnyStore` does without.

One subscription stands for all in `LiveRelay`, because subscriptions do not change anything another one
reads; `StreamOwnership.AnnouncementsFollowCommits` is why a stream's broadcasts there come in commit order.

## Where the code falls short of the plain property

Each of these is proved, with the exact condition under which the property does hold.

* The head record of a saved outbox that the relay will not take any more blocks every later command except
  revocation: an offer whose request expired or whose life is too long, a decision whose row is gone
  (`PairingDelivery.StuckExactlyWhen`, `StuckForever`; reached from the start in `StandstillIsReachable`).
* An offer for a full-lifetime request from a viewer whose clock is ahead is created, saved and always refused
  (`PairingRecords.FullLifetimeOfferRefused`, `OfferAcceptedExactlyWhen`).
* One confirmed request of a revoked viewer blocks approving all others (`PublisherRuns.ApproveAllSucceedsExactlyWhen`;
  reached from the empty state in `BlockedApproval.ApproveAllIsBlocked`).
* One delivered request that does not verify at the publisher's clock stops every refresh, and so every command that
  begins with one, approve and deny included (`PairingDelivery.RefreshSucceedsExactlyWhen`; reached from the start, with
  a clock more than five minutes behind the request's issue, in `ClockBehindBlocksRefresh`).
* Loading does not check that revocations are sorted, which the binary search needs
  (`PublisherRuns.RevokedCanReturnExactlyWhenUnsorted`); runs of the program itself keep them sorted.
* The per-minute limits count stored rows, so purged requests free their place; they bound what is accepted exactly
  when requests have more than a minute left (`PairingStore.AcceptedIsLimitedExactlyWhen`).
* A viewer sent back to the store after reading everything is disconnected although nothing is lost
  (`LiveRelay.LagEndsExactlyWhen`; reached in `LagWithoutLossEndsIt`).
* An overflow can cost a following viewer a group's envelope for good: objects are read again from the store, an
  envelope only with an object of its group (`LiveRelay.SkippedKeyStaysLost`). The viewer has it if it was broadcast
  since the viewer attached and not skipped, or if a page brought an object of the group while the store had it
  (`DrainedHasBroadcastKeys`, `PageBringsKeys`).
* A key history is saved without the group-count check that loading makes (`KeyHistory.UpdateLoadsExactlyWhen`).

Three more statements mark where a proof needs something from outside; they are no failures of the program by itself.

* A hint without an IDR, which takes an encoder library that misreports its own frame type, produces a frame sealing
  refuses (`PublicationLoop.InspectedFrameSealsExactlyWhen`).
* Against a store that breaks its contract, the successor of the largest sequence saturates and an anchor of zero starts
  at one (`LiveFollow.RepeatsOnlyAtTheEnd`, `FirstDeliveryIsTheAnchor`).
* The cursor encoder changes its state before it refuses a sample (`CursorDelta.RefusedSampleWouldDesynchronize`); the
  publication loop ends there, which the delta property relies on.

`LiveRelay` also lets a session end between committing and broadcasting an object. In the program only a poisoned lock
could do that, so this is an over-approximation; `NothingMissedWithoutAbandon` is the theorem for runs without it
(`AbandonedCommitWaits` shows what it rules out).

## Model

| member | source | states |
|---|---|---|
| LiveRelay.NoLostObject | crates/relay/src/native_service.rs:734-893 | in every interleaving of commits, broadcasts, abandoned broadcasts, evictions, lag and page reads, a following viewer with a drained channel lacks no retained object that was ever broadcast |
| LiveRelay.DeliveredIsASliceOfTheLog | crates/relay/src/native_service.rs:745-893 | in every interleaving the objects received are exactly the committed log from the anchor to the last sequence: none missing, repeated, reordered or altered, whichever of store and channel each came from |
| LiveRelay.CaughtUpHasEverything | crates/relay/src/native_service.rs:343-361 | once every commit is broadcast, the channel drained and the newest object retained, the viewer has the whole log from its anchor |
| LiveRelay.NothingMissedWithoutAbandon | crates/relay/src/native_service.rs:343-368 | in runs where no session ends between commit and broadcast, a following viewer with a drained channel has everything retained as soon as no commit awaits its broadcast |
| LiveRelay.AnnouncedOrAwaiting | crates/relay/src/native_service.rs:350-359 | in such runs every commit has been broadcast except at most the one being handed over |
| LiveRelay.LagEndsExactlyWhen | crates/relay/src/native_service.rs:832-848 | in every run, a viewer sent back to the store by an overflow or a gap is ended over the following pages if and only if the store retains nothing above its last sequence or what it retains has a gap |
| LiveRelay.ReadingEndsExactlyWhen | crates/relay/src/native_service.rs:866-892 | reading page after page, the first catch-up included, ends the subscription if and only if the listing has a gap, or a return to the store finds nothing |
| LiveRelay.PageReadEndsExactlyWhen | crates/relay/src/native_service.rs:866-892 | one page read ends the subscription if and only if its page has a gap, or it opens a return to the store and is empty |
| LiveRelay.LagWithoutLossEndsIt | crates/relay/src/native_service.rs:832-847 | a reachable overflow without loss, for every channel capacity: the viewer has every object, envelopes fill the channel, and the subscription ends |
| LiveRelay.DrainedHasBroadcastKeys | crates/relay/src/native_service.rs:816-824 | in every run a following viewer with a drained channel has every envelope for it broadcast since it attached, except those an overflow skipped |
| LiveRelay.PageBringsKeys | crates/relay/src/native_service.rs:875-888 | in every run a page brings each of its objects with its group's stored envelope, whatever was skipped before, and later steps take nothing back |
| LiveRelay.SkippedKeyStaysLost | crates/relay/src/native_service.rs:832-888 | the gap between the two, reached for every channel capacity: the envelope of a group the viewer has an object of is skipped, stays in the store, and the viewer follows on without it |
| LiveRelay.EdgeKeyLeads | crates/relay/src/native_service.rs:733-782 | in every run a viewer is first told its anchor, the retained bounds and whether it starts past everything committed; at the live edge it then gets, ahead of every object, the stored envelope of the group of the newest object committed before it joined, and nothing there if the store lacks either when they are read |
| LiveRelay.OverflowKeepsTheNewest | crates/relay/src/native_service.rs:832-834 | an overflow costs exactly the oldest unread items, and nothing is written before the store is read |
| LiveRelay.PublishingMeans | crates/relay/src/native_service.rs:343-368 | what commits, broadcasts, envelopes, eviction and attaching do to log, retained set and channel in every run |
| LiveRelay.PagedIsUnpaged | crates/relay/src/native_service.rs:866-892 | over a fixed numbered store paged catch-up terminates, delivers exactly the unbroken run of one ordered unpaged listing, and settles if and only if that listing has no gap |
| LiveRelay.ReadMissesNothing | crates/relay/src/native_store.rs:700-730 | a short page leaves nothing retained above it, and an interrupted page stops exactly before an object that is gone |
| LiveRelay.AboveIsListed | crates/relay/src/native_store.rs:712-727 | the listing contract: ascending, above the given sequence, retained objects with their committed content |
| LiveRelay.AboveIsComplete | crates/relay/src/native_store.rs:712-727 | the listing contract: every retained object above the given sequence is listed |
| LiveRelay.RunKeepsInvariant | crates/relay/src/native_service.rs:343-361 | the inductive invariant behind the theorems: either the newest broadcast is still unread or nothing broadcast and retained lies above the last delivery |
| LiveFollow.GaplessForAnyStore | crates/relay/src/native_service.rs:745-893 | whatever store and channel answer, the k-th delivery has the k-th number after the anchor's predecessor and every `Live` message names the latest delivery |
| LiveFollow.RepeatsOnlyAtTheEnd | crates/relay/src/native_service.rs:823-825 | consecutive numbering repeats a sequence if and only if it runs past the largest 64-bit number, because the successor saturates |
| LiveFollow.FirstDeliveryIsTheAnchor | crates/relay/src/native_service.rs:774-782 | the first delivery is the announced anchor if and only if the anchor is not zero |
| LiveFollow.GaplessPrefix | crates/relay/src/native_service.rs:885-889 | a subscription cut short by a failed write has still delivered gaplessly |
| LiveFollow.OpeningWrites | crates/relay/src/native_service.rs:726-782 | an opening settles if and only if the descriptor is the requested publisher's and the catch-up settles; it has then written announcement with live flag and bounds, edge envelope, catch-up and `Live` message, in that order |
| LiveSession.RelayRunsASession | crates/relay/src/native_service.rs:712-893 | in every interleaving of `LiveRelay` the subscription has written what `Begin`, the catch-up loop and `HandleEvent` write for some answers of store and channel: the relay refines the loops |
| LiveSession.RelayEndsAsTheLoops | crates/relay/src/native_service.rs:785-852 | when the relay ends a subscription other than by a lost connection, it has written exactly what the loops write up to their end, the reason included |
| LiveSession.EventEndsExactlyWhen | crates/relay/src/native_service.rs:785-852 | an event ends a subscription if and only if it is expiry, withdrawal, a closed channel, idling or a return to the store that breaks or finds nothing; the last message is `CredentialExpired`, `Unauthorized` or `HistoryUnavailable` exactly for its cause |
| LiveSession.CatchUpSettlesExactlyWhen | crates/relay/src/native_service.rs:866-892 | a catch-up settles if and only if, after full pages without a gap, the store answers with an empty page or a short one without a gap |
| LiveSession.KeysAtGroupStarts | crates/relay/src/native_service.rs:875-888 | in a page an envelope stands only, and whenever it is stored, directly ahead of the first object of its group |
| LiveSession.OnlyOwnKeys | crates/relay/src/native_service.rs:816-820 | whatever envelopes the channel carries, a viewer is sent none but its own |
| LiveFollow.Subscription.ReanchorFromStore | crates/relay/src/native_service.rs:856-893 | the paged catch-up loop moves `last` and writes exactly as specified, as far as the connection takes it, and succeeds if and only if it settles and all of it got through |
| LiveFollow.Subscription.SendPage | crates/relay/src/native_service.rs:875-888 | one page: objects in order until the first gap, each preceded by its group's envelope when the group changes; succeeds if and only if there is no gap and all got through |
| LiveFollow.Subscription.Begin | crates/relay/src/native_service.rs:726-782 | the opening: descriptor and publisher check, announcement, edge envelope, catch-up from just before the anchor, `Live` message; it succeeds exactly when it settles and got through, and then has written exactly these parts |
| LiveFollow.Subscription.HandleEvent | crates/relay/src/native_service.rs:785-852 | one pass: expiry, deactivation and idling end it, own envelopes are forwarded, old objects skipped, the next one delivered, anything else re-read from the store; result, messages and `last` exactly, for a connection lost at any write |
| LiveFollow.Subscription.Recover | crates/relay/src/native_service.rs:832-847 | returning to the store must advance `last`, otherwise the viewer is told history is unavailable and the subscription ends |
| StreamOwnership.OnlineIsTheDisjointUnion | crates/relay/src/native_service.rs:934-949 | in every interleaving of any number of sessions the online set is the disjoint union of the sessions' touched sets |
| StreamOwnership.OnlyTheOwnerWrites | crates/relay/src/native_service.rs:226-246 | any step that commits to a stream or clears its active group is by the one session that owns it, while it owns it |
| StreamOwnership.OfflineStreamsAreFinalized | crates/relay/src/native_service.rs:230-245 | a stream no session has online has no active group in the store, unless finalizing it failed |
| StreamOwnership.AnnouncementsFollowCommits | crates/relay/src/native_service.rs:343-368 | across all sessions that ever owned a stream, its broadcasts appear in commit order without repeats, as the live follow relies on |
| StreamOwnership.EveryCommitIsAnnounced | crates/relay/src/native_service.rs:343-368 | in every interleaving each committed object has been announced, or its session is about to, or that session failed in between; nothing else is announced |
| StreamOwnership.AbandonedExactlyWhen | crates/relay/src/native_service.rs:343-368 | only a session that fails while it holds a commit leaves one unannounced |
| StreamOwnership.ClaimSucceedsExactlyWhen | crates/relay/src/native_service.rs:934-949 | in every run a serving session gets a stream if and only if no other session owns it, and ends otherwise |
| StreamOwnership.ActivityFollowsCommits | crates/relay/src/native_service.rs:226-246 | a commit takes the next sequence and makes its stream active; it stops being active only when its owner finalizes it, and is left active only when that fails |
| StreamOwnership.SessionLives | crates/relay/src/native_service.rs:226-246 | a session starts with nothing, ends on failure or refusal with all its streams still to finalize, and is gone with its streams exactly when it has tried them all |
| StreamOwnership.RunKeepsInvariant | crates/relay/src/native_service.rs:226-246 | ownership, pending-announcement and finalization invariants hold in every reachable world |
| StreamOwnership.PublisherSession.ClaimOnline | crates/relay/src/native_service.rs:934-949 | a claim succeeds for an own or free stream and changes both sets together; a stream of another session is refused without change |
| StreamOwnership.PublisherSession.Teardown | crates/relay/src/native_service.rs:226-246 | every touched stream is finalized once, failures are noted, and exactly the touched streams are released |
| StreamOwnership.PublisherSession.FinalizeAll | crates/relay/src/native_service.rs:230-240 | each touched stream is attempted exactly once, whatever fails |
| PairingStore.NoResurrection | crates/relay/src/pairing_store.rs:134-163 | with a non-decreasing clock and request lifetimes up to 30 days minus 5 minutes plus 1 ms, a stored request either is still there with slots only filled since, or is gone and expired |
| PairingStore.DecidedStaysDecided | crates/relay/src/pairing_store.rs:508-518 | at the service's 24-hour lifetime a request seen gone never comes back and a decided one keeps its first decision |
| PairingStore.ResurrectionBeyondTheBound | crates/relay/src/pairing_store.rs:28 | for every larger lifetime limit a decided request can be purged and re-created undecided: the bound is exact |
| PairingStore.EveryTableIsBounded | crates/relay/src/pairing_store.rs:165-194 | in every reachable table at most 16,384 undecided rows, 1,024 per publisher, and 10 stored rows per source and per viewer in any minute, whatever the clock does |
| PairingStore.AcceptedIsLimitedExactlyWhen | crates/relay/src/pairing_store.rs:179-194 | with a non-decreasing clock, at most 10 requests of every source and of every viewer are ever accepted in every closed minute if and only if requests have more than 60,000 ms left when sent |
| PairingStore.AcceptedRequestsAreLimited | crates/relay/src/pairing_store.rs:179-194 | the bound on accepted requests of a source or viewer, when each outlives the minute after it is sent |
| PairingStore.BurstIsAccepted | crates/relay/src/pairing_store.rs:508-518 | for every shorter life, eleven requests of one source and viewer, all with that life left, are accepted within one closed minute |
| PairingStore.PurgedRequestsAreNotCounted | crates/relay/src/pairing_store.rs:508-518 | the limits count stored rows: up to 30,000 requests of one viewer, each gone before the next, are accepted within one minute |
| PairingStore.RunKeepsIntegrity | crates/relay/src/pairing_store.rs:222-342 | in every reachable row the offer fits the request, the confirmation verifies against the stored offer, and the decision verifies with its ceremony |
| PairingStore.ManualApprovalIsBackedByTheCeremony | crates/relay/src/pairing_store.rs:306-319 | a stored manual approval, its confirmation and its offer share one transcript and carry both parties' signatures |
| PairingStore.CallEffect | crates/relay/src/pairing_store.rs:571-609 | one call leaves every row unchanged, grown by one slot or purged as stale; only a verified request creates one |
| PairingCeremony.CeremonyCompletes | crates/relay/src/pairing_store.rs:127-342 | amid any calls about other requests, the request, offer, confirmation and manual approval of one ceremony, sent before expiry, are each acknowledged as new and leave a row with exactly these four |
| PairingCeremony.ConfirmationIsDelivered | crates/relay/src/pairing_store.rs:350-412 | from the confirmation until the request expires the publisher's inbox delivers the request as sent and exactly that confirmation |
| PairingCeremony.EnqueueMeans | crates/relay/src/pairing_store.rs:127-213 | a request is stored as sent if and only if it verifies, is small enough, unknown and within the bounds; known, conflicting and refused ones are told apart |
| PairingCeremony.BoundsMean | crates/relay/src/pairing_store.rs:165-194 | the four bounds in plain numbers, and which of them refuses |
| PairingCeremony.OfferMeans | crates/relay/src/pairing_store.rs:222-243 | an offer is acknowledged if and only if the row is live and it verifies; it is then in the row, or another already was |
| PairingCeremony.ConfirmationMeans | crates/relay/src/pairing_store.rs:251-281 | a confirmation is acknowledged if and only if the row is live, has an offer and it verifies against that; it is then in the row, or another already was |
| PairingCeremony.DecisionMeans | crates/relay/src/pairing_store.rs:290-342 | a decision is acknowledged if and only if the row is live, it verifies and a manual one has the row's own ceremony behind it; it is then in the row and dated, or another already was |
| PairingCeremony.OtherRowsStay | crates/relay/src/pairing_store.rs:508-518 | a served call keeps every other live row as it is and drops the rest; a refused one changes nothing |
| PairingCeremony.DeliveriesAre | crates/relay/src/pairing_store.rs:350-412 | the inbox delivers each listed request with its source and arrival, in the listed order |
| PairingCeremony.ConfirmationsAre | crates/relay/src/pairing_store.rs:350-412 | and exactly the confirmations those rows hold |
| PairingStore.InboxIsCompleteAndVerified | crates/relay/src/pairing_store.rs:350-412 | with a non-decreasing clock every undecided unexpired request of a publisher is in its inbox and passes re-verification |
| PairingStore.InboxVerifies | crates/relay/src/pairing_store.rs:386-395 | re-verification with the request's own lifetime never fails for an undecided surviving row |
| PairingStore.InboxFailsWhenTheClockGoesBack | crates/relay/src/pairing_store.rs:386-395 | the clock condition is needed: a millisecond backwards makes an accepted request fail re-verification |
| PairingStore.ArrivalsAreOrdered | crates/relay/src/pairing_store.rs:358-364 | the listed rows are the earliest by arrival and identifier, without repeats, all of them when they fit the limit |
| PairingStore.Store.Enqueue | crates/relay/src/pairing_store.rs:127-213 | verification, the 32 KiB record bound, replay, queue and rate bounds in that order; the transaction yields the specified table and answer, and a refusal undoes the purge |
| PairingStore.Store.Offer | crates/relay/src/pairing_store.rs:222-243 | the first verified offer is kept, later ones are acknowledged unchanged |
| PairingStore.Store.Confirm | crates/relay/src/pairing_store.rs:251-281 | a confirmation needs a stored offer it verifies against; the first is kept |
| PairingStore.Store.Decide | crates/relay/src/pairing_store.rs:290-342 | a decision must verify and, when manual, match the stored ceremony; the first is kept and dated |
| PairingStore.Store.PublisherInbox | crates/relay/src/pairing_store.rs:350-412 | the loop returns exactly the ordered deliveries and confirmations, and fails if and only if a listed request fails re-verification |
| PairingRecords.TimeCheckMeans | crates/protocol/src/pairing.rs:61-84 | the overflow-checked, saturating time check accepts exactly when 0 < lifetime <= limit, issued at most 5 minutes ahead and not expired, over the whole 64-bit range |
| PairingRecords.RequestVerifiesExactlyWhen | crates/protocol/src/pairing.rs:204-275 | every condition of a verified request, in plain numbers |
| PairingRecords.OfferVerifiesExactlyWhen | crates/protocol/src/pairing.rs:348-405 | every condition of a verified offer for its request |
| PairingRecords.ConfirmationVerifiesExactlyWhen | crates/protocol/src/pairing.rs:505-520 | a confirmation verifies if and only if the viewer signed the transcript of exactly this request and offer |
| PairingRecords.DecisionVerifiesExactlyWhen | crates/protocol/src/pairing.rs:677-711 | a decision verifies if and only if the publisher signed it for this request and verdict, reason and transcript go together |
| PairingRecords.MadeRecordsVerify | crates/protocol/src/pairing.rs:315-503 | an offer fits its request and carries the given nonce, context and times; a confirmation verifies against exactly the offer it was made for |
| PairingRecords.RequestStaysValid | crates/protocol/src/pairing.rs:204-219 | a verified request keeps verifying exactly until it expires |
| PairingRecords.RequestRefusedExactlyWhen | crates/protocol/src/pairing.rs:61-84 | a request the relay accepted is refused at another clock if and only if that clock is more than 5 minutes behind its issue or has reached its expiry |
| PairingRecords.OfferCanBeMadeExactlyWhen | crates/protocol/src/pairing.rs:315-341 | an offer for the rest of an accepted request's life can be made if and only if publisher, identifiers and random values are usable and the clock is within 5 minutes of the issue and before the expiry |
| PairingRecords.OfferAcceptedExactlyWhen | crates/protocol/src/pairing.rs:315-375 | an offer made for the rest of a request's life is accepted elsewhere if and only if that life, measured from the publisher's clock, is within the limit and that clock is at most 5 minutes ahead |
| PairingRecords.FullLifetimeOfferRefused | crates/protocol/src/pairing.rs:315-341 | for a full-lifetime request issued by a clock ahead of the publisher's, the publisher creates an offer that is always refused |
| PairingRecords.MadeDecisionsVerify | crates/protocol/src/pairing.rs:572-692 | a denial denies, a manual approval carries the confirmed transcript, an approval by policy names that policy, each at its time and verifying for its request; each can be made if and only if the request is the publisher's own and, when manual, confirmed |
| PublisherRuns.RunKeepsValid | crates/publisher/src/native_admin.rs:308-397 | over every run of refresh, decide, approve-all, revoke and flush steps grants and revocations stay sorted and disjoint, queued keys belong to grants, pending ceremonies are distinct and verified, and queued decisions are for requests no longer pending |
| PublisherRuns.StartsValid | crates/publisher/src/native_admin.rs:868-899 | the empty state and a migrated version 2 state with the base properties satisfy that invariant; the migrated one keeps its lists and has retained keys to send for every grant |
| PublisherRuns.SavingRefusesOnlyForSize | crates/publisher/src/native_admin.rs:917-944 | for such states all ordering and reference checks of `validate_state` hold, so it refuses exactly an oversized list |
| PublisherRuns.RevocationIsPermanent | crates/publisher/src/native_admin.rs:359-373 | once revoked a grant is never approved again nor queued for retained keys, in any later run |
| PublisherRuns.ApprovalNeedsBothHumans | crates/publisher/src/native_admin.rs:556-600 | a decision adds a grant only for a pending request whose viewer confirmed the transcript of the publisher's own offer |
| PublisherRuns.DecideSucceedsExactlyWhen | crates/publisher/src/native_admin.rs:556-600 | a pending request can always be denied, and approved if and only if it is confirmed and not revoked |
| PublisherRuns.DecideIs | crates/publisher/src/native_admin.rs:556-600 | a decision removes exactly this request, unqueues its offer, signs and queues the verdict asked for, and an approval adds its grant and queues retained keys for a new one |
| PublisherRuns.ApproveAllSucceedsExactlyWhen | crates/publisher/src/native_admin.rs:344-356 | approving everything succeeds if and only if no confirmed request is of a revoked viewer, and then leaves exactly the unconfirmed ones |
| BlockedApproval.ApproveAllIsBlocked | crates/publisher/src/native_admin.rs:344-356 | a run from the empty state reaches the failing case: of two requests of one viewer for one stream one is approved, the other confirmed and the grant revoked, after which approve-all fails at any time |
| BlockedApproval.OneRevokedBlocks | crates/publisher/src/native_admin.rs:344-356 | every confirmed pending request of a viewer revoked for its stream is by itself a valid saved state in which approve-all fails |
| PublisherRuns.RevokeIs | crates/publisher/src/native_admin.rs:359-373 | revocation succeeds if and only if exactly one grant of the stream is selected, moves it from approved to revoked and unqueues it |
| PublisherRuns.AddApprovedIs | crates/publisher/src/native_admin.rs:743-771 | approval refuses exactly the revoked grants and otherwise adds exactly one, queueing retained keys only for a new one |
| PublisherRuns.QueueIs | crates/publisher/src/native_admin.rs:603-620 | queueing refuses exactly a different decision for the same request |
| PublisherRuns.RefreshKeepsValid | crates/publisher/src/native_admin.rs:427-513 | a refresh of any inbox leaves a valid state, and under the required policy grants nothing |
| PublisherRefresh.RefreshIs | crates/publisher/src/native_admin.rs:427-513 | a refresh acts on exactly the delivered requests that are neither revoked nor pending and that the policy lets it: under the required policy they become pending with their own fresh offer queued, otherwise they are granted and answered in the policy's name; then each delivered confirmation reaches its ceremony and the ceremonies are sorted |
| PublisherRuns.LoadingAcceptsExactlyWhen | crates/publisher/src/native_admin.rs:917-944 | what loading and saving accept, in plain terms; grants and revocations may be in any order |
| PublisherRuns.HistorySentIs | crates/publisher/src/native_admin.rs:653-678 | delivered retained keys unqueue exactly that grant |
| PublisherRuns.SearchIsMember | crates/publisher/src/native_admin.rs:743-754 | on a sorted revocation list the binary search is membership |
| PublisherRuns.SearchIsMembershipExactlyWhenSorted | crates/publisher/src/native_admin.rs:743-754 | for a revocation list without repeats the binary search is membership if and only if the list is sorted, the check that loading leaves out |
| PublisherRuns.RevokedCanReturnExactlyWhenUnsorted | crates/publisher/src/native_admin.rs:917-944 | loading accepts such a list in any order, and some revoked viewer can be approved again if and only if it is not sorted |
| PublisherRuns.UniqueIndexSelects | crates/publisher/src/native_admin.rs:995-1018 | a unique match is the only selected position; no match means none or several |
| PublisherState.Publisher.Approve | crates/publisher/src/native_admin.rs:743-771 | the in-memory grant lists after approval, or a refusal |
| PublisherState.Publisher.Queue | crates/publisher/src/native_admin.rs:603-620 | the decision outbox after queueing, or a conflict |
| PublisherState.Publisher.DecideRequest | crates/publisher/src/native_admin.rs:556-600 | the whole state after a decision, or a refusal |
| PublisherState.Publisher.RevokeGrant | crates/publisher/src/native_admin.rs:359-373 | the whole state after a revocation, or a refusal |
| PublisherState.Publisher.RefreshRequests | crates/publisher/src/native_admin.rs:427-513 | the whole state after both inbox loops and the final sort, or a failure at the first bad record |
| PublisherState.Publisher.FlushOutbox | crates/publisher/src/native_admin.rs:622-651 | for any number of acknowledgements and file replacements to come: exactly the queued records, offers before decisions, are delivered as far as both last, and what was acknowledged, popped and saved at the end |
| PublisherState.FlushIsPopping | crates/publisher/src/native_admin.rs:633-649 | a flushed state is reached by single pops, each of the record just acknowledged |
| Ordering.SearchIsMembership | crates/publisher/src/native_admin.rs:743-754 | the halving search finds exactly the members of a strictly ordered range |
| Ordering.SearchIsMembershipExactlyWhenOrdered | crates/publisher/src/native_admin.rs:745-752 | for any list of ranks without repeats the halving search is membership if and only if the list is in strict order |
| Ordering.FindingAllMeansOrdered | crates/publisher/src/native_admin.rs:745-752 | a range without repeats in which the halving search finds every element is in strict order |
| Ordering.BinarySearch | crates/publisher/src/native_admin.rs:745-752 | the loop computes that search |
| Ordering.PushAndSort | crates/publisher/src/native_admin.rs:761-769 | pushing a new element and sorting keeps strict order and adds exactly it |
| Ordering.SortByOrders | crates/publisher/src/native_admin.rs:510-512 | the stable sort is an ordered permutation |
| PairingProtocol.OfferAgreement | crates/publisher/src/native_admin.rs:480-499 | in every run with crashes and lost connections, an offer the relay holds for a request still pending at the publisher is exactly the saved one |
| PairingDelivery.DecisionAgreement | crates/publisher/src/native_admin.rs:268-280 | every saved decision is still in the saved outbox, or some row of the relay has held exactly it and still does if the row is there; no row of this publisher ever holds another |
| PairingProtocol.ServedOrQueued | crates/publisher/src/native_admin.rs:622-651 | a saved decision that left the outbox is in its row, or the row is gone and the request expired |
| OfferDelivery.OfferServedOrQueued | crates/publisher/src/native_admin.rs:622-651 | in every run the saved offer of a pending request is still queued, or is in the relay's row, or the row is gone and the request expired |
| PairingEndToEnd.PairingCompletes | crates/publisher/src/native_admin.rs:308-397 | for every request a publisher can answer, a run from the empty start, with the publisher away while the viewer confirms, ends with the relay holding the whole ceremony and approval, the viewer granted and nothing queued |
| PairingDelivery.RunDelivers | crates/publisher/src/native_admin.rs:308-397 | in every run a queued decision is borne out by the ceremony in its row, and a confirmation the publisher holds is the row's, as long as the row is there; a missing row has expired |
| PairingDelivery.DecisionServedExactlyWhen | crates/publisher/src/native_admin.rs:643-649 | sending the first queued decision is acknowledged if and only if the relay still has the request's row |
| PairingProtocol.DecisionsAreFinal | crates/publisher/src/native_admin.rs:334-337 | no later step saves a second decision for the same request |
| PairingVerdicts.VerdictStands | crates/publisher/src/native_admin.rs:556-600 | over every run of both sides, a verdict given and saved is the only one anybody gets for the request: in the saved outbox, in the relay's row and in every row it ever held; a denied request never has an approval |
| PairingVerdicts.RevocationStands | crates/publisher/src/native_admin.rs:359-373 | over every run of both sides, from a saved revocation on that viewer is granted the stream and queued for keys in no saved state |
| PairingVerdicts.LostAckStops | crates/publisher/src/native_admin.rs:840-848 | a process without an acknowledgement stops, whatever the relay did, and works from the saved state again |
| PairingProtocol.DeliveredConfirmationsVerify | crates/publisher/src/native_admin.rs:500-509 | once the delivered requests are taken, a refresh never fails on a confirmation the relay delivered |
| PairingDelivery.RefreshSucceedsExactlyWhen | crates/publisher/src/native_admin.rs:427-513 | in every run a refresh of a fetched inbox succeeds if and only if every delivered request verifies at the publisher's clock and, unless revoked, already pending or not trusted, can be answered; confirmations never stop it |
| PairingDelivery.ClockBehindBlocksRefresh | crates/publisher/src/native_admin.rs:427-431 | a run from the empty start reaches the failing case, whatever the policy: a request the relay accepted stops the refresh of a publisher whose clock is more than 5 minutes behind its issue |
| PairingProtocol.AcceptedIsServed | crates/relay/src/pairing_store.rs:321-341 | an acknowledged decision is the one the relay stores, now or from before |
| PairingProtocol.ServedStays | crates/relay/src/pairing_store.rs:508-518 | a served decision stays served through any later calls |
| PairingProtocol.OfferServedExactlyWhen | crates/publisher/src/native_admin.rs:633-645 | sending the first queued offer is acknowledged if and only if the relay still has the request and the offer passes its time checks |
| PairingDelivery.StuckExactlyWhen | crates/publisher/src/native_admin.rs:622-651 | no later send gets the head of the outbox across if and only if it is an offer for an expired request or with too long a life, or a decision whose row is gone: checkable before sending |
| PairingDelivery.StuckForever | crates/publisher/src/native_admin.rs:622-651 | from then on no run of steps delivers or drops a record, takes a request or decides one; only revocation still works |
| PairingDelivery.LostTouchUntilGone | crates/publisher/src/native_admin.rs:268-273 | in every run, losing the connection until the relay no longer has the head record's request leads there |
| PairingDelivery.StandstillIsReachable | crates/publisher/src/native_admin.rs:308-397 | for every request a publisher can answer, a run from the empty start reaches it with the offer, and under the open policy with the decision |
| PairingProtocol.RunKeepsInvariant | crates/publisher/src/native_admin.rs:308-397 | the invariant tying saved state, unsaved work, relay rows, sent offers and saved decisions holds in every run |
| PublicationLoop.HoldersAreTheApprovalRead | crates/publisher/src/native_publish.rs:297-341 | after every completed iteration the viewers given the current group's key are exactly the viewers in that iteration's approval read |
| PublicationLoop.ObjectsOnlyForTheRead | crates/publisher/src/native_publish.rs:359-427 | every object of an iteration, completed or cut short, is under a key this loop sent to no viewer missing from that read |
| PublicationLoop.RevokedViewerCannotRead | crates/publisher/src/native_publish.rs:297-341 | once a viewer is missing from all further reads, no object published from then on is under a key the loop ever sends it |
| PublicationLoop.SequencesAreConsecutive | crates/publisher/src/native_publish.rs:411-427 | published sequences continue the committed one without gap or repeat across rotations and cursor batches |
| PublicationLoop.NoNonceRepeatsInTheLoop | crates/publisher/src/native_publish.rs:291-470 | over a whole run of the loop, rotations included, sequences rise strictly and no two published objects share a nonce |
| PublicationGroups.GroupChangesExactlyWhen | crates/publisher/src/native_publish.rs:309-341 | over every run an iteration works under another key group than the one before if and only if it is a multiple of `groupFrames` or its read lost a viewer; it then takes the next group number and its own fresh key material |
| PublicationGroups.IterationWrites | crates/publisher/src/native_publish.rs:297-470 | over every run a completed iteration writes exactly: if it starts a group, one epoch object and then an envelope for every viewer, otherwise one for each newly approved viewer; then access unit and optional cursor batch, sealed in its group under the next sequences at `i` times the duration, saturating |
| PublicationGroups.IterationCompletesExactlyWhen | crates/publisher/src/native_publish.rs:313-470 | an iteration completes if and only if the frame can begin a group when one starts, access unit and cursor batch have their form, the keyframe flag is truthful and there are sequences left; its group is the session's |
| PublicationLoop.InspectedFrameSealsExactlyWhen | crates/protocol/src/native.rs:761-768 | for every frame inspection can return and every group, sealing accepts the random-access flag if and only if a hint comes with an IDR and the group has started with one |
| PublicationLoop.MisreportedFrameEndsTheLoop | crates/publisher/src/native_publish.rs:411-427 | a hinted frame without an IDR ends the iteration with nothing of the frame published |
| PublicationLoop.Publisher.Iterate | crates/publisher/src/native_publish.rs:291-484 | one loop pass writes exactly its plan as far as the connection takes it, and succeeds, in its next state, if and only if the plan goes through |
| PublicationLoop.Publisher.RotateGroup | crates/publisher/src/native_publish.rs:313-409 | rotation publishes the epoch object before any envelope and then sends one envelope per viewer in the read |
| PublicationLoop.Publisher.OpenGroup | crates/publisher/src/native_publish.rs:309-341 | rotate on first frame, revocation or group end; otherwise only newly approved viewers get the current key; exact result and messages for a connection lost at any write |
| PublicationLoop.Publisher.PublishFrame | crates/publisher/src/native_publish.rs:411-470 | the access unit and the optional cursor batch are sealed and published in that order |
| PublicationLoop.Publisher.PublishNext | crates/publisher/src/native_publish.rs:411-427 | the next sequence number is sealed and published, or nothing is |
| NativeSealing.NoncesNeverRepeat | crates/protocol/src/native.rs:748-821 | across any mix of accepted and refused requests no nonce is used twice under one key |
| NativeSealing.FirstMediaIsIdr | crates/protocol/src/native.rs:761-768 | the first media object of a fresh group is a declared IDR, and media has started exactly when one was produced |
| NativeSealing.EveryProducedObjectOpens | crates/protocol/src/native.rs:368-398 | the i-th object of a run carries sequence, timestamp, duration, kind, random-access flag and codec of the i-th accepted request and the group's identifiers, and opens to that request's plaintext |
| NativeSealing.OpenOfSeal | crates/protocol/src/native.rs:368-398 | opening a sealed object with the group's key returns its plaintext |
| NativeSealing.OnlyProducedObjectsOpen | crates/protocol/src/native.rs:347-398 | whatever object arrives, it opens in the publisher's name if and only if it is one of the objects the publisher sealed in this group, unchanged, and the key and its identifier are the group's |
| NativeSealing.OpensExactlyWhen | crates/protocol/src/native.rs:347-398 | any object opens to a plaintext if and only if the publisher signed its header with this ciphertext, which is that plaintext sealed under this key for this header, and both have the form of their kind |
| NativeSealing.SealAcceptsExactlyWhen | crates/protocol/src/native.rs:748-821 | a usable group seals exactly its publisher's requests that move the sequence on and have the form and limits of their kind, media with a truthful IDR flag and beginning with one |
| NativeSealing.RefusedRequestsLeaveNoTrace | crates/protocol/src/native.rs:748-821 | dropping the refused requests from a run changes neither the group nor the objects |
| NativeSealing.RunKeepsShape | crates/protocol/src/native.rs:748-821 | over a run all fields but the sequence and the media flag stay, and sequences rise strictly |
| NativeSealing.GuardAcceptsSealedOrder | crates/protocol/src/native.rs:835-860 | a guard at the starting sequence accepts a run's objects in order and none of them again |
| NativeSealing.GuardNeverGoesBack | crates/protocol/src/native.rs:848-860 | a guard never accepts a sequence it has moved past |
| NativeSealing.GuardAcceptsExactlyTheNewest | crates/protocol/src/native.rs:848-860 | after any objects a guard accepts the next if and only if it is of its publisher and stream and above the start and every such object shown before |
| NativeSealing.GroupEncryptor.Seal | crates/protocol/src/native.rs:748-821 | result and new state as specified; a refusal changes nothing |
| NativeSealing.GroupEncryptor.Restore | crates/protocol/src/native.rs:701-729 | restoring succeeds exactly for nonzero identifiers and key |
| NativeSealing.LiveSequenceGuard.Accept | crates/protocol/src/native.rs:848-860 | verdict and new state as specified |
| AnnexB.ScannersAgree | crates/protocol/src/native.rs:567-586 | for every byte string some split unit has type 5 if and only if the byte-by-byte scan sees an IDR |
| AnnexB.SplitIsReference | crates/publisher/src/encoder.rs:870-896 | the skipping splitter computes the textbook decomposition at three- and four-byte start codes |
| AnnexB.SplitOfJoin | crates/publisher/src/encoder.rs:870-896 | joining nonempty units without start codes and splitting returns the same units, trailing zeros included |
| AnnexB.SplitIsStable | crates/publisher/src/encoder.rs:870-896 | every split output can be joined and split again without change |
| AnnexB.EpochConfigurationRoundTrip | crates/publisher/src/native_publish.rs:359-365 | the rebuilt epoch configuration is Annex B and splits to exactly its SPS and PPS |
| AnnexB.FrameMeans | crates/publisher/src/encoder.rs:708-745 | a frame is a keyframe exactly when hinted or when sealing's scan sees an IDR, and its configuration holds the access unit's first SPS and first PPS, which no scanner would cut |
| AnnexB.ContainsH264Idr | crates/protocol/src/native.rs:567-586 | the scan returns true if and only if an IDR header follows a start code |
| AnnexB.AnnexBNals | crates/publisher/src/encoder.rs:870-896 | the cursor loop and the cut return the specified split |
| AnnexB.CollectStarts | crates/publisher/src/encoder.rs:870-884 | the cursor loop finds the specified start codes |
| AnnexB.FrameInspector.Inspect | crates/publisher/src/encoder.rs:708-745 | classification of one access unit and the parameter sets remembered for later ones |
| CursorCodec.EncodeDecodeInverse | crates/protocol/src/cursor.rs:92-192 | encoding a batch yields bytes b if and only if decoding b yields the batch: valid batches round trip and every decodable string is canonical |
| CursorCodec.EncodedLengthIsExact | crates/protocol/src/cursor.rs:261-279 | the computed length is the length written, within its bound for every accepted batch |
| CursorCodec.AcceptedExactlyWhen | crates/protocol/src/cursor.rs:194-246 | exactly the well-formed batches are accepted, for sending and for reading; well-formed in plain numbers |
| CursorCodec.TooLargeExactlyWhen | crates/protocol/src/cursor.rs:92-145 | what is refused as too large rather than malformed, when encoding and when decoding |
| CursorCodec.BatchHeadLayout | crates/protocol/src/cursor.rs:101-104 | magic, source size and count stand at their offsets |
| CursorCodec.EventHeadLayout | crates/protocol/src/cursor.rs:105-110 | time, position, flags and bitmap identifier of an event stand at their offsets |
| CursorCodec.BitmapHeadLayout | crates/protocol/src/cursor.rs:111-119 | size, hotspot and length of a bitmap stand at theirs |
| BigEndian.FieldsMean | crates/protocol/src/cursor.rs:305-340 | the most significant byte comes first, and signed numbers are in two's complement |
| CursorCodec.EarlyCheckIsComplete | crates/protocol/src/cursor.rs:140-145 | the early remaining-bytes check rejects nothing the full parse accepts |
| CursorCodec.EventsParse | crates/protocol/src/cursor.rs:151-184 | the parser recovers any events whose encoding lies at an offset |
| CursorCodec.EventsParsed | crates/protocol/src/cursor.rs:151-184 | whatever the parser reads is the encoding of what it returns |
| CursorCodec.EncodeCursorBatch | crates/protocol/src/cursor.rs:92-127 | the appending loop produces the specified bytes or the validator's error |
| CursorCodec.DecodeCursorBatch | crates/protocol/src/cursor.rs:129-192 | the reading loop computes the specified parse and rejects trailing bytes |
| CursorCodec.ValidateCursorBatch | crates/protocol/src/cursor.rs:194-246 | the loop carrying the previous timestamp accepts exactly the valid batches |
| CursorCodec.EncodedLen | crates/protocol/src/cursor.rs:261-279 | the running total is the sum of the event lengths, refused as soon as it is over the bound |
| CursorCodec.Reader.Take | crates/protocol/src/cursor.rs:290-300 | the offset moves exactly on success |
| CursorDelta.ReceiverHoldsCurrentBitmap | crates/publisher/src/lib.rs:965-984 | over any accepted run with ordered timestamps a receiver keeping the last bitmap holds the publisher's at every event that has one, sent less than a minute of ticks earlier, even across identifier wrap-around |
| CursorDelta.PixelsOnlyWhenNeeded | crates/publisher/src/lib.rs:965-984 | pixels travel if and only if the receiver does not hold them fresh enough |
| CursorDelta.EventCarriesTheSample | crates/publisher/src/lib.rs:952-993 | a sample is accepted if and only if the bitmap it must send has its size; the event carries the sample's position, visibility and time and no other pixels, under a new identifier exactly for a new bitmap |
| CursorDelta.RefusedSampleWouldDesynchronize | crates/publisher/src/lib.rs:965-984 | the state changes before the bitmap is checked: after any refused sample, for less than a minute of ticks, the same bitmap is announced without its pixels to a receiver that lacks them |
| CursorDelta.SentRecently | crates/publisher/src/lib.rs:968-972 | the last send is less than a minute of ticks behind the last bitmap sample |
| CursorDelta.CursorBitmapState.CursorToEvent | crates/publisher/src/lib.rs:952-993 | event or error, and the new state in both cases |
| KeyHistory.PrunedIsLongestFittingSuffix | crates/publisher/src/native_publish.rs:133-153 | in plain integers: pruning keeps the longest suffix of the groups within the age limit whose bytes fit, or the newest of them alone |
| KeyHistory.PruningIsIdempotent | crates/publisher/src/native_publish.rs:133-153 | pruning again at the same instant changes nothing |
| KeyHistory.UpdateTouchesOneStream | crates/publisher/src/native_publish.rs:112-131 | an update replaces exactly one stream's groups, keeps the others as a multiset and leaves the file sorted |
| KeyHistory.UpdateSucceedsExactlyWhen | crates/publisher/src/native_publish.rs:99-131 | an update succeeds if and only if the file loads and the encoding of the result fits 16 MiB |
| KeyHistory.UpdateLoadsExactlyWhen | crates/publisher/src/native_publish.rs:75-131 | after a successful update the file loads again if and only if the other streams' groups and the new ones number at most 65,536, which a caller can count and saving does not |
| KeyHistory.SavedButUnloadable | crates/publisher/src/native_publish.rs:99-131 | for every encoding of at most 255 bytes a group, two streams with a loadable number of groups each save, one after the other, a file that never loads |
| KeyHistory.OversizedHistoryIsStuck | crates/publisher/src/native_publish.rs:112-131 | over every sequence of updates of any streams such a file stays as it is |
| KeyHistory.RetainedKeys.Prune | crates/publisher/src/native_publish.rs:133-153 | the retain and the backward loop compute the specified suffix in place |
| KeyHistory.HistoryFile.ReplaceStream | crates/publisher/src/native_publish.rs:112-131 | the file changes only when every step succeeds |
| NoiseFraming.MessagesRoundTrip | crates/protocol/src/lib.rs:410-489 | any list of messages within the limit is read back exactly from its concatenated segments, with nothing left over |
| NoiseFraming.ReadsExactlyTheSegmented | crates/protocol/src/lib.rs:443-489 | whatever arrives, a message is read if and only if the packets begin with its segments: one length in all of them, chunks in order without gap or overlap, however they are cut |
| NoiseFraming.SentExactlyWhen | crates/protocol/src/lib.rs:410-432 | a message is sent if and only if it has at most 32 MiB |
| NoiseFraming.SegmentLayout | crates/protocol/src/lib.rs:501-514 | magic, message length and chunk position stand in the header in that order |
| NoiseFraming.PacketsFit | crates/protocol/src/lib.rs:416-430 | every encrypted segment fits the 65,535-byte packet limit, and all but a message's last are full |
| NoiseFraming.SegmentRoundTrip | crates/protocol/src/lib.rs:501-560 | segments and their bytes correspond one to one |
| NoiseFraming.AcceptedSegmentAdvances | crates/protocol/src/lib.rs:454-484 | an accepted segment keeps the declared total and adds a byte unless it completes the message |
| NoiseFraming.ReadTerminatesWithinTotal | crates/protocol/src/lib.rs:443-489 | reading ends within as many packets as the declared total has bytes, or one |
| NoiseFraming.ArbitraryInputIsBounded | crates/protocol/src/lib.rs:443-489 | whatever arrives, a returned message is within the limit and used a bounded number of packets |
| NoiseFraming.WriteMessage | crates/protocol/src/lib.rs:410-432 | the loop hands over exactly the specified packets |
| NoiseFraming.ReadLimited | crates/protocol/src/lib.rs:443-489 | the loop computes the specified reassembly for any packets |

## Left out

- Cryptographic algorithms, Postcard encoding, SQLite and its schema, Noise handshakes: library code, replaced by ideal values, records and maps.
- Eviction policy, group accounting, group progression checks and anchoring policy of the store: only its commit and listing contract is used; evictions and anchors are arbitrary.
- PublicationLoop.Publisher.Iterate: key-history bookkeeping, the capture and encoder calls and the shutdown signal are not part of the iteration; the frame, the cursor payload and fresh key material are inputs.
- StreamOwnership.PublisherSession.Teardown: runs without interference; other sessions' steps between finalization and release are in the step function.
- PublisherState.Publisher.DecideRequest: hexadecimal prefixes are arbitrary selections of identifiers; terminal output is not modelled.
- PublisherState.Publisher.FlushOutbox: starts from a validated state, as loading and saving ensure, so a queued offer without its pending request does not occur.
- PairingStore.Store.Enqueue: publisher and viewer columns are read from the stored request; the size bound matters only for requests, whose credential and label vary in length.
- PairingRecords.TimeCheckMeans: identifier, label and credential checks beyond the fields shown are reduced to one validity flag or equality each.
- PairingProtocol.RunKeepsInvariant: retained-key delivery through the history outbox is covered by `PublisherRuns` and is not a step here; one relay and one publisher, other publishers act as peers.
- The viewer's pairing inbox and the retained-key envelope loop: straight listings that would add only easy members.
- CursorDelta.CursorBitmapState.CursorToEvent: floating-point scaling of coordinates is not modelled; scaled coordinates are inputs.
- PipeWire, portal, Mutter, EGL, GBM and OpenH264 code, including the PipeWire cursor sampler: foreign calls; samples and access units are inputs.
- Wire-message field checks, relay admission, relay key pinning, descriptors, catalog, CLI, configuration, file permissions and test-only code: mostly single-branch checks or plumbing.
- Lock poisoning and task cancellation beyond what a failing session step covers.
