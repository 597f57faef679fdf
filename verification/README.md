# Chhaya: the durable messaging protocol and its neighbours, verified

Chhaya is an end-to-end encrypted messenger. This project models its message path and
the self-contained algorithms around it, and proves what they are for. Check it with
`dafny verify dfyconfig.toml`.

**The message path.** A client serializes its operations, commits each ratchet step
together with the message row and (for its own messages) the envelope to retry, and only
then lets an envelope out. The server inserts a message id once and answers pages by a
(sent_at, id) cursor. `MessagingProtocol` is the step machine: what survives a crash (the
client's database, the server's table), and the history of what was committed and
transmitted. Every step is what happens between two awaits, so a crash at any await is a
run that stops there. `MessagingSafety` states what holds of every run. `MessagingService`
is the client's code, statement by statement, with every await free to fail and the other
side free to act in between; each operation is proved to be a run of the machine, so the
theorems about runs are theorems about the code. `SyncPaging` says how far back a sync
reads and exactly when that is enough; `MessageOpening` which rows open from which state;
`SyncHistory` and `HiddenBacklog` what becomes of a conversation over many syncs, and
`MessagingUse` ties that to the client as it is used. `SerialQueue` is the operation queue,
and `SerialOperations` proves that what goes through it comes out one after the other.
`RatchetCodec` (with `JsonText` for the authenticated metadata), `LocalStore` and
`MessageServer` are the pieces.

**The ratchet.** `DoubleRatchet` is the session the codec steps (X25519 and HKDF are
functions; DH symmetry and absence of collisions are assumed where used).
`RatchetConversation` and `RatchetDelivery` put two such sessions on a network that delays,
reorders, drops and repeats, and prove that any message not yet received yields its key
whenever it arrives, exactly when the skipped-key limits allow, and never twice.
`CodecRatchet` puts that ratchet under the codec and carries its theorems to envelopes.
`TwoAccounts` lets two accounts run the whole protocol against one server and proves, in
every run with crashes, retries and delays, that their stories and their ratchets agree:
each stored message has the payload its sender committed, and a row opens exactly if it
fits the limits.
`RatchetExample` is a concrete conversation, which also shows that the laws assumed of the
primitives can be met. `DoubleRatchetSession` is the older engine session, kept in lockstep over alternating runs.

**The neighbours.** `RelayPath` (greedy relay choice is optimal), `CallSignalling` (ICE
candidates are conserved), `Stego` (least-significant-bit embedding over a real
two-dimensional array), `FileChunks`, `OnionLayers`, `SwarmRelay` (byte counter and
download limits under concurrent handlers), `KeyManager` (heap arrays that are wiped but
never shared), `SignallingIndex`, `IdentityChallenge`.

`Runs` holds the notion of a run and the induction principle; `Basics`, `BigEndian`,
`HexText` and `Primitives` hold shared vocabulary.

## What turned out false of the code

- A message that does not open stops its conversation for good. The loop of a sync ends at
  the first row that is refused (lib/services/messaging/messaging_service.dart:100), and
  every later sync loads the same state and meets the same row. `MessageOpening` gives the
  exact condition: the rows a sync has to commit can all be committed if and only if each
  opens from a state its predecessors leave (`CommitReceivedIff`, `ReceiveRunIff`).
  Two reachable worlds where one does not: a row that is no envelope
  (`MessageOpening.MalformedRowBlocks`), and a message sealed as it should but more than
  1000 (MAX_SKIP) ahead in its chain, which other states would open (`HiddenBacklog.GapBlocks`).
  `SyncHistory.BlockedForGood` concludes over any sequence of syncs that nothing from the
  first such row on is ever stored; `MessagingUse.KeepSyncing` proves that the code, synced
  every few seconds with anything else in between, only ever makes such sequences. Between
  two honest accounts the condition is that of the ratchet's two limits
  (`TwoAccounts.RowBlocksIff`), and a device that keeps up never meets it
  (`TwoAccounts.KeepingUpCommits`).
- A sync after this device has sent a message over unread ones stops at that message. It
  completes the conversation if and only if fewer than a page were unread
  (`SyncPaging.OwnMessageHidesBacklog`; `SyncPaging.SyncCompleteIff` is the general
  condition), and what lies more than a page below a known row is never read by any later
  sync either (`SyncHistory.HiddenForGood`). `HiddenBacklog.SentOverUnread` reaches such a
  world. With 1200 messages unread (MAX_SKIP and a page), everything the other side sends from
  then on is refused as too far ahead: nothing of the conversation is ever stored again,
  however often it is synced and written to (`HiddenBacklog.BacklogBlocksForGood`,
  `HiddenBacklog.BacklogCanBlock`).
- A message of more than 100000 code units is embedded in an image with room for it, and its
  extraction is refused (`Stego.EmbedThenExtract`, both directions). Of a code unit above 255
  only the low byte comes back.
- The client's relay path keeps "different regions, none excluded" only if there are
  enough eligible regions or nothing to fill up with (`RelayPath.ClientPath`, both
  directions); `RelayPath.FillRepeatsRegion` is a list of nodes where it does not.
- The swarm relay's byte counter drifts on a re-upload under a live id with another length,
  and can then reach 0 while chunks are stored (`SwarmRelay.StoredExactIff`,
  `SwarmRelay.LongerReuploadLosesBytes`).
- The signalling index keeps a connection under its old user if it joins again as another
  (`SignallingIndex.JoinIndexedIff`, `SignallingIndex.RejoinAsAnotherUser`).
- "A replayed header fails" (lib/core/crypto/ratchet/double_ratchet.dart:197): the ratchet
  itself refuses a replay of the chain being received, and one of an older chain only if
  what it makes the code set aside does not fit the limits. Otherwise it takes a DH step to
  a key that is nobody's, and only authentication, after which the stepped state is
  discarded, refuses the message. `RatchetDelivery.ReplayAnsweredIff` is the exact
  condition, for every received message; `RatchetExample.OldReplayIsAnswered` is a run that
  ends in such a replay; by `RatchetDelivery.NoReplay` none is ever accepted.

## Model

| member | source | states |
|---|---|---|
| MessagingSafety.ExactlyOnce | lib/services/messaging/messaging_service.dart:33-61 | In every reachable world a committed outgoing message has at most one server row; that row is the account's, with exactly the envelope of its commit; once marked sent there is one |
| MessagingSafety.CommitFixesEnvelope | lib/core/database/local_database.dart:260-273 | From its commit on, over any further run and crash, all transmissions and rows under a message id carry the envelope saved in the commit transaction |
| MessagingSafety.RatchetStepsAreNotReused | lib/services/messaging/ratchet_message_codec.dart:42-58 | Two envelopes that ever reached the network used the same step of the same session if and only if they are the same transmission; each is what its committed step produces |
| MessagingSafety.HeadersOnTheWireAreUnique | lib/services/messaging/ratchet_message_codec.dart:42-58 | Where the ratchet of a session never repeats a header, no two different transmissions of the session share one |
| CodecRatchet.RatchetHeadersAreFresh | lib/core/crypto/ratchet/double_ratchet.dart:148-190 | The Double Ratchet never repeats a header in a session, whatever headers it receives in between, if the random key pairs differ |
| CodecRatchet.TransmittedHeadersAreUnique | lib/services/messaging/ratchet_message_codec.dart:42-58 | So over the Double Ratchet, in every run with any crashes, no two different transmissions of a session carry the same header |
| CodecRatchet.EnvelopeOpensOnceInAnyOrder | lib/services/messaging/ratchet_message_codec.dart:60-75 | In every run over a reordering, repeating network an envelope not yet received opens to its payload, for exactly its own metadata, exactly within the skip limits; one already received opens for nobody |
| MessagingSafety.StoredPeerMessageIsOpening | lib/services/messaging/messaging_service.dart:99-105 | In every reachable world a stored message of the other side has the sender, conversation and server time of a row on the server, and the payload its content opened to under the replay of the session's earlier steps |
| MessagingSafety.ListedInServerOrder | lib/services/messaging/messaging_service.dart:101-108 | After any run, messages of the other side listed by their stored times stand in the order of the server's table, up to rows of equal time |
| MessagingSafety.OwnMessageIsAsCommitted | lib/core/database/local_database.dart:260-283 | In every reachable world an own message is as it was committed but for its flags, its payload is that of the ratchet step it names, and its envelope is what that step sealed |
| MessagingSafety.StoredStateIsReplay | lib/core/database/local_database.dart:247-273 | In every reachable world, crashes included, a stored ratchet state is the fold of the session's committed steps, and each step has its message row |
| MessagingSafety.PeerMessageCommittedOnce | lib/services/messaging/messaging_service.dart:93-106 | A peer's message is committed by at most one ratchet step, in one session |
| MessagingSafety.OutboxHoldsWhatWasSent | lib/services/messaging/messaging_service.dart:48-61 | An own row not yet sent holds the envelope of every earlier transmission of its id; a sent one holds none |
| MessagingSafety.PendingCanAlwaysBeDelivered | lib/services/messaging/messaging_service.dart:55-61 | From every reachable world a pending message can be completed: resend, at most one insert, acknowledgement |
| MessagingProtocol.StepKeepsInv | lib/services/messaging/messaging_service.dart:33-114 | Every step keeps the agreement of outbox, wire, server table, sessions, and their history |
| MessagingProtocol.RunKeepsInv | lib/services/messaging/messaging_service.dart:33-114 | So does every run, cut short anywhere |
| MessagingProtocol.RunIsLater | lib/core/database/local_database.dart:260-283 | Over any run what is committed, transmitted or stored on the server stays as it is |
| MessagingService.Service.Send | lib/services/messaging/messaging_service.dart:33-46 | A run of the protocol; refused when not signed in, for a group, for a contact that is blocked or unverified (the stored contact counting before the participant), and then nothing changes; a commit is for this message alone, in the session of that contact; success means the committed envelope is stored on the server and the row is marked sent |
| MessagingService.Service.Encrypt | lib/services/messaging/ratchet_message_codec.dart:42-58 | Either nothing changed, or for a verified contact with a session to encrypt in, ratchet step, pending row and outbox envelope were committed together, in that contact's session, before the envelope is returned |
| MessagingService.Service.Request | lib/services/api/api_service.dart:294-310 | A request may be lost, duplicated late, refused or answered unheard; an acceptance means the server stores exactly this envelope for this id |
| MessagingService.Service.Deliver | lib/services/messaging/messaging_service.dart:48-53 | Success marks the message sent and drops its outbox entry, with the envelope on the server; failure leaves the database alone |
| MessagingService.Service.Resend | lib/services/messaging/messaging_service.dart:56-60 | One turn of the retry loop touches no other message, and settles an own one by marking it sent |
| MessagingService.Service.RetryPending | lib/services/messaging/messaging_service.dart:55-61 | Pending messages leave in the order of their times; a retry that completes leaves nothing pending, and every committed message of the conversation stored with its committed envelope |
| MessagingService.Service.NextPage | lib/services/messaging/messaging_service.dart:84-90 | A page request answers the stretch of the conversation just below the cursor, whatever was inserted since |
| MessagingService.Service.FetchPages | lib/services/messaging/messaging_service.dart:81-91 | The loop reads exactly the conversation, as the server's table had it at some moment of the call, from where reading stops to its newest row, strictly ascending by (sent_at, id) |
| MessagingService.Service.ReadConversation | lib/services/messaging/messaging_service.dart:79-91 | The same from where reading stops for the ids in the database, with what the loop over the rows relies on |
| MessagingService.Service.Apply | lib/services/messaging/messaging_service.dart:93-99 | A row that cannot be opened or committed changes nothing; otherwise exactly its id becomes known; an own message takes the row's receipts, a known one is left alone, and no other message changes |
| MessagingService.Service.Decrypt | lib/services/messaging/messaging_service.dart:98-104 | A failed authentication or commit changes neither messages nor ratchet state; success adds exactly this row's message, dated and receipted as the row, with the payload its content opens to from the loaded state, and stores the state after |
| MessagingService.Service.ApplyAll | lib/services/messaging/messaging_service.dart:93-107 | Rows are committed oldest first, so whatever stops the loop has stored a prefix of them, and each pending row of that prefix was opened from the state its predecessor left |
| MessagingService.Service.SyncConversation | lib/services/messaging/messaging_service.dart:79-107 | What a sync stored, also when cut off, is the stretch of the server's conversation from the oldest row read, up to the newest if it succeeds, each pending row opened from the state its predecessor left; then the conversation is complete exactly when nothing was missing below the stopping page; a row that opens from no state its predecessors can leave is not passed, and the call fails |
| MessagingService.Service.MergeContacts | lib/services/messaging/messaging_service.dart:71-76 | The stored contact is kept where id and identity agree, the server's taken otherwise; under each id the contacts then hold the last one entered, and under every other id what they held |
| MessagingService.Service.SyncOne | lib/services/messaging/messaging_service.dart:69-107 | A direct conversation with a verified contact is read and stored; any other only has its contacts merged |
| MessagingService.Service.Sync | lib/services/messaging/messaging_service.dart:63-114 | A run of the protocol; unauthenticated it changes nothing; if it succeeds, of each verified direct conversation it was handed exactly the peer's rows from the stopping page to the newest have become known; no contact becomes verified |
| MessagingService.Service.Listed | lib/services/messaging/messaging_service.dart:108-108 | What a conversation shows is everything stored of it, once each, by time, and the other side's messages stand in it as in the server's table |
| MessagingService.ReadThroughCompletes | lib/services/messaging/messaging_service.dart:63-114 | After such a sync a conversation is complete exactly when nothing was missing below its stopping page |
| MessagingService.RowKnowledge | lib/services/messaging/messaging_service.dart:94-99 | A stored message with a server row's id is that row's: same conversation, own exactly when the row is the account's |
| SyncPaging.FetchStopsAtNewestKnown | lib/services/messaging/messaging_service.dart:84-91 | Reading stops at the page that holds the newest known row, or after fifty pages, in closed form |
| SyncPaging.PagesReadAreTheNewest | lib/services/messaging/messaging_service.dart:84-91 | With nothing known, k requests read exactly the newest k pages |
| SyncPaging.SyncCompleteIff | lib/services/messaging/messaging_service.dart:81-107 | A successful sync leaves the conversation complete if and only if nothing was missing below its stopping point |
| SyncPaging.PrefixSyncCompletes | lib/services/messaging/messaging_service.dart:81-107 | If the known ids are a prefix, a sync that succeeds completes the conversation exactly when at most fifty pages, 10000 rows, are missing |
| SyncPaging.SyncLeavesPrefix | lib/services/messaging/messaging_service.dart:93-107 | However a sync ends, crash or failure included, within fifty pages what is known is again a prefix |
| SyncPaging.ResumedSyncCompletes | lib/services/messaging/messaging_service.dart:81-107 | A sync cut short anywhere is made good by the next that succeeds, also with rows that arrived meanwhile |
| SyncPaging.NothingPastStop | lib/services/messaging/messaging_service.dart:93-107 | Nothing at or after the row where a sync stopped has become known |
| SyncPaging.NeverLooksFurtherBack | lib/services/messaging/messaging_service.dart:89-89 | No sync reads more than a page below the newest row it knows |
| SyncPaging.OwnMessageHidesBacklog | lib/services/messaging/messaging_service.dart:89-89 | After a message sent over unread ones, a successful sync completes the conversation if and only if fewer than 200 were unread |
| MessageOpening.CommitReceivedIff | lib/services/messaging/messaging_service.dart:99-105 | The machine can commit a pending row of the other side exactly if it opens from the state in use |
| MessageOpening.ReceiveRunIff | lib/services/messaging/messaging_service.dart:93-106 | There is a run that commits what is pending of a stretch of a conversation, in order, exactly if each row opens from a state its predecessors leave; it stores the whole stretch |
| MessageOpening.BlockedIff | lib/services/messaging/messaging_service.dart:93-106 | The next row blocks exactly if it opens from no state that opening the rows before it can lead to |
| MessageOpening.MalformedRowBlocks | lib/services/messaging/ratchet_message_codec.dart:62-63 | A reachable world with a row that is no envelope, or one of another version: pending, and it blocks its conversation |
| SyncHistory.AttemptStops | lib/services/messaging/messaging_service.dart:93-106 | A sync never gets past a row that blocks |
| SyncHistory.BlockedForGood | lib/services/messaging/messaging_service.dart:81-107 | Over any sequence of syncs, without a gap and within fifty pages, no row from the first that blocks on is ever stored |
| SyncHistory.HiddenForGood | lib/services/messaging/messaging_service.dart:89-89 | A message of the other side missing more than a page below a known row is never stored, over any sequence of syncs, sends and arrivals |
| HiddenBacklog.TooFarIsRefused | lib/core/crypto/ratchet/double_ratchet.dart:208-219 | A message more than 1000 ahead of what was received, or of a chain begun that far ahead, is refused whatever is drawn |
| HiddenBacklog.GapBlocks | lib/core/crypto/ratchet/double_ratchet.dart:217-219 | A reachable world with a properly sealed message too far ahead: it blocks its conversation although another state would open it |
| HiddenBacklog.NothingEverStored | lib/services/messaging/messaging_service.dart:81-107 | If all that can still be read is out of the ratchet's reach, nothing is ever stored and the receiving side never moves, over any sequence of syncs and sends |
| HiddenBacklog.SentOverUnread | lib/services/messaging/messaging_service.dart:33-53 | A reachable world: any unread rows of the other side, and this device's message committed, transmitted and stored behind them |
| HiddenBacklog.BacklogBlocksForGood | lib/services/messaging/messaging_service.dart:89-89 | After a message sent over an unread chain of 1200 messages or more, nothing the other side has sent or sends later is ever stored |
| HiddenBacklog.BacklogCanBlock | lib/services/messaging/messaging_service.dart:33-53 | Any such unread chain leads to such a world |
| MessagingUse.KeepSyncing | lib/ui/screens/home/home_shell.dart:31-40 | A conversation synced any number of times, with arrivals, retries, sends and syncs of others in between, is a history as the rows above suppose; only syncs and sends step its session, and without sends only syncs |
| MessagingUse.RunOnlySends | lib/services/messaging/ratchet_message_codec.dart:42-58 | A run that receives nothing in a conversation does nothing to its session but send in it |
| TwoAccounts.PayloadsAgree | lib/services/messaging/messaging_service.dart:33-106 | In every run of two accounts over one server, with any crashes, retries and delays, a stored message of the other side has exactly the payload its sender committed |
| TwoAccounts.OpensIffFits | lib/services/messaging/ratchet_message_codec.dart:60-75 | There a pending row of the other side opens from the state in use exactly if what it makes the ratchet set aside fits the two limits |
| TwoAccounts.RowCommitsIffFits | lib/services/messaging/messaging_service.dart:93-106 | So a sync can commit the row exactly then |
| TwoAccounts.RowBlocksIff | lib/services/messaging/messaging_service.dart:93-106 | And as the first that is pending it blocks the conversation exactly otherwise |
| TwoAccounts.KeepingUpCommits | lib/services/messaging/messaging_service.dart:93-106 | Once the other side's earlier messages are stored, its next one can always be committed, however delayed or retried |
| TwoAccounts.EndToEnd | lib/services/messaging/messaging_service.dart:55-106 | From every reachable world a pending message that fits can be got to the other side, with its payload |
| TwoAccounts.EachIsReachable | lib/services/messaging/messaging_service.dart:33-106 | What each of the two does is a run of the messaging protocol |
| SerialQueue.Queue.Submit | lib/services/messaging/messaging_service.dart:19-23 | A submission joins at the end and disturbs nothing |
| SerialQueue.Queue.TryStart | lib/services/messaging/messaging_service.dart:20-20 | An operation starts exactly when all before it have ended, returned or thrown |
| SerialQueue.Queue.Finish | lib/services/messaging/messaging_service.dart:20-21 | Returning and throwing alike settle the operation and touch no other |
| SerialQueue.NeverTwoRunning | lib/services/messaging/messaging_service.dart:19-23 | Two operations never run at the same time |
| SerialQueue.OldestCanProceed | lib/services/messaging/messaging_service.dart:21-21 | A failed operation does not block: the oldest unsettled one runs or may start |
| SerialOperations.OperationsAreSerial | lib/services/messaging/messaging_service.dart:19-23 | Operations submitted, started, acting and ending in any interleaving, with rows arriving at any time, make one run of the protocol in which no operation acts after a later one |
| SerialOperations.OneAfterTheOther | lib/services/messaging/messaging_service.dart:19-23 | There is one world between each operation and the next, and each leads from one to the other by its own steps and what arrives meanwhile |
| RatchetCodec.EnvelopeBindsMetadata | lib/services/messaging/ratchet_message_codec.dart:39-75 | An envelope opens to its payload for exactly the conversation, message id and sender it was sealed for |
| CodecRatchet.SuiteBindsMetadata | lib/services/messaging/ratchet_message_codec.dart:39-47 | The authenticated bytes, JSON text then header, determine the three metadata strings, as the row above assumes, and the bytes of the header |
| JsonText.LiteralBack | lib/services/messaging/ratchet_message_codec.dart:39-40 | A JSON string literal as it is written is read back, by the rules of section 7 of RFC 8259, to the string and to what follows it |
| RatchetCodec.SessionStartsIff | lib/services/messaging/ratchet_message_codec.dart:25-29 | A new session starts exactly for an identity of "05" and 64 lower-case hexadecimal digits whose key agreement is not all zeros |
| JsonText.QuoteInjective | lib/services/messaging/ratchet_message_codec.dart:39-40 | So no two strings are written alike, whatever follows them |
| LocalStore.OutboxKeysAreNotSessionKeys | lib/core/database/local_database.dart:264-272 | An outbox entry of a UUID never lands on a session entry |
| LocalStore.SessionIdInjective | lib/services/messaging/ratchet_message_codec.dart:22-22 | Different (conversation, identity) pairs have different sessions |
| LocalStore.LocalDatabase.CommitReceivedMessage | lib/core/database/local_database.dart:247-256 | Row and ratchet state are written together or not at all, wherever the transaction is cut |
| LocalStore.LocalDatabase.CommitOutgoingMessage | lib/core/database/local_database.dart:260-273 | Row, ratchet state and outbox envelope are written together or not at all |
| LocalStore.LocalDatabase.CommitMessageSent | lib/core/database/local_database.dart:276-283 | The row is updated and its outbox entry removed together or not at all |
| LocalStore.LocalDatabase.GetMessages | lib/core/database/local_database.dart:285-306 | All rows of the conversation, once each, in time order |
| MessageServer.Server.Post | backend/server/src/routes.ts:367-395 | Inserts exactly on a new id; accepts exactly when the stored row agrees on sender, conversation and content; otherwise changes nothing |
| MessageServer.Server.GetMessages | backend/server/src/routes.ts:426-470 | Of the rows with a (sent_at, id) before the cursor row's, or with an earlier time than the time cursor, the newest, oldest first; none for an unknown cursor; fifty when no limit or 0 is asked for, otherwise the limit between 1 and 200 |
| MessageServer.CursorCuts | backend/server/src/routes.ts:457-458 | The comparison of (sent_at, id) pairs, equal times included, selects exactly the rows above the cursor row |
| MessageServer.TimeCursorSkipsTies | backend/server/src/routes.ts:457-463 | A time cursor taken from a row selects the same as that row's id cursor exactly if no row before it has the same time; otherwise it skips those that do |
| MessageServer.PageByOrder | backend/server/src/routes.ts:457-470 | A page is ascending and holds only rows before the cursor; a row before the cursor left out of it is older than all of it, and then the page is full |
| MessageServer.PageBeforeKnownRow | backend/server/src/routes.ts:457-470 | In the order of (sent_at, id), ties in time included, a cursor page is what it was whatever has been inserted after it since |
| MessageServer.InConversationTable | backend/server/src/routes.ts:447-469 | A conversation's rows are strictly ordered by (sent_at, id) and have unique ids |
| DoubleRatchet.Session.constructor | lib/core/crypto/ratchet/double_ratchet.dart:60-119 | The role-split start: the responder's sending chain is dead until its first send |
| DoubleRatchet.Session.Encrypt | lib/core/crypto/ratchet/double_ratchet.dart:148-190 | The in-place step is the functional one: first-send ratchet, header, key, chain advance; refused exactly from the counter 2^32 on |
| DoubleRatchet.Session.Ratchet | lib/core/crypto/ratchet/double_ratchet.dart:233-278 | The rest of the old chain staged, then both chains reseeded |
| DoubleRatchet.Session.Decrypt | lib/core/crypto/ratchet/double_ratchet.dart:198-229 | Cache, then DH step, then duplicate and gap guards, then staging, in this order and with these refusals; a cached key is handed out once and nothing else moves, what is passed or more than 1000 ahead on the chain being received is refused and nothing moves; and what any other refusal leaves in the object |
| DoubleRatchet.RefusalMovesOn | lib/core/crypto/ratchet/double_ratchet.dart:233-245 | A refused header can leave the object 1001 messages further on, none of which it would then answer, so callers must discard it |
| DoubleRatchet.StageOkIff | lib/core/crypto/ratchet/double_ratchet.dart:294-305 | Staging to message n succeeds exactly within both limits, counting only keys the cache does not hold yet |
| DoubleRatchet.StageToIff | lib/core/crypto/ratchet/double_ratchet.dart:294-305 | On a chain none of whose keys is cached it files exactly the keys of the messages passed over |
| DoubleRatchet.ReceiveOnChainIff | lib/core/crypto/ratchet/double_ratchet.dart:212-228 | A message at or past the counter is answered exactly within the limits of 1000 and 2000, with that message's key of the chain |
| DoubleRatchet.BundleFixesChain | lib/core/crypto/ratchet/message_keys.dart:61-97 | Without HKDF collisions, equal keys of equal number come from the same chain |
| RatchetConversation.DhStepAgrees | lib/core/crypto/ratchet/double_ratchet.dart:246-254 | Both sides of a DH step derive the same root and chain |
| RatchetConversation.LateMessage | lib/core/crypto/ratchet/double_ratchet.dart:202-207 | A message its receiver has moved past gives its key from the cache, once |
| RatchetConversation.CurrentMessage | lib/core/crypto/ratchet/double_ratchet.dart:211-228 | A message of the chain being received gives its key exactly within the limits |
| RatchetConversation.NextEpochMessage | lib/core/crypto/ratchet/double_ratchet.dart:208-228 | The first message to arrive from the peer's next chain, whatever its number, gives its key exactly within the limits |
| RatchetConversation.ReplayRefused | lib/core/crypto/ratchet/double_ratchet.dart:193-197 | A received message never yields its key again |
| RatchetDelivery.RunInv | lib/core/crypto/ratchet/double_ratchet.dart:148-278 | Over every run both parties stay consistent with one history of chains: every passed message is received or cached, never both |
| RatchetDelivery.AnyOrderDelivery | lib/core/crypto/ratchet/double_ratchet.dart:193-229 | In every run a message not yet received yields the key it was encrypted under, in any order, if and only if what it makes the receiver set aside fits the limits; otherwise the refusal is one of the two limit errors |
| RatchetDelivery.NothingMissingFits | lib/core/crypto/ratchet/double_ratchet.dart:193-229 | Where every earlier message of the sender has been received, the next one always fits |
| RatchetDelivery.NoReplay | lib/core/crypto/ratchet/double_ratchet.dart:193-207 | In every run no message is accepted twice |
| RatchetDelivery.ReplayAnsweredIff | lib/core/crypto/ratchet/double_ratchet.dart:193-229 | In every run the ratchet itself answers a replay exactly when it is of an older chain than the one being received and what it makes the code set aside fits; otherwise it refuses, and no answer is accepted |
| RatchetExample.OldReplayIsAnswered | lib/core/crypto/ratchet/double_ratchet.dart:193-217 | A run of six steps after which the ratchet answers the first message again, with a key that is not its own |
| RatchetExample.LawsHold | lib/core/crypto/ratchet/double_ratchet.dart:60-119 | The laws the theorems assume of the primitives hold of a concrete choice |
| RatchetDelivery.HeadersAreUnique | lib/core/crypto/ratchet/double_ratchet.dart:158-166 | In every run no two messages share a header, and the cache keeps its bound |
| DoubleRatchetSession.Session.RatchetSendChain | lib/core/crypto/chhaya_crypto_engine.dart:279-289 | A message key and the next chain key, or nothing changed where the source throws |
| DoubleRatchetSession.Session.RatchetReceiveChain | lib/core/crypto/chhaya_crypto_engine.dart:292-303 | The same on the receiving side |
| DoubleRatchetSession.Session.PerformDhRatchetStep | lib/core/crypto/chhaya_crypto_engine.dart:306-325 | Receiving chain from the old key pair, sending chain from the new one |
| DoubleRatchetSession.TurnKeepsLockstep | lib/core/crypto/chhaya_crypto_engine.dart:306-325 | A step keeps one party exactly one root derivation ahead and makes the stepper's receiving chain the peer's sending chain |
| DoubleRatchetSession.KeysAgree | lib/core/crypto/chhaya_crypto_engine.dart:279-325 | Over every alternating run the n-th key received on a chain is the n-th key sent on it |
| RelayPath.GetOptimalPath | backend/server/src/onion-relay.ts:214-231 | Active nodes, no region twice and none of the excluded region; as many as asked for or as there are such regions (all of them below 1 hop); no path of that kind and length costs less, in total or pick by pick |
| RelayPath.Walk | backend/server/src/routes.ts:541-554 | Over any sorted order, however ties fall, each pick is the cheapest node of a region not used yet |
| RelayPath.GreedyIsOptimal | backend/server/src/onion-relay.ts:214-231 | No region-distinct eligible path of that length has a smaller latency/reliability sum |
| RelayPath.PickwiseOptimal | backend/server/src/onion-relay.ts:214-231 | The i-th pick costs at most the i-th cheapest node of any such path |
| RelayPath.DiversePathLength | backend/server/src/onion-relay.ts:221-228 | No region-distinct eligible path is longer than the number of eligible regions |
| RelayPath.ClientPath | lib/services/network/onion_router_service.dart:115-143 | As many distinct nodes as asked for if there are; the diverse promise kept if and only if there are enough eligible regions or nothing to fill up with; its greedy part is optimal, and each node filled in is the cheapest left |
| RelayPath.FillRepeatsRegion | lib/services/network/onion_router_service.dart:133-141 | Two nodes of one region and two hops give a path that repeats the region |
| CallSignalling.CallService.OnIceCandidate | lib/services/call/call_service.dart:139-143 | A candidate is sent, or kept until the peer has answered |
| CallSignalling.CallService.HandleAnswer | lib/services/call/call_service.dart:173-177 | All kept candidates go out, in order |
| CallSignalling.CallService.HandleCandidate | lib/services/call/call_service.dart:181-183 | Dropped outside the call, handed on once the remote description is set, else buffered |
| CallSignalling.CallService.Flush | lib/services/call/call_service.dart:120-123 | Every buffered candidate is handed over once, and so is each that is handled while the flush waits |
| CallSignalling.CallService.Accept | lib/services/call/call_service.dart:112-123 | Refused during a call; otherwise everything buffered before or handled meanwhile has been handed over once |
| CallSignalling.StepConserves | lib/services/call/call_service.dart:112-184 | Every step of either side or the network keeps the multiset equation of both directions |
| CallSignalling.CandidatesAreConserved | lib/services/call/call_service.dart:112-184 | Over every run: generated = outbox + in flight + buffered + added, in both directions; none added before the remote description; the callee's buffers are empty at the flush |
| CallSignalling.EveryCandidateArrives | lib/services/call/call_service.dart:112-184 | After the answer, with nothing in flight, each side was given exactly the other's candidates |
| Stego.EmbedPixel | lib/services/crypto/stego_service.dart:31-40 | The channel loop puts the next up to three bits into R, G, B |
| Stego.EmbedMessage | lib/services/crypto/stego_service.dart:11-47 | Refused exactly when the payload does not fit; then the image is unchanged, else every pixel is its embedding |
| Stego.PayloadFormat | lib/services/crypto/stego_service.dart:15-15 | What is embedded is the number of code units in four bytes, the highest first, then each code unit modulo 256 |
| Stego.InsideImage | lib/services/crypto/stego_service.dart:56-60 | Division and remainder address the same channel the nested loops reach at that bit |
| Stego.EmbeddedAt | lib/services/crypto/stego_service.dart:56-64 | Channel idx carries bit idx; only least significant bits differ; channels past the payload are untouched |
| Stego.ReadBytes | lib/services/crypto/stego_service.dart:65-84 | The shift-and-OR loops gather exactly the bytes of the image's low bits |
| Stego.ExtractMessage | lib/services/crypto/stego_service.dart:50-86 | The answer and every refusal as a function of the low bits |
| Stego.ExtractedIs | lib/services/crypto/stego_service.dart:65-85 | Of the low bits, the first 32 are a length; too few bits, a length above 100000 and a length past the capacity are each refused as such, and nothing else is |
| Stego.RoundTrip | lib/services/crypto/stego_service.dart:11-86 | Extraction after embedding gives each code unit modulo 256, if and only if the message has at most 100000 code units |
| Stego.EmbedThenExtract | lib/services/crypto/stego_service.dart:11-86 | For every image and every message: the image was too small, or the message too long and refused at extraction, or each code unit comes back modulo 256, those below 256 as they were |
| FileChunks.SplitFile | lib/services/network/decentralized_file_client.dart:70-90 | Refused exactly above 200 MiB; otherwise one encrypted chunk per slice, with the manifest that describes them |
| FileChunks.SplitIs | lib/services/network/decentralized_file_client.dart:70-90 | So many chunks of four mebibytes, at least one; each numbered, holding the encryption of exactly its stretch of the file and the digest of that; and the manifest with the file's size and digest and the chunks' digests in order |
| FileChunks.ChunkNonces | lib/services/network/decentralized_file_client.dart:64-83 | Each chunk's nonce is twelve bytes of the digest of the key and the chunk's number in four bytes, the lowest first; no two chunks of a file hash the same text |
| FileChunks.SlicesPartition | lib/services/network/decentralized_file_client.dart:74-81 | The slices have no gap and no overlap, are full but the last, and none is empty unless the file is |
| FileChunks.SortRestoresOrder | lib/services/network/decentralized_file_client.dart:93-93 | Sorting by index restores the order of any permutation |
| FileChunks.ReassembleFile | lib/services/network/decentralized_file_client.dart:92-109 | Count, hash loop, decryption, buffer, truncation and file hash, each with its refusal |
| FileChunks.VerdictIs | lib/services/network/decentralized_file_client.dart:92-109 | Which refusal is given exactly when, and what is given back otherwise |
| FileChunks.RoundTrip | lib/services/network/decentralized_file_client.dart:70-109 | Every file, empty and exact multiples included, comes back from any permutation of its chunks |
| FileChunks.SplitThenReassemble | lib/services/network/decentralized_file_client.dart:70-109 | The same of the two methods one after the other, with any reordering in between |
| FileChunks.AcceptedIsOriginal | lib/services/network/decentralized_file_client.dart:92-109 | Whatever is accepted under a file's manifest is that file, from that file's ciphertexts |
| FileChunks.TamperedChunkIsNamed | lib/services/network/decentralized_file_client.dart:95-99 | The first chunk whose ciphertext differs is the one reported |
| FileChunks.NonceInputsDiffer | lib/services/network/decentralized_file_client.dart:64-68 | Different chunk indices below 2^32 hash different texts into their nonces |
| OnionLayers.WrapMessage | lib/services/network/onion_router_service.dart:182-221 | Refused exactly above 508 bytes; otherwise the padded content under one layer per node, innermost last node first |
| OnionLayers.WrappedLength | lib/services/network/onion_router_service.dart:202-211 | Each layer costs 28 bytes |
| OnionLayers.PeeledSoFar | lib/services/network/onion_router_service.dart:223-238 | After k peels along the path exactly the first k layers are gone and the route is the path from k on |
| OnionLayers.RouteLocally | lib/services/network/onion_router_service.dart:278-300 | The hop-by-hop fallback is the fold of the peels followed by the extraction, first failure included |
| OnionLayers.RefusedAtFirst | lib/services/network/onion_router_service.dart:223-238 | Routing ends at the first node whose layer is too short or does not authenticate, with that refusal |
| OnionLayers.RoutedIff | lib/services/network/onion_router_service.dart:278-300 | A packet gets past n nodes exactly if each of their layers opens under the key presented |
| OnionLayers.ExtractIff | lib/services/network/onion_router_service.dart:240-258 | Of a padded payload exactly the well-formed text its header measures is handed out, and otherwise it is refused |
| OnionLayers.ExtractOtherIff | lib/services/network/onion_router_service.dart:240-258 | A payload of any other length is never refused: a well-formed text of fewer than 512 bytes that its header measures, and otherwise the whole payload read leniently |
| OnionLayers.RoundTrip | lib/services/network/onion_router_service.dart:182-258 | For every path and content: 512+28n bytes, no layer and no route left after n peels, the content back |
| OnionLayers.WrapThenRoute | lib/services/network/onion_router_service.dart:261-300 | Wrapping and hop-by-hop peeling deliver any content that fits along any path, and refuse any other |
| SwarmRelay.Relay.Upload | backend/relay/src/main.rs:77-99 | Refused exactly over capacity; otherwise stored, counted only under a new id |
| SwarmRelay.Relay.Fetch | backend/relay/src/main.rs:101-120 | Not found; expired and removed; or, while the time to live has not passed and downloads are left, served and counted |
| SwarmRelay.Relay.Collect | backend/relay/src/main.rs:122-128 | Exactly the chunks past their time to live or without downloads left go, and their sizes, in any order of the map |
| SwarmRelay.StoredExactIff | backend/relay/src/main.rs:95-96 | Storing keeps the counter exact if and only if a re-upload keeps its length |
| SwarmRelay.FetchedExact | backend/relay/src/main.rs:104-110 | Fetching keeps it exact, and the saturating subtraction does not saturate |
| SwarmRelay.CollectedExact | backend/relay/src/main.rs:122-128 | So does garbage collection |
| SwarmRelay.CounterIsExact | backend/relay/src/main.rs:77-128 | Over every run of length-keeping uploads, fetches and collections the counter is the sum of stored sizes |
| SwarmRelay.LongerReuploadLosesBytes | backend/relay/src/main.rs:95-96 | Otherwise it can be 0 with a chunk stored |
| SwarmRelay.CounterOvershoot | backend/relay/src/main.rs:85-96 | With P uploads of at most S bytes under way at once the counter never exceeds max_bytes + (P-1)*S |
| SwarmRelay.EachUploadServedAtMost | backend/relay/src/main.rs:101-120 | Over every run each upload is served at most max_downloads times, and an id serves its latest upload |
| SwarmRelay.ServedIff | backend/relay/src/main.rs:29-120 | Over every run a fetch is served exactly if at most its time to live has passed since the id's latest upload was made and it has been served fewer times than allowed; then its data is what is served |
| KeyManager.PrefixIsContact | lib/core/crypto/key_manager.dart:129-133 | A contact's prefix matches exactly that contact's session paths |
| KeyManager.SessionPathInjective | lib/core/crypto/key_manager.dart:129-133 | Session paths determine contact and device |
| KeyManager.Manager.ZeroizeCache | lib/core/crypto/key_manager.dart:291-301 | Every cached secret is wiped and forgotten, and no array outside the cache is touched |
| KeyManager.Manager.StoreKeyPair | lib/core/crypto/key_manager.dart:156-162 | The cache is dropped and both halves stored; the caller's arrays are unchanged |
| KeyManager.Manager.GetKeyPair | lib/core/crypto/key_manager.dart:165-177 | The last stored pair, in fresh arrays that are not the cache's |
| KeyManager.Manager.CacheSessionKey | lib/core/crypto/key_manager.dart:274-281 | A copy is cached under the path, and no other entry changes |
| KeyManager.Manager.GetCachedSessionKey | lib/core/crypto/key_manager.dart:284-287 | A fresh copy of the cached key |
| KeyManager.Manager.RotateSessionKey | lib/core/crypto/key_manager.dart:404-420 | Entries under the contact's prefix are wiped and gone, all others stay; the epoch stored and answered is one more than the stored one, or 1 |
| KeyManager.Manager.RotateTimes | lib/core/crypto/key_manager.dart:404-420 | n rotations of a contact answer the n numbers after its epoch, and leave every other contact's epoch and the identity alone |
| KeyManager.RotationDropsExactly | lib/core/crypto/key_manager.dart:404-413 | Those are exactly that contact's entries |
| KeyManager.CallerWipesItsCopy | lib/core/crypto/key_manager.dart:165-177 | A caller wiping what it was given, and the cache being wiped, do not disturb each other |
| KeyManager.Manager.RotateIdentity | lib/core/crypto/key_manager.dart:338-390 | An announcement signed by the old key, the new seed stored, the epoch bumped |
| KeyManager.RotationsChain | lib/core/crypto/key_manager.dart:338-390 | n uninterrupted rotations raise the epoch by n, each announcement names its new key and time and verifies under the key the previous one announced |
| KeyManager.PayloadBinds | lib/core/crypto/key_manager.dart:362-364 | What is signed determines both keys and the time |
| KeyManager.ChangedAnnouncementIsRefused | lib/core/crypto/key_manager.dart:75-81 | Under the old key an announcement's signature verifies for its own keys and time and for no others |
| SignallingIndex.Server.Join | backend/server/src/signaling.ts:133-148 | The connection is entered in both tables |
| SignallingIndex.Server.Disconnect | backend/server/src/signaling.ts:168-181 | The connection leaves both tables, and an emptied user set goes |
| SignallingIndex.Server.Cleanup | backend/server/src/signaling.ts:183-191 | Exactly the connections pinged within 60 s remain, and the index stays right |
| SignallingIndex.Server.Broadcast | backend/server/src/signaling.ts:199-207 | Exactly the user's connections are visited, each once |
| SignallingIndex.JoinIndexedIff | backend/server/src/signaling.ts:143-148 | A join keeps the index right if and only if the connection is new or stays with its user |
| SignallingIndex.IndexIsRight | backend/server/src/signaling.ts:133-191 | Over every run in which no connection changes its user: listed under a user exactly if connected as that user, and no empty set |
| SignallingIndex.CleanupKeepsIff | backend/server/src/signaling.ts:183-191 | Over every run a cleanup keeps a connection exactly if it joined or ponged at most 60 s before, in whatever order connections are visited |
| SignallingIndex.RejoinAsAnotherUser | backend/server/src/signaling.ts:143-148 | Otherwise a connection stays listed for its old user even after it is gone |
| IdentityChallenge.Server.Issue | backend/server/src/identity-proof.ts:6-28 | All-zero agreements are refused; otherwise expired rows go, the row is inserted for two minutes and the challenge answered |
| IdentityChallenge.Server.Consume | backend/server/src/identity-proof.ts:29-34 | An attempt that fits a live challenge deletes it whatever the proof, and is answered whether the hashes agree; any other attempt changes nothing |
| IdentityChallenge.SucceedsIff | backend/server/src/identity-proof.ts:29-34 | Over every run an attempt succeeds exactly if the challenge was issued for its key, device and purpose, has not expired, the proof has the issued hash, and no earlier attempt in time had the same key, device and purpose, right proof or not |
| IdentityChallenge.AttemptUsesUp | backend/server/src/identity-proof.ts:29-34 | After an attempt in time with the challenge's own key, device and purpose, no later attempt on it succeeds, over any further run |
| IdentityChallenge.SucceedsOnceAndInTime | backend/server/src/identity-proof.ts:29-34 | Over every run a challenge succeeds at most once, for its own key, device and purpose, before expiry, with a proof of the issued hash |
| IdentityChallenge.PurgingIsInvisible | backend/server/src/identity-proof.ts:22-22 | Purging expired rows changes no later answer |
| IdentityChallenge.BothSidesAgree | lib/services/auth/identity_challenge_proof.dart:11-28 | The client's proof hashes to what the server stored |
| IdentityChallenge.ProvesIff | lib/services/auth/identity_challenge_proof.dart:15-27 | The client answers exactly challenges of the right form whose server key agrees on more than zeros, with the authenticated transcript of purpose, challenge, device, both keys and nonce |
| IdentityChallenge.HonestAttemptSucceeds | backend/server/src/identity-proof.ts:20-34 | An honest client's first attempt in time succeeds, whatever happens to other challenges in between |
| IdentityChallenge.TranscriptInjective | backend/server/src/identity-proof.ts:15-15 | Fields without a bar can be read back from the transcript |
| IdentityChallenge.ProofAnswersOneChallenge | backend/server/src/identity-proof.ts:15-16 | An accepted proof was made for this purpose, challenge, device, key and nonce |

## Left out

- MessagingService.Service.Send: the message id is a parameter that must be a fresh UUID, and the time of the call is one; the conversation list's metadata, disappearing timers and profile loading are not modelled.
- MessagingService.Service.Sync: lastMessage, muted and pinned flags and the returned list are not modelled; the receipt flags the server reports for a row are arbitrary.
- MessageServer.Server.Post: rows are inserted in the order of (sent_at, id): the clock never runs backwards, and of two rows of equal time the one with the smaller id comes first; message type, media, reply, conversation timestamp and push notification are not modelled.
- MessageServer.Server.GetMessages: the join with display names and deleted rows are not modelled.
- MessagingProtocol.StepKeepsInv: the account has one device; a row of the account that reached the server from another device is excluded.
- SerialOperations.OneAfterTheOther: what an operation does while it runs is any sequence of its steps; that each operation of the client is such a sequence is what `MessagingService` proves.
- TwoAccounts.OpensIffFits: the two write in one direct conversation; third parties and forged rows are the subject of the one-account theorems. Random draws do not collide.
- SyncHistory.BlockedForGood: with more than fifty pages missing, a sync starts above the row that blocks; what it then opens is not followed.
- LocalStore.LocalDatabase.GetMessages: rows that do not decrypt or parse are not modelled; encryption at rest is the identity.
- RatchetCodec.EnvelopeBindsMetadata: authenticated encryption, UTF-8 without loss and headers of 44 bytes are assumed; the SPQR epoch key that TripleRatchet mixes in deterministically from the header is not modelled.
- RatchetDelivery.AnyOrderDelivery: headers come from the peer; a forged header fails authentication and its state is discarded, which is not modelled. Random draws do not collide.
- DoubleRatchet.Session.Decrypt: wiping of replaced keys is not modelled.
- Stego.ExtractMessage: PNG coding is not part of this model; an image too small for the header, where the pixel library fails, is an explicit refusal.
- FileChunks.ReassembleFile: the library sort is any sort; a digest stands for its hexadecimal text.
- OnionLayers.WrapMessage: content is given by its UTF-8 bytes.
- SwarmRelay.Relay.Upload: base64 decoding and the counter's 64-bit width are not modelled; the method itself runs undisturbed, and interleaved checks and commits are the machine of `CounterOvershoot`.
- KeyManager.Manager.StoreKeyPair: the two writes are not interrupted; recovery phrase, derivation paths and deletion of accounts are left out as easy.
- KeyManager.RotationsChain: rotations interrupted between the writes of seed and epoch are not modelled.
- SignallingIndex.Server.Join: authentication and membership queries before it, and sockets, are not modelled.
- IdentityChallenge.Server.Issue: random values are parameters, and HTTP registration is not modelled.
- CallSignalling.CandidatesAreConserved: one call between two single-client users; glare, rejection, ending and several devices are not modelled.
- Relay health checks, the Go node, the engine's base64 payload formats, deletion of messages and backup restore, the user interface and platform code are not modelled.
