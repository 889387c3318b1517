# signal-ai: membership log, relay and client, verified

This project models the parts of signal-ai that decide who may speak in a conversation and whether
messages arrive, and proves what they guarantee. All Dafny files form one project
(`dafny verify dfyconfig.toml`).

| file | models |
|---|---|
| `Common.dfy`, `ByteStrings.dfy`, `Ops.dfy` | results, bytes, big-endian integers, hex; the op; foreign calls |
| `Canonical.dfy`, `Decoding.dfy`, `CanonicalCursor.dfy` | the canonical codec: field list, suffix parser, and the `Writer`/`Reader` classes that implement them |
| `WireFormat.dfy` | the wire format written out in literals, against which the codec and the preimages are proved |
| `Hashing.dfy`, `Chain.dfy` | preimages and collisions; `verifyChain`, `fold`, heads, agreement of chains |
| `Log.dfy`, `Gate.dfy`, `Service.dfy` | `MembershipLog`, the receiver gate and its runs, the authoring service |
| `ClientView.dfy`, `Client.dfy` | a client's persisted op lists, rebuilt logs, roster, incoming envelopes, JSON form |
| `Propagation.dfy` | author, relay op store and receivers as a step system |
| `Mailbox.dfy`, `Delivery.dfy` | the envelope table with its clients; live pushes against the connect-time drain |
| `Session.dfy`, `ContextWindow.dfy`, `RateLimits.dfy` | the promise-chain mutex, the agent's context window, the two limiters |

How the model is set up:

- SHA-256, signature verification, UTF-8 decoding and base64 are fields of the parameter `Platform`,
  signing is a parameter of the service, and nothing is assumed of them except where a `requires`
  says so (`RepairsText`: decoded text is well formed; `Base64Inverts`; `SignerOk`: signatures verify;
  `SignsOnce`: the founder's accepted signatures cover at most one body per position, which is
  unforgeability plus the single writer).
- No hash is assumed injective. Results that rest on the hash end in "or the chains clash", where a
  `Clash` is two concrete ops of those very chains with one hash; `CollisionIsExplicit` turns it into
  two distinct byte strings.
- Text is identified with its UTF-8 bytes, so a JavaScript string with a lone surrogate is identified
  with the text that its encoding decodes to.
- A `throw` is a failed outcome, `None`, `null` or `false`, with the unchanged state in the contract.
  Where several checks would throw, which of them throws first is not distinguished.
- A chain provider may answer differently on each call, so the gate takes its two possible answers.
- Time, randomness, ciphertext outcomes and the order of events are inputs of the runs.

Where the code does less than its documentation says, the model follows the code:

- A joiner with an out-of-band pin above position 0 and an empty list can never catch up over the
  wire: ops arrive one at a time and every list that does not yet reach the pin is rolled back
  (`PinnedJoinerStalls`; `DrainResult` gives the exact condition). `packages/membership/src/log.ts:103-107`
  expects the full chain in one call.
- A drain does not always end with the relay's list: the relay fans out ops that it did not store, so
  a receiver may be ahead, and `DrainResult` says "the longer of the two".
- `syncOwnMembershipChain` appends without verifying. If a forged genesis arrived first, the author's
  own list stops verifying; `SyncExact` says when.
- The lockout's comment speaks of failures "within the window"; the code never forgets a failure
  until a lock expires or a correct code arrives. `WrongCodesBounded` holds all the same.
- The branch of `packages/client-sdk/src/client.ts:986-988` for an unknown conversation is dead, as an
  accepted message presupposes that conversation's log.

## Model

| member | source | states |
|---|---|---|
| `ByteStrings.BytesEqual` | packages/membership/src/crypto.ts:56-61 | the or-of-xors loop decides equality of byte strings |
| `ByteStrings.ToHexInjective` | packages/membership/src/crypto.ts:51-53 | comparing hashes in hex is comparing the hashes |
| `Canonical.UnsignedUnique` | packages/membership/src/canonical.ts:190-214 | signing encodings are injective and prefix-free over all encodable ops: equal buffers with any trailing bytes come from equal bodies, null, empty string and empty array included |
| `Canonical.OpUnique` | packages/membership/src/canonical.ts:217-224 | the same for hashing/wire encodings |
| `CanonicalCursor.Writer.Put` | packages/membership/src/canonical.ts:43-48 | appends tag, 32-bit length and body, or fails and writes nothing when the length does not fit |
| `CanonicalCursor.Writer.PutUint` | packages/membership/src/canonical.ts:58-63 | fails exactly outside 0..2^64-1, else appends the 8-byte field |
| `CanonicalCursor.Writer.PutArray` | packages/membership/src/canonical.ts:73-85 | the element loop writes the array field, or fails exactly when its body does not fit 32 bits |
| `CanonicalCursor.Writer.Concat` | packages/membership/src/canonical.ts:87-89 | the chunks in order, which is everything written so far |
| `CanonicalCursor.EncodeFields` | packages/membership/src/canonical.ts:190-224 | the Writer calls produce the canonical encoding (written out in `WireFormat.OpForm`) with or without signature, and fail exactly when a field does not fit |
| `CanonicalCursor.Reader.Header` | packages/membership/src/canonical.ts:96-104 | the cursor refines the suffix parser for a header |
| `CanonicalCursor.Reader.Absent` | packages/membership/src/canonical.ts:106-110 | peeking consumes nothing; an absent header is consumed without its claimed body |
| `CanonicalCursor.Reader.Body` | packages/membership/src/canonical.ts:128-133 | refines the parser for a tagged body |
| `CanonicalCursor.Reader.Text` | packages/membership/src/canonical.ts:112-117 | refines the string parser |
| `CanonicalCursor.Reader.Uint` | packages/membership/src/canonical.ts:119-126 | refines the integer parser: length 8 and at most 2^53-1 |
| `CanonicalCursor.Reader.NullableText` | packages/membership/src/canonical.ts:135-141 | refines the nullable string parser |
| `CanonicalCursor.Reader.NullableBool` | packages/membership/src/canonical.ts:143-154 | refines the nullable boolean parser: body 0 or 1 only |
| `CanonicalCursor.Elements` | packages/membership/src/canonical.ts:164-176 | the loop over positions reads exactly `count` elements that end exactly at the field's end |
| `CanonicalCursor.Reader.NullableArray` | packages/membership/src/canonical.ts:156-177 | refines the nullable array parser |
| `CanonicalCursor.DecodeUnsigned` | packages/membership/src/canonical.ts:233-249 | reading the fields in order refines the parser of a whole body, unknown op types refused |
| `CanonicalCursor.Decode` | packages/membership/src/canonical.ts:231-253 | cursor reading plus re-encoding computes `DecodeOp`, which accepts exactly the written-out ops (`WireFormat.DecodesWireForm`) |
| `Decoding.DecodeExact` | packages/membership/src/canonical.ts:231-253 | a buffer decodes to an op if and only if it is that op's encoding and the op is wireable: round trip, and every other buffer is refused |
| `Decoding.StrictExact` | packages/membership/src/canonical.ts:92-182 | with absent fields of length zero enforced, the Reader alone accepts exactly the encodings |
| `Decoding.ReencodeCheckIsStrictness` | packages/membership/src/canonical.ts:250-251 | on well-formed text the re-encoding check adds exactly the rule that absent fields have length zero |
| `Decoding.TwinsAreRefused` | packages/membership/src/canonical.ts:135-141 | every op without subject has non-canonical buffers that the Reader takes for it, and decoding refuses them |
| `Hashing.SigningPreimageUnique` | packages/membership/src/crypto.ts:16-21 | signing preimages are injective and prefix-free |
| `Hashing.HashPreimageUnique` | packages/membership/src/crypto.ts:45-48 | hashing preimages are injective and prefix-free |
| `Hashing.DomainsSeparate` | packages/membership/src/crypto.ts:16-21 | no signing preimage equals a hashing preimage, whatever follows either |
| `Hashing.CollisionIsExplicit` | packages/membership/src/crypto.ts:45-48 | two different ops with one hash give two distinct byte strings with one hash |
| `WireFormat.U32Form` | packages/membership/src/canonical.ts:43-48 | 32-bit headers are four literal base-256 digits, most significant first |
| `WireFormat.U64Form` | packages/membership/src/canonical.ts:58-63 | positions are eight literal base-256 digits, most significant first |
| `WireFormat.HexForm` | packages/membership/src/crypto.ts:51-53 | hex is two digits of "0123456789abcdef" per byte, high half first |
| `WireFormat.NameForm` | packages/membership/src/ops.ts:10 | the op names are the texts create, invite, remove and setAiMode |
| `WireFormat.BodyForm` | packages/membership/src/canonical.ts:190-209 | for every op: the encoder fails exactly outside the wire's limits, and the signed bytes are the nine chunks with literal tags 0 to 5, literal null and mode fields, lengths and digits |
| `WireFormat.OpForm` | packages/membership/src/canonical.ts:190-224 | for every op: the wire bytes are those chunks and the signature chunk |
| `WireFormat.OpensWithName` | packages/membership/src/canonical.ts:192 | the first bytes of an op are tag 1, its name's length and its name in ASCII |
| `WireFormat.DecodesWireForm` | packages/membership/src/canonical.ts:231-253 | a buffer decodes to an op if and only if it is that op written out, its position is at most 9007199254740991 and its text is well formed; so the name at the front decides the type |
| `WireFormat.PreimageForm` | packages/membership/src/crypto.ts:16-48 | what is signed and hashed is the written-out op behind the ASCII texts signal-ai/membership-op/v1 and signal-ai/membership-hash/v1 |
| `Chain.VerifyChain` | packages/membership/src/chain.ts:61-88 | the checking loop accepts exactly the verified chains; spelled out, it refuses the empty chain, a genesis that is no create or has a nonzero link, a missing or foreign payload, a foreign conversation, a wrong position, a broken link, a signature the platform does not verify, a foreign author or key |
| `Chain.VerifiedMeans` | packages/membership/src/chain.ts:23-88 | both ways: a chain is verified iff it is a create with zero link followed by ops whose payloads, positions, links, signatures, author, key and conversation are as listed |
| `Chain.CheckLink` | packages/membership/src/chain.ts:77-81 | zero hash at genesis, hash of the previous op elsewhere; an op that cannot be hashed fails |
| `Chain.CheckWriter` | packages/membership/src/chain.ts:83-86 | author and key equal the genesis author and key |
| `Chain.FindClash` | packages/membership/src/chain.ts:61-88 | computes the highest position up to k where two chains differ, or that they agree |
| `Chain.HashChainAgreement` | packages/membership/src/chain.ts:79-81 | verified chains with the same head hash at k are identical up to k, or the computed position holds a collision |
| `Chain.VerifiedPrefix` | packages/membership/src/chain.ts:61-88 | every nonempty prefix of a verified chain verifies |
| `Chain.HeldHeadAgrees` | packages/membership/src/chain.ts:125-129 | a chain whose head another chain holds is a prefix of it, or they clash |
| `Chain.FoldLoop` | packages/membership/src/chain.ts:95-117 | the loop computes the fold |
| `Chain.FoldMembers` | packages/membership/src/chain.ts:95-117 | a user is a member iff some op adds them and no later op removes them or starts over |
| `Chain.FoldMode` | packages/membership/src/chain.ts:100-113 | the mode is the payload of the last op that sets it |
| `Chain.GenesisRoom` | packages/membership/src/chain.ts:95-104 | a verified chain starts with exactly its author and the listed members, in the mode its genesis names |
| `Chain.OpEffect` | packages/membership/src/chain.ts:95-117 | every later op of a verified chain changes exactly the one present subject or the mode that its type names; a second create starts over |
| `Chain.RemovalNeedsReAdd` | packages/membership/src/chain.ts:105-110 | a removed user is a member only through a later op that adds them |
| `Chain.GlobalAgreement` | packages/membership/src/chain.ts:61-117 | with a founder who signs one body per position, two verified chains fold alike at every common position and agree up to the last op's signature, or they clash |
| `Log.MembershipLog.Open` | packages/membership/src/log.ts:95-101 | opening succeeds exactly for admissible chains and holds the chain |
| `Log.MembershipLog.constructor` | packages/membership/src/log.ts:87-110 | an empty log whose watermark is the pinned head, if there is a pin |
| `Log.MembershipLog.CheckPin` | packages/membership/src/log.ts:130-138 | the candidate has the pinned genesis hash and holds the pinned head |
| `Log.MembershipLog.CheckWatermark` | packages/membership/src/log.ts:140-149 | regression test and fork test together say that the candidate holds the watermark |
| `Log.MembershipLog.IngestChain` | packages/membership/src/log.ts:123-159 | adopts exactly the candidates that are verified, of this conversation, above the pin and hold the watermark; the candidate replaces the chain and its head the watermark; a foreign conversation, another genesis hash, a missing pinned head or watermark fails, and a failure changes nothing |
| `Log.AdoptionTests` | packages/membership/src/log.ts:151-158 | for an admitted candidate the length test is always true and the watermark test only skips an equal head |
| `Log.IngestKeepsValid` | packages/membership/src/log.ts:123-159 | a populated log always holds a verified chain whose head is the watermark |
| `Log.IngestExtends` | packages/membership/src/log.ts:140-158 | no rewind and no fork: the adopted chain extends the held one, or they clash |
| `Log.ExtensionAdmitted` | packages/membership/src/log.ts:123-159 | a valid log adopts every verified, hashable, pin-respecting chain that extends its own, by any number of ops |
| `Log.ExtensionAcceptable` | packages/membership/src/log.ts:123-138 | for a populated log every verified, hashable extension is of its conversation and respects its pin |
| `Log.RewindRefused` | packages/membership/src/log.ts:140-149 | a shorter chain, or one with another hash at the held head, is refused and changes nothing |
| `Log.MembershipLog.CurrentHead` | packages/membership/src/log.ts:162-168 | the current head is the watermark |
| `Log.MembershipLog.Members` | packages/membership/src/log.ts:181-184 | folds the held chain, or fails on an unpopulated log |
| `Gate.EnforceInbound` | packages/membership/src/gate.ts:45-90 | accepts iff a head is cited, it lies on the chain after catch-up, and some op of that chain added the sender for good; a receiver behind the cited head then holds the provider's chain if that is a verified, hashable extension, an unpopulated one the first answer or its extension, and one that is not behind keeps its chain |
| `Gate.VerdictIgnoresCitation` | packages/membership/src/gate.ts:77-89 | any two cited heads on the chain get the same verdict and leave the log alone |
| `Gate.StepExtends` | packages/membership/src/gate.ts:54-75 | accepted or rejected, a call leaves the chain unchanged or extended, or exhibits a clash |
| `Gate.RunMonotone` | packages/membership/src/log.ts:123-159 | over every run of offers and gated messages the log stays valid and its chain only grows, or a call of the run exhibits a clash |
| `Gate.RemovalSticks` | packages/membership/src/gate.ts:45-90 | after remove(user) at r, over every run, candidates, providers and cited heads, user is accepted only if the chain re-adds them after r, or the run exhibits a clash |
| `Service.OpLogMembershipService.CreateConversation` | packages/membership/src/service.ts:76-96 | signs, stores and opens the genesis, whose room is the creator, the listed members and the mode; fails and changes nothing exactly when the op does not fit |
| `Service.OpLogMembershipService.Append` | packages/membership/src/service.ts:98-121 | succeeds exactly for a known conversation founded by this user and an op that fits; chain and log stay equal and verified; a failed append changes nothing |
| `Service.AppendEffect` | packages/membership/src/service.ts:98-133 | a successful append adds one op, which adds the user, removes the user or sets the mode and does no more; other conversations are untouched |
| `Service.OpLogMembershipService.ListMembers` | packages/membership/src/service.ts:135-145 | returns the fold of the stored chain |
| `Service.OpLogMembershipService.InviteFor` | packages/membership/src/service.ts:162-170 | for exactly the known conversations a pin with the conversation, the genesis hash and the current head |
| `Service.AppendAdmitted` | packages/membership/src/service.ts:116-119 | the log admits the appended chain iff the service's user founded the conversation |
| `Service.AuthoringRefinesPlainModel` | packages/membership/src/service.ts:76-145 | over every run of create/invite/remove/setAiMode the folded chains equal a plain member-set model, and all chains stay verified |
| `Service.AuthoringExtends` | packages/membership/src/service.ts:98-121 | a conversation that is not created again only grows |
| `Service.PinBounds` | packages/membership/src/log.ts:130-138 | a pin admits every extension of its chain and refuses every shorter chain |
| `Service.PinAdmitsLaterChains` | packages/membership/src/service.ts:162-170 | a pin admits the conversation's chain at every later time of every run without re-creation |
| `ClientView.ReceiveKeepsList` | packages/client-sdk/src/client.ts:513-534 | an arbitrary frame leaves the list extended or unchanged, and empty or verified |
| `ClientView.ReceiveAllKeepsList` | packages/client-sdk/src/client.ts:513-534 | the same over every sequence of frames, with pins changing in between |
| `ClientView.RebuildIsLongLived` | packages/client-sdk/src/client.ts:447-469 | rebuilding after a frame equals feeding the frame's longer chain to the log kept so far, refusals included |
| `ClientView.RebuildMatchesKeptLog` | packages/client-sdk/src/client.ts:447-469 | over every run under one pin the rebuilt log is the log that was kept alive |
| `ClientView.RebuildMeans` | packages/client-sdk/src/client.ts:447-469 | a list gives a log iff it decodes to a verified, hashable chain that has the pin's conversation, genesis hash and pinned head; the log's chain is the decoded list |
| `ClientView.WireRoundTrip` | packages/client-sdk/src/client.ts:450 | an op sent over the wire is the op received |
| `ClientView.SyncExact` | packages/client-sdk/src/client.ts:558-571 | after the unverified self-sync the list is verified exactly when it was as long as the author's chain or part of it, or they clash |
| `ClientView.SyncCompletes` | packages/client-sdk/src/client.ts:558-571 | syncing an empty or partial list of the author's ops yields the author's whole wire chain |
| `ClientView.SyncedGivesLog` | packages/client-sdk/src/client.ts:558-571 | the list after such a sync gives a log of the author's whole chain |
| `Client.RemovalSticksAtClient` | packages/client-sdk/src/client.ts:950-982 | with no assumption on the hash: once the list holds remove(user), whatever frames and pins arrive, a message of user is surfaced or taken for a duplicate only if the list grew by an op that re-adds them |
| `Client.HandleAll` | packages/client-sdk/src/client.ts:402-412 | over any sequence of op frames, pins and envelopes handed to the callbacks, an envelope of a user removed at the start is surfaced only if the list re-adds them after the removal; the list only grows |
| `Client.PassesExactly` | packages/client-sdk/src/client.ts:950-975 | the gate on the persisted list: it decodes to a chain the pin admits, the cited head lies on it, and some op of it added the sender for good |
| `Client.SignalAiClient.MembershipLogFor` | packages/client-sdk/src/client.ts:447-469 | gives exactly the log that the list and the pin admit, else nothing |
| `Client.SignalAiClient.HandleIncomingOp` | packages/client-sdk/src/client.ts:513-534 | decode, dense append, rebuild and roll-back leave exactly the list of `Receive`; nothing else changes |
| `Client.SignalAiClient.SyncOwnMembershipChain` | packages/client-sdk/src/client.ts:558-571 | appends exactly the wire forms of the author's ops beyond the list's length |
| `Client.SignalAiClient.AcceptInvitePin` | packages/client-sdk/src/client.ts:720-723 | stores the pin under its conversation and nothing else |
| `Client.SignalAiClient.Roster` | packages/client-sdk/src/client.ts:842-860 | exactly the relay's devices of users in the fold; empty without a usable log |
| `Client.SignalAiClient.SendTargets` | packages/client-sdk/src/client.ts:888-891 | exactly the relay's devices of fold members other than this user; none without a usable log |
| `Client.GateRoster` | packages/client-sdk/src/client.ts:845-860 | the nested loop lists exactly the devices of allowed users |
| `Client.SignalAiClient.HandleIncomingEnvelope` | packages/client-sdk/src/client.ts:920-1011 | a message is surfaced iff its id is unseen, the list decodes to a chain its pin admits, the cited head lies on that chain and some op of it added the sender for good; the other fates likewise; everything but an undecryptable envelope is acked over an open link |
| `Client.ToJson` | packages/client-sdk/src/stores.ts:137-146 | loading the saved conversations gives them back, op lists included |
| `Client.FromJson` | packages/client-sdk/src/stores.ts:160-168 | the loading loop, later entries winning and a missing op list being empty |
| `Client.LoadMeans` | packages/client-sdk/src/stores.ts:160-168 | each conversation is loaded field by field from its last entry, a missing op list as the empty one, members from their last entries |
| `Propagation.OpStore.StoreOp` | apps/node/src/index.ts:164-173 | stores exactly the next position and reports whether it did |
| `Propagation.OpStore.DrainOps` | apps/node/src/index.ts:176-179 | all stored ops with their positions, in order |
| `Propagation.NextKeepsInv` | apps/node/src/index.ts:667-686 | every step keeps relay list, frames under way and receivers' lists within the author's chain |
| `Propagation.ReceiversFollowAuthor` | packages/client-sdk/src/client.ts:513-534 | under any loss, duplication, reordering, relay restarts and pins each receiver's list is a prefix of the author's chain, and any log it gives is that prefix |
| `Propagation.DrainResult` | apps/node/src/index.ts:545-549 | a complete in-order drain leaves the longer of both lists iff there is no pin or the list reaches it; otherwise nothing changes |
| `Propagation.SendsFillRelay` | apps/node/src/index.ts:164-173 | in-order sends make the relay's list the author's, from whatever prefix it held |
| `Propagation.Converges` | apps/node/src/index.ts:545-549 | after any run, in-order sends, a drain and in-order arrival leave a device with the author's whole wire chain iff it has no pin or its list reaches the pin; otherwise its list is unchanged |
| `Propagation.PinnedJoinerStalls` | packages/membership/src/log.ts:134-137 | with a pin above position 0 an empty list stays empty whatever arrives |
| `Mailbox.MailboxStore.Enqueue` | apps/node/src/db.ts:367-391 | a fresh, larger position for each row |
| `Mailbox.MailboxStore.Drain` | apps/node/src/db.ts:394-408 | exactly the rows whose recipient is this device, in the conversations asked for and beyond the position asked for, strictly ascending |
| `Mailbox.MailboxStore.Ack` | apps/node/src/db.ts:424-437 | deletes the one matching row and counts it |
| `Mailbox.AckIsExact` | apps/node/src/db.ts:428-435 | an ack removes no row but the device's own at exactly that position |
| `Mailbox.NothingLostNothingTwice` | packages/client-sdk/src/client.ts:920-1011 | in every run a row is gone only after its client surfaced, deduplicated, refused or failed to parse it, and no message id is surfaced twice to a client |
| `Mailbox.UnackedRowWaits` | apps/node/src/db.ts:424-437 | in every run that does not take the ack of exactly its recipient, conversation and position a row stays in the table unchanged |
| `Mailbox.HandledRowCanGo` | packages/client-sdk/src/client.ts:1008-1011 | once a linked client handled a readable envelope its ack can be taken and deletes just that row |
| `Mailbox.FirstMessageSurfaces` | packages/client-sdk/src/client.ts:984-1005 | a message that passes the gate is surfaced to its recipient at once, unless its id was seen, and to nobody else |
| `Delivery.NextKeepsInv` | apps/node/src/index.ts:506-550 | every step of senders, registration, snapshot, drain, flush, resync and acks keeps the delivery invariant |
| `Delivery.ConnectTimeDelivery` | apps/node/src/index.ts:602-665 | for every interleaving, first deliveries of each sender connection are in send order without gaps, and after the flush every stored envelope has been sent or its push is still to come |
| `Delivery.QueryExact` | apps/node/src/db.ts:394-408 | the drain query finds exactly the rows not yet acked |
| `Delivery.ResyncSendsUnacked` | apps/node/src/index.ts:702-709 | a subscribe sends everything again that was unacked when it queried, whatever happens before it sends |
| `Session.Serialised` | packages/core/src/session.ts:57-68 | for every interleaving at most one call is between read and save, it holds the current record, and the record is the operations submitted to `runExclusive`, as many as have settled, applied in call order, throwing ones included |
| `Session.SaveBuildsOnRecord` | packages/core/src/session.ts:57-68 | no lost update: a save makes the record what the operation of that call makes of the record before the save |
| `Session.NeverStuck` | packages/core/src/session.ts:61-66 | a failed or finished call never blocks the next: the first unsettled call can always go on |
| `ContextWindow.EstimateTokens` | packages/client-sdk/src/stores/sqlite.ts:48-52 | ceil(chars / 4) |
| `ContextWindow.TokensRoundUp` | packages/client-sdk/src/stores/sqlite.ts:48-52 | 4 * (tokens - 1) < chars <= 4 * tokens for nonempty text, else both 0 |
| `ContextWindow.WindowMeans` | packages/client-sdk/src/stores/sqlite.ts:203-204 | at most maxMessages turns, at most 4 characters per allowed token unless one turn is left, one turn more would break a limit, and the newest turn is kept |
| `ContextWindow.LongestSuffixIsLongest` | packages/client-sdk/src/stores/sqlite.ts:203-204 | no longer suffix than the longest fitting one fits, so the window is unique |
| `ContextWindow.TrimmedIsWhole` | packages/client-sdk/src/stores/sqlite.ts:200-207 | trimming the window with the new turn equals trimming the whole history with it |
| `ContextWindow.Trim` | packages/client-sdk/src/stores/sqlite.ts:203-204 | the two loops leave the longest suffix within both limits |
| `ContextWindow.AgentStore.AppendContext` | packages/client-sdk/src/stores/sqlite.ts:200-207 | every conversation's window is always the longest fitting suffix of its whole history since the last purge; other conversations are untouched |
| `ContextWindow.AgentStore.PurgeContext` | packages/client-sdk/src/stores/sqlite.ts:210-213 | forgets that conversation's window only |
| `RateLimits.FrameLimiter.HandleFrame` | apps/node/src/index.ts:573-589 | the window and counter update, and which frames pass |
| `RateLimits.FramesBounded` | apps/node/src/index.ts:579-589 | any closed 10 s interval passes at most 2 x 200 frames |
| `RateLimits.FirstTwoHundredPass` | apps/node/src/index.ts:579-589 | within ten seconds of the window's start frame n passes iff n is at most 200 |
| `RateLimits.NewWindowPasses` | apps/node/src/index.ts:582-585 | a frame more than 10000 ms after the window's start passes and opens a window, of whose frames again exactly the first 200 pass |
| `RateLimits.InviteCodeLockout.IsLocked` | apps/node/src/auth.ts:65-73 | locked state, expiry of the entry, other addresses untouched |
| `RateLimits.InviteCodeLockout.RecordFailure` | apps/node/src/auth.ts:75-82 | counts and locks at the maximum |
| `RateLimits.InviteCodeLockout.RecordSuccess` | apps/node/src/auth.ts:84-86 | clears the address |
| `RateLimits.InviteCodeLockout.Signup` | apps/node/src/index.ts:260-267 | a locked address is turned away, otherwise the code decides; the entry changes accordingly, other addresses untouched |
| `RateLimits.WrongCodesLock` | apps/node/src/auth.ts:75-82 | from a clean address wrong codes count up to the last allowed one, which locks for the lockout time |
| `RateLimits.LockRunsOut` | apps/node/src/auth.ts:65-82 | the address is locked until the lockout time has passed, to correct codes too; then a correct code clears it and a wrong one starts a new count |
| `RateLimits.UnlockedBefore` | apps/node/src/auth.ts:65-86 | before the last allowed wrong code nothing is locked and a correct code clears the count |
| `RateLimits.WrongCodesBounded` | apps/node/src/index.ts:260-267 | over every run, a half-open lockout-length interval without a correct code evaluates at most `maxFailures` wrong codes |

## Left out

- libsignal sessions and prekeys, SHA-256, AES-GCM and scrypt, UTF-8 and base64 themselves: foreign code, kept as parameters.
- JavaScript numbers: positions are integers; a position beyond 2^53 is refused by the decoder here as there, but the loss of precision before that point is not modelled.
- `serializeInvitePin` / `parseInvitePin`: JSON parsing and field-by-field checks of a flat record.
- `listMembers` cache: device ids, join times, events and the relay's mode are bookkeeping; only the gated roster is modelled.
- `awaitChainReady`, reconnects, keepalive and timers: wall-clock polling; a late chain is an ordinary arrival here.
- REST routes, schema validation, Prisma and SQL isolation: plumbing; a table insert is atomic and its position visible at once.
- Membership changes and a second connection of the same device during the connect-time drain.
- Broadcast failures after an op was stored; the service model records what was handed to the broadcaster.
- Propagation follows one conversation; conversations do not share lists.
- Delivery.ConnectTimeDelivery: is about the relay's socket writes, so frames lost on a closing connection are covered only by the mailbox results.
- Session.Serialised: takes one read and one save per operation; libsignal's several stores are one record, and an operation that throws after a partial save is not modelled.
- Command line, terminal UI, agent cadence, LLM clients, vault retrieval and peer-to-peer transports.
