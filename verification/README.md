# Presidium core: a verified model

Presidium is a peer-to-peer messenger with end-to-end encryption. This project models the state
machines at its core in Dafny and proves what they keep over every run:

- the Double Ratchet with its skip loop, DH step and stored keys, as a mutable object and as a
  two-party system over a network that loses, reorders, replays and injects messages, with restarts;
- the five-leg hybrid PQXDH key agreement and the marker-driven handshake that runs on it, up to the
  messages delivered afterwards;
- chat sessions with the DH gate in front of the ratchet, over a network that replays and forges, and
  their persistence;
- a node that owns its handshake driver, session and group, what a restart brings back, and what two nodes
  read of what is typed at them;
- group sender keys between one sender and a reader behind an arbitrary network;
- the canonical bundle encoding, the wire frames, schema migrations, the prekey pool, message
  pagination and the accounting of outbound requests.

`dafny verify dfyconfig.toml` checks the whole project.

## How it is modelled

Cryptography is symbolic (`Terms`). A derived key is a term, so derivations are injective; a
Diffie-Hellman result is an unordered pair of secrets (section 6.1 of RFC 7748); an authenticated box
opens only under its own key, nonce and associated data (section 2.8 of RFC 8439); a signature verifies
only for its signer and message; ML-KEM decapsulation of a ciphertext made for another key gives an
unrelated secret instead of an error. Randomness, and what the network does, are parameters.

Each operation is a step function on values. The source's mutable objects are classes whose methods are
proved equal to those functions; results over runs are lemmas about the functions. `DecryptStep` is
written in closed form and the source's catch-up loop is proved against it. A `LiveNode` owns its driver,
session, ratchet and group as objects and changes them through their own methods. Structures that the
source owns by value inside an object (chains, sender keys) are values in its fields.

Behaviours of the code that shape the results, each stated as a lemma:

- A decryption that fails on the main path still advances the receiving chain and spends a key, so a
  replay or a forged box can lose a message (`Channel.ReplayLosesNextMessage`). Which messages stay
  readable is exact: by what the receiver holds before the call (`Channel.ExactVerdict`,
  `TwoParty.EveryDelivery`), and by which keys a run has spent (`Channel.ReadableIffUnspent`). A failed
  decryption also stops the node without being persisted, so that a restart forgets it
  (`NodeRestart.RestartContinues`): nodes that are started again after every error lose no message to
  replays or forgeries (`EndToEnd.TypedLinesAreRead`).
- The comment at session.rs:75-78 promises a DH step exactly when the peer rotates its key. For the
  responder the code does this (`Session.ResponderGate`). For the initiator it does not: the gate compares
  with a key that the initiator's constructor has filled in and that nothing replaces. Against a peer that
  keeps its key, the initiator refuses every reply (`Session.InitiatorGate`, `Conversation.ChatDelivery`);
  against a peer that rotates, the gate fires on every message and only the first one to arrive, with
  those below it, is ever read (`Rotation.RotatedPeerIsReadOnce`). Two-way agreement holds for ratchets that are
  stepped explicitly, one DH step per side (`TwoParty.ChainAgreement`).
- A DH step keeps the stored keys of the former chain, and they are found by index alone, so that
  completeness holds for one DH step per side (`Channel.StoredKeysShadowNewChain`,
  `Channel.FormerChainAfterStep`).
- The process sends before it persists, so a restart can come back from an older snapshot. A key is then
  reused exactly when something was encrypted since that snapshot or, if the sending chain was not derived
  yet, before the next DH step (`StaleRestart.RestartReusesKeyIffStale`).
- The conversation id of an envelope is not signed, nor is the boundary between its header and payload,
  and the envelope around a group key is not verified. None of this lets a session accept anything but
  what its peer wrote (`Conversation.ChatAcceptedWasSent`), or a group reader anything but a gapless run
  of what the sender wrote (`Group.GroupPrefixDelivery`); a payload cut by a moved boundary does spend a
  key of the receiver's.
- A prekey bundle handled twice leaves the two sides with sessions on different roots
  (`Handshake.DuplicateBundleSplitsSessions`).
- Consecutive takes from the prekey pool need not increase when smaller ids are saved in between
  (`PrekeyPool.ConsecutiveTakesIncreaseIff`).
- The associated data held by a ratchet is not used by any operation; the header alone is authenticated.

## Model

| member | source | states |
|---|---|---|
| Terms.DiffieHellmanAgrees | packages/core/presidium-crypto/src/ratchet.rs:167-168 | both ends of an exchange compute one secret, and it determines the peer's key |
| Terms.ChainsNeverCross | packages/core/presidium-crypto/src/ratchet.rs:51-64 | chain and message keys coincide only at the same position of the same chain |
| Terms.ChainsMeet | packages/core/presidium-crypto/src/keys.rs:193-203 | a chain meets the chain of any other key exactly when that key lies on it |
| Ratchet.FindSkipped | packages/core/presidium-crypto/src/ratchet.rs:272-274 | a stored key for the index is found exactly when one is stored |
| Ratchet.DoubleRatchet.Init | packages/core/presidium-crypto/src/ratchet.rs:159-186 | the initiator's state: sending chain derived, receiving chain absent, peer key filled in on both halves |
| Ratchet.DoubleRatchet.InitAsResponder | packages/core/presidium-crypto/src/ratchet.rs:189-212 | the responder's state: root as given, no chain, no peer key |
| Ratchet.DoubleRatchet.Encrypt | packages/core/presidium-crypto/src/ratchet.rs:215-266 | lazily derives the sending chain, seals under its key and index, advances it; or fails unchanged |
| Ratchet.DoubleRatchet.Decrypt | packages/core/presidium-crypto/src/ratchet.rs:269-317 | the skip loop has the closed-form effect of `DecryptStep`, in at most `Room` iterations |
| Ratchet.DoubleRatchet.DhRatchet | packages/core/presidium-crypto/src/ratchet.rs:320-345 | steps the root with the key of either half and installs the new chain where the source does |
| DhSteps.StepsMeetIff | packages/core/presidium-crypto/src/ratchet.rs:94-104 | steps of any two ratchets reach one root, and install one chain, if and only if they start from one root and make the same X25519 exchange |
| DhSteps.StepSeparatesPeers | packages/core/presidium-crypto/src/ratchet.rs:320-345 | one ratchet reaches one root towards two keys exactly when the keys are equal |
| DhSteps.StepReadsExactlyItsPeer | packages/core/presidium-crypto/src/ratchet.rs:159-345 | a stepped responder reads what an initiator encrypts, after anything else it did, if and only if both have one root and the same exchange and the message is within reach |
| DhSteps.FirstMessageNeedsTheRightStep | packages/core/presidium-crypto/src/ratchet.rs:320-345 | the initiator's first message is read if and only if the responder stepped towards the initiator's own key |
| DhSteps.BothBranchesMeet | packages/core/presidium-crypto/src/ratchet.rs:320-345 | what one branch of a step makes a ratchet write, the other branch makes its peer read |
| DhSteps.RefusedForWantOfAKey | packages/core/presidium-crypto/src/ratchet.rs:215-345 | encryption and DH step are refused exactly for want of a key, by name, and change nothing; the header shows the sender's key or the all-zero key |
| SkipLoop.DecryptStaysOnChain | packages/core/presidium-crypto/src/ratchet.rs:269-317 | whatever is decrypted, the receiving half holds keys of one chain only |
| SkipLoop.SkipLoopWork | packages/core/presidium-crypto/src/ratchet.rs:295-302 | a call pushes at most max(1, MAX_SKIP_MESSAGES + 1 - stored) keys, and that many exactly when it overflows |
| SkipLoop.SkipLoopConserves | packages/core/presidium-crypto/src/ratchet.rs:269-317 | stored keys plus main-path calls equal chain index plus overflow failures; stored keys are the chain's; the list is bounded by cap plus overflows; indices increase strictly without overflow |
| SkipLoop.ReceivingSlotStaysEmpty | packages/core/presidium-crypto/src/ratchet.rs:177-208 | in every run the receiving half holds no ratchet key of ours, so each DH step installs a receiving chain |
| Snapshot.SnapshotRoundTrip | packages/core/presidium-storage/src/session_state.rs:43-91 | live ratchet to snapshot and back; a snapshot rebuilds exactly when no chain has an index without a key |
| Snapshot.SnapshotBisimulation | packages/core/presidium-storage/src/session_state.rs:72-91 | ratchets with equal snapshots answer every sequence of operations alike and pass through equal snapshots |
| Snapshot.Restarted | packages/core/presidium-demo/src/session.rs:126-134 | a ratchet rebuilt from its own snapshot differs only in session id and associated data |
| Snapshot.RestartsAreInvisible | packages/core/presidium-demo/src/session.rs:95-134 | a run restarted at persisted points gives the outcomes of the uninterrupted run |
| Channel.FirstDelivery | packages/core/presidium-crypto/src/ratchet.rs:269-317 | the first delivery of an authentic message returns its plaintext if it is within reach and an overflow error otherwise, and coverage is kept |
| Channel.AcceptsOnlySent | packages/core/presidium-crypto/src/ratchet.rs:269-317 | on any box under any header, only what the author sealed for that index is accepted |
| Channel.SpendsCurrentKey | packages/core/presidium-crypto/src/ratchet.rs:304-316 | the main path spends the key of the current index whether or not it opens the message |
| Channel.ExactVerdict | packages/core/presidium-crypto/src/ratchet.rs:269-317 | whatever a receiver was fed before, a message of its chain is read if and only if its key is stored, or its index is not passed and is within reach; each other case has its own error |
| Channel.ReadableIffUnspent | packages/core/presidium-crypto/src/ratchet.rs:269-317 | over any run from a fresh chain a message is lost if and only if some call spent its key and no overflow stored it |
| Channel.ReplayLosesNextMessage | packages/core/presidium-crypto/src/ratchet.rs:304-316 | the failing case: a replay fails and makes the next message in order unreadable |
| Channel.StoredKeysShadowNewChain | packages/core/presidium-crypto/src/ratchet.rs:320-345 | after a further DH step a message of the new chain is read exactly when no former key is stored for its index and it is within reach |
| Channel.FormerChainAfterStep | packages/core/presidium-crypto/src/ratchet.rs:320-345 | after a further DH step a message of the former chain is read exactly when its key was stored |
| TwoParty.RunKeepsAgreement | packages/core/presidium-crypto/src/ratchet.rs:159-345 | every event of every run keeps the two-party invariant |
| TwoParty.ChainAgreement | packages/core/presidium-crypto/src/ratchet.rs:159-345 | in every interleaving a receiving chain at index j is the peer's first sending chain advanced j times, and both roots follow R0, R1, R2 |
| TwoParty.EveryDelivery | packages/core/presidium-crypto/src/ratchet.rs:215-317 | after any run, replays and injections included, the verdict on any message the peer sent, first delivery or not |
| TwoParty.OutOfOrderCompleteness | packages/core/presidium-crypto/src/ratchet.rs:215-317 | while no replay or injection has changed a ratchet, a first delivery in any order returns its plaintext exactly when the receiver has stepped and the message is within reach; always within reach up to 1001 messages |
| TwoParty.AcceptedWasSent | packages/core/presidium-crypto/src/ratchet.rs:269-317 | after any run, replays and injections included, an accepted plaintext is the one sent under that header |
| KeyUse.MessageKeysUsedOnce | packages/core/presidium-crypto/src/ratchet.rs:215-345 | whatever an initiator and a responder on one root do and are fed, any number of DH steps towards any keys and restarts at persisted points included, no (message key, nonce) pair is used twice, on one side or across both |
| StaleRestart.RestartReusesKeyIffStale | packages/core/presidium-demo/src/main.rs:252-269 | with any operations before and after a snapshot, a process that comes back from it reuses a pair if and only if it encrypted since, or, with no sending chain yet, did so before its next DH step |
| Pqxdh.KemAgreesIffKeysMatch | packages/core/presidium-crypto/src/identity.rs:370-417 | encapsulation and decapsulation agree exactly when the private key is that of the target public key |
| Pqxdh.InitiatorSucceedsIff | packages/core/presidium-crypto/src/pqxdh.rs:145-202 | the initiator succeeds exactly on a verified bundle whose KEM keys are usable |
| Pqxdh.MasterSecretInjective | packages/core/presidium-crypto/src/pqxdh.rs:103-124 | the master secret determines every leg and whether there was a fifth |
| Pqxdh.PqxdhAgreement | packages/core/presidium-crypto/src/pqxdh.rs:145-253 | prekey ids that do not match always give the named error; otherwise the responder derives the initiator's secret if and only if it holds the bundle's private keys |
| PqxdhBinding.KemKeyDeterminesIdentity | packages/core/presidium-crypto/src/identity.rs:253-265 | the KEM key of an identity determines both its halves |
| PqxdhBinding.RefusesOtherBundles | packages/core/presidium-crypto/src/pqxdh.rs:145-153 | a bundle is accepted exactly under its own identity's signature over its own content |
| PqxdhBinding.InitiatorIsBound | packages/core/presidium-crypto/src/pqxdh.rs:145-202 | the message carries the identity's own KEM key; two attempts give one secret if and only if coins, identity and ephemeral X25519 keys agree |
| PqxdhBinding.ResponderAnswersIff | packages/core/presidium-crypto/src/pqxdh.rs:204-253 | which messages a responder answers, and the error for every other |
| PqxdhBinding.ResponderIsBound | packages/core/presidium-crypto/src/pqxdh.rs:204-253 | two messages, genuine or altered, give one secret if and only if their ciphertexts and X25519 keys agree |
| Pqxdh.SessionKeysAgreeIffSecretsAgree | packages/core/presidium-crypto/src/keys.rs:50-77 | both roles derive the same root and chain keys exactly from one secret, and the three keys differ |
| Pqxdh.NewRatchet | packages/core/presidium-crypto/src/keys.rs:93-118 | a new ratchet object in the state of the role, or an error for an initiator without a peer key |
| Session.ResumeUndoesPersist | packages/core/presidium-demo/src/session.rs:95-134 | resume gives a persisted session back, and fails exactly without a usable snapshot |
| Session.RefusesOtherSignatures | packages/core/presidium-demo/src/session.rs:69-73 | only the peer's signature over the header and payload at hand is accepted; a refusal changes nothing |
| Session.ResponderGate | packages/core/presidium-demo/src/session.rs:74-86 | over every run the responder's gate fires on an accepted envelope if and only if its key differs from that of the latest one accepted before |
| Session.ResponderKeepsChain | packages/core/presidium-demo/src/session.rs:69-92 | against a constant peer key the gate fires at the first verified envelope and at no other, and the chain it installs is never replaced |
| Session.InitiatorGate | packages/core/presidium-demo/src/session.rs:74-86 | the initiator's gate fires exactly on keys other than the handshake's, so a peer that keeps its key is never read |
| Rotation.RotatedPeerIsReadOnce | packages/core/presidium-demo/src/session.rs:74-92 | against a rotated peer the initiator's gate fires on every message: the first to arrive is read and, over every run that follows, of the others exactly those below it |
| Session.ChatSession.ResumeSession | packages/core/presidium-demo/src/session.rs:110-134 | a new session object for what was stored, or the failure of `Resume` |
| Session.ChatSession.Encrypt | packages/core/presidium-demo/src/session.rs:48-66 | ratchet encryption in a signed envelope; the session changes as `SessionEncrypt` says |
| Session.ChatSession.Decrypt | packages/core/presidium-demo/src/session.rs:69-92 | header, signature, gate, then ratchet, with the state changes of each failure |
| Conversation.ChatRefinesTwoParty | packages/core/presidium-demo/src/session.rs:48-92 | every chat step, arbitrary envelopes included, is a run of the two-party ratchet, the gate standing for the responder's DH step |
| Conversation.ChatDelivery | packages/core/presidium-demo/src/session.rs:48-92 | over every chat with replays, forgeries and moved boundaries the verdict on any message: the responder reads what was written when store or reach allow; the initiator is refused every reply |
| Conversation.ChatAcceptedWasSent | packages/core/presidium-demo/src/session.rs:69-92 | over every such chat, whatever envelope a session accepts is what the peer sent at that index, with the plaintext the peer wrote |
| Group.ReadsExactlyTheNext | packages/core/presidium-crypto/src/keys.rs:151-202 | a published envelope, under any conversation id, opens exactly when the applied key lies as many positions before it as messages were accepted since |
| Group.PublishOutcome | packages/core/presidium-demo/src/group.rs:91-121 | publishing yields the next message of the latest key, with the index it was sealed under also where the 64-bit counter wraps |
| Group.RefusesOtherGroupSignatures | packages/core/presidium-demo/src/group.rs:124-134 | only the applied identity's signature is accepted, the error of every refusal, and that it changes nothing |
| Group.DistributionOpensTheFirst | packages/core/presidium-demo/src/group.rs:58-88 | applying a sender's own distribution gives the reader the sender's keys; the first message is read if and only if group and identity match |
| Group.GroupPrefixDelivery | packages/core/presidium-demo/src/group.rs:58-139 | under any network and any key distributions, genuine or not, the accepted plaintexts are a gapless run of what was encrypted from the applied key on, a prefix for an epoch's own key and nothing for a foreign one; the reader opens exactly the next message |
| GroupOrder.OwnDistributionStartsEpoch | packages/core/presidium-demo/src/group.rs:58-88 | what came with a new sender key, applied at once or after any run, puts the reader at the start of that key's messages |
| GroupOrder.InOrderReadsAll | packages/core/presidium-demo/src/group.rs:91-139 | from there, reading the messages in order accepts every one of them |
| Group.GroupChat.Create | packages/core/presidium-demo/src/group.rs:58-70 | installs fresh sender keys and returns their distribution |
| Group.GroupChat.Apply | packages/core/presidium-demo/src/group.rs:73-88 | replaces the receiver keys and the peer identity |
| Group.GroupChat.PublishMessage | packages/core/presidium-demo/src/group.rs:91-121 | seals, advances the sender, signs the envelope; fails without sender keys |
| Group.GroupChat.Decrypt | packages/core/presidium-demo/src/group.rs:124-139 | checks in the source's order and advances the receiver only on success |
| Handshake.OwnBundleAgrees | packages/core/presidium-demo/src/session.rs:169-274 | a responder's own bundle is always accepted and its owner reproduces the initiator's output |
| Handshake.GreetingIsRead | packages/core/presidium-demo/src/main.rs:435-442 | the greeting of a fresh session decrypts at the responder's fresh session |
| Handshake.HandshakeAgreement | packages/core/presidium-demo/src/main.rs:284-449 | in every fresh run no handler fails, and two sessions agree on root, conversation id, identities and ratchet keys; they are the two-party initial state after the greeting was written and, at most, read |
| Handshake.HandshakeThenChat | packages/core/presidium-demo/src/main.rs:284-487 | after every fresh handshake and every chat that follows, the verdict on each of the initiator's messages |
| HandshakeLive.HandshakeCompletes | packages/core/presidium-demo/src/main.rs:284-487 | every fresh run without losses delivers at most six messages, has one in flight until then, and ends with both sessions, the greeting read and the group key in use |
| HandshakeLive.HandshakeRunExists | packages/core/presidium-demo/src/main.rs:284-487 | such a run exists from every fresh start under any randomness |
| HandshakeLive.GreetingInFlightIsRead | packages/core/presidium-demo/src/main.rs:435-487 | in every fresh run a greeting in flight is read with the text that was written |
| HandshakeLive.HandshakeThenGroupTalk | packages/core/presidium-demo/src/main.rs:227-329 | after a finished handshake every line one node publishes to the group is read by the other in turn |
| HandshakeLive.DriversFollowSessions | packages/core/presidium-demo/src/session.rs:169-274 | in every fresh run a node with a session has recorded its peer, and no key-agreement output is left |
| EndToEnd.TypedLinesAreRead | packages/core/presidium-demo/src/main.rs:139-487 | after any handshake and any further run of both nodes, each restarted after every error, an unread message is read with the text typed if and only if it is within reach, whatever replays, forgeries and failures came between |
| EndToEnd.OnlyTypedLinesAreRead | packages/core/presidium-demo/src/main.rs:460-487 | over the same runs a text that is read was typed at the other node under that number |
| EndToEnd.TypedLinesAreSent | packages/core/presidium-demo/src/main.rs:243-269 | over the same runs each typed line goes out as one message with the next number, except before a responder has read anything |
| Handshake.DuplicateBundleSplitsSessions | packages/core/presidium-demo/src/main.rs:379-425 | after a bundle handled any number of times, the roots agree if and only if the attempt that was answered drew the same randomness as the latest one |
| Node.InitiatorHandshake.PrekeyFor | packages/core/presidium-demo/src/session.rs:169-181 | verifies, records the peer, keeps the output pending |
| Node.InitiatorHandshake.EstablishSession | packages/core/presidium-demo/src/session.rs:192-208 | consumes the pending output, in every failure too, and builds the initiator's session |
| Node.ResponderHandshake.AnswerPrekey | packages/core/presidium-demo/src/session.rs:236-274 | records the peer and builds the responder's session and its reply |
| Node.LiveNode.PeerConnected | packages/core/presidium-demo/src/main.rs:284-298 | an initiator without session asks for a bundle once |
| Node.RolesRefuse | packages/core/presidium-demo/src/main.rs:367-460 | messages for the other role or a missing session are refused, and exactly those |
| Node.BundleNamesPeer | packages/core/presidium-demo/src/session.rs:169-189 | a bundle is handled only under the signature of the identity it names, which then is the peer |
| Node.PrekeyNamesPeer | packages/core/presidium-demo/src/session.rs:236-274 | a prekey message names the peer and changes the session exactly when key agreement succeeds |
| Node.RatchetKeyRefusals | packages/core/presidium-demo/src/session.rs:192-200 | why a ratchet key is refused, in order, without a change of session |
| Node.OutputServesOnce | packages/core/presidium-demo/src/session.rs:192-193 | a key-agreement output serves for one ratchet key only |
| Node.OwnBundleDetermines | packages/core/presidium-demo/src/session.rs:228-231 | the published bundle determines identity and prekey |
| Node.LiveNode.DirectMessage | packages/core/presidium-demo/src/main.rs:357-489 | the five markers and the chat branch through the owned objects: replies, state, store and errors; new parts are fresh objects |
| Node.LiveNode.OnPrekeyMessage | packages/core/presidium-demo/src/main.rs:387-410 | the responder's driver answers, its new session is installed and persisted |
| Node.LiveNode.OnRatchetKey | packages/core/presidium-demo/src/main.rs:411-449 | the initiator's driver builds a session, which is persisted, keys the group and greets |
| Node.LiveNode.Persist | packages/core/presidium-demo/src/session.rs:95-107 | stores the current session under its conversation id |
| Node.LiveNode.OnChatMessage | packages/core/presidium-demo/src/main.rs:460-487 | decrypts with the live session, or the one resumed from the store, and persists on success only |
| Node.LiveNode.Line | packages/core/presidium-demo/src/main.rs:243-269 | encrypts a typed line and persists, or drops it without a session |
| Node.LiveNode.GroupLine | packages/core/presidium-demo/src/main.rs:227-241 | publishes to the group, or drops the line without sender keys |
| Node.LiveNode.GossipMessage | packages/core/presidium-demo/src/main.rs:305-329 | decrypts a group message, or drops it |
| NodeRestart.RestartContinues | packages/core/presidium-demo/src/main.rs:139-175 | after any run without error, a restart, also one after a chat message that failed, answers every conversation that follows as the node would have before it stopped, and leaves the same store; a responder drops the lines typed before its first message |
| NodeRestart.RestartForgetsGroup | packages/core/presidium-demo/src/main.rs:119-131 | after a restart nothing is read from or written to the group before a new key |
| NodeRestart.RestartedNodeAsksIff | packages/core/presidium-demo/src/main.rs:149-170 | a restarted node asks for a bundle exactly when it is an initiator without a stored session |
| BundleEncoding.LittleEndianRoundTrip | packages/core/presidium-crypto/src/identity.rs:469-474 | little-endian integers decode to what was encoded |
| BundleEncoding.LittleEndianDigit | packages/core/presidium-crypto/src/identity.rs:469-474 | byte i is the digit of weight 256 to the i |
| BundleEncoding.BundleBytes | packages/core/presidium-crypto/src/identity.rs:458-479 | the buffer filled in a loop is the canonical encoding |
| BundleEncoding.BundleLayout | packages/core/presidium-crypto/src/identity.rs:458-479 | the offset of every field of the canonical bytes |
| BundleEncoding.ListLayout | packages/core/presidium-crypto/src/identity.rs:473-477 | the one-time prekeys stand in their order, 1604 bytes each |
| BundleEncoding.EncodingIsInjective | packages/core/presidium-crypto/src/identity.rs:458-479 | equal bytes mean equal bundles, one-time lists of any length included |
| BundleEncoding.KemBytesRoundTrip | packages/core/presidium-crypto/src/identity.rs:322-341 | parsing succeeds exactly on 1600 bytes and is the inverse of printing |
| Frames.Stream.ReadExact | packages/core/presidium-network/src/codec.rs:76-85 | returns the bytes asked for, or fails at the end of the stream |
| Frames.Stream.ReadFrame | packages/core/presidium-network/src/codec.rs:71-87 | reads one frame off the stream, with both error cases |
| Frames.Stream.WriteFrame | packages/core/presidium-network/src/codec.rs:89-102 | appends one frame and closes, or refuses and writes nothing |
| Frames.FrameRoundTrip | packages/core/presidium-network/src/codec.rs:71-102 | a read succeeds exactly on the frame of a payload within the limit, returns it and leaves the rest; the narrowing loses nothing |
| Frames.FrameFailures | packages/core/presidium-network/src/codec.rs:71-87 | a read reports a frame too large, or an early end, exactly on such inputs |
| Frames.BigEndianOrder | packages/core/presidium-network/src/codec.rs:76-99 | the length prefix is most significant byte first |
| Frames.FramesArePrefixFree | packages/core/presidium-network/src/codec.rs:71-102 | no valid frame is a proper prefix of another |
| Migrations.FirstFault | packages/core/presidium-storage/src/database.rs:73-76 | where a run stops |
| Migrations.Connection.RunMigrations | packages/core/presidium-storage/src/database.rs:66-80 | the loop commits exactly the pending migrations before the first fault |
| Migrations.ReportIsHonest | packages/core/presidium-storage/src/database.rs:66-80 | a run reports success if and only if no pending migration failed, and then none is pending |
| Migrations.MigrationsResume | packages/core/presidium-storage/src/database.rs:66-80 | after any interrupted attempts each migration is committed at most once and in order, a retry ends where an uninterrupted run ends, and further runs change nothing |
| Pending.EventLoop.Handle | packages/core/presidium-network/src/node.rs:311-475 | the map and the emitted events after a send, a response and a failure |
| Pending.EventLoop.Run | packages/core/presidium-network/src/node.rs:302-340 | the loop leaves exactly the open sends pending and reports exactly what the run calls for, in order |
| Pending.PendingIsOpenSends | packages/core/presidium-network/src/node.rs:311-475 | the map holds exactly the latest unresolved send of each request |
| Pending.ReportsAreExpected | packages/core/presidium-network/src/node.rs:444-475 | the reports of a run are those of an independent reference: every failure, and every response to an open send |
| Pending.DeliveredIsOwnSend | packages/core/presidium-network/src/node.rs:444-456 | a delivery report carries the peer and conversation of its own send, and a second one needs another send |
| Pending.PendingAccounting | packages/core/presidium-network/src/node.rs:311-475 | sends plus stray failures equal pending plus delivered plus failed plus overwritten, always; the plain balance for unique ids resolved once |
| PrekeyPool.Oldest | packages/core/presidium-storage/src/store.rs:104-109 | the smallest one-time id, or none exactly when there is no one-time prekey |
| PrekeyPool.PrekeyStore.SavePrekey | packages/core/presidium-storage/src/store.rs:58-76 | inserts or replaces by id; the table is that of its history |
| PrekeyPool.PrekeyStore.TakeOneTimePrekey | packages/core/presidium-storage/src/store.rs:102-117 | hands out and removes the oldest one-time prekey, one never handed out before as long as no id was saved twice |
| PrekeyPool.PrekeyStore.DeletePrekey | packages/core/presidium-storage/src/store.rs:120-124 | removes by id |
| PrekeyPool.PrekeyStore.CountPrekeys | packages/core/presidium-storage/src/store.rs:90-99 | the one-time prekeys number those saved less those taken and deleted, as long as no id was saved twice |
| PrekeyPool.PoolAccounting | packages/core/presidium-storage/src/store.rs:58-124 | without id reuse no one-time prekey is handed out twice, the count balances, signed prekeys survive takes |
| PrekeyPool.LastWord | packages/core/presidium-storage/src/store.rs:58-124 | what was saved last under an id is held until deleted or, if one-time, handed out; what was deleted is gone |
| PrekeyPool.TakesIncrease | packages/core/presidium-storage/src/store.rs:102-117 | takes return increasing ids while nobody saves below an id already taken |
| PrekeyPool.ConsecutiveTakesIncreaseIff | packages/core/presidium-storage/src/store.rs:58-124 | two consecutive takes increase if and only if nothing at or below the first id was saved in between and left |
| PrekeyPool.TakesIncreaseIff | packages/core/presidium-storage/src/store.rs:58-124 | over any run all takes increase if and only if that holds at every take |
| PrekeyPool.LateSaveBreaksOrder | packages/core/presidium-storage/src/store.rs:58-117 | a late save under a smaller or equal id is handed out after the larger one, or a second time |
| Pagination.MessageStore.InsertMessage | packages/core/presidium-storage/src/store.rs:259-279 | a fresh larger id, or exactly the two constraint failures with nothing changed |
| Pagination.MessageStore.UpdateMessageStatus | packages/core/presidium-storage/src/store.rs:318-325 | changes one status and no id |
| Pagination.MessageStore.ListMessages | packages/core/presidium-storage/src/store.rs:282-298 | the newest selected rows in descending order; a selected row is left out only when the page is full of newer ones |
| Pagination.NewestMembers | packages/core/presidium-storage/src/store.rs:288-296 | the selection holds exactly the matching rows, in strictly descending id order |
| Pagination.PaginationIsExact | packages/core/presidium-storage/src/store.rs:282-298 | with inserts and updates between pages, after any number of pages the ids read are exactly the first limit * pages of those present at the first look, newest first, none twice and none skipped |
| Pagination.StorePaginationIsExact | packages/core/presidium-storage/src/store.rs:259-325 | the same for the states any calls have led a store through, at any visits in their order |

## Left out

- The primitives (X25519, ML-KEM, ML-DSA, Ed25519, HKDF, HMAC, ChaCha20-Poly1305, Argon2id) at byte level; X25519 points of low order other than the all-zero key.
- Ratchet.DoubleRatchet.Encrypt: the 64-bit chain index is unbounded here, so the overflow after 2^64 messages of one chain is not modelled.
- Group.GroupChat.PublishMessage: the sender's index wraps as in a release build; the panic of a build with overflow checks is not modelled.
- JSON and protobuf encodings: headers and messages are structured values. The signed bytes of an envelope are the bare concatenation of header and payload; what a moved boundary can yield (an unparsable header, or a genuine header over a payload that is no box) is allowed for by the network of `Conversation` and `Group`, not derived from bytes.
- Node.LiveNode.DirectMessage: dispatch is on the marker, not on the first payload byte, so a ciphertext that begins with a marker byte is not routed as a handshake message; writes of message and conversation rows are left out, and so are their errors.
- NodeRestart.RestartContinues: a handler's send and persist are one step here; what a stop between the two does to keys is stated in `StaleRestart`.
- EndToEnd.TypedLinesAreRead: each node's directory holds this one conversation; a node that resumes a session with another peer in its single session slot is not modelled.
- Group readers: a distribution is applied for the identity of one fixed session peer; a reader whose session changes peers is not modelled.
- Two-party runs with more than one DH step per side; what a further step does to the stored keys is stated for one receiver in `Channel`.
- Thin wrappers whose round trips follow from the box: `crypto_box.rs`, media keys, the initial PQXDH message, serialization helpers.
- The CRDT documents, the SQL engine and its foreign-function layer (transactions are atomic, tables are maps or ordered rows), and the remaining one-row reads and upserts of the store.
- The libp2p swarm, discovery, gossip, topics and configuration; the command line, timestamps and random ids; the stub crates.
