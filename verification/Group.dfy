/** Group chat over sender keys (the sender keys of presidium-crypto/src/keys.rs, driven by
    presidium-demo/src/group.rs), and what any reader can have accepted. */
module Group {
  import opened Results
  import opened Terms
  import opened Pqxdh
  import opened Session

  const U64_MAX: nat := 0xFFFF_FFFF_FFFF_FFFF

  datatype GroupError =
    | NoSenderKeys
    | NoSenderIdentity
    | BadGroupSignature
    | BadGroupHeader
    | NoReceiverKeys
    | GroupDecryptionFailed

  // ---------------------------------------------------------------- sender keys

  datatype SenderKeys = SenderKeys(chainKey: Key, groupId: Bytes, senderIdentity: Scalar, messageIndex: nat, keyId: nat)

  function NewSenderKeys(seed: Key, groupId: Bytes, sender: Scalar): SenderKeys {
    SenderKeys(seed, groupId, sender, 0, 1)
  }

  /** Seals under the current position and moves on; the 64-bit index wraps around. */
  function SenderEncrypt(k: SenderKeys, plaintext: Bytes, aad: Bytes): (Box<Bytes>, SenderKeys) {
    (Sealed(Hmac(k.chainKey, MessageKeyInfo), k.messageIndex, aad, plaintext),
     k.(chainKey := Hmac(k.chainKey, SenderAdvance), messageIndex := (k.messageIndex + 1) % (U64_MAX + 1)))
  }

  function SenderDecrypt(k: SenderKeys, box: Box<Bytes>, index: nat, aad: Bytes): Result<Bytes, GroupError> {
    match Open(Hmac(k.chainKey, MessageKeyInfo), index, aad, box)
    case Some(plaintext) => Success(plaintext)
    case None => Failure(GroupDecryptionFailed)
  }

  /** The receiver's step; the 64-bit index saturates. */
  function Advance(k: SenderKeys): SenderKeys {
    k.(chainKey := Hmac(k.chainKey, SenderAdvance),
       messageIndex := if k.messageIndex < U64_MAX then k.messageIndex + 1 else U64_MAX)
  }

  // ---------------------------------------------------------------- the chat as functions

  datatype GroupKeyDistribution = GroupKeyDistribution(chainKey: Key, keyId: nat, messageIndex: nat)

  datatype SenderKeyMessage = SenderKeyMessage(
    groupId: Bytes,
    senderIdentity: Scalar,
    messageIndex: nat,
    ciphertext: Box<Bytes>)

  /** A group envelope; `None` is a header that does not parse. */
  type GroupEnvelope = Envelope<Option<SenderKeyMessage>, Box<Bytes>>

  datatype GroupState = GroupState(
    groupId: Bytes,
    conversationId: string,
    sender: Option<SenderKeys>,
    receiver: Option<SenderKeys>,
    peerIdentity: Option<IdentityPublic>)

  function NewGroup(groupId: Bytes, conversationId: string): GroupState {
    GroupState(groupId, conversationId, None, None, None)
  }

  function CreateSender(g: GroupState, identity: IdentityKeyPair, seed: Key): (GroupKeyDistribution, GroupState) {
    var keys := NewSenderKeys(seed, g.groupId, Public(identity).classical);
    (GroupKeyDistribution(keys.chainKey, keys.keyId, keys.messageIndex), g.(sender := Some(keys)))
  }

  function ApplyGroupKey(g: GroupState, d: GroupKeyDistribution, peer: IdentityPublic): GroupState {
    g.(peerIdentity := Some(peer),
       receiver := Some(SenderKeys(d.chainKey, g.groupId, peer.classical, d.messageIndex, d.keyId)))
  }

  function Publish(g: GroupState, identity: IdentityKeyPair, plaintext: Bytes)
    : (Result<GroupEnvelope, GroupError>, GroupState)
  {
    match g.sender
    case None => (Failure(NoSenderKeys), g)
    case Some(keys) =>
      var (box, keys') := SenderEncrypt(keys, plaintext, g.groupId);
      var index := (keys'.messageIndex + U64_MAX) % (U64_MAX + 1);
      var message := SenderKeyMessage(g.groupId, Public(identity).classical, index, box);
      (Success(SignEnvelope(identity, g.conversationId, Some(message), box)), g.(sender := Some(keys')))
  }

  function GroupDecrypt(g: GroupState, e: GroupEnvelope): (Result<Bytes, GroupError>, GroupState) {
    if g.peerIdentity.None? then (Failure(NoSenderIdentity), g)
    else if !VerifyEnvelope(g.peerIdentity.value, e) then (Failure(BadGroupSignature), g)
    else if e.header.None? then (Failure(BadGroupHeader), g)
    else if g.receiver.None? then (Failure(NoReceiverKeys), g)
    else
      var result := SenderDecrypt(g.receiver.value, e.payload, e.header.value.messageIndex, g.groupId);
      (result, if result.Success? then g.(receiver := Some(Advance(g.receiver.value))) else g)
  }

  /** A reader accepts the signature of the identity it applied a key for, over exactly the header and payload
      at hand, and no other; every failure leaves it unchanged. */
  lemma RefusesOtherGroupSignatures(g: GroupState, e: GroupEnvelope)
    ensures GroupDecrypt(g, e).0.Failure? ==> GroupDecrypt(g, e).1 == g
    ensures GroupDecrypt(g, e).0 == Failure(NoSenderIdentity) <==> g.peerIdentity.None?
    ensures g.peerIdentity.Some? ==>
      (GroupDecrypt(g, e).0 == Failure(BadGroupSignature) <==>
         e.signature != SignedBy(g.peerIdentity.value, (e.header, e.payload)))
    ensures g.peerIdentity.Some? && e.signature == SignedBy(g.peerIdentity.value, (e.header, e.payload)) ==>
      && (GroupDecrypt(g, e).0 == Failure(BadGroupHeader) <==> e.header.None?)
      && (GroupDecrypt(g, e).0 == Failure(NoReceiverKeys) <==> e.header.Some? && g.receiver.None?)
  {
  }

  /** The distribution that goes with a new sender key hands the reader the sender's very keys. The first
      message published under them is read, at any reader, if and only if the reader belongs to the same
      group and has applied the distribution for the sender's identity. */
  lemma DistributionOpensTheFirst(g: GroupState, identity: IdentityKeyPair, seed: Key, h: GroupState,
                                  peer: IdentityPublic, p: Bytes)
    ensures var (d, g') := CreateSender(g, identity, seed);
      var reader := ApplyGroupKey(h, d, peer); var published := Publish(g', identity, p).0;
      && published.Success? && d.keyId == 1 && d.messageIndex == 0
      && (g.groupId == h.groupId && peer == Public(identity) ==> reader.receiver == g'.sender)
      && GroupDecrypt(reader, published.value).0 ==
           if peer != Public(identity) then Failure(BadGroupSignature)
           else if g.groupId != h.groupId then Failure(GroupDecryptionFailed)
           else Success(p)
  {
  }

  // ---------------------------------------------------------------- the live object

  class GroupChat {
    const groupId: Bytes
    const conversationId: string
    var sender: Option<SenderKeys>
    var receiver: Option<SenderKeys>
    var peerIdentity: Option<IdentityPublic>

    function State(): GroupState
      reads this
    {
      GroupState(groupId, conversationId, sender, receiver, peerIdentity)
    }

    constructor (group: Bytes, id: string)
      ensures State() == NewGroup(group, id)
    {
      groupId, conversationId := group, id;
      sender, receiver, peerIdentity := None, None, None;
    }

    method Create(identity: IdentityKeyPair, seed: Key) returns (d: GroupKeyDistribution)
      modifies this
      ensures (d, State()) == CreateSender(old(State()), identity, seed)
    {
      var keys := NewSenderKeys(seed, groupId, Public(identity).classical);
      d := GroupKeyDistribution(keys.chainKey, keys.keyId, keys.messageIndex);
      sender := Some(keys);
    }

    method Apply(d: GroupKeyDistribution, peer: IdentityPublic)
      modifies this
      ensures State() == ApplyGroupKey(old(State()), d, peer)
    {
      peerIdentity := Some(peer);
      receiver := Some(SenderKeys(d.chainKey, groupId, peer.classical, d.messageIndex, d.keyId));
    }

    method PublishMessage(identity: IdentityKeyPair, plaintext: Bytes)
      returns (result: Result<GroupEnvelope, GroupError>)
      modifies this
      ensures (result, State()) == Publish(old(State()), identity, plaintext)
    {
      if sender.None? {
        return Failure(NoSenderKeys);
      }
      var (box, keys) := SenderEncrypt(sender.value, plaintext, groupId);
      sender := Some(keys);
      var index := (keys.messageIndex + U64_MAX) % (U64_MAX + 1);
      var message := SenderKeyMessage(groupId, Public(identity).classical, index, box);
      result := Success(SignEnvelope(identity, conversationId, Some(message), box));
    }

    method Decrypt(e: GroupEnvelope) returns (result: Result<Bytes, GroupError>)
      modifies this
      ensures (result, State()) == GroupDecrypt(old(State()), e)
    {
      if peerIdentity.None? {
        return Failure(NoSenderIdentity);
      }
      if !VerifyEnvelope(peerIdentity.value, e) {
        return Failure(BadGroupSignature);
      }
      if e.header.None? {
        return Failure(BadGroupHeader);
      }
      if receiver.None? {
        return Failure(NoReceiverKeys);
      }
      result := SenderDecrypt(receiver.value, e.payload, e.header.value.messageIndex, groupId);
      if result.Success? {
        receiver := Some(Advance(receiver.value));
      }
    }
  }

  // ---------------------------------------------------------------- one sender, one reader, any network

  /** The life of one sender key: its seed and what was published under it. */
  datatype Epoch = Epoch(seed: Key, plaintexts: seq<Bytes>, envelopes: seq<GroupEnvelope>)

  /** `applied` is the key distribution the reader last applied and `accepted` what it has accepted
      since. */
  datatype GroupSystem = GroupSystem(
    sender: GroupState,
    reader: GroupState,
    epochs: seq<Epoch>,
    applied: Option<GroupKeyDistribution>,
    accepted: seq<Bytes>)

  datatype GroupEvent =
    | NewKey(seed: Key)
    | Write(plaintext: Bytes)
    | Distribute(distribution: GroupKeyDistribution)
    | Read(envelope: GroupEnvelope)

  function InitialGroup(groupId: Bytes, conversationId: string): GroupSystem {
    GroupSystem(NewGroup(groupId, conversationId), NewGroup(groupId, conversationId), [], None, [])
  }

  /** A published envelope under any conversation id, which the signature does not cover. */
  function Relabelled(e: GroupEnvelope, conversationId: string): GroupEnvelope {
    e.(conversationId := conversationId)
  }

  predicate WasPublished(s: GroupSystem, e: GroupEnvelope) {
    exists i, j :: 0 <= i < |s.epochs| && 0 <= j < |s.epochs[i].envelopes|
      && e == Relabelled(s.epochs[i].envelopes[j], e.conversationId)
  }

  /** Seeds are fresh randomness. The network may hand the reader any key distribution, since the
      envelope around one is not verified, and any envelope at all, except that it cannot forge the
      sender's signature. The signature does not cover the boundary between header and payload, so an
      envelope that verifies may also carry a header that does not parse or a payload that is no box. */
  predicate GroupEnabled(s: GroupSystem, identity: IdentityKeyPair, e: GroupEvent) {
    match e
    case NewKey(seed) => seed.Seed? && forall i :: 0 <= i < |s.epochs| ==> s.epochs[i].seed != seed
    case Write(_) => true
    case Distribute(d) => d.messageIndex <= U64_MAX
    case Read(envelope) =>
      && (envelope.signature == SignedBy(Public(identity), (envelope.header, envelope.payload))
          && envelope.header.Some? && envelope.payload.Sealed? ==>
            WasPublished(s, envelope))
  }

  function GroupStep(s: GroupSystem, identity: IdentityKeyPair, e: GroupEvent): GroupSystem
    requires GroupEnabled(s, identity, e)
  {
    match e
    case NewKey(seed) =>
      s.(sender := CreateSender(s.sender, identity, seed).1, epochs := s.epochs + [Epoch(seed, [], [])])
    case Write(plaintext) =>
      var (result, g) := Publish(s.sender, identity, plaintext);
      if result.Failure? || s.epochs == [] then s.(sender := g)
      else
        var last := s.epochs[|s.epochs| - 1];
        s.(sender := g, epochs := s.epochs[|s.epochs| - 1 :=
             last.(plaintexts := last.plaintexts + [plaintext], envelopes := last.envelopes + [result.value])])
    case Distribute(d) =>
      s.(reader := ApplyGroupKey(s.reader, d, Public(identity)), applied := Some(d), accepted := [])
    case Read(envelope) =>
      var (result, g) := GroupDecrypt(s.reader, envelope);
      s.(reader := g, accepted := if result.Success? then s.accepted + [result.value] else s.accepted)
  }

  predicate ValidGroupRun(s: GroupSystem, identity: IdentityKeyPair, events: seq<GroupEvent>)
    decreases |events|
  {
    events != [] ==>
      GroupEnabled(s, identity, events[0]) && ValidGroupRun(GroupStep(s, identity, events[0]), identity, events[1..])
  }

  function AfterGroup(s: GroupSystem, identity: IdentityKeyPair, events: seq<GroupEvent>): GroupSystem
    requires ValidGroupRun(s, identity, events)
    decreases |events|
  {
    if events == [] then s else AfterGroup(GroupStep(s, identity, events[0]), identity, events[1..])
  }

  // ---------------------------------------------------------------- the invariant

  /** The group: its id, its conversation id and the sender's identity. */
  datatype Setting = Setting(groupId: Bytes, conversationId: string, identity: IdentityKeyPair)

  /** Message `i` under a sender key, as the sender publishes it. */
  function GroupMessageAt(g: Setting, seed: Key, i: nat, plaintext: Bytes): GroupEnvelope {
    var index := i % (U64_MAX + 1);
    var box := Sealed(MessageKeyAt(seed, SenderAdvance, i), index, g.groupId, plaintext);
    SignEnvelope(g.identity, g.conversationId,
                 Some(SenderKeyMessage(g.groupId, Public(g.identity).classical, index, box)), box)
  }

  predicate EpochOk(g: Setting, epoch: Epoch) {
    && epoch.seed.Seed?
    && |epoch.envelopes| == |epoch.plaintexts|
    && forall i :: 0 <= i < |epoch.envelopes| ==>
         epoch.envelopes[i] == GroupMessageAt(g, epoch.seed, i, epoch.plaintexts[i])
  }

  function SettingOf(s: GroupSystem, identity: IdentityKeyPair): Setting {
    Setting(s.sender.groupId, s.sender.conversationId, identity)
  }

  predicate SenderOk(s: GroupSystem) {
    if s.epochs == [] then s.sender.sender.None?
    else
      var last := s.epochs[|s.epochs| - 1];
      && s.sender.sender.Some?
      && s.sender.sender.value.chainKey == ChainFrom(last.seed, SenderAdvance, |last.plaintexts|)
      && s.sender.sender.value.messageIndex == |last.plaintexts| % (U64_MAX + 1)
  }

  /** The key the reader last applied is position `p` of the chain of epoch `e`. */
  predicate Applied(s: GroupSystem, e: nat, p: nat) {
    e < |s.epochs| && s.applied.Some? && s.applied.value.chainKey == ChainFrom(s.epochs[e].seed, SenderAdvance, p)
  }

  /** What was accepted since is what epoch `e` published from position `p` on, without a gap. */
  predicate AcceptedFrom(s: GroupSystem, e: nat, p: nat) {
    && Applied(s, e, p)
    && p + |s.accepted| <= |s.epochs[e].plaintexts|
    && s.accepted == s.epochs[e].plaintexts[p..p + |s.accepted|]
  }

  predicate SomeAcceptedFrom(s: GroupSystem) {
    exists e: nat, p: nat | e < |s.epochs| && p <= |s.epochs[e].plaintexts| :: AcceptedFrom(s, e, p)
  }

  function Saturated(n: nat): nat {
    if n < U64_MAX then n else U64_MAX
  }

  predicate ReaderOk(s: GroupSystem, identity: IdentityKeyPair) {
    && s.reader.groupId == s.sender.groupId
    && (s.accepted == [] || SomeAcceptedFrom(s))
    && match s.applied
       case None => s.reader.peerIdentity.None? && s.reader.receiver.None? && s.accepted == []
       case Some(d) =>
         && s.reader.peerIdentity == Some(Public(identity))
         && s.reader.receiver.Some?
         && s.reader.receiver.value.chainKey == ChainFrom(d.chainKey, SenderAdvance, |s.accepted|)
         && s.reader.receiver.value.messageIndex == Saturated(d.messageIndex + |s.accepted|)
  }

  predicate GroupInvariant(s: GroupSystem, identity: IdentityKeyPair) {
    && (forall i :: 0 <= i < |s.epochs| ==> EpochOk(SettingOf(s, identity), s.epochs[i]))
    && (forall i, j :: 0 <= i < j < |s.epochs| ==> s.epochs[i].seed != s.epochs[j].seed)
    && SenderOk(s)
    && ReaderOk(s, identity)
  }

  /** The key a reader applied lies on one epoch's chain at most, at one position. */
  lemma AppliedOnce(s: GroupSystem, identity: IdentityKeyPair, d: nat, o: nat, e: nat, p: nat)
    requires GroupInvariant(s, identity) && Applied(s, d, o) && Applied(s, e, p)
    ensures d == e && o == p
  {
    var g := SettingOf(s, identity);
    assert EpochOk(g, s.epochs[d]) && EpochOk(g, s.epochs[e]);
    ChainsNeverCross(s.epochs[d].seed, s.epochs[e].seed, SenderAdvance, o, p);
  }

  lemma AcceptedSomewhere(s: GroupSystem, identity: IdentityKeyPair, e: nat, p: nat)
    requires GroupInvariant(s, identity) && s.accepted != [] && Applied(s, e, p)
    ensures AcceptedFrom(s, e, p)
  {
    var d: nat, o: nat :| d < |s.epochs| && o <= |s.epochs[d].plaintexts| && AcceptedFrom(s, d, o);
    AppliedOnce(s, identity, d, o, e, p);
  }

  /** What a reader makes of a published envelope, under whatever conversation id: it opens exactly when
      the key last applied lies as many positions before it as messages were accepted since. */
  lemma ReadsExactlyTheNext(s: GroupSystem, identity: IdentityKeyPair, e: nat, i: nat, id: string)
    requires GroupInvariant(s, identity) && s.applied.Some? && e < |s.epochs| && i < |s.epochs[e].envelopes|
    ensures |s.epochs[e].plaintexts| == |s.epochs[e].envelopes|
    ensures var result := GroupDecrypt(s.reader, Relabelled(s.epochs[e].envelopes[i], id)).0;
      result == if |s.accepted| <= i && Applied(s, e, i - |s.accepted|) then Success(s.epochs[e].plaintexts[i])
                else Failure(GroupDecryptionFailed)
  {
    assert EpochOk(SettingOf(s, identity), s.epochs[e]);
    ChainsMeet(s.epochs[e].seed, s.applied.value.chainKey, SenderAdvance, i, |s.accepted|);
  }

  lemma AcceptedExtends(s: GroupSystem, t: GroupSystem, e: nat, p: nat)
    requires s.accepted == [] || AcceptedFrom(s, e, p)
    requires Applied(s, e, p) && p + |s.accepted| < |s.epochs[e].plaintexts|
    requires t.epochs == s.epochs && t.applied == s.applied
    requires t.accepted == s.accepted + [s.epochs[e].plaintexts[p + |s.accepted|]]
    ensures AcceptedFrom(t, e, p)
  {
  }

  /** A successful read, of whatever the network offers, is the next message from the applied key on. */
  lemma ReadOutcome(s: GroupSystem, identity: IdentityKeyPair, e: GroupEnvelope) returns (epoch: nat, p: nat)
    requires GroupInvariant(s, identity) && GroupEnabled(s, identity, Read(e)) && GroupDecrypt(s.reader, e).0.Success?
    ensures Applied(s, epoch, p) && p + |s.accepted| < |s.epochs[epoch].plaintexts|
    ensures GroupDecrypt(s.reader, e).0 == Success(s.epochs[epoch].plaintexts[p + |s.accepted|])
  {
    var i: nat;
    epoch, i :| epoch < |s.epochs| && i < |s.epochs[epoch].envelopes|
      && e == Relabelled(s.epochs[epoch].envelopes[i], e.conversationId);
    ReadsExactlyTheNext(s, identity, epoch, i, e.conversationId);
    p := i - |s.accepted|;
  }

  lemma ReadExtends(s: GroupSystem, identity: IdentityKeyPair, e: GroupEnvelope)
    requires GroupInvariant(s, identity) && GroupEnabled(s, identity, Read(e)) && GroupDecrypt(s.reader, e).0.Success?
    ensures s.applied.Some? && SomeAcceptedFrom(GroupStep(s, identity, Read(e)))
  {
    var s' := GroupStep(s, identity, Read(e));
    var epoch, p := ReadOutcome(s, identity, e);
    if s.accepted != [] {
      AcceptedSomewhere(s, identity, epoch, p);
    }
    AcceptedExtends(s, s', epoch, p);
    assert p <= |s'.epochs[epoch].plaintexts|;
  }

  lemma ReadKeeps(s: GroupSystem, identity: IdentityKeyPair, e: GroupEnvelope)
    requires GroupInvariant(s, identity) && GroupEnabled(s, identity, Read(e))
    ensures GroupInvariant(GroupStep(s, identity, Read(e)), identity)
  {
    var s' := GroupStep(s, identity, Read(e));
    if GroupDecrypt(s.reader, e).0.Success? {
      ReadExtends(s, identity, e);
      assert ReaderOk(s', identity);
    } else {
      assert s' == s;
    }
  }

  /** Publishing appends the next message of the latest epoch. */
  lemma PublishOutcome(s: GroupSystem, identity: IdentityKeyPair, plaintext: Bytes)
    requires SenderOk(s) && s.epochs != []
    ensures var last := s.epochs[|s.epochs| - 1]; var n := |last.plaintexts|;
      var (result, g) := Publish(s.sender, identity, plaintext);
      && result == Success(GroupMessageAt(SettingOf(s, identity), last.seed, n, plaintext))
      && g == s.sender.(sender := g.sender) && g.sender.Some?
      && g.sender.value.chainKey == ChainFrom(last.seed, SenderAdvance, n + 1)
      && g.sender.value.messageIndex == (n + 1) % (U64_MAX + 1)
  {
    WrapAround(|s.epochs[|s.epochs| - 1].plaintexts|);
  }

  /** The index in the header is the one the box was sealed under, even where the counter wraps. */
  lemma WrapAround(n: nat)
    ensures ((n % (U64_MAX + 1) + 1) % (U64_MAX + 1) + U64_MAX) % (U64_MAX + 1) == n % (U64_MAX + 1)
    ensures (n % (U64_MAX + 1) + 1) % (U64_MAX + 1) == (n + 1) % (U64_MAX + 1)
  {
  }

  /** New epochs and further messages leave what was accepted where it was. */
  lemma GrowthKeepsAccepted(s: GroupSystem, t: GroupSystem)
    requires SomeAcceptedFrom(s) && t.applied == s.applied && t.accepted == s.accepted && |s.epochs| <= |t.epochs|
    requires forall i :: 0 <= i < |s.epochs| ==>
      s.epochs[i].seed == t.epochs[i].seed && s.epochs[i].plaintexts <= t.epochs[i].plaintexts
    ensures SomeAcceptedFrom(t)
  {
    var e: nat, p: nat :| e < |s.epochs| && p <= |s.epochs[e].plaintexts| && AcceptedFrom(s, e, p);
    var m := p + |s.accepted|;
    assert t.epochs[e].plaintexts[..m] == s.epochs[e].plaintexts[..m];
    assert t.epochs[e].plaintexts[p..m] == s.epochs[e].plaintexts[p..m];
    assert AcceptedFrom(t, e, p);
  }

  lemma WriteKeepsEpochs(s: GroupSystem, identity: IdentityKeyPair, plaintext: Bytes)
    requires GroupInvariant(s, identity) && s.epochs != []
    ensures var s' := GroupStep(s, identity, Write(plaintext));
      && SettingOf(s', identity) == SettingOf(s, identity)
      && (forall i :: 0 <= i < |s'.epochs| ==> EpochOk(SettingOf(s, identity), s'.epochs[i]))
  {
    PublishOutcome(s, identity, plaintext);
    assert EpochOk(SettingOf(s, identity), s.epochs[|s.epochs| - 1]);
  }

  lemma WriteFrame(s: GroupSystem, identity: IdentityKeyPair, plaintext: Bytes)
    requires SenderOk(s) && s.epochs != []
    ensures var s' := GroupStep(s, identity, Write(plaintext));
      && SenderOk(s')
      && s'.reader == s.reader && s'.applied == s.applied && s'.accepted == s.accepted
      && s'.sender.groupId == s.sender.groupId && |s'.epochs| == |s.epochs|
      && (forall i :: 0 <= i < |s.epochs| ==>
            s.epochs[i].seed == s'.epochs[i].seed && s.epochs[i].plaintexts <= s'.epochs[i].plaintexts)
  {
    PublishOutcome(s, identity, plaintext);
  }

  lemma WriteKeeps(s: GroupSystem, identity: IdentityKeyPair, plaintext: Bytes)
    requires GroupInvariant(s, identity)
    ensures GroupInvariant(GroupStep(s, identity, Write(plaintext)), identity)
  {
    var s' := GroupStep(s, identity, Write(plaintext));
    if s.epochs == [] {
      assert s' == s;
    } else {
      WriteKeepsEpochs(s, identity, plaintext);
      WriteFrame(s, identity, plaintext);
      if s.accepted != [] {
        GrowthKeepsAccepted(s, s');
      }
    }
  }

  lemma NewKeyKeeps(s: GroupSystem, identity: IdentityKeyPair, seed: Key)
    requires GroupInvariant(s, identity) && GroupEnabled(s, identity, NewKey(seed))
    ensures GroupInvariant(GroupStep(s, identity, NewKey(seed)), identity)
  {
    if s.accepted != [] {
      GrowthKeepsAccepted(s, GroupStep(s, identity, NewKey(seed)));
    }
  }

  lemma DistributeKeeps(s: GroupSystem, identity: IdentityKeyPair, d: GroupKeyDistribution)
    requires GroupInvariant(s, identity) && GroupEnabled(s, identity, Distribute(d))
    ensures GroupInvariant(GroupStep(s, identity, Distribute(d)), identity)
  {
  }

  lemma {:induction false} GroupRunKeeps(s: GroupSystem, identity: IdentityKeyPair, events: seq<GroupEvent>)
    requires GroupInvariant(s, identity) && ValidGroupRun(s, identity, events)
    ensures GroupInvariant(AfterGroup(s, identity, events), identity)
    decreases |events|
  {
    if events == [] {
    } else {
      match events[0] {
        case NewKey(seed) => NewKeyKeeps(s, identity, seed);
        case Write(plaintext) => WriteKeeps(s, identity, plaintext);
        case Distribute(d) => DistributeKeeps(s, identity, d);
        case Read(e) => ReadKeeps(s, identity, e);
      }
      GroupRunKeeps(GroupStep(s, identity, events[0]), identity, events[1..]);
    }
  }

  /** Would the reader open message `i` of epoch `e`, resent under conversation id `id`? */
  predicate Opens(s: GroupSystem, e: nat, i: nat, id: string)
    requires e < |s.epochs| && i < |s.epochs[e].envelopes|
  {
    GroupDecrypt(s.reader, Relabelled(s.epochs[e].envelopes[i], id)).0.Success?
  }

  lemma AcceptedWhereApplied(s: GroupSystem, identity: IdentityKeyPair)
    requires GroupInvariant(s, identity)
    ensures forall e: nat, p: nat | Applied(s, e, p) :: s.accepted == [] || AcceptedFrom(s, e, p)
    ensures forall e: nat | Applied(s, e, 0) :: s.accepted <= s.epochs[e].plaintexts
  {
    forall e: nat, p: nat | Applied(s, e, p) && s.accepted != []
      ensures AcceptedFrom(s, e, p) && (p == 0 ==> s.accepted <= s.epochs[e].plaintexts)
    {
      AcceptedSomewhere(s, identity, e, p);
    }
  }

  lemma OpensTheNext(s: GroupSystem, identity: IdentityKeyPair)
    requires GroupInvariant(s, identity)
    ensures forall e: nat, i: nat, other: string | e < |s.epochs| && i < |s.epochs[e].envelopes| ::
      Opens(s, e, i, other) <==> |s.accepted| <= i && Applied(s, e, i - |s.accepted|)
  {
    forall e: nat, i: nat, other: string | e < |s.epochs| && i < |s.epochs[e].envelopes|
      ensures Opens(s, e, i, other) <==> |s.accepted| <= i && Applied(s, e, i - |s.accepted|)
    {
      if s.applied.Some? {
        ReadsExactlyTheNext(s, identity, e, i, other);
      }
    }
  }

  /** Group delivery. Under any loss, duplication, reordering and injection of envelopes, and whatever key
      distributions arrive, genuine or not: what a reader has accepted since it applied a key is a gapless
      run of what the sender encrypted, starting at the position of that key in its epoch, hence a prefix
      when the key is the epoch's own; under a key that lies on no epoch's chain it is nothing. The
      reader's index counts it (up to saturation), and of all envelopes ever published the reader would
      open exactly the next one. */
  lemma GroupPrefixDelivery(identity: IdentityKeyPair, groupId: Bytes, id: string, events: seq<GroupEvent>)
    requires ValidGroupRun(InitialGroup(groupId, id), identity, events)
    ensures var s := AfterGroup(InitialGroup(groupId, id), identity, events);
      && (s.accepted != [] ==> SomeAcceptedFrom(s))
      && (forall e: nat, p: nat | Applied(s, e, p) :: s.accepted == [] || AcceptedFrom(s, e, p))
      && (forall e: nat | Applied(s, e, 0) :: s.accepted <= s.epochs[e].plaintexts)
      && (s.applied.Some? ==>
            && s.reader.receiver.Some?
            && s.reader.receiver.value.messageIndex == Saturated(s.applied.value.messageIndex + |s.accepted|))
      && forall e: nat, i: nat, other: string | e < |s.epochs| && i < |s.epochs[e].envelopes| ::
           Opens(s, e, i, other) <==> |s.accepted| <= i && Applied(s, e, i - |s.accepted|)
  {
    var s := AfterGroup(InitialGroup(groupId, id), identity, events);
    GroupRunKeeps(InitialGroup(groupId, id), identity, events);
    AcceptedWhereApplied(s, identity);
    OpensTheNext(s, identity);
  }
}
