/** Identities, the hybrid KEM and the five-leg PQXDH key agreement
    (presidium-crypto/src/identity.rs, pqxdh.rs and the session keys of keys.rs). */
module Pqxdh {
  import opened Results
  import opened Terms
  import opened Ratchet

  datatype PqxdhError =
    | InvalidSignature
    | InvalidKemKey
    | InvalidCiphertext
    | UnknownSignedPrekey
    | UnknownOneTimePrekey
    | PeerRatchetKeyRequired

  // ---------------------------------------------------------------- identities and signatures

  datatype IdentityKeyPair = IdentityKeyPair(classicalSeed: Scalar, pqSeed: Key)

  /** An identity public key, named by the seeds it verifies for. */
  datatype IdentityPublic = IdentityPublic(classical: Scalar, pq: Key)

  /** A hybrid signature verifies only for the signer and the message it was made for. */
  datatype Signature<M> = SignedBy(signer: IdentityPublic, message: M) | NoSignature

  function Public(identity: IdentityKeyPair): IdentityPublic {
    IdentityPublic(identity.classicalSeed, identity.pqSeed)
  }

  predicate Verifies<M(==)>(signer: IdentityPublic, message: M, signature: Signature<M>) {
    signature == SignedBy(signer, message)
  }

  // ---------------------------------------------------------------- the hybrid KEM

  datatype PqPublic = PqKey(secret: Key) | NotAKey(raw: Bytes)

  datatype HybridPublic = HybridPublic(classical: X25519Public, pq: PqPublic)

  datatype HybridPrivate = HybridPrivate(classical: Scalar, pq: Key) {
    function PublicKey(): HybridPublic {
      HybridPublic(PublicOf(classical), PqKey(pq))
    }
  }

  /** An ML-KEM ciphertext for the holder of `owner`, or bytes of the wrong size. */
  datatype KemCiphertext = KemCiphertext(owner: Key, coin: nat) | WrongSize(raw: Bytes)

  /** The constant HKDF salt of this derivation is part of its label. */
  function KemSecret(identity: IdentityKeyPair): HybridPrivate {
    HybridPrivate(identity.classicalSeed, Hkdf(NoSalt, [identity.pqSeed], IdentityKemInfo))
  }

  function CombineLeg(classical: Key, pq: Key): Key {
    Hkdf(NoSalt, [classical, pq], PqxdhSharedInfo)
  }

  function Encapsulate(own: HybridPrivate, peer: HybridPublic, coin: nat): Result<(KemCiphertext, Key), PqxdhError> {
    match peer.pq
    case NotAKey(_) => Failure(InvalidKemKey)
    case PqKey(owner) =>
      Success((KemCiphertext(owner, coin),
               CombineLeg(DiffieHellman(own.classical, peer.classical), KemShared(owner, coin))))
  }

  function Decapsulate(own: HybridPrivate, ciphertext: KemCiphertext, peer: HybridPublic): Result<Key, PqxdhError> {
    match ciphertext
    case WrongSize(_) => Failure(InvalidCiphertext)
    case KemCiphertext(owner, coin) =>
      var pq := if owner == own.pq then KemShared(owner, coin) else KemRejected(own.pq, owner, coin);
      Success(CombineLeg(DiffieHellman(own.classical, peer.classical), pq))
  }

  /** Hybrid KEM agreement: both ends hold the same secret exactly when the ciphertext is opened with
      the private half of the public key it was made for. */
  lemma KemAgreesIffKeysMatch(sender: HybridPrivate, receiver: HybridPrivate, target: HybridPublic, coin: nat)
    requires Encapsulate(sender, target, coin).Success?
    ensures var (ciphertext, secret) := Encapsulate(sender, target, coin).value;
      var received := Decapsulate(receiver, ciphertext, sender.PublicKey());
      received.Success? && (received.value == secret <==> receiver.PublicKey() == target)
  {
    DiffieHellmanAgrees(sender.classical, receiver.classical, target.classical);
    var (ciphertext, secret) := Encapsulate(sender, target, coin).value;
    var received := Decapsulate(receiver, ciphertext, sender.PublicKey()).value;
    assert received.ikm[0] == DiffieHellman(sender.classical, PublicOf(receiver.classical));
    assert secret.ikm == [DiffieHellman(sender.classical, target.classical), KemShared(target.pq.secret, coin)];
  }

  // ---------------------------------------------------------------- bundles

  datatype SignedPreKey = SignedPreKey(keyId: nat, publicKey: HybridPublic, timestamp: nat)
  datatype OneTimePreKey = OneTimePreKey(keyId: nat, publicKey: HybridPublic)

  /** The fields that the bundle signature covers. */
  datatype BundleContent = BundleContent(
    identityKey: IdentityPublic,
    identityKem: HybridPublic,
    signedPrekey: SignedPreKey,
    oneTimePrekeys: seq<OneTimePreKey>)

  datatype PreKeyBundle = PreKeyBundle(content: BundleContent, signature: Signature<BundleContent>)

  function NewBundle(identity: IdentityKeyPair, signedPrekey: SignedPreKey, oneTime: seq<OneTimePreKey>): PreKeyBundle {
    var content := BundleContent(Public(identity), KemSecret(identity).PublicKey(), signedPrekey, oneTime);
    PreKeyBundle(content, SignedBy(Public(identity), content))
  }

  predicate VerifyBundle(bundle: PreKeyBundle) {
    Verifies(bundle.content.identityKey, bundle.content, bundle.signature)
  }

  // ---------------------------------------------------------------- PQXDH

  /** The randomness of the five encapsulations. */
  datatype Coins = Coins(c1: nat, c2: nat, c3: nat, c4: nat, c5: nat)

  datatype PqxdhOutput = PqxdhOutput(
    sharedSecret: Key,
    ephemeralPublic: HybridPublic,
    signedPrekeyId: nat,
    oneTimePrekeyId: Option<nat>)

  datatype PrekeyMessage = PrekeyMessage(
    identityPublic: IdentityPublic,
    identityKemPublic: HybridPublic,
    ephemeralPublic: HybridPublic,
    ct1: KemCiphertext, ct2: KemCiphertext, ct3: KemCiphertext, ct4: KemCiphertext,
    oneTimeCiphertext: Option<KemCiphertext>,
    signedPrekeyId: nat,
    oneTimePrekeyId: Option<nat>)

  datatype ResponderKeys = ResponderKeys(
    identity: IdentityKeyPair,
    signedPrekey: HybridPrivate,
    signedPrekeyId: nat,
    oneTimePrekey: Option<HybridPrivate>,
    oneTimePrekeyId: Option<nat>)

  function MasterSecret(dh1: Key, dh2: Key, dh3: Key, dh4: Key, dh5: Option<Key>): Key {
    Hkdf(NoSalt, [dh1, dh2, dh3, dh4] + (if dh5.Some? then [dh5.value] else []), PqxdhMasterInfo)
  }

  /** The fifth leg of the initiator: only when the bundle offers a one-time prekey. */
  function FifthLeg(ephemeral: HybridPrivate, oneTime: seq<OneTimePreKey>, coin: nat)
    : Result<Option<(KemCiphertext, Key)>, PqxdhError>
  {
    if oneTime == [] then Success(None)
    else
      match Encapsulate(ephemeral, oneTime[0].publicKey, coin)
      case Failure(e) => Failure(e)
      case Success(leg) => Success(Some(leg))
  }

  function PqxdhInitiator(identity: IdentityKeyPair, ephemeral: HybridPrivate, bundle: PreKeyBundle, coins: Coins)
    : Result<(PqxdhOutput, PrekeyMessage), PqxdhError>
  {
    var content := bundle.content;
    if !VerifyBundle(bundle) then Failure(InvalidSignature)
    else
      var kem := KemSecret(identity);
      var leg1 := Encapsulate(ephemeral, content.signedPrekey.publicKey, coins.c1);
      var leg2 := Encapsulate(kem, content.signedPrekey.publicKey, coins.c2);
      var leg3 := Encapsulate(ephemeral, content.identityKem, coins.c3);
      var leg4 := Encapsulate(kem, content.identityKem, coins.c4);
      var leg5 := FifthLeg(ephemeral, content.oneTimePrekeys, coins.c5);
      if leg1.Failure? then Failure(leg1.error)
      else if leg2.Failure? then Failure(leg2.error)
      else if leg3.Failure? then Failure(leg3.error)
      else if leg4.Failure? then Failure(leg4.error)
      else if leg5.Failure? then Failure(leg5.error)
      else
        var (dh5, ct5, id5) := match leg5.value
          case None => (None, None, None)
          case Some(leg) => (Some(leg.1), Some(leg.0), Some(content.oneTimePrekeys[0].keyId));
        var secret := MasterSecret(leg1.value.1, leg2.value.1, leg3.value.1, leg4.value.1, dh5);
        Success((
          PqxdhOutput(secret, ephemeral.PublicKey(), content.signedPrekey.keyId, id5),
          PrekeyMessage(Public(identity), kem.PublicKey(), ephemeral.PublicKey(),
                        leg1.value.0, leg2.value.0, leg3.value.0, leg4.value.0, ct5,
                        content.signedPrekey.keyId, id5)))
  }

  /** The one-time prekey the responder uses: both sides name the same one, or neither names any. */
  function MatchOneTime(keys: ResponderKeys, id: Option<nat>): Result<Option<HybridPrivate>, PqxdhError> {
    match (keys.oneTimePrekey, id)
    case (Some(key), Some(_)) => if id == keys.oneTimePrekeyId then Success(Some(key))
                                 else Failure(UnknownOneTimePrekey)
    case (None, None) => Success(None)
    case _ => Failure(UnknownOneTimePrekey)
  }

  function PqxdhResponder(keys: ResponderKeys, message: PrekeyMessage): Result<PqxdhOutput, PqxdhError> {
    if message.signedPrekeyId != keys.signedPrekeyId then Failure(UnknownSignedPrekey)
    else
      match MatchOneTime(keys, message.oneTimePrekeyId)
      case Failure(e) => Failure(e)
      case Success(oneTime) =>
        var kem := KemSecret(keys.identity);
        var leg1 := Decapsulate(keys.signedPrekey, message.ct1, message.ephemeralPublic);
        var leg2 := Decapsulate(keys.signedPrekey, message.ct2, message.identityKemPublic);
        var leg3 := Decapsulate(kem, message.ct3, message.ephemeralPublic);
        var leg4 := Decapsulate(kem, message.ct4, message.identityKemPublic);
        if leg1.Failure? then Failure(leg1.error)
        else if leg2.Failure? then Failure(leg2.error)
        else if leg3.Failure? then Failure(leg3.error)
        else if leg4.Failure? then Failure(leg4.error)
        else if oneTime.Some? && message.oneTimeCiphertext.Some? then
          var leg5 := Decapsulate(oneTime.value, message.oneTimeCiphertext.value, message.ephemeralPublic);
          if leg5.Failure? then Failure(leg5.error)
          else
            var secret := MasterSecret(leg1.value, leg2.value, leg3.value, leg4.value, Some(leg5.value));
            Success(ResponderOutput(message, secret))
        else Success(ResponderOutput(message, MasterSecret(leg1.value, leg2.value, leg3.value, leg4.value, None)))
  }

  function ResponderOutput(message: PrekeyMessage, secret: Key): PqxdhOutput {
    PqxdhOutput(secret, message.ephemeralPublic, message.signedPrekeyId, message.oneTimePrekeyId)
  }

  // ---------------------------------------------------------------- agreement

  predicate ValidKemKey(key: HybridPublic) {
    key.pq.PqKey?
  }

  /** The initiator succeeds exactly on a verified bundle whose KEM keys are all usable; of the
      one-time prekeys only the first matters. */
  lemma InitiatorSucceedsIff(identity: IdentityKeyPair, ephemeral: HybridPrivate, bundle: PreKeyBundle, coins: Coins)
    ensures PqxdhInitiator(identity, ephemeral, bundle, coins).Success? <==>
      && VerifyBundle(bundle)
      && ValidKemKey(bundle.content.signedPrekey.publicKey) && ValidKemKey(bundle.content.identityKem)
      && (bundle.content.oneTimePrekeys != [] ==> ValidKemKey(bundle.content.oneTimePrekeys[0].publicKey))
  {
  }

  predicate SameOneTimeId(keys: ResponderKeys, content: BundleContent) {
    if content.oneTimePrekeys == [] then keys.oneTimePrekey.None?
    else keys.oneTimePrekey.Some? && keys.oneTimePrekeyId == Some(content.oneTimePrekeys[0].keyId)
  }

  /** The responder holds the private halves of the keys the bundle published. */
  predicate HoldsKeysOf(keys: ResponderKeys, content: BundleContent) {
    && keys.signedPrekey.PublicKey() == content.signedPrekey.publicKey
    && KemSecret(keys.identity).PublicKey() == content.identityKem
    && (content.oneTimePrekeys != [] && keys.oneTimePrekey.Some? ==>
          keys.oneTimePrekey.value.PublicKey() == content.oneTimePrekeys[0].publicKey)
  }

  lemma MasterSecretInjective(a1: Key, a2: Key, a3: Key, a4: Key, a5: Option<Key>,
                              b1: Key, b2: Key, b3: Key, b4: Key, b5: Option<Key>)
    ensures MasterSecret(a1, a2, a3, a4, a5) == MasterSecret(b1, b2, b3, b4, b5) <==>
      a1 == b1 && a2 == b2 && a3 == b3 && a4 == b4 && a5 == b5
  {
    var a := MasterSecret(a1, a2, a3, a4, a5).ikm;
    var b := MasterSecret(b1, b2, b3, b4, b5).ikm;
    assert a[0] == a1 && a[1] == a2 && a[2] == a3 && a[3] == a4;
    assert b[0] == b1 && b[1] == b2 && b[2] == b3 && b[3] == b4;
    if a5.Some? { assert a[4] == a5.value; }
    if b5.Some? { assert b[4] == b5.value; }
  }

  /** PQXDH agreement, with or without a one-time prekey. Against any prekey message an initiator made
      from a bundle, a responder fails exactly when the prekey ids do not match, and names the reason;
      otherwise it derives the initiator's master secret if and only if it holds the private halves of
      the keys the bundle published. */
  lemma PqxdhAgreement(identity: IdentityKeyPair, ephemeral: HybridPrivate, bundle: PreKeyBundle, coins: Coins,
                       keys: ResponderKeys)
    requires PqxdhInitiator(identity, ephemeral, bundle, coins).Success?
    ensures var (out, message) := PqxdhInitiator(identity, ephemeral, bundle, coins).value;
      var content := bundle.content;
      if keys.signedPrekeyId != content.signedPrekey.keyId then
        PqxdhResponder(keys, message) == Failure(UnknownSignedPrekey)
      else if !SameOneTimeId(keys, content) then
        PqxdhResponder(keys, message) == Failure(UnknownOneTimePrekey)
      else
        && PqxdhResponder(keys, message).Success?
        && (PqxdhResponder(keys, message).value.sharedSecret == out.sharedSecret <==> HoldsKeysOf(keys, content))
        && PqxdhResponder(keys, message).value == out.(sharedSecret := PqxdhResponder(keys, message).value.sharedSecret)
  {
    var content := bundle.content;
    if keys.signedPrekeyId == content.signedPrekey.keyId && SameOneTimeId(keys, content) {
      LegsAgree(identity, ephemeral, bundle, coins, keys);
    }
  }

  lemma LegsAgree(identity: IdentityKeyPair, ephemeral: HybridPrivate, bundle: PreKeyBundle, coins: Coins,
                  keys: ResponderKeys)
    requires PqxdhInitiator(identity, ephemeral, bundle, coins).Success?
    requires keys.signedPrekeyId == bundle.content.signedPrekey.keyId && SameOneTimeId(keys, bundle.content)
    ensures var (out, message) := PqxdhInitiator(identity, ephemeral, bundle, coins).value;
      && PqxdhResponder(keys, message).Success?
      && (PqxdhResponder(keys, message).value.sharedSecret == out.sharedSecret <==> HoldsKeysOf(keys, bundle.content))
      && PqxdhResponder(keys, message).value == out.(sharedSecret := PqxdhResponder(keys, message).value.sharedSecret)
  {
    var content := bundle.content;
    var ik, kem := KemSecret(identity), KemSecret(keys.identity);
    KemAgreesIffKeysMatch(ephemeral, keys.signedPrekey, content.signedPrekey.publicKey, coins.c1);
    KemAgreesIffKeysMatch(ik, keys.signedPrekey, content.signedPrekey.publicKey, coins.c2);
    KemAgreesIffKeysMatch(ephemeral, kem, content.identityKem, coins.c3);
    KemAgreesIffKeysMatch(ik, kem, content.identityKem, coins.c4);
    var a1, a2 := Encapsulate(ephemeral, content.signedPrekey.publicKey, coins.c1).value,
                  Encapsulate(ik, content.signedPrekey.publicKey, coins.c2).value;
    var a3, a4 := Encapsulate(ephemeral, content.identityKem, coins.c3).value,
                  Encapsulate(ik, content.identityKem, coins.c4).value;
    var b1, b2 := Decapsulate(keys.signedPrekey, a1.0, ephemeral.PublicKey()).value,
                  Decapsulate(keys.signedPrekey, a2.0, ik.PublicKey()).value;
    var b3, b4 := Decapsulate(kem, a3.0, ephemeral.PublicKey()).value, Decapsulate(kem, a4.0, ik.PublicKey()).value;
    if content.oneTimePrekeys == [] {
      MasterSecretInjective(a1.1, a2.1, a3.1, a4.1, None, b1, b2, b3, b4, None);
    } else {
      var target, own := content.oneTimePrekeys[0].publicKey, keys.oneTimePrekey.value;
      KemAgreesIffKeysMatch(ephemeral, own, target, coins.c5);
      var a5 := Encapsulate(ephemeral, target, coins.c5).value;
      var b5 := Decapsulate(own, a5.0, ephemeral.PublicKey()).value;
      MasterSecretInjective(a1.1, a2.1, a3.1, a4.1, Some(a5.1), b1, b2, b3, b4, Some(b5));
    }
  }

  // ---------------------------------------------------------------- session keys

  datatype SessionKeys = SessionKeys(
    isInitiator: bool,
    rootKey: Key,
    sendingChain: Key,
    receivingChain: Key,
    peerIdentity: IdentityPublic,
    messageCount: nat)

  function NewSessionKeys(isInitiator: bool, secret: Key, peer: IdentityPublic): SessionKeys {
    SessionKeys(isInitiator,
                Hkdf(NoSalt, [secret], RootKeyInfo),
                Hkdf(NoSalt, [secret], SendingChainInfo),
                Hkdf(NoSalt, [secret], ReceivingChainInfo),
                peer, 0)
  }

  function ToDoubleRatchet(keys: SessionKeys, ourKey: Scalar, peer: Option<X25519Public>): Result<Ratchet, PqxdhError> {
    if keys.isInitiator then
      if peer.None? then Failure(PeerRatchetKeyRequired)
      else Success(InitInitiator("presidium-session", keys.rootKey, ourKey, peer.value, []))
    else Success(InitResponder("presidium-session", keys.rootKey, ourKey, []))
  }

  /** The live ratchet of fresh session keys. */
  method NewRatchet(keys: SessionKeys, ourKey: Scalar, peer: Option<X25519Public>)
    returns (result: Result<DoubleRatchet, PqxdhError>)
    ensures match ToDoubleRatchet(keys, ourKey, peer)
      case Failure(e) => result == Failure(e)
      case Success(r) => result.Success? && fresh(result.value) && result.value.State() == r
  {
    if !keys.isInitiator {
      var ratchet := new DoubleRatchet.InitAsResponder("presidium-session", keys.rootKey, ourKey, []);
      return Success(ratchet);
    }
    if peer.None? {
      return Failure(PeerRatchetKeyRequired);
    }
    var ratchet := new DoubleRatchet.Init("presidium-session", keys.rootKey, ourKey, peer.value, []);
    result := Success(ratchet);
  }

  /** Both roles derive the same three keys exactly when they start from one PQXDH secret, and the three
      are never the same key. */
  lemma SessionKeysAgreeIffSecretsAgree(s: Key, t: Key, p: IdentityPublic, q: IdentityPublic)
    ensures var a, b := NewSessionKeys(true, s, p), NewSessionKeys(false, t, q);
      && (a.rootKey == b.rootKey <==> s == t)
      && (a.sendingChain == b.sendingChain <==> s == t)
      && (a.receivingChain == b.receivingChain <==> s == t)
      && a.rootKey != b.sendingChain && a.rootKey != b.receivingChain && a.sendingChain != b.receivingChain
  {
    assert [s][0] == s && [t][0] == t;
  }
}
