/** What the PQXDH secret is bound to: which keys of either side enter it, and when a side refuses. */
module PqxdhBinding {
  import opened Results
  import opened Terms
  import opened Ratchet
  import opened Pqxdh

  /** The KEM key of an identity determines the identity, both halves of it. */
  lemma KemKeyDeterminesIdentity(x: IdentityKeyPair, y: IdentityKeyPair)
    ensures KemSecret(x).PublicKey() == KemSecret(y).PublicKey() <==> x == y
  {
    assert KemSecret(x).pq.ikm[0] == x.pqSeed && KemSecret(y).pq.ikm[0] == y.pqSeed;
  }

  /** A bundle is accepted exactly under its own identity's signature over its own content. */
  lemma RefusesOtherBundles(identity: IdentityKeyPair, ephemeral: HybridPrivate, bundle: PreKeyBundle, coins: Coins)
    ensures bundle.signature != SignedBy(bundle.content.identityKey, bundle.content) ==>
      !VerifyBundle(bundle) && PqxdhInitiator(identity, ephemeral, bundle, coins) == Failure(InvalidSignature)
    ensures bundle.signature == SignedBy(bundle.content.identityKey, bundle.content) ==>
      VerifyBundle(bundle) && PqxdhInitiator(identity, ephemeral, bundle, coins) != Failure(InvalidSignature)
  {
  }

  /** A leg determines the coin and, towards a peer whose X25519 key is a point, the sender's X25519 secret. */
  lemma LegDetermines(x: HybridPrivate, y: HybridPrivate, peer: HybridPublic, i: nat, j: nat)
    requires peer.pq.PqKey?
    ensures Encapsulate(x, peer, i).value.1 == Encapsulate(y, peer, j).value.1 <==>
      i == j && (peer.classical.Point? ==> x.classical == y.classical)
  {
    var a, b := Encapsulate(x, peer, i).value.1, Encapsulate(y, peer, j).value.1;
    assert a.ikm[0] == DiffieHellman(x.classical, peer.classical) && a.ikm[1] == KemShared(peer.pq.secret, i);
    assert b.ikm[0] == DiffieHellman(y.classical, peer.classical) && b.ikm[1] == KemShared(peer.pq.secret, j);
  }

  /** Some X25519 key that the initiator's identity key meets is a point, and not the all-zero key. */
  predicate BindsIdentity(content: BundleContent) {
    content.signedPrekey.publicKey.classical.Point? || content.identityKem.classical.Point?
  }

  /** Some X25519 key that the ephemeral key meets is a point. */
  predicate BindsEphemeral(content: BundleContent) {
    || BindsIdentity(content)
    || (content.oneTimePrekeys != [] && content.oneTimePrekeys[0].publicKey.classical.Point?)
  }

  /** What two attempts on a bundle must share to give one secret. */
  predicate SameAttempt(content: BundleContent, x: IdentityKeyPair, ex: HybridPrivate, cx: Coins,
                        y: IdentityKeyPair, ey: HybridPrivate, cy: Coins) {
    && CoinsUsed(content, cx) == CoinsUsed(content, cy)
    && (BindsIdentity(content) ==> x.classicalSeed == y.classicalSeed)
    && (BindsEphemeral(content) ==> ex.classical == ey.classical)
  }

  /** The coins that enter the secret: the fifth only with a one-time prekey. */
  function CoinsUsed(content: BundleContent, coins: Coins): Coins {
    if content.oneTimePrekeys == [] then coins.(c5 := 0) else coins
  }

  lemma InitiatorLegs(identity: IdentityKeyPair, ephemeral: HybridPrivate, bundle: PreKeyBundle, coins: Coins)
    requires PqxdhInitiator(identity, ephemeral, bundle, coins).Success?
    ensures var content, kem := bundle.content, KemSecret(identity);
      var (out, message) := PqxdhInitiator(identity, ephemeral, bundle, coins).value;
      && ValidKemKey(content.signedPrekey.publicKey) && ValidKemKey(content.identityKem)
      && (content.oneTimePrekeys != [] ==> ValidKemKey(content.oneTimePrekeys[0].publicKey))
      && out.sharedSecret == MasterSecret(
           Encapsulate(ephemeral, content.signedPrekey.publicKey, coins.c1).value.1,
           Encapsulate(kem, content.signedPrekey.publicKey, coins.c2).value.1,
           Encapsulate(ephemeral, content.identityKem, coins.c3).value.1,
           Encapsulate(kem, content.identityKem, coins.c4).value.1,
           if content.oneTimePrekeys == [] then None
           else Some(Encapsulate(ephemeral, content.oneTimePrekeys[0].publicKey, coins.c5).value.1))
  {
  }

  /** What the initiator puts into the secret, and shows of itself. The message names the initiator's identity
      and carries that identity's own KEM key and the ephemeral key. Of two attempts on one bundle, by any
      identities, the secrets are equal if and only if the coins in use are equal and, unless the bundle's
      X25519 keys are all-zero, so are the X25519 halves of the identity and of the ephemeral key. */
  lemma InitiatorIsBound(x: IdentityKeyPair, ex: HybridPrivate, cx: Coins,
                         y: IdentityKeyPair, ey: HybridPrivate, cy: Coins, bundle: PreKeyBundle)
    requires PqxdhInitiator(x, ex, bundle, cx).Success?
    ensures PqxdhInitiator(y, ey, bundle, cy).Success?
    ensures var (out, message) := PqxdhInitiator(x, ex, bundle, cx).value; var one := bundle.content.oneTimePrekeys;
      && out.ephemeralPublic == message.ephemeralPublic
      && out.signedPrekeyId == message.signedPrekeyId == bundle.content.signedPrekey.keyId
      && out.oneTimePrekeyId == message.oneTimePrekeyId == (if one == [] then None else Some(one[0].keyId))
      && message.identityPublic == Public(x) && message.ephemeralPublic == ex.PublicKey()
      && message.identityKemPublic == KemSecret(x).PublicKey()
    ensures PqxdhInitiator(x, ex, bundle, cx).value.0.sharedSecret
         == PqxdhInitiator(y, ey, bundle, cy).value.0.sharedSecret
      <==> SameAttempt(bundle.content, x, ex, cx, y, ey, cy)
  {
    InitiatorSucceedsIff(x, ex, bundle, cx);
    InitiatorSucceedsIff(y, ey, bundle, cy);
    SecretsEqualIff(x, ex, cx, y, ey, cy, bundle);
  }

  lemma SecretsEqualIff(x: IdentityKeyPair, ex: HybridPrivate, cx: Coins,
                        y: IdentityKeyPair, ey: HybridPrivate, cy: Coins, bundle: PreKeyBundle)
    requires PqxdhInitiator(x, ex, bundle, cx).Success? && PqxdhInitiator(y, ey, bundle, cy).Success?
    ensures PqxdhInitiator(x, ex, bundle, cx).value.0.sharedSecret
         == PqxdhInitiator(y, ey, bundle, cy).value.0.sharedSecret
      <==> SameAttempt(bundle.content, x, ex, cx, y, ey, cy)
  {
    var spk, ikb := bundle.content.signedPrekey.publicKey, bundle.content.identityKem;
    var one := bundle.content.oneTimePrekeys;
    var kx, ky := KemSecret(x), KemSecret(y);
    InitiatorLegs(x, ex, bundle, cx);
    InitiatorLegs(y, ey, bundle, cy);
    LegDetermines(ex, ey, spk, cx.c1, cy.c1);
    LegDetermines(kx, ky, spk, cx.c2, cy.c2);
    LegDetermines(ex, ey, ikb, cx.c3, cy.c3);
    LegDetermines(kx, ky, ikb, cx.c4, cy.c4);
    var fx, fy := None, None;
    if one != [] {
      LegDetermines(ex, ey, one[0].publicKey, cx.c5, cy.c5);
      fx := Some(Encapsulate(ex, one[0].publicKey, cx.c5).value.1);
      fy := Some(Encapsulate(ey, one[0].publicKey, cy.c5).value.1);
    }
    MasterSecretInjective(
      Encapsulate(ex, spk, cx.c1).value.1, Encapsulate(kx, spk, cx.c2).value.1,
      Encapsulate(ex, ikb, cx.c3).value.1, Encapsulate(kx, ikb, cx.c4).value.1, fx,
      Encapsulate(ey, spk, cy.c1).value.1, Encapsulate(ky, spk, cy.c2).value.1,
      Encapsulate(ey, ikb, cy.c3).value.1, Encapsulate(ky, ikb, cy.c4).value.1, fy);
  }

  // ---------------------------------------------------------------- the responder

  /** The responder uses a fifth leg when it holds a one-time prekey and the message carries its ciphertext. */
  predicate UsesFifth(keys: ResponderKeys, message: PrekeyMessage) {
    keys.oneTimePrekey.Some? && message.oneTimeCiphertext.Some?
  }

  predicate OneTimeIdsMatch(keys: ResponderKeys, message: PrekeyMessage) {
    if keys.oneTimePrekey.None? then message.oneTimePrekeyId.None?
    else message.oneTimePrekeyId.Some? && message.oneTimePrekeyId == keys.oneTimePrekeyId
  }

  /** Which messages the responder answers, whoever made them, and what it says to the others: prekey ids
      first, then the sizes of the ciphertexts it would open. */
  lemma ResponderAnswersIff(keys: ResponderKeys, message: PrekeyMessage)
    ensures var result := PqxdhResponder(keys, message);
      && (result == Failure(UnknownSignedPrekey) <==> message.signedPrekeyId != keys.signedPrekeyId)
      && (result == Failure(UnknownOneTimePrekey) <==>
            message.signedPrekeyId == keys.signedPrekeyId && !OneTimeIdsMatch(keys, message))
      && (result.Success? <==>
            && message.signedPrekeyId == keys.signedPrekeyId && OneTimeIdsMatch(keys, message)
            && message.ct1.KemCiphertext? && message.ct2.KemCiphertext?
            && message.ct3.KemCiphertext? && message.ct4.KemCiphertext?
            && (UsesFifth(keys, message) ==> message.oneTimeCiphertext.value.KemCiphertext?))
      && (result.Failure? ==> result.error in {UnknownSignedPrekey, UnknownOneTimePrekey, InvalidCiphertext})
  {
  }

  lemma OpenedLegDetermines(own: HybridPrivate, c: KemCiphertext, p: HybridPublic, d: KemCiphertext, q: HybridPublic)
    requires c.KemCiphertext? && d.KemCiphertext?
    ensures Decapsulate(own, c, p).value == Decapsulate(own, d, q).value <==> c == d && p.classical == q.classical
  {
    var a, b := Decapsulate(own, c, p).value, Decapsulate(own, d, q).value;
    assert a.ikm[0] == DiffieHellman(own.classical, p.classical);
    assert b.ikm[0] == DiffieHellman(own.classical, q.classical);
    var x := if c.owner == own.pq then KemShared(c.owner, c.coin) else KemRejected(own.pq, c.owner, c.coin);
    var y := if d.owner == own.pq then KemShared(d.owner, d.coin) else KemRejected(own.pq, d.owner, d.coin);
    assert a.ikm[1] == x && b.ikm[1] == y;
  }

  /** What two messages must share for a responder to derive one secret from them. */
  predicate SameInputs(keys: ResponderKeys, m: PrekeyMessage, n: PrekeyMessage) {
    && m.ct1 == n.ct1 && m.ct2 == n.ct2 && m.ct3 == n.ct3 && m.ct4 == n.ct4
    && m.ephemeralPublic.classical == n.ephemeralPublic.classical
    && m.identityKemPublic.classical == n.identityKemPublic.classical
    && (UsesFifth(keys, m) <==> UsesFifth(keys, n))
    && (UsesFifth(keys, m) ==> m.oneTimeCiphertext == n.oneTimeCiphertext)
  }

  lemma ResponderLegs(keys: ResponderKeys, m: PrekeyMessage)
    requires PqxdhResponder(keys, m).Success?
    ensures var kem := KemSecret(keys.identity);
      && m.ct1.KemCiphertext? && m.ct2.KemCiphertext? && m.ct3.KemCiphertext? && m.ct4.KemCiphertext?
      && (UsesFifth(keys, m) ==> m.oneTimeCiphertext.value.KemCiphertext?)
      && PqxdhResponder(keys, m).value.sharedSecret == MasterSecret(
           Decapsulate(keys.signedPrekey, m.ct1, m.ephemeralPublic).value,
           Decapsulate(keys.signedPrekey, m.ct2, m.identityKemPublic).value,
           Decapsulate(kem, m.ct3, m.ephemeralPublic).value,
           Decapsulate(kem, m.ct4, m.identityKemPublic).value,
           if UsesFifth(keys, m)
           then Some(Decapsulate(keys.oneTimePrekey.value, m.oneTimeCiphertext.value, m.ephemeralPublic).value)
           else None)
  {
    ResponderAnswersIff(keys, m);
  }

  /** What the responder's secret is bound to. Of any two messages it answers, genuine or altered, it derives
      one secret if and only if they carry the same ciphertexts and the same X25519 halves of the ephemeral
      and identity KEM keys: changing any of these changes the secret, and nothing else does. */
  lemma ResponderIsBound(keys: ResponderKeys, m: PrekeyMessage, n: PrekeyMessage)
    requires PqxdhResponder(keys, m).Success? && PqxdhResponder(keys, n).Success?
    ensures PqxdhResponder(keys, m).value.sharedSecret == PqxdhResponder(keys, n).value.sharedSecret
      <==> SameInputs(keys, m, n)
  {
    var spk, kem := keys.signedPrekey, KemSecret(keys.identity);
    ResponderLegs(keys, m);
    ResponderLegs(keys, n);
    OpenedLegDetermines(spk, m.ct1, m.ephemeralPublic, n.ct1, n.ephemeralPublic);
    OpenedLegDetermines(spk, m.ct2, m.identityKemPublic, n.ct2, n.identityKemPublic);
    OpenedLegDetermines(kem, m.ct3, m.ephemeralPublic, n.ct3, n.ephemeralPublic);
    OpenedLegDetermines(kem, m.ct4, m.identityKemPublic, n.ct4, n.identityKemPublic);
    var fm, fn := None, None;
    if UsesFifth(keys, m) {
      fm := Some(Decapsulate(keys.oneTimePrekey.value, m.oneTimeCiphertext.value, m.ephemeralPublic).value);
    }
    if UsesFifth(keys, n) {
      fn := Some(Decapsulate(keys.oneTimePrekey.value, n.oneTimeCiphertext.value, n.ephemeralPublic).value);
    }
    if UsesFifth(keys, m) && UsesFifth(keys, n) {
      OpenedLegDetermines(keys.oneTimePrekey.value, m.oneTimeCiphertext.value, m.ephemeralPublic,
                          n.oneTimeCiphertext.value, n.ephemeralPublic);
    }
    MasterSecretInjective(
      Decapsulate(spk, m.ct1, m.ephemeralPublic).value, Decapsulate(spk, m.ct2, m.identityKemPublic).value,
      Decapsulate(kem, m.ct3, m.ephemeralPublic).value, Decapsulate(kem, m.ct4, m.identityKemPublic).value, fm,
      Decapsulate(spk, n.ct1, n.ephemeralPublic).value, Decapsulate(spk, n.ct2, n.identityKemPublic).value,
      Decapsulate(kem, n.ct3, n.ephemeralPublic).value, Decapsulate(kem, n.ct4, n.identityKemPublic).value, fn);
  }
}
