/** What a DH step depends on: whose messages it makes readable, and when an operation is refused. */
module DhSteps {
  import opened Results
  import opened Terms
  import opened Ratchet
  import opened SkipLoop
  import opened Channel

  /** Two X25519 exchanges that give one secret: both with the all-zero key, or between the same two
      key pairs, from either end. */
  predicate SameExchange(a: Scalar, p: X25519Public, b: Scalar, q: X25519Public) {
    || (p.ZeroPoint? && q.ZeroPoint?)
    || (p.Point? && q.Point? && ((a == b && p == q) || (p == PublicOf(b) && q == PublicOf(a))))
  }

  lemma SameSecretIff(a: Scalar, p: X25519Public, b: Scalar, q: X25519Public)
    ensures DiffieHellman(a, p) == DiffieHellman(b, q) <==> SameExchange(a, p, b, q)
  {
  }

  /** A derivation step determines the root and the exchange it was made from. */
  lemma StepDetermines(root: Key, other: Key, a: Scalar, p: X25519Public, b: Scalar, q: X25519Public)
    ensures var x, y := DiffieHellman(a, p), DiffieHellman(b, q);
      && (NextRoot(root, x) == NextRoot(other, y) <==> root == other && SameExchange(a, p, b, q))
      && (FirstChain(root, x) == FirstChain(other, y) <==> root == other && SameExchange(a, p, b, q))
  {
    var x, y := DiffieHellman(a, p), DiffieHellman(b, q);
    SameSecretIff(a, p, b, q);
    assert [x][0] == x && [y][0] == y;
  }

  /** The key a DH step uses. */
  function StepKey(r: Ratchet): Option<Scalar> {
    if r.receiving.ourKey.Some? then r.receiving.ourKey else r.sending.ourKey
  }

  /** The chain a DH step installs, in whichever half. */
  function Installed(r: Ratchet, peer: X25519Public): Option<ChainKey> {
    var stepped := DhStep(r, peer).1;
    if r.receiving.ourKey.Some? then stepped.sending.chainKey else stepped.receiving.chainKey
  }

  /** Steps of any two ratchets towards any two keys: the roots they reach, and the chains they install,
      are the same if and only if the ratchets had one root and the exchanges are the same. */
  lemma StepsMeetIff(r: Ratchet, p: X25519Public, t: Ratchet, q: X25519Public)
    requires StepKey(r).Some? && StepKey(t).Some?
    ensures var same := r.root == t.root && SameExchange(StepKey(r).value, p, StepKey(t).value, q);
      && (DhStep(r, p).1.root == DhStep(t, q).1.root <==> same)
      && Installed(r, p).Some? && Installed(t, q).Some?
      && (Installed(r, p) == Installed(t, q) <==> same)
  {
    StepDetermines(r.root, t.root, StepKey(r).value, p, StepKey(t).value, q);
  }

  /** One ratchet stepping towards two keys: equal keys, equal roots. */
  lemma StepSeparatesPeers(r: Ratchet, p: X25519Public, q: X25519Public)
    requires StepKey(r).Some?
    ensures DhStep(r, p).1.root == DhStep(r, q).1.root <==> p == q
    ensures Installed(r, p) == Installed(r, q) <==> p == q
  {
    StepsMeetIff(r, p, r, q);
  }

  // ---------------------------------------------------------------- what a step makes readable

  function Encryptions(ops: seq<Op>): nat {
    if ops == [] then 0 else (if ops[0].Encrypt? then 1 else 0) + Encryptions(ops[1..])
  }

  /** A ratchet that writes on `chain` with the key `own`, at position `n`. */
  predicate Writes(r: Ratchet, chain: Key, own: Scalar, n: nat) {
    && r.receiving.ourKey.None? && r.sending.ourKey == Some(own)
    && r.sending.chainKey == Some(ChainKey(ChainFrom(chain, ChainKeyInfo, n), n))
  }

  lemma {:induction false} WritesOnOneChain(r: Ratchet, chain: Key, own: Scalar, n: nat, ops: seq<Op>)
    requires Writes(r, chain, own, n)
    ensures Writes(Run(r, ops), chain, own, n + Encryptions(ops))
    decreases |ops|
  {
    if ops == [] {
    } else {
      var step := if ops[0].Encrypt? then 1 else 0;
      WritesOnOneChain(Apply(r, ops[0]).1, chain, own, n + step, ops[1..]);
    }
  }

  lemma NextMessage(r: Ratchet, chain: Key, own: Scalar, n: nat, x: Bytes)
    requires Writes(r, chain, own, n)
    ensures EncryptStep(r, x).0 == Success(MessageAt(chain, PublicOf(own), n, x))
  {
  }

  /** The verdict of a freshly stepped ratchet on message `n` of a chain, its own or another. */
  lemma FirstChainVerdict(r: Ratchet, installed: Key, chain: Key, author: X25519Public, n: nat, x: Bytes)
    requires r.receiving.chainKey == Some(ChainKey(installed, 0)) && r.receiving.skipped == []
    requires !installed.Hmac? && !chain.Hmac?
    ensures var (box, header) := MessageAt(chain, author, n, x);
      DecryptStep(r, box, header).0 ==
        if n > MAX_SKIP_MESSAGES then Failure(TooManySkipped)
        else if chain == installed then Success(x)
        else Failure(DecryptionFailed)
  {
    ChainsNeverCross(chain, installed, ChainKeyInfo, n, n);
  }

  /** Whose messages a DH step makes readable. An initiator with the key `a`, set up towards `p` on `root`,
      does anything at all and then encrypts `x`. A responder with the key `b` on the root `other` takes its
      DH step towards `q` and is handed that message: within reach it reads `x` if and only if the two have
      one root and their exchanges are the same; out of reach it reports an overflow, and anything else is
      a failed decryption. */
  lemma StepReadsExactlyItsPeer(root: Key, a: Scalar, p: X25519Public, ops: seq<Op>, x: Bytes,
                                other: Key, b: Scalar, q: X25519Public, id: string, aad: Bytes)
    ensures var sent := EncryptStep(Run(InitInitiator(id, root, a, p, aad), ops), x).0;
      && sent.Success?
      && var (box, header) := sent.value;
      DecryptStep(DhStep(InitResponder(id, other, b, aad), q).1, box, header).0 ==
        if Encryptions(ops) > MAX_SKIP_MESSAGES then Failure(TooManySkipped)
        else if root == other && SameExchange(a, p, b, q) then Success(x)
        else Failure(DecryptionFailed)
  {
    var alice := InitInitiator(id, root, a, p, aad);
    var chain := FirstChain(root, DiffieHellman(a, p)).key;
    var installed := FirstChain(other, DiffieHellman(b, q)).key;
    WritesOnOneChain(alice, chain, a, 0, ops);
    NextMessage(Run(alice, ops), chain, a, Encryptions(ops), x);
    StepDetermines(root, other, a, p, b, q);
    var bob := DhStep(InitResponder(id, other, b, aad), q).1;
    FirstChainVerdict(bob, installed, chain, PublicOf(a), Encryptions(ops), x);
  }

  /** The special case of two parties of one handshake: the initiator's first message is read if and only if
      the responder has stepped towards the initiator's own key. */
  lemma FirstMessageNeedsTheRightStep(id: string, root: Key, a: Scalar, b: Scalar, p: X25519Public,
                                      aad: Bytes, x: Bytes)
    ensures var sent := EncryptStep(InitInitiator(id, root, a, PublicOf(b), aad), x).0;
      && sent.Success?
      && var (box, header) := sent.value;
      DecryptStep(DhStep(InitResponder(id, root, b, aad), p).1, box, header).0 == Success(x) <==> p == PublicOf(a)
  {
    StepReadsExactlyItsPeer(root, a, PublicOf(b), [], x, root, b, p, id, aad);
  }

  /** The two branches of a step are two ends of one exchange: a ratchet that steps with a key of its
      receiving half writes, under that key, what a ratchet on the same root that steps with its sending
      half towards it reads. */
  lemma BothBranchesMeet(r: Ratchet, t: Ratchet, x: Bytes)
    requires r.receiving.ourKey.Some? && t.receiving.ourKey.None? && t.sending.ourKey.Some?
    requires r.root == t.root && t.receiving.skipped == []
    ensures var mine, theirs := r.receiving.ourKey.value, t.sending.ourKey.value;
      var writer, reader := DhStep(r, PublicOf(theirs)).1, DhStep(t, PublicOf(mine)).1;
      var sent := EncryptStep(writer, x).0;
      && writer.root == reader.root && writer.receiving.ourKey.None?
      && sent.Success? && sent.value.1.dhPublic == PublicOf(mine) && sent.value.1.messageNumber == 0
      && DecryptStep(reader, sent.value.0, sent.value.1).0 == Success(x)
  {
    var mine, theirs := r.receiving.ourKey.value, t.sending.ourKey.value;
    StepsMeetIff(r, PublicOf(theirs), t, PublicOf(mine));
    var writer, reader := DhStep(r, PublicOf(theirs)).1, DhStep(t, PublicOf(mine)).1;
    var chain := writer.sending.chainKey.value.key;
    assert writer.sending.chainKey == Some(ChainKey(ChainFrom(chain, ChainKeyInfo, 0), 0));
    NextMessage(writer, chain, mine, 0, x);
    FirstChainVerdict(reader, chain, chain, PublicOf(mine), 0, x);
  }

  // ---------------------------------------------------------------- refusals

  /** An operation other than a decryption is refused exactly for want of a key it needs, with the error
      that names it, and a refusal changes nothing. A message that does go out shows the sender's key, or the
      all-zero key where the sender holds a chain without one. */
  lemma RefusedForWantOfAKey(r: Ratchet, x: Bytes, peer: X25519Public)
    ensures var (sent, r') := EncryptStep(r, x); var s := r.sending;
      && (sent == Failure(NoSendingKey) <==> s.chainKey.None? && s.ourKey.None?)
      && (sent == Failure(NoPeerKey) <==> s.chainKey.None? && s.ourKey.Some? && s.theirPublic.None?)
      && (sent.Failure? ==> r' == r && sent.error in {NoSendingKey, NoPeerKey})
      && (sent.Success? ==>
            sent.value.1.dhPublic == if s.ourKey.Some? then PublicOf(s.ourKey.value) else ZeroPoint)
    ensures var (stepped, r') := DhStep(r, peer);
      && (stepped == Failure(NoRatchetKey) <==> r.receiving.ourKey.None? && r.sending.ourKey.None?)
      && (stepped.Failure? ==> r' == r && stepped.error == NoRatchetKey)
  {
  }
}
