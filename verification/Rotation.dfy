/** The initiator's session against a peer that has rotated its ratchet key. */
module Rotation {
  import opened Results
  import opened Terms
  import opened Ratchet
  import opened SkipLoop
  import opened Channel
  import opened Snapshot
  import opened Pqxdh
  import opened Session

  /** Does this envelope carry message `n` of the chain of a peer that has rotated to `author`? */
  predicate Carries(e: ChatEnvelope, chain: Key, author: X25519Public, n: nat, plaintext: Bytes) {
    e.header.Some? && (e.payload, e.header.value) == MessageAt(chain, author, n, plaintext)
  }

  /** The chain a DH step towards `author` installs. */
  function NewChain(s: Session, author: X25519Public): Key
    requires s.ratchet.sending.ourKey.Some?
  {
    FirstChain(s.ratchet.root, DiffieHellman(s.ratchet.sending.ourKey.value, author)).key
  }

  lemma FirstOfRotatedPeer(s: Session, peer: X25519Public, author: X25519Public, e: ChatEnvelope, n: nat, p: Bytes)
    requires InitiatorRatchet(s, peer) && author != peer && s.ratchet.receiving.skipped == []
    requires Accepted(s, e) && Carries(e, NewChain(s, author), author, n, p) && n <= MAX_SKIP_MESSAGES
    ensures var (first, s') := SessionDecrypt(s, e);
      && first == Success(p)
      && GateFires(s, e)
      && InitiatorRatchet(s', peer) && s'.peerIdentity == s.peerIdentity
      && s'.ratchet.sending.ourKey == s.ratchet.sending.ourKey
      && SaltDepth(s'.ratchet.root) == SaltDepth(s.ratchet.root) + 1
      && OnChain(s'.ratchet.receiving, NewChain(s, author))
      && s'.ratchet.receiving.skipped == KeysFrom(ChainKey(NewChain(s, author), 0), n)
  {
    var chain := NewChain(s, author);
    var r := DhStep(s.ratchet, author).1;
    assert OnChain(r.receiving, chain);
    ExactVerdict(r, chain, author, n, p);
    DecryptStaysOnChain(r, e.payload, e.header.value, chain);
    assert r.receiving.chainKey.value == ChainKey(chain, 0);
    assert [] + KeysFrom(ChainKey(chain, 0), n) == KeysFrom(ChainKey(chain, 0), n);
  }

  // ---------------------------------------------------------------- what is stored from then on

  predicate Deeper(skipped: seq<(nat, Key)>, from: nat, depth: nat) {
    forall j :: from <= j < |skipped| ==> SaltDepth(ChainStart(skipped[j].1)) > depth
  }

  /** The store of an initiator that has read message `n` of `chain`: the keys below `n`, and after them
      only keys of chains from deeper roots. */
  predicate KeepsBelow(s: Session, peer: X25519Public, chain: Key, n: nat) {
    var skipped := s.ratchet.receiving.skipped;
    && InitiatorRatchet(s, peer)
    && SaltDepth(s.ratchet.root) >= SaltDepth(chain)
    && n <= |skipped| && skipped[..n] == KeysFrom(ChainKey(chain, 0), n)
    && Deeper(skipped, n, SaltDepth(chain))
  }

  lemma KeysFromDeeper(chain: Key, count: nat, depth: nat)
    requires !chain.Hmac? && SaltDepth(chain) > depth
    ensures Deeper(KeysFrom(ChainKey(chain, 0), count), 0, depth)
  {
    forall j | 0 <= j < count
      ensures SaltDepth(ChainStart(KeysFrom(ChainKey(chain, 0), count)[j].1)) > depth
    {
      StartOfChain(chain, ChainKeyInfo, j);
    }
  }

  lemma StoreGrowsDeeper(skipped: seq<(nat, Key)>, more: seq<(nat, Key)>, n: nat, depth: nat)
    requires n <= |skipped| && Deeper(skipped, n, depth) && Deeper(more, 0, depth)
    ensures (skipped + more)[..n] == skipped[..n] && Deeper(skipped + more, n, depth)
  {
    forall j | n <= j < |skipped + more|
      ensures SaltDepth(ChainStart((skipped + more)[j].1)) > depth
    {
      if j >= |skipped| {
        assert (skipped + more)[j] == more[j - |skipped|];
      }
    }
  }

  /** A decryption by a ratchet that has just stepped leaves the stored keys and adds keys of the new chain. */
  lemma SteppedStore(r: Ratchet, author: X25519Public, box: Box<Header>, header: Header)
    requires r.receiving.ourKey.None? && r.sending.ourKey.Some?
    ensures var r1 := DhStep(r, author).1; var r2 := DecryptStep(r1, box, header).1;
      var chain := FirstChain(r.root, DiffieHellman(r.sending.ourKey.value, author)).key;
      && r2.root == NextRoot(r.root, DiffieHellman(r.sending.ourKey.value, author))
      && r2.sending.ourKey == r.sending.ourKey
      && r2.receiving.ourKey.None? && r2.receiving.theirPublic == r.receiving.theirPublic
      && exists count: nat :: r2.receiving.skipped == r.receiving.skipped + KeysFrom(ChainKey(chain, 0), count)
  {
    var r1 := DhStep(r, author).1;
    var ck := r1.receiving.chainKey.value;
    var gap, room := Gap(ck, header.messageNumber), Room(|r.receiving.skipped|);
    var count := if FindSkipped(r.receiving.skipped, header.messageNumber).Some? then 0
                 else if gap >= room then room else gap;
    assert DecryptStep(r1, box, header).1.receiving.skipped == r.receiving.skipped + KeysFrom(ck, count);
  }

  lemma ReceiptKeepsBelow(s: Session, peer: X25519Public, author: X25519Public, chain: Key, n: nat, e: ChatEnvelope)
    requires KeepsBelow(s, peer, chain, n) && author != peer
    requires Accepted(s, e) && e.header.value.dhPublic == author
    ensures KeepsBelow(SessionDecrypt(s, e).1, peer, chain, n)
    ensures SessionDecrypt(s, e).1.peerIdentity == s.peerIdentity
  {
    var r := s.ratchet;
    SteppedStore(r, author, e.payload, e.header.value);
    var r2 := DecryptStep(DhStep(r, author).1, e.payload, e.header.value).1;
    assert SessionDecrypt(s, e).1 == s.(ratchet := r2);
    var count: nat :| r2.receiving.skipped == r.receiving.skipped + KeysFrom(ChainKey(NewChain(s, author), 0), count);
    assert SaltDepth(NewChain(s, author)) == SaltDepth(r.root) + 1 == SaltDepth(r2.root);
    KeysFromDeeper(NewChain(s, author), count, SaltDepth(chain));
    StoreGrowsDeeper(r.receiving.skipped, KeysFrom(ChainKey(NewChain(s, author), 0), count), n, SaltDepth(chain));
  }

  lemma TransmitKeepsBelow(s: Session, peer: X25519Public, chain: Key, n: nat, identity: IdentityKeyPair, p: Bytes)
    requires KeepsBelow(s, peer, chain, n)
    ensures KeepsBelow(SessionEncrypt(s, identity, p).1, peer, chain, n)
    ensures SessionEncrypt(s, identity, p).1.peerIdentity == s.peerIdentity
  {
    var r' := SessionEncrypt(s, identity, p).1.ratchet;
    assert r'.receiving == s.ratchet.receiving && r'.sending.ourKey == s.ratchet.sending.ourKey;
    assert SaltDepth(r'.root) >= SaltDepth(s.ratchet.root);
  }

  lemma {:induction false} RunKeepsBelow(s: Session, peer: X25519Public, author: X25519Public, chain: Key, n: nat,
                                         ops: seq<SessionOp>)
    requires KeepsBelow(s, peer, chain, n) && author != peer && ConstantPeerKey(s, ops, author)
    ensures KeepsBelow(RunSession(s, ops), peer, chain, n)
    ensures RunSession(s, ops).peerIdentity == s.peerIdentity
    decreases |ops|
  {
    if ops == [] {
    } else {
      var s', rest := ApplySession(s, ops[0]), ops[1..];
      match ops[0] {
        case Transmit(identity, plaintext) => TransmitKeepsBelow(s, peer, chain, n, identity, plaintext);
        case Receive(e) =>
          if Accepted(s, e) {
            assert AcceptedOp(s, ops[0]);
            ReceiptKeepsBelow(s, peer, author, chain, n, e);
          }
        case RestartSession =>
      }
      assert forall i :: 0 <= i < |rest| ==> rest[i] == ops[i + 1];
      RunKeepsBelow(s', peer, author, chain, n, rest);
    }
  }

  // ---------------------------------------------------------------- what is read from then on

  lemma {:induction false} FindSkippedFirst(a: seq<(nat, Key)>, b: seq<(nat, Key)>, m: nat)
    ensures FindSkipped(a + b, m) == if FindSkipped(a, m).Some? then FindSkipped(a, m) else FindSkipped(b, m)
  {
    if a == [] {
      assert a + b == b;
    } else {
      assert (a + b)[0] == a[0] && (a + b)[1..] == a[1..] + b;
      FindSkippedFirst(a[1..], b, m);
    }
  }

  /** What is found for message `m` of `chain`: its own key below `n`, and no key of its chain from `n` on. */
  lemma FoundBelow(s: Session, peer: X25519Public, chain: Key, n: nat, m: nat)
    requires KeepsBelow(s, peer, chain, n) && !chain.Hmac?
    ensures var found := FindSkipped(s.ratchet.receiving.skipped, m);
      if m < n then found == Some(MessageKeyOf(chain, m))
      else found.Some? ==> found.value != MessageKeyOf(chain, m)
  {
    var skipped, own := s.ratchet.receiving.skipped, KeysFrom(ChainKey(chain, 0), n);
    assert skipped == own + skipped[n..];
    FindSkippedFirst(own, skipped[n..], m);
    KeysFromCover(ChainKey(chain, 0), n, m);
    if m < n {
      var j :| 0 <= j < |own| && own[j] == (m, FindSkipped(own, m).value);
    } else {
      StartOfChain(chain, ChainKeyInfo, m);
      assert Deeper(skipped[n..], 0, SaltDepth(chain));
    }
  }

  /** The verdict on message `m` of `chain` by a ratchet that steps first, from what it has stored. */
  lemma SteppedVerdict(r: Ratchet, author: X25519Public, chain: Key, m: nat, q: Bytes)
    requires r.receiving.ourKey.None? && r.sending.ourKey.Some? && !chain.Hmac?
    requires chain != FirstChain(r.root, DiffieHellman(r.sending.ourKey.value, author)).key
    ensures var (box, header) := MessageAt(chain, author, m, q); var found := FindSkipped(r.receiving.skipped, m);
      DecryptStep(DhStep(r, author).1, box, header).0 ==
        if found == Some(MessageKeyOf(chain, m)) then Success(q)
        else if found.None? && m > 0 && Stored(r) + m > MAX_SKIP_MESSAGES then Failure(TooManySkipped)
        else Failure(DecryptionFailed)
  {
    var installed := FirstChain(r.root, DiffieHellman(r.sending.ourKey.value, author)).key;
    ChainsNeverCross(chain, installed, ChainKeyInfo, m, m);
  }

  /** The initiator against a peer that has rotated its ratchet key: the gate fires on every message, not
      on the first one only. Of the new chain the first message that arrives is read, at any index `n`
      within reach. After it, and whatever else is sent, received from that peer and restarted, message
      `m` of that chain is read if and only if `m` is below `n`. */
  lemma RotatedPeerIsReadOnce(s: Session, peer: X25519Public, author: X25519Public, ops: seq<SessionOp>,
                              e: ChatEnvelope, n: nat, p: Bytes, f: ChatEnvelope, m: nat, q: Bytes)
    requires InitiatorRatchet(s, peer) && author != peer && s.ratchet.receiving.skipped == []
    requires Accepted(s, e) && Carries(e, NewChain(s, author), author, n, p) && n <= MAX_SKIP_MESSAGES
    requires ConstantPeerKey(s, ops, author)
    requires Accepted(s, f) && Carries(f, NewChain(s, author), author, m, q)
    ensures var (first, read) := SessionDecrypt(s, e); var now := RunSession(read, ops);
      && first == Success(p)
      && GateFires(s, e) && GateFires(now, f)
      && SessionDecrypt(now, f).0 ==
           if m < n then Success(q)
           else if OutOfReach(now, m) then Failure(RatchetFailed(TooManySkipped))
           else Failure(RatchetFailed(DecryptionFailed))
  {
    var chain := NewChain(s, author);
    FirstOfRotatedPeer(s, peer, author, e, n, p);
    var read := SessionDecrypt(s, e).1;
    assert KeepsBelow(read, peer, chain, n);
    assert forall i :: 0 <= i < |ops| ==> AcceptedOp(read, ops[i]) == AcceptedOp(s, ops[i]);
    RunKeepsBelow(read, peer, author, chain, n, ops);
    var now := RunSession(read, ops);
    FoundBelow(now, peer, chain, n, m);
    assert SaltDepth(NewChain(now, author)) > SaltDepth(chain);
    SteppedVerdict(now.ratchet, author, chain, m, q);
  }

  /** No key is stored for message `m`, and reaching it on a new chain would overflow the store. */
  predicate OutOfReach(s: Session, m: nat) {
    && FindSkipped(s.ratchet.receiving.skipped, m).None?
    && m > 0 && Stored(s.ratchet) + m > MAX_SKIP_MESSAGES
  }
}
