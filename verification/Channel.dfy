/** One direction of a conversation: what a receiver makes of the messages of one sending chain. */
module Channel {
  import opened Results
  import opened Terms
  import opened Ratchet
  import opened SkipLoop

  /** Message `n` of the chain that starts at `chain`, written by the owner of `author`. */
  function MessageAt(chain: Key, author: X25519Public, n: nat, plaintext: Bytes): Message {
    var header := Header(author, n, 0);
    (Sealed(MessageKeyOf(chain, n), n, header, plaintext), header)
  }

  /** Every index the receiving chain has passed was delivered or has its key in store. */
  predicate Covered(rc: RatchetChain, seen: set<nat>) {
    rc.chainKey.Some? ==>
      forall i: nat :: i < rc.chainKey.value.index ==> i in seen || FindSkipped(rc.skipped, i).Some?
  }

  /** Can the receiver reach message `n` without overflowing its store? */
  predicate WithinReach(rc: RatchetChain, n: nat) {
    && rc.chainKey.Some?
    && (n <= rc.chainKey.value.index || |rc.skipped| + (n - rc.chainKey.value.index) <= MAX_SKIP_MESSAGES)
  }

  lemma FindSkippedAppend(a: seq<(nat, Key)>, b: seq<(nat, Key)>, n: nat)
    ensures FindSkipped(a + b, n).Some? <==> FindSkipped(a, n).Some? || FindSkipped(b, n).Some?
  {
    if FindSkipped(a, n).Some? {
      var j :| 0 <= j < |a| && a[j].0 == n;
      assert (a + b)[j].0 == n;
    }
    if FindSkipped(b, n).Some? {
      var j :| 0 <= j < |b| && b[j].0 == n;
      assert (a + b)[|a| + j].0 == n;
    }
  }

  lemma KeysFromCover(ck: ChainKey, n: nat, i: nat)
    ensures FindSkipped(KeysFrom(ck, n), i).Some? <==> ck.index <= i < ck.index + n
  {
    if ck.index <= i < ck.index + n {
      assert KeysFrom(ck, n)[i - ck.index].0 == i;
    }
  }

  lemma DecryptCovers(r: Ratchet, box: Box<Header>, header: Header, seen: set<nat>)
    requires Covered(r.receiving, seen)
    ensures Covered(DecryptStep(r, box, header).1.receiving, seen + {header.messageNumber})
         || (r.receiving.chainKey.Some? && header.messageNumber < r.receiving.chainKey.value.index)
  {
    var rc := r.receiving;
    if rc.chainKey.Some? && FindSkipped(rc.skipped, header.messageNumber).None?
       && header.messageNumber >= rc.chainKey.value.index {
      var ck := rc.chainKey.value;
      var gap, room := Gap(ck, header.messageNumber), Room(|rc.skipped|);
      var stored := if gap >= room then room else gap;
      var after := DecryptStep(r, box, header).1.receiving;
      forall i: nat | i < after.chainKey.value.index && i != header.messageNumber
        ensures i in seen || FindSkipped(after.skipped, i).Some?
      {
        FindSkippedAppend(rc.skipped, KeysFrom(ck, stored), i);
        if ck.index <= i {
          KeysFromCover(ck, stored, i);
        }
      }
    }
  }

  /** A covered receiver never meets a spent key at a message it has not seen. */
  lemma FirstVerdict(r: Ratchet, chain: Key, author: X25519Public, n: nat, plaintext: Bytes, seen: set<nat>)
    requires r.receiving.chainKey.Some? && OnChain(r.receiving, chain) && Covered(r.receiving, seen) && n !in seen
    ensures var (box, header) := MessageAt(chain, author, n, plaintext);
      DecryptStep(r, box, header).0
        == (if WithinReach(r.receiving, n) then Success(plaintext) else Failure(TooManySkipped))
  {
    var ck := r.receiving.chainKey.value;
    if FindSkipped(r.receiving.skipped, n).None? {
      ChainFromAdds(chain, ChainKeyInfo, ck.index, Gap(ck, n));
    }
  }

  lemma StoreBehindIndex(r: Ratchet, box: Box<Header>, header: Header)
    requires WithinReach(r.receiving, header.messageNumber) && Stored(r) <= Index(r)
    ensures var r' := DecryptStep(r, box, header).1;
      r'.receiving.chainKey.Some? && Stored(r') <= Index(r')
  {
  }

  /** The first delivery of an authentic message: it returns exactly the plaintext that was sealed
      when the message is within reach, and only an overflow error otherwise. */
  lemma FirstDelivery(r: Ratchet, chain: Key, author: X25519Public, n: nat, plaintext: Bytes, seen: set<nat>)
    requires r.receiving.chainKey.Some? && OnChain(r.receiving, chain) && Covered(r.receiving, seen) && n !in seen
    ensures var (box, header) := MessageAt(chain, author, n, plaintext);
      var (result, r') := DecryptStep(r, box, header);
      && result == (if WithinReach(r.receiving, n) then Success(plaintext) else Failure(TooManySkipped))
      && r'.receiving.chainKey.Some? && OnChain(r'.receiving, chain) && Covered(r'.receiving, seen + {n})
      && (WithinReach(r.receiving, n) && Stored(r) <= Index(r) ==> Stored(r') <= Index(r'))
  {
    var (box, header) := MessageAt(chain, author, n, plaintext);
    FirstVerdict(r, chain, author, n, plaintext, seen);
    DecryptStaysOnChain(r, box, header, chain);
    DecryptCovers(r, box, header, seen);
    if WithinReach(r.receiving, n) && Stored(r) <= Index(r) {
      StoreBehindIndex(r, box, header);
    }
  }

  /** Decrypting a message when the receiver stands at or past its index with no key in store for it:
      the key of the current index is spent, and opens the message exactly when the two coincide. */
  lemma SpendsCurrentKey(r: Ratchet, chain: Key, author: X25519Public, n: nat, plaintext: Bytes)
    requires r.receiving.chainKey.Some? && OnChain(r.receiving, chain) && !chain.Hmac?
    requires n <= Index(r) && FindSkipped(r.receiving.skipped, n).None?
    ensures var (box, header) := MessageAt(chain, author, n, plaintext);
      var next := ChainKey(ChainFrom(chain, ChainKeyInfo, Index(r) + 1), Index(r) + 1);
      DecryptStep(r, box, header) ==
        (if n == Index(r) then Success(plaintext) else Failure(DecryptionFailed),
         r.(receiving := r.receiving.(chainKey := Some(next))))
  {
    var ck := r.receiving.chainKey.value;
    ChainsNeverCross(chain, chain, ChainKeyInfo, n, ck.index);
    assert Gap(ck, n) == 0 && r.receiving.skipped + KeysFrom(ck, 0) == r.receiving.skipped;
    assert MessageKeyAt(ck.key, ChainKeyInfo, 0) == MessageKeyOf(chain, ck.index);
    assert ChainFrom(ck.key, ChainKeyInfo, 1) == ChainFrom(chain, ChainKeyInfo, ck.index + 1);
  }

  // ---------------------------------------------------------------- the exact verdict

  /** The verdict on message `n` of a receiver's chain, from what the receiver holds before the call. */
  function Reading(r: Ratchet, n: nat, plaintext: Bytes): Result<Bytes, RatchetError> {
    if FindSkipped(r.receiving.skipped, n).Some? then Success(plaintext)
    else if r.receiving.chainKey.None? then Failure(NoReceivingChain)
    else if n < Index(r) then Failure(DecryptionFailed)
    else if WithinReach(r.receiving, n) then Success(plaintext)
    else Failure(TooManySkipped)
  }

  /** The exact verdict, whatever the receiver was fed before: a message is read if and only if its key
      is in store, or the receiver has not passed its index and it is within reach. */
  lemma ExactVerdict(r: Ratchet, chain: Key, author: X25519Public, n: nat, plaintext: Bytes)
    requires OnChain(r.receiving, chain) && !chain.Hmac?
    ensures var (box, header) := MessageAt(chain, author, n, plaintext);
      DecryptStep(r, box, header).0 == Reading(r, n, plaintext)
  {
    if r.receiving.chainKey.Some? && FindSkipped(r.receiving.skipped, n).None? {
      if n <= Index(r) {
        SpendsCurrentKey(r, chain, author, n, plaintext);
      } else {
        var ck := r.receiving.chainKey.value;
        KeysFromOnChain(ck, chain, Gap(ck, n));
        ChainFromAdds(chain, ChainKeyInfo, ck.index, Gap(ck, n));
      }
    }
  }

  /** The index whose key a decryption on the main path spends. */
  function Spends(r: Ratchet, op: Op): set<nat> {
    if TakesMainPath(r, op) then {Index(r) + Gap(r.receiving.chainKey.value, op.header.messageNumber)} else {}
  }

  /** The index whose key an overflowing decryption stores without passing it. */
  function Overstores(r: Ratchet, op: Op): set<nat> {
    if Overflows(r, op) then {Index(Apply(r, op).1)} else {}
  }

  function Spent(r: Ratchet, ops: seq<Op>): set<nat>
    decreases |ops|
  {
    if ops == [] then {} else Spends(r, ops[0]) + Spent(Apply(r, ops[0]).1, ops[1..])
  }

  function Overstored(r: Ratchet, ops: seq<Op>): set<nat>
    decreases |ops|
  {
    if ops == [] then {} else Overstores(r, ops[0]) + Overstored(Apply(r, ops[0]).1, ops[1..])
  }

  lemma StepStores(r: Ratchet, op: Op, n: nat)
    requires r.receiving.chainKey.Some? && !op.DhRatchet?
    ensures var r' := Apply(r, op).1;
      && r'.receiving.chainKey.Some? && Index(r) <= Index(r')
      && (forall i :: i in Spends(r, op) ==> Index(r) <= i < Index(r'))
      && (FindSkipped(r'.receiving.skipped, n).Some? <==>
            || FindSkipped(r.receiving.skipped, n).Some?
            || (Index(r) <= n < Index(r') && n !in Spends(r, op))
            || n in Overstores(r, op))
  {
    if op.Decrypt? && FindSkipped(r.receiving.skipped, op.header.messageNumber).None? {
      var ck := r.receiving.chainKey.value;
      var gap, room := Gap(ck, op.header.messageNumber), Room(|r.receiving.skipped|);
      var stored := if gap >= room then room else gap;
      FindSkippedAppend(r.receiving.skipped, KeysFrom(ck, stored), n);
      KeysFromCover(ck, stored, n);
    }
  }

  /** What is in store after a run: what was there, every index passed and not spent, and the index an
      overflow stops at. */
  lemma {:induction false} RunStores(r: Ratchet, ops: seq<Op>, n: nat)
    requires r.receiving.chainKey.Some? && NoDhStep(ops)
    ensures var r' := Run(r, ops);
      && r'.receiving.chainKey.Some? && Index(r) <= Index(r')
      && (n in Spent(r, ops) ==> Index(r) <= n < Index(r'))
      && (FindSkipped(r'.receiving.skipped, n).Some? <==>
            || FindSkipped(r.receiving.skipped, n).Some?
            || (Index(r) <= n < Index(r') && n !in Spent(r, ops))
            || n in Overstored(r, ops))
    decreases |ops|
  {
    if ops == [] {
    } else {
      StepStores(r, ops[0], n);
      RunStores(Apply(r, ops[0]).1, ops[1..], n);
    }
  }

  /** What a run leaves readable, said of the run alone. From a fresh chain and until the next DH step,
      over any boxes under any headers: message `n` is lost if and only if some call has spent its key,
      unless an overflow stored that key; every other message is read when it is within reach. */
  lemma ReadableIffUnspent(r: Ratchet, ops: seq<Op>, chain: Key, author: X25519Public, n: nat, plaintext: Bytes)
    requires r.receiving.chainKey == Some(ChainKey(chain, 0)) && r.receiving.skipped == []
    requires NoDhStep(ops) && !chain.Hmac?
    ensures var r' := Run(r, ops); var (box, header) := MessageAt(chain, author, n, plaintext);
      DecryptStep(r', box, header).0 ==
        if n in Overstored(r, ops) then Success(plaintext)
        else if n in Spent(r, ops) then Failure(DecryptionFailed)
        else if WithinReach(r'.receiving, n) then Success(plaintext)
        else Failure(TooManySkipped)
  {
    RunAccounts(r, ops, chain);
    RunStores(r, ops, n);
    ExactVerdict(Run(r, ops), chain, author, n, plaintext);
  }

  /** The failing input behind that condition: replaying a message that was read on the main
      path fails, yet spends the key of the next index, so that the next message in order is lost. */
  lemma ReplayLosesNextMessage(r: Ratchet, chain: Key, author: X25519Public, n: nat, past: Bytes, next: Bytes)
    requires r.receiving.chainKey.Some? && OnChain(r.receiving, chain) && !chain.Hmac?
    requires Orderly(r) && n < Index(r) && FindSkipped(r.receiving.skipped, n).None?
    ensures var (box, header) := MessageAt(chain, author, n, past);
      var (first, r') := DecryptStep(r, box, header);
      var (nextBox, nextHeader) := MessageAt(chain, author, Index(r), next);
      && first == Failure(DecryptionFailed)
      && DecryptStep(r, nextBox, nextHeader).0 == Success(next)
      && DecryptStep(r', nextBox, nextHeader).0 == Failure(DecryptionFailed)
  {
    assert FindSkipped(r.receiving.skipped, Index(r)).None?;
    SpendsCurrentKey(r, chain, author, n, past);
    SpendsCurrentKey(r, chain, author, Index(r), next);
    var (box, header) := MessageAt(chain, author, n, past);
    SpendsCurrentKey(DecryptStep(r, box, header).1, chain, author, Index(r), next);
  }

  /** Why completeness asks for one DH step: a further step installs a new chain but keeps the stored
      keys of the former one, which are found by index alone. A message of the new chain is then read
      if and only if no key of the former chain is stored for its index and it is within reach. */
  lemma StoredKeysShadowNewChain(r: Ratchet, former: Key, peer: X25519Public, author: X25519Public, n: nat,
                                 plaintext: Bytes)
    requires OnChain(r.receiving, former) && !former.Hmac? && r.receiving.ourKey.None? && r.sending.ourKey.Some?
    requires former != FirstChain(r.root, DiffieHellman(r.sending.ourKey.value, peer)).key
    ensures var chain := FirstChain(r.root, DiffieHellman(r.sending.ourKey.value, peer)).key;
      var (box, header) := MessageAt(chain, author, n, plaintext);
      DecryptStep(DhStep(r, peer).1, box, header).0 ==
        if FindSkipped(r.receiving.skipped, n).Some? then Failure(DecryptionFailed)
        else if n == 0 || Stored(r) + n <= MAX_SKIP_MESSAGES then Success(plaintext)
        else Failure(TooManySkipped)
  {
    var chain := FirstChain(r.root, DiffieHellman(r.sending.ourKey.value, peer)).key;
    ChainsNeverCross(former, chain, ChainKeyInfo, n, n);
  }

  /** The other side of such a step: a message of the former chain is read afterwards if and only if its
      key had been stored, and otherwise spends a key of the new chain. */
  lemma FormerChainAfterStep(r: Ratchet, former: Key, peer: X25519Public, author: X25519Public, n: nat,
                             plaintext: Bytes)
    requires OnChain(r.receiving, former) && !former.Hmac? && r.receiving.ourKey.None? && r.sending.ourKey.Some?
    requires former != FirstChain(r.root, DiffieHellman(r.sending.ourKey.value, peer)).key
    ensures var (box, header) := MessageAt(former, author, n, plaintext);
      DecryptStep(DhStep(r, peer).1, box, header).0 ==
        if FindSkipped(r.receiving.skipped, n).Some? then Success(plaintext)
        else if n == 0 || Stored(r) + n <= MAX_SKIP_MESSAGES then Failure(DecryptionFailed)
        else Failure(TooManySkipped)
  {
    var chain := FirstChain(r.root, DiffieHellman(r.sending.ourKey.value, peer)).key;
    ChainsNeverCross(former, chain, ChainKeyInfo, n, n);
  }

  // ---------------------------------------------------------------- arbitrary input

  /** Nobody but the author has sealed anything under the keys of the chain. */
  ghost predicate Authentic(box: Box<Header>, chain: Key, author: X25519Public, sent: seq<Bytes>) {
    forall i: nat :: box.Sealed? && box.key == MessageKeyOf(chain, i) ==>
      i < |sent| && box == MessageAt(chain, author, i, sent[i]).0
  }

  /** Whatever is fed to a receiver, and under whatever header, it accepts only what the author
      sealed, at the index the author sealed it for. */
  lemma AcceptsOnlySent(r: Ratchet, box: Box<Header>, header: Header, chain: Key, author: X25519Public,
                        sent: seq<Bytes>)
    requires OnChain(r.receiving, chain) && Authentic(box, chain, author, sent)
    ensures var result := DecryptStep(r, box, header).0;
      result.Success? ==>
        && header.messageNumber < |sent|
        && (box, header) == MessageAt(chain, author, header.messageNumber, sent[header.messageNumber])
        && result.value == sent[header.messageNumber]
  {
    var result := DecryptStep(r, box, header).0;
    if result.Success? {
      var i: nat;
      if FindSkipped(r.receiving.skipped, header.messageNumber).Some? {
        i := header.messageNumber;
      } else {
        var ck := r.receiving.chainKey.value;
        i := ck.index + Gap(ck, header.messageNumber);
        ChainFromAdds(chain, ChainKeyInfo, ck.index, Gap(ck, header.messageNumber));
      }
      assert box.key == MessageKeyOf(chain, i);
    }
  }
}
