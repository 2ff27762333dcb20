/** What the skip loop of `DoubleRatchet::decrypt` keeps, over every run of a ratchet. */
module SkipLoop {
  import opened Results
  import opened Terms
  import opened Ratchet

  // ---------------------------------------------------------------- staying on one chain

  function MessageKeyOf(chain: Key, n: nat): Key {
    MessageKeyAt(chain, ChainKeyInfo, n)
  }

  /** The receiving half holds keys of the chain that starts at `chain` and of no other. */
  predicate OnChain(rc: RatchetChain, chain: Key) {
    && (forall j :: 0 <= j < |rc.skipped| ==> rc.skipped[j].1 == MessageKeyOf(chain, rc.skipped[j].0))
    && match rc.chainKey
       case None => rc.skipped == []
       case Some(ck) =>
         && ck.key == ChainFrom(chain, ChainKeyInfo, ck.index)
         && forall j :: 0 <= j < |rc.skipped| ==> rc.skipped[j].0 <= ck.index
  }

  lemma KeysFromOnChain(ck: ChainKey, chain: Key, n: nat)
    requires ck.key == ChainFrom(chain, ChainKeyInfo, ck.index)
    ensures forall j :: 0 <= j < n ==> KeysFrom(ck, n)[j] == (ck.index + j, MessageKeyOf(chain, ck.index + j))
    ensures Advanced(ck, n).key == ChainFrom(chain, ChainKeyInfo, ck.index + n)
  {
    ChainFromAdds(chain, ChainKeyInfo, ck.index, n);
    forall j | 0 <= j < n
      ensures KeysFrom(ck, n)[j] == (ck.index + j, MessageKeyOf(chain, ck.index + j))
    {
      ChainFromAdds(chain, ChainKeyInfo, ck.index, j);
    }
  }

  lemma CatchUpStaysOnChain(rc: RatchetChain, ck: ChainKey, chain: Key, advance: nat, store: nat)
    requires rc.chainKey == Some(ck) && OnChain(rc, chain) && store <= advance + 1
    ensures OnChain(CatchUp(rc, ck, advance, store), chain)
  {
    KeysFromOnChain(ck, chain, store);
    KeysFromOnChain(ck, chain, advance);
  }

  /** No decryption, of any box under any header, leaves the chain. */
  lemma DecryptStaysOnChain(r: Ratchet, box: Box<Header>, header: Header, chain: Key)
    requires OnChain(r.receiving, chain)
    ensures OnChain(DecryptStep(r, box, header).1.receiving, chain)
  {
    if FindSkipped(r.receiving.skipped, header.messageNumber).None? && r.receiving.chainKey.Some? {
      var ck := r.receiving.chainKey.value;
      var gap, room := Gap(ck, header.messageNumber), Room(|r.receiving.skipped|);
      if gap >= room {
        CatchUpStaysOnChain(r.receiving, ck, chain, room - 1, room);
      } else {
        CatchUpStaysOnChain(r.receiving, ck, chain, gap + 1, gap);
      }
    }
  }

  // ---------------------------------------------------------------- conservation

  /** Does this operation reach the main path of `decrypt`? */
  predicate TakesMainPath(r: Ratchet, op: Op) {
    op.Decrypt? && r.receiving.chainKey.Some?
    && FindSkipped(r.receiving.skipped, op.header.messageNumber).None?
    && Gap(r.receiving.chainKey.value, op.header.messageNumber) < Room(|r.receiving.skipped|)
  }

  /** Does this operation fail with `TooManySkipped`? */
  predicate Overflows(r: Ratchet, op: Op) {
    Apply(r, op).0 == Decrypted(Failure(TooManySkipped))
  }

  function MainPathCalls(r: Ratchet, ops: seq<Op>): nat
    decreases |ops|
  {
    if ops == [] then 0
    else (if TakesMainPath(r, ops[0]) then 1 else 0) + MainPathCalls(Apply(r, ops[0]).1, ops[1..])
  }

  function OverflowFailures(r: Ratchet, ops: seq<Op>): nat
    decreases |ops|
  {
    if ops == [] then 0
    else (if Overflows(r, ops[0]) then 1 else 0) + OverflowFailures(Apply(r, ops[0]).1, ops[1..])
  }

  predicate NoDhStep(ops: seq<Op>) {
    forall i :: 0 <= i < |ops| ==> !ops[i].DhRatchet?
  }

  predicate StrictlyBelow(skipped: seq<(nat, Key)>, bound: nat) {
    && (forall j :: 0 <= j < |skipped| ==> skipped[j].0 < bound)
    && (forall i, j :: 0 <= i < j < |skipped| ==> skipped[i].0 < skipped[j].0)
  }

  function Index(r: Ratchet): nat {
    if r.receiving.chainKey.Some? then r.receiving.chainKey.value.index else 0
  }

  function Stored(r: Ratchet): nat {
    |r.receiving.skipped|
  }

  predicate Orderly(r: Ratchet) {
    StrictlyBelow(r.receiving.skipped, Index(r))
  }

  lemma StepStaysOrderly(r: Ratchet, op: Op)
    requires r.receiving.chainKey.Some? && !op.DhRatchet? && Orderly(r) && !Overflows(r, op)
    ensures Orderly(Apply(r, op).1)
  {
  }

  /** The effect of one operation on the stored list and the chain index. */
  lemma StepAccounts(r: Ratchet, op: Op, chain: Key)
    requires r.receiving.chainKey.Some? && OnChain(r.receiving, chain) && !op.DhRatchet?
    ensures var r' := Apply(r, op).1;
      && r'.receiving.chainKey.Some? && OnChain(r'.receiving, chain)
      && Stored(r') + Index(r) + (if TakesMainPath(r, op) then 1 else 0)
         == Stored(r) + Index(r') + (if Overflows(r, op) then 1 else 0)
      && (if Overflows(r, op) then Stored(r') == Stored(r) + Room(Stored(r))
          else Stored(r') == Stored(r) || Stored(r') <= MAX_SKIP_MESSAGES)
      && (Orderly(r) && !Overflows(r, op) ==> Orderly(r'))
  {
    if op.Decrypt? {
      DecryptStaysOnChain(r, op.box, op.header, chain);
    }
    if Orderly(r) && !Overflows(r, op) {
      StepStaysOrderly(r, op);
    }
  }

  /** The measure of one run, from any state with a receiving chain. */
  lemma {:induction false} RunAccounts(r: Ratchet, ops: seq<Op>, chain: Key)
    requires r.receiving.chainKey.Some? && OnChain(r.receiving, chain) && NoDhStep(ops)
    ensures var r' := Run(r, ops); var failures := OverflowFailures(r, ops);
      && r'.receiving.chainKey.Some? && OnChain(r'.receiving, chain)
      && Stored(r') + Index(r) + MainPathCalls(r, ops) == Stored(r) + Index(r') + failures
      && Stored(r') <= (if Stored(r) <= MAX_SKIP_MESSAGES then MAX_SKIP_MESSAGES else Stored(r)) + failures
      && (Orderly(r) && failures == 0 ==> Orderly(r'))
    decreases |ops|
  {
    if ops == [] {
    } else {
      StepAccounts(r, ops[0], chain);
      RunAccounts(Apply(r, ops[0]).1, ops[1..], chain);
    }
  }

  /** The work of one call, for every header and every list length: at most `Room` pushes, that is
      max(1, MAX_SKIP_MESSAGES + 1 - stored), and exactly that many when and only when it overflows. */
  lemma SkipLoopWork(r: Ratchet, box: Box<Header>, header: Header)
    ensures var (result, r') := DecryptStep(r, box, header);
      && Stored(r) <= Stored(r') <= Stored(r) + Room(Stored(r))
      && (Stored(r') == Stored(r) + Room(Stored(r)) <==> result == Failure(TooManySkipped))
      && Room(Stored(r)) == (if Stored(r) <= MAX_SKIP_MESSAGES then MAX_SKIP_MESSAGES + 1 - Stored(r) else 1)
  {
  }

  /** Conservation of the skip loop: from a fresh chain and until the next DH step, stored keys
      plus main-path calls equal the chain index plus overflow failures; every stored key is the
      chain's key for its index; the list is bounded by the cap plus the overflow failures; and
      without overflow its indices increase strictly and stay below the chain index. */
  lemma SkipLoopConserves(r: Ratchet, ops: seq<Op>, chain: Key)
    requires r.receiving.chainKey == Some(ChainKey(chain, 0)) && r.receiving.skipped == [] && NoDhStep(ops)
    ensures var rc := Run(r, ops).receiving;
      && rc.chainKey.Some?
      && |rc.skipped| + MainPathCalls(r, ops) == rc.chainKey.value.index + OverflowFailures(r, ops)
      && rc.chainKey.value.key == ChainFrom(chain, ChainKeyInfo, rc.chainKey.value.index)
      && (forall j :: 0 <= j < |rc.skipped| ==> rc.skipped[j].1 == MessageKeyOf(chain, rc.skipped[j].0))
      && |rc.skipped| <= MAX_SKIP_MESSAGES + OverflowFailures(r, ops)
      && (OverflowFailures(r, ops) == 0 ==> StrictlyBelow(rc.skipped, rc.chainKey.value.index))
  {
    RunAccounts(r, ops, chain);
  }

  // ---------------------------------------------------------------- the key slot

  /** Over every run, DH steps included, the receiving half never holds a ratchet key of ours, and
      each DH step therefore installs a fresh receiving chain while the sending half keeps its key. */
  lemma {:induction false} ReceivingSlotStaysEmpty(r: Ratchet, ops: seq<Op>, peer: X25519Public)
    requires r.receiving.ourKey.None? && r.sending.ourKey.Some?
    ensures var r' := Run(r, ops); var shared := DiffieHellman(r.sending.ourKey.value, peer);
      && r'.receiving.ourKey.None?
      && r'.sending.ourKey == r.sending.ourKey
      && r'.receiving.theirPublic == r.receiving.theirPublic
      && DhStep(r', peer).0 == Success(())
      && DhStep(r', peer).1.receiving == r'.receiving.(chainKey := Some(FirstChain(r'.root, shared)))
      && DhStep(r', peer).1.sending == r'.sending.(theirPublic := Some(peer))
    decreases |ops|
  {
    if ops == [] {
    } else {
      ReceivingSlotStaysEmpty(Apply(r, ops[0]).1, ops[1..], peer);
    }
  }
}
