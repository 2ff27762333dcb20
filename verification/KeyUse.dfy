/** The (message key, nonce) pairs that ratchets seal under, over every run of operations. */
module KeyUse {
  import opened Results
  import opened Terms
  import opened Ratchet
  import opened Snapshot

  /** The (message key, nonce) pair an operation seals under, if any. */
  function PairOf(outcome: Outcome): seq<(Key, nat)> {
    match outcome
    case Encrypted(Success((Sealed(key, nonce, _, _), _))) => [(key, nonce)]
    case _ => []
  }

  /** The pairs a run seals under, in order. */
  function PairsUsed(r: Ratchet, ops: seq<Op>): seq<(Key, nat)>
    decreases |ops|
  {
    if ops == [] then [] else PairOf(Apply(r, ops[0]).0) + PairsUsed(Apply(r, ops[0]).1, ops[1..])
  }

  predicate CanSend(r: Ratchet) {
    r.sending.chainKey.Some? || (r.sending.ourKey.Some? && r.sending.theirPublic.Some?)
  }

  function SendIndex(r: Ratchet): nat {
    if r.sending.chainKey.Some? then r.sending.chainKey.value.index else 0
  }

  lemma {:induction false} RunAppends(r: Ratchet, a: seq<Op>, b: seq<Op>)
    ensures PairsUsed(r, a + b) == PairsUsed(r, a) + PairsUsed(Run(r, a), b)
    decreases |a|
  {
    if a == [] {
      assert a + b == b;
    } else {
      assert (a + b)[0] == a[0] && (a + b)[1..] == a[1..] + b;
      RunAppends(Apply(r, a[0]).1, a[1..], b);
    }
  }

  /** One operation of a ratchet whose receiving half holds no key of ours. */
  lemma StepSends(r: Ratchet, op: Op)
    requires r.receiving.ourKey.None?
    ensures var (outcome, r') := Apply(r, op);
      && r'.receiving.ourKey.None?
      && SendIndex(r) <= SendIndex(r')
      && (r.sending.chainKey.Some? ==>
            r'.sending.chainKey == (if op.Encrypt? then Some(r.sending.chainKey.value.Next()) else r.sending.chainKey))
      && (op.Encrypt? && CanSend(r) ==>
            && |PairOf(outcome)| == 1 && PairOf(outcome)[0].1 == SendIndex(r)
            && r'.sending.chainKey.Some? && SendIndex(r') == SendIndex(r) + 1)
      && (!(op.Encrypt? && CanSend(r)) ==> PairOf(outcome) == [])
  {
  }

  /** A run seals under nonces at or above the index it starts from and below the one it ends at. */
  lemma {:induction false} NoncesInRange(r: Ratchet, ops: seq<Op>)
    requires r.receiving.ourKey.None?
    ensures Run(r, ops).receiving.ourKey.None? && SendIndex(r) <= SendIndex(Run(r, ops))
    ensures forall u :: u in PairsUsed(r, ops) ==> SendIndex(r) <= u.1 < SendIndex(Run(r, ops))
    decreases |ops|
  {
    if ops == [] {
    } else {
      StepSends(r, ops[0]);
      NoncesInRange(Apply(r, ops[0]).1, ops[1..]);
    }
  }

  // ---------------------------------------------------------------- single use

  /** The nonces of one ratchet's run increase strictly. */
  lemma {:induction false} NoncesIncrease(r: Ratchet, ops: seq<Op>)
    requires r.receiving.ourKey.None?
    ensures forall i, j :: 0 <= i < j < |PairsUsed(r, ops)| ==> PairsUsed(r, ops)[i].1 < PairsUsed(r, ops)[j].1
    decreases |ops|
  {
    if ops == [] {
    } else {
      StepSends(r, ops[0]);
      var r' := Apply(r, ops[0]).1;
      NoncesInRange(r', ops[1..]);
      NoncesIncrease(r', ops[1..]);
      var first, rest := PairOf(Apply(r, ops[0]).0), PairsUsed(r', ops[1..]);
      assert forall j :: 0 <= j < |rest| ==> rest[j] in rest;
    }
  }

  /** How many extractions deep the chain lies that a pair belongs to. */
  function Depth(u: (Key, nat)): nat {
    SaltDepth(ChainStart(u.0))
  }

  /** How deep the chain lies that this ratchet writes on or, as long as it has none, can come to write on:
      a ratchet that knows no peer key has to step its root once more before it can derive one. */
  function SendDepth(r: Ratchet): nat {
    if r.sending.chainKey.Some? then SaltDepth(ChainStart(r.sending.chainKey.value.key))
    else if r.sending.theirPublic.Some? then SaltDepth(r.root) + 1
    else SaltDepth(r.root) + 2
  }

  lemma StepDepth(r: Ratchet, op: Op)
    requires r.receiving.ourKey.None?
    ensures var (outcome, r') := Apply(r, op);
      && (forall u :: u in PairOf(outcome) ==> Depth(u) == SendDepth(r))
      && SendDepth(r') >= SendDepth(r)
      && (r.sending.chainKey.Some? ==> r'.sending.chainKey.Some? && SendDepth(r') == SendDepth(r))
  {
    if op.Encrypt? && CanSend(r) {
      var ck := EnsureSending(r).value.sending.chainKey.value;
      assert ChainStart(ck.MessageKey()) == ChainStart(ck.Next().key) == ChainStart(ck.key);
      if r.sending.chainKey.None? {
        assert ChainStart(ck.key) == ck.key && SaltDepth(ck.key) == SaltDepth(r.root) + 1;
      }
    } else if op.DhRatchet? && r.sending.chainKey.None? {
      assert SaltDepth(Apply(r, op).1.root) == SaltDepth(r.root) + (if r.sending.ourKey.Some? then 1 else 0);
    }
  }

  /** A run writes at least as deep as it can at its start, and exactly as deep once it has a chain. */
  lemma {:induction false} RunDepth(r: Ratchet, ops: seq<Op>)
    requires r.receiving.ourKey.None?
    ensures forall u :: u in PairsUsed(r, ops) ==>
      Depth(u) >= SendDepth(r) && (r.sending.chainKey.Some? ==> Depth(u) == SendDepth(r))
    decreases |ops|
  {
    if ops == [] {
    } else {
      StepDepth(r, ops[0]);
      StepSends(r, ops[0]);
      RunDepth(Apply(r, ops[0]).1, ops[1..]);
    }
  }

  /** The pairs of a run of a process, restarts at persisted points included. */
  function PairsOf(outcomes: seq<Outcome>): seq<(Key, nat)> {
    if outcomes == [] then [] else PairOf(outcomes[0]) + PairsOf(outcomes[1..])
  }

  lemma {:induction false} PairsOfOutcomes(r: Ratchet, ops: seq<Op>)
    ensures PairsOf(Outcomes(r, ops)) == PairsUsed(r, ops)
    decreases |ops|
  {
    if ops == [] {
    } else {
      PairsOfOutcomes(Apply(r, ops[0]).1, ops[1..]);
      assert Outcomes(r, ops)[1..] == Outcomes(Apply(r, ops[0]).1, ops[1..]);
    }
  }

  predicate Distinct(pairs: seq<(Key, nat)>) {
    forall i, j :: 0 <= i < j < |pairs| ==> pairs[i] != pairs[j]
  }

  lemma DistinctOps(r: Ratchet, t: Ratchet, a: seq<Op>, b: seq<Op>)
    requires r.receiving.ourKey.None? && t.receiving.ourKey.None?
    requires r.sending.chainKey.Some? && SendDepth(r) < SendDepth(t)
    ensures Distinct(PairsUsed(r, a) + PairsUsed(t, b))
  {
    NoncesIncrease(r, a);
    NoncesIncrease(t, b);
    RunDepth(r, a);
    RunDepth(t, b);
    var x, y := PairsUsed(r, a), PairsUsed(t, b);
    var all := x + y;
    forall i, j | 0 <= i < j < |all|
      ensures all[i] != all[j]
    {
      if i < |x| <= j {
        assert x[i] in x && y[j - |x|] in y;
      }
    }
  }

  /** Single use of message keys. Whatever an initiator and a responder on one root do, and whatever is
      done to them: any sends, any boxes under any headers, any number of DH steps towards any keys and
      any restarts at persisted points, on either side; no two encryptions, of one side or of both, use
      the same (message key, nonce) pair. */
  lemma MessageKeysUsedOnce(root: Key, aliceKey: Scalar, peer: X25519Public, aliceId: string, aliceAad: Bytes,
                            bobKey: Scalar, bobId: string, bobAad: Bytes,
                            alice: seq<ProcessStep>, bob: seq<ProcessStep>)
    ensures Distinct(PairsOf(ProcessOutcomes(InitInitiator(aliceId, root, aliceKey, peer, aliceAad), alice))
                     + PairsOf(ProcessOutcomes(InitResponder(bobId, root, bobKey, bobAad), bob)))
  {
    var r, t := InitInitiator(aliceId, root, aliceKey, peer, aliceAad), InitResponder(bobId, root, bobKey, bobAad);
    RestartsAreInvisible(r, alice);
    RestartsAreInvisible(t, bob);
    PairsOfOutcomes(r, LiveOps(alice));
    PairsOfOutcomes(t, LiveOps(bob));
    assert SendDepth(r) == SaltDepth(root) + 1;
    DistinctOps(r, t, LiveOps(alice), LiveOps(bob));
  }
}
