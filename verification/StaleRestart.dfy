/** A process that comes back from an older snapshot than the state it had reached. */
module StaleRestart {
  import opened Results
  import opened Terms
  import opened Ratchet
  import opened Snapshot
  import opened KeyUse

  /** Do these operations encrypt anything? */
  predicate Encrypts(ops: seq<Op>) {
    ops != [] && (ops[0].Encrypt? || Encrypts(ops[1..]))
  }

  /** Do these operations encrypt anything before their first DH step? */
  predicate EncryptsBeforeStep(ops: seq<Op>) {
    ops != [] && (ops[0].Encrypt? || (ops[0].Decrypt? && EncryptsBeforeStep(ops[1..])))
  }

  /** With a sending chain, the first encryption of a run uses the pair the chain stands at. */
  lemma {:induction false} FirstPair(r: Ratchet, ops: seq<Op>)
    requires r.receiving.ourKey.None? && r.sending.chainKey.Some?
    ensures (r.sending.chainKey.value.MessageKey(), SendIndex(r)) in PairsUsed(r, ops) <==> Encrypts(ops)
    decreases |ops|
  {
    if ops == [] {
    } else {
      StepSends(r, ops[0]);
      var r' := Apply(r, ops[0]).1;
      if ops[0].Encrypt? {
        assert PairOf(Apply(r, ops[0]).0)[0] == (r.sending.chainKey.value.MessageKey(), SendIndex(r));
      } else {
        FirstPair(r', ops[1..]);
      }
    }
  }

  /** Before its first encryption a ratchet derives its chain from a root at least as deep as its own. */
  lemma {:induction false} LazyPairsAreDeep(r: Ratchet, ops: seq<Op>, depth: nat)
    requires r.receiving.ourKey.None? && r.sending.chainKey.None? && SaltDepth(r.root) >= depth
    ensures forall u :: u in PairsUsed(r, ops) && u.1 == 0 ==>
      u.0.Hmac? && u.0.key.Hkdf? && SaltDepth(u.0.key.salt) >= depth
    decreases |ops|
  {
    if ops == [] {
    } else {
      StepSends(r, ops[0]);
      var r' := Apply(r, ops[0]).1;
      if r'.sending.chainKey.Some? {
        NoncesInRange(r', ops[1..]);
      } else {
        LazyPairsAreDeep(r', ops[1..], depth);
      }
    }
  }

  /** Without a sending chain, the pair of the chain derived now is used if and only if something is
      encrypted before the next DH step, which moves the root on. */
  lemma {:induction false} FirstLazyPair(r: Ratchet, ops: seq<Op>)
    requires r.receiving.ourKey.None? && r.sending.chainKey.None? && CanSend(r)
    ensures var shared := DiffieHellman(r.sending.ourKey.value, r.sending.theirPublic.value);
      (FirstChain(r.root, shared).MessageKey(), 0) in PairsUsed(r, ops) <==> EncryptsBeforeStep(ops)
    decreases |ops|
  {
    if ops == [] {
    } else {
      var r' := Apply(r, ops[0]).1;
      match ops[0] {
        case Encrypt(_) =>
          var shared := DiffieHellman(r.sending.ourKey.value, r.sending.theirPublic.value);
          assert PairOf(Apply(r, ops[0]).0)[0] == (FirstChain(r.root, shared).MessageKey(), 0);
        case Decrypt(_, _) => FirstLazyPair(r', ops[1..]);
        case DhRatchet(_) => LazyPairsAreDeep(r', ops[1..], SaltDepth(r.root) + 1);
      }
    }
  }

  /** When a restart is safe. A process runs `before`, takes a snapshot, runs `since`, stops, and comes
      back from that snapshot; sends, receipts and DH steps may stand on either side of it. Its next
      message uses a (message key, nonce) pair it has used before if and only if it encrypted something
      after the snapshot or, when the sending chain was not yet derived at the snapshot, if and only if
      it did so before its next DH step. */
  lemma RestartReusesKeyIffStale(r: Ratchet, before: seq<Op>, since: seq<Op>, next: Bytes)
    requires r.receiving.ourKey.None?
    ensures var saved := Run(r, before);
      var pairs := PairsUsed(Restarted(saved, "presidium-session", []), [Encrypt(next)]);
      && |pairs| == (if CanSend(saved) then 1 else 0)
      && (CanSend(saved) ==>
            (pairs[0] in PairsUsed(r, before + since) <==>
               if saved.sending.chainKey.Some? then Encrypts(since) else EncryptsBeforeStep(since)))
  {
    var saved := Run(r, before);
    var restored := Restarted(saved, "presidium-session", []);
    RunAppends(r, before, since);
    NoncesInRange(r, before);
    assert PairsUsed(restored, [Encrypt(next)]) == PairOf(Apply(restored, Encrypt(next)).0) + [];
    if saved.sending.chainKey.Some? {
      FirstPair(saved, since);
    } else if CanSend(saved) {
      FirstLazyPair(saved, since);
    }
  }
}
