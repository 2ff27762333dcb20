/** Persisted ratchet snapshots (presidium-storage/src/session_state.rs) and restarts. */
module Snapshot {
  import opened Results
  import opened Terms
  import opened Ratchet

  datatype StorageError = InvalidData

  datatype ChainSnapshot = ChainSnapshot(
    ourKey: Option<Scalar>,
    theirPublic: Option<X25519Public>,
    chainKey: Option<Key>,
    chainIndex: nat,
    skipped: seq<(nat, Key)>)

  datatype RatchetSnapshot = RatchetSnapshot(root: Key, sending: ChainSnapshot, receiving: ChainSnapshot)

  function FromChain(c: RatchetChain): ChainSnapshot {
    match c.chainKey
    case Some(ck) => ChainSnapshot(c.ourKey, c.theirPublic, Some(ck.key), ck.index, c.skipped)
    case None => ChainSnapshot(c.ourKey, c.theirPublic, None, 0, c.skipped)
  }

  function ToChain(s: ChainSnapshot): Result<RatchetChain, StorageError> {
    match s.chainKey
    case Some(key) => Success(RatchetChain(s.ourKey, s.theirPublic, Some(ChainKey(key, s.chainIndex)), s.skipped))
    case None =>
      if s.chainIndex == 0 then Success(RatchetChain(s.ourKey, s.theirPublic, None, s.skipped))
      else Failure(InvalidData)
  }

  function FromRatchet(r: Ratchet): RatchetSnapshot {
    RatchetSnapshot(r.root, FromChain(r.sending), FromChain(r.receiving))
  }

  function ToRatchet(s: RatchetSnapshot, sessionId: string, associatedData: Bytes): Result<Ratchet, StorageError> {
    var sending := ToChain(s.sending);
    var receiving := ToChain(s.receiving);
    if sending.Failure? then Failure(sending.error)
    else if receiving.Failure? then Failure(receiving.error)
    else Success(Ratchet(s.root, sending.value, receiving.value, sessionId, associatedData))
  }

  /** A live ratchet comes back unchanged but for the two fields a snapshot does not hold; a stored
      snapshot can be rebuilt exactly when no chain has an index without a key, and is then the
      snapshot of what was rebuilt. */
  lemma SnapshotRoundTrip(r: Ratchet, s: RatchetSnapshot, id: string, aad: Bytes)
    ensures ToRatchet(FromRatchet(r), id, aad) == Success(r.(sessionId := id, associatedData := aad))
    ensures ToRatchet(s, id, aad).Success? <==>
      && !(s.sending.chainKey.None? && s.sending.chainIndex > 0)
      && !(s.receiving.chainKey.None? && s.receiving.chainIndex > 0)
    ensures ToRatchet(s, id, aad).Success? ==> FromRatchet(ToRatchet(s, id, aad).value) == s
  {
  }

  // ---------------------------------------------------------------- bisimulation

  /** The snapshots taken after each operation of a run. */
  function Snapshots(r: Ratchet, ops: seq<Op>): seq<RatchetSnapshot>
    decreases |ops|
  {
    if ops == [] then []
    else var r' := Apply(r, ops[0]).1; [FromRatchet(r')] + Snapshots(r', ops[1..])
  }

  /** Equal snapshots differ at most in the two fields that no operation reads. */
  lemma EqualSnapshots(r: Ratchet, t: Ratchet)
    ensures FromRatchet(r) == FromRatchet(t) <==>
      t == r.(sessionId := t.sessionId, associatedData := t.associatedData)
  {
  }

  lemma StepIgnoresIdentifiers(r: Ratchet, op: Op, id: string, aad: Bytes)
    ensures var t := r.(sessionId := id, associatedData := aad);
      && Apply(t, op).0 == Apply(r, op).0
      && Apply(t, op).1 == Apply(r, op).1.(sessionId := id, associatedData := aad)
  {
  }

  /** Ratchets with equal snapshots answer every finite sequence of operations alike and pass
      through equal snapshots. */
  lemma {:induction false} SnapshotBisimulation(r: Ratchet, t: Ratchet, ops: seq<Op>)
    requires FromRatchet(r) == FromRatchet(t)
    ensures Outcomes(r, ops) == Outcomes(t, ops)
    ensures Snapshots(r, ops) == Snapshots(t, ops)
    ensures FromRatchet(Run(r, ops)) == FromRatchet(Run(t, ops))
    decreases |ops|
  {
    if ops == [] {
    } else {
      EqualSnapshots(r, t);
      StepIgnoresIdentifiers(r, ops[0], t.sessionId, t.associatedData);
      SnapshotBisimulation(Apply(r, ops[0]).1, Apply(t, ops[0]).1, ops[1..]);
    }
  }

  // ---------------------------------------------------------------- restarts at persisted points

  /** A run of a process: an operation, or a restart that rebuilds the ratchet from the snapshot
      of its current state under whatever session id and associated data. */
  datatype ProcessStep = Live(op: Op) | Restart(sessionId: string, associatedData: Bytes)

  function Restarted(r: Ratchet, id: string, aad: Bytes): (t: Ratchet)
    ensures t == r.(sessionId := id, associatedData := aad)
  {
    SnapshotRoundTrip(r, FromRatchet(r), id, aad);
    ToRatchet(FromRatchet(r), id, aad).value
  }

  function ProcessOutcomes(r: Ratchet, steps: seq<ProcessStep>): seq<Outcome>
    decreases |steps|
  {
    if steps == [] then []
    else match steps[0]
      case Live(op) => [Apply(r, op).0] + ProcessOutcomes(Apply(r, op).1, steps[1..])
      case Restart(id, aad) => ProcessOutcomes(Restarted(r, id, aad), steps[1..])
  }

  function LiveOps(steps: seq<ProcessStep>): seq<Op> {
    if steps == [] then []
    else if steps[0].Live? then [steps[0].op] + LiveOps(steps[1..])
    else LiveOps(steps[1..])
  }

  /** A process restarted any number of times at persisted points is indistinguishable from one
      that never stopped. */
  lemma {:induction false} RestartsAreInvisible(r: Ratchet, steps: seq<ProcessStep>)
    ensures ProcessOutcomes(r, steps) == Outcomes(r, LiveOps(steps))
    decreases |steps|
  {
    if steps == [] {
    } else {
      match steps[0]
      case Live(op) =>
        RestartsAreInvisible(Apply(r, op).1, steps[1..]);
        assert LiveOps(steps)[1..] == LiveOps(steps[1..]);
      case Restart(id, aad) =>
        var t := Restarted(r, id, aad);
        RestartsAreInvisible(t, steps[1..]);
        EqualSnapshots(r, t);
        SnapshotBisimulation(r, t, LiveOps(steps[1..]));
    }
  }
}
