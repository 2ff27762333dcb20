/** Chat sessions (presidium-demo/src/session.rs): signed envelopes, the DH-ratchet gate in front of
    the ratchet, persistence, and the mutable `ChatSession` object. */
module Session {
  import opened Results
  import opened Terms
  import opened Ratchet
  import opened SkipLoop
  import opened Snapshot
  import opened Pqxdh

  datatype SessionError =
    | BadHeader
    | BadSignature
    | RatchetFailed(error: RatchetError)
    | NoSnapshot
    | BadSnapshot

  /** A network envelope: header slot, payload, and a hybrid signature over both. */
  datatype Envelope<H, P> = Envelope(conversationId: string, header: H, payload: P, signature: Signature<(H, P)>)

  predicate VerifyEnvelope<H(==), P(==)>(peer: IdentityPublic, e: Envelope<H, P>) {
    Verifies(peer, (e.header, e.payload), e.signature)
  }

  function SignEnvelope<H, P>(identity: IdentityKeyPair, conversationId: string, header: H, payload: P)
    : Envelope<H, P>
  {
    Envelope(conversationId, header, payload, SignedBy(Public(identity), (header, payload)))
  }

  /** A chat envelope carries the ratchet header; `None` is a header that does not parse. */
  type ChatEnvelope = Envelope<Option<Header>, Box<Header>>

  datatype Session = Session(
    conversationId: string,
    peerIdentity: IdentityPublic,
    isInitiator: bool,
    ratchet: Ratchet,
    keys: SessionKeys)

  // ---------------------------------------------------------------- operations as functions

  function SessionEncrypt(s: Session, identity: IdentityKeyPair, plaintext: Bytes)
    : (Result<ChatEnvelope, SessionError>, Session)
  {
    var (result, r) := EncryptStep(s.ratchet, plaintext);
    (match result
     case Failure(e) => Failure(RatchetFailed(e))
     case Success((box, header)) => Success(SignEnvelope(identity, s.conversationId, Some(header), box)),
     s.(ratchet := r))
  }

  /** The peer ratchet key the gate compares with. */
  function KnownPeerKey(r: Ratchet): Option<X25519Public> {
    if r.receiving.theirPublic.Some? then r.receiving.theirPublic else r.sending.theirPublic
  }

  predicate Accepted(s: Session, e: ChatEnvelope) {
    e.header.Some? && VerifyEnvelope(s.peerIdentity, e)
  }

  /** Does receiving this envelope take a DH step first? */
  predicate GateFires(s: Session, e: ChatEnvelope) {
    Accepted(s, e) && KnownPeerKey(s.ratchet) != Some(e.header.value.dhPublic)
  }

  function SessionDecrypt(s: Session, e: ChatEnvelope): (Result<Bytes, SessionError>, Session) {
    if e.header.None? then (Failure(BadHeader), s)
    else if !VerifyEnvelope(s.peerIdentity, e) then (Failure(BadSignature), s)
    else
      var (stepped, r) := if GateFires(s, e) then DhStep(s.ratchet, e.header.value.dhPublic)
                          else (Success(()), s.ratchet);
      if stepped.Failure? then (Failure(RatchetFailed(stepped.error)), s.(ratchet := r))
      else
        var (result, r') := DecryptStep(r, e.payload, e.header.value);
        (match result
         case Failure(error) => Failure(RatchetFailed(error))
         case Success(plaintext) => Success(plaintext),
         s.(ratchet := r'))
  }

  /** A session accepts its peer's signature over exactly the header and payload at hand, and no other; an
      envelope it refuses changes nothing. */
  lemma RefusesOtherSignatures(s: Session, e: ChatEnvelope)
    ensures e.header.None? ==> SessionDecrypt(s, e) == (Failure(BadHeader), s)
    ensures e.header.Some? && e.signature != SignedBy(s.peerIdentity, (e.header, e.payload)) ==>
      SessionDecrypt(s, e) == (Failure(BadSignature), s)
    ensures e.header.Some? && e.signature == SignedBy(s.peerIdentity, (e.header, e.payload)) ==>
      SessionDecrypt(s, e).0 !in {Failure(BadHeader), Failure(BadSignature)}
  {
  }

  // ---------------------------------------------------------------- persistence

  datatype SessionState = SessionState(isInitiator: bool, keys: SessionKeys, ratchet: Option<RatchetSnapshot>)

  function Persisted(s: Session): SessionState {
    SessionState(s.isInitiator, s.keys, Some(FromRatchet(s.ratchet)))
  }

  function Resume(stored: Option<SessionState>, conversationId: string): Result<Option<Session>, SessionError> {
    match stored
    case None => Success(None)
    case Some(state) =>
      match state.ratchet
      case None => Failure(NoSnapshot)
      case Some(snapshot) =>
        match ToRatchet(snapshot, "presidium-session", [])
        case Failure(_) => Failure(BadSnapshot)
        case Success(r) =>
          Success(Some(Session(conversationId, state.keys.peerIdentity, state.isInitiator, r, state.keys)))
  }

  /** Resuming what was just persisted gives the session back, with the ratchet's identifiers reset; of
      everything else that may be stored, resuming fails exactly on a missing or malformed snapshot. */
  lemma ResumeUndoesPersist(s: Session, stored: Option<SessionState>, id: string)
    ensures s.peerIdentity == s.keys.peerIdentity ==>
      Resume(Some(Persisted(s)), s.conversationId)
        == Success(Some(s.(ratchet := Restarted(s.ratchet, "presidium-session", []))))
    ensures Resume(stored, id) == Success(None) <==> stored.None?
    ensures Resume(stored, id) == Failure(NoSnapshot) <==> stored.Some? && stored.value.ratchet.None?
    ensures Resume(stored, id).Success? && stored.Some? ==>
      Persisted(Resume(stored, id).value.value) == stored.value && Resume(stored, id).value.value.conversationId == id
  {
    SnapshotRoundTrip(s.ratchet, FromRatchet(s.ratchet), "presidium-session", []);
    if stored.Some? && stored.value.ratchet.Some? {
      SnapshotRoundTrip(s.ratchet, stored.value.ratchet.value, "presidium-session", []);
    }
  }

  /** A receipt does not look at the ratchet's identifiers. */
  lemma ReceiptIgnoresIdentifiers(s: Session, e: ChatEnvelope, id: string, aad: Bytes)
    ensures var t := s.(ratchet := s.ratchet.(sessionId := id, associatedData := aad));
      && SessionDecrypt(t, e).0 == SessionDecrypt(s, e).0
      && FromRatchet(SessionDecrypt(t, e).1.ratchet) == FromRatchet(SessionDecrypt(s, e).1.ratchet)
  {
    if Accepted(s, e) {
      var op := DhRatchet(e.header.value.dhPublic);
      var r := if GateFires(s, e) then Apply(s.ratchet, op).1 else s.ratchet;
      StepIgnoresIdentifiers(s.ratchet, op, id, aad);
      StepIgnoresIdentifiers(r, Decrypt(e.payload, e.header.value), id, aad);
    }
  }

  // ---------------------------------------------------------------- runs of one session

  datatype SessionOp =
    | Transmit(identity: IdentityKeyPair, plaintext: Bytes)
    | Receive(envelope: ChatEnvelope)
    | RestartSession

  function ApplySession(s: Session, op: SessionOp): Session {
    match op
    case Transmit(identity, plaintext) => SessionEncrypt(s, identity, plaintext).1
    case Receive(e) => SessionDecrypt(s, e).1
    case RestartSession => s.(ratchet := Restarted(s.ratchet, "presidium-session", []))
  }

  function RunSession(s: Session, ops: seq<SessionOp>): Session
    decreases |ops|
  {
    if ops == [] then s else RunSession(ApplySession(s, ops[0]), ops[1..])
  }

  predicate AcceptedOp(s: Session, op: SessionOp) {
    op.Receive? && Accepted(s, op.envelope)
  }

  /** Every envelope that verifies carries the same ratchet key. */
  predicate ConstantPeerKey(s: Session, ops: seq<SessionOp>, peer: X25519Public) {
    forall i :: 0 <= i < |ops| && AcceptedOp(s, ops[i]) ==> ops[i].envelope.header.value.dhPublic == peer
  }

  predicate SomeAccepted(s: Session, ops: seq<SessionOp>) {
    exists i :: 0 <= i < |ops| && AcceptedOp(s, ops[i])
  }

  // ---------------------------------------------------------------- the responder's gate

  /** The ratchet key of the latest accepted envelope, or `known` when there is none. */
  function LatestPeerKey(s: Session, ops: seq<SessionOp>, known: Option<X25519Public>): Option<X25519Public>
    decreases |ops|
  {
    if ops == [] then known
    else
      LatestPeerKey(s, ops[1..], if AcceptedOp(s, ops[0]) then Some(ops[0].envelope.header.value.dhPublic) else known)
  }

  /** What a responder's constructor leaves and nothing changes. */
  predicate ResponderRatchet(s: Session) {
    && s.ratchet.sending.ourKey.Some?
    && s.ratchet.receiving.ourKey.None? && s.ratchet.receiving.theirPublic.None?
  }

  lemma {:induction false} ResponderKnowsLatest(s: Session, t: Session, ops: seq<SessionOp>)
    requires ResponderRatchet(t) && t.peerIdentity == s.peerIdentity
    ensures var t' := RunSession(t, ops);
      && ResponderRatchet(t') && t'.peerIdentity == s.peerIdentity
      && t'.ratchet.sending.theirPublic == LatestPeerKey(s, ops, t.ratchet.sending.theirPublic)
    decreases |ops|
  {
    if ops == [] {
    } else {
      ResponderKnowsLatest(s, ApplySession(t, ops[0]), ops[1..]);
    }
  }

  /** The responder's gate, over every run of sends, receipts of any envelopes and restarts: it fires on
      an accepted envelope if and only if that envelope's ratchet key differs from the key of the latest
      envelope accepted before it, and in particular on the first one. */
  lemma ResponderGate(s: Session, ops: seq<SessionOp>, e: ChatEnvelope)
    requires ResponderRatchet(s) && s.ratchet.sending.theirPublic.None?
    ensures GateFires(RunSession(s, ops), e) <==>
      Accepted(s, e) && LatestPeerKey(s, ops, None) != Some(e.header.value.dhPublic)
  {
    ResponderKnowsLatest(s, s, ops);
  }

  /** A responder's ratchet before its first verified message. */
  predicate Fresh(s: Session) {
    && s.ratchet.sending.ourKey.Some? && s.ratchet.sending.theirPublic.None? && s.ratchet.sending.chainKey.None?
    && s.ratchet.receiving == RatchetChain(None, None, None, [])
  }

  /** A responder's ratchet after it has stepped towards `peer`: its receiving half is on the one
      chain that the step installed. */
  predicate SteppedTo(s: Session, ourKey: Scalar, peer: X25519Public, chain: Key) {
    && s.ratchet.sending.ourKey == Some(ourKey) && s.ratchet.sending.theirPublic == Some(peer)
    && s.ratchet.receiving.ourKey.None? && s.ratchet.receiving.theirPublic.None?
    && s.ratchet.receiving.chainKey.Some? && OnChain(s.ratchet.receiving, chain)
  }

  lemma SteppedStays(s: Session, op: SessionOp, ourKey: Scalar, peer: X25519Public, chain: Key)
    requires SteppedTo(s, ourKey, peer, chain)
    requires AcceptedOp(s, op) ==> op.envelope.header.value.dhPublic == peer
    ensures SteppedTo(ApplySession(s, op), ourKey, peer, chain)
    ensures ApplySession(s, op).peerIdentity == s.peerIdentity
    ensures Index(ApplySession(s, op).ratchet) >= Index(s.ratchet)
    ensures op.Receive? ==> !GateFires(s, op.envelope)
  {
    if AcceptedOp(s, op) {
      DecryptStaysOnChain(s.ratchet, op.envelope.payload, op.envelope.header.value, chain);
    }
  }

  lemma FreshOrStepped(s: Session, op: SessionOp, peer: X25519Public)
    requires Fresh(s)
    requires AcceptedOp(s, op) ==> op.envelope.header.value.dhPublic == peer
    ensures var s' := ApplySession(s, op); var ourKey := s.ratchet.sending.ourKey.value;
      && s'.peerIdentity == s.peerIdentity
      && (op.Receive? ==> (GateFires(s, op.envelope) <==> AcceptedOp(s, op)))
      && (if AcceptedOp(s, op)
          then SteppedTo(s', ourKey, peer, FirstChain(s.ratchet.root, DiffieHellman(ourKey, peer)).key)
          else Fresh(s') && s'.ratchet.sending == s.ratchet.sending && s'.ratchet.root == s.ratchet.root)
  {
    if AcceptedOp(s, op) {
      var ourKey := s.ratchet.sending.ourKey.value;
      var chain := FirstChain(s.ratchet.root, DiffieHellman(ourKey, peer)).key;
      var r := DhStep(s.ratchet, peer).1;
      assert OnChain(r.receiving, chain);
      DecryptStaysOnChain(r, op.envelope.payload, op.envelope.header.value, chain);
    }
  }

  lemma {:induction false} ResponderRun(s: Session, ops: seq<SessionOp>, peer: X25519Public)
    requires Fresh(s) && ConstantPeerKey(s, ops, peer)
    ensures var s' := RunSession(s, ops); var ourKey := s.ratchet.sending.ourKey.value;
      && s'.peerIdentity == s.peerIdentity
      && (if SomeAccepted(s, ops)
          then SteppedTo(s', ourKey, peer, FirstChain(s.ratchet.root, DiffieHellman(ourKey, peer)).key)
          else Fresh(s') && s'.ratchet.sending == s.ratchet.sending && s'.ratchet.root == s.ratchet.root)
    decreases |ops|
  {
    if ops == [] {
    } else {
      FreshOrStepped(s, ops[0], peer);
      var s', rest := ApplySession(s, ops[0]), ops[1..];
      assert forall i :: 0 <= i < |rest| ==> rest[i] == ops[i + 1];
      if AcceptedOp(s, ops[0]) {
        var ourKey := s.ratchet.sending.ourKey.value;
        SteppedRun(s', rest, ourKey, peer, FirstChain(s.ratchet.root, DiffieHellman(ourKey, peer)).key);
      } else {
        ResponderRun(s', rest, peer);
        if SomeAccepted(s, ops) {
          var i :| 0 <= i < |ops| && AcceptedOp(s, ops[i]);
          assert AcceptedOp(s', rest[i - 1]);
        }
      }
    }
  }

  lemma {:induction false} SteppedRun(s: Session, ops: seq<SessionOp>, ourKey: Scalar, peer: X25519Public, chain: Key)
    requires SteppedTo(s, ourKey, peer, chain) && ConstantPeerKey(s, ops, peer)
    ensures SteppedTo(RunSession(s, ops), ourKey, peer, chain)
    ensures RunSession(s, ops).peerIdentity == s.peerIdentity
    ensures Index(RunSession(s, ops).ratchet) >= Index(s.ratchet)
    decreases |ops|
  {
    if ops == [] {
    } else {
      SteppedStays(s, ops[0], ourKey, peer, chain);
      var s', rest := ApplySession(s, ops[0]), ops[1..];
      assert forall i :: 0 <= i < |rest| ==> rest[i] == ops[i + 1];
      SteppedRun(s', rest, ourKey, peer, chain);
    }
  }

  /** The responder against a constant peer key. Over every run of sends, receipts and restarts against a
      peer whose verified envelopes all carry one ratchet key, the gate fires at the first verified
      envelope and at no other; from then on the receiving half stays on the chain that this one step
      installed. */
  lemma ResponderKeepsChain(s: Session, ops: seq<SessionOp>, k: nat, peer: X25519Public)
    requires Fresh(s) && ConstantPeerKey(s, ops, peer) && k < |ops| && ops[k].Receive?
    ensures GateFires(RunSession(s, ops[..k]), ops[k].envelope) <==>
      AcceptedOp(s, ops[k]) && !SomeAccepted(s, ops[..k])
    ensures var r := RunSession(s, ops).ratchet; var ourKey := s.ratchet.sending.ourKey.value;
      SomeAccepted(s, ops) ==>
        && r.receiving.chainKey.Some?
        && r.receiving.chainKey.value.key
           == ChainFrom(FirstChain(s.ratchet.root, DiffieHellman(ourKey, peer)).key, ChainKeyInfo,
                        r.receiving.chainKey.value.index)
  {
    ResponderRun(s, ops, peer);
    ResponderRun(s, ops[..k], peer);
    var now, ourKey := RunSession(s, ops[..k]), s.ratchet.sending.ourKey.value;
    if SomeAccepted(s, ops[..k]) {
      SteppedStays(now, ops[k], ourKey, peer, FirstChain(s.ratchet.root, DiffieHellman(ourKey, peer)).key);
    } else {
      FreshOrStepped(now, ops[k], peer);
    }
  }

  // ---------------------------------------------------------------- the initiator's gate

  predicate InitiatorRatchet(s: Session, peer: X25519Public) {
    s.ratchet.receiving.theirPublic == Some(peer) && s.ratchet.receiving.ourKey.None? && s.ratchet.sending.ourKey.Some?
  }

  lemma {:induction false} InitiatorRun(s: Session, ops: seq<SessionOp>, peer: X25519Public)
    requires InitiatorRatchet(s, peer)
    ensures InitiatorRatchet(RunSession(s, ops), peer)
    ensures RunSession(s, ops).peerIdentity == s.peerIdentity
    ensures s.ratchet.receiving == RatchetChain(None, Some(peer), None, []) && ConstantPeerKey(s, ops, peer) ==>
      RunSession(s, ops).ratchet.receiving == s.ratchet.receiving
    decreases |ops|
  {
    if ops == [] {
    } else {
      var s', rest := ApplySession(s, ops[0]), ops[1..];
      assert forall i :: 0 <= i < |rest| ==> rest[i] == ops[i + 1];
      InitiatorRun(s', rest, peer);
    }
  }

  /** The initiator's gate, over every run: `init` has already filled in the key the gate looks at and
      nothing ever replaces it, so the gate fires on an accepted envelope exactly when its key differs
      from the peer key of the handshake. A peer that keeps its key is therefore never read: while all
      verified envelopes carry that key, each of them is refused for want of a receiving chain. */
  lemma InitiatorGate(s: Session, ops: seq<SessionOp>, peer: X25519Public, e: ChatEnvelope)
    requires InitiatorRatchet(s, peer) && Accepted(s, e)
    ensures GateFires(RunSession(s, ops), e) <==> e.header.value.dhPublic != peer
    ensures (&& s.ratchet.receiving == RatchetChain(None, Some(peer), None, [])
             && ConstantPeerKey(s, ops, peer) && e.header.value.dhPublic == peer) ==>
      SessionDecrypt(RunSession(s, ops), e) == (Failure(RatchetFailed(NoReceivingChain)), RunSession(s, ops))
  {
    InitiatorRun(s, ops, peer);
  }

  // ---------------------------------------------------------------- the live object

  class ChatSession {
    var conversationId: string
    var peerIdentity: IdentityPublic
    var isInitiator: bool
    var ratchet: DoubleRatchet
    var keys: SessionKeys

    function State(): Session
      reads this, ratchet
    {
      Session(conversationId, peerIdentity, isInitiator, ratchet.State(), keys)
    }

    constructor (id: string, peer: IdentityPublic, initiator: bool, r: DoubleRatchet, k: SessionKeys)
      ensures State() == Session(id, peer, initiator, r.State(), k)
      ensures ratchet == r
    {
      conversationId, peerIdentity, isInitiator, ratchet, keys := id, peer, initiator, r, k;
    }

    /** The session rebuilt from a stored state that holds a usable snapshot. */
    static method ResumeSession(stored: Option<SessionState>, id: string)
      returns (result: Result<Option<ChatSession>, SessionError>)
      ensures match Resume(stored, id)
        case Failure(e) => result == Failure(e)
        case Success(None) => result == Success(None)
        case Success(Some(s)) =>
          && result.Success? && result.value.Some?
          && fresh(result.value.value) && fresh(result.value.value.ratchet) && result.value.value.State() == s
    {
      if stored.None? {
        return Success(None);
      }
      var state := stored.value;
      if state.ratchet.None? {
        return Failure(NoSnapshot);
      }
      var rebuilt := ToRatchet(state.ratchet.value, "presidium-session", []);
      if rebuilt.Failure? {
        return Failure(BadSnapshot);
      }
      var live := new DoubleRatchet.FromState(rebuilt.value);
      var session := new ChatSession(id, state.keys.peerIdentity, state.isInitiator, live, state.keys);
      result := Success(Some(session));
    }

    method Encrypt(identity: IdentityKeyPair, plaintext: Bytes) returns (result: Result<ChatEnvelope, SessionError>)
      modifies ratchet
      ensures (result, State()) == SessionEncrypt(old(State()), identity, plaintext)
    {
      var sealedMessage := ratchet.Encrypt(plaintext);
      if sealedMessage.Failure? {
        return Failure(RatchetFailed(sealedMessage.error));
      }
      var (box, header) := sealedMessage.value;
      result := Success(SignEnvelope(identity, conversationId, Some(header), box));
    }

    method Decrypt(e: ChatEnvelope) returns (result: Result<Bytes, SessionError>)
      modifies ratchet
      ensures (result, State()) == SessionDecrypt(old(State()), e)
    {
      if e.header.None? {
        return Failure(BadHeader);
      }
      if !VerifyEnvelope(peerIdentity, e) {
        return Failure(BadSignature);
      }
      var header := e.header.value;
      var known := if ratchet.receivingChain.theirPublic.Some? then ratchet.receivingChain.theirPublic
                   else ratchet.sendingChain.theirPublic;
      if known != Some(header.dhPublic) {
        var stepped := ratchet.DhRatchet(header.dhPublic);
        if stepped.Failure? {
          return Failure(RatchetFailed(stepped.error));
        }
      }
      var plaintext := ratchet.Decrypt(e.payload, header);
      if plaintext.Failure? {
        return Failure(RatchetFailed(plaintext.error));
      }
      result := Success(plaintext.value);
    }
  }
}
