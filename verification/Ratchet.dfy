/** The Double Ratchet of presidium-crypto/src/ratchet.rs: its state, one step function per
    operation, and the mutable `DoubleRatchet` object proved against those functions. */
module Ratchet {
  import opened Results
  import opened Terms

  const MAX_SKIP_MESSAGES: nat := 1000

  datatype RatchetError =
    | NoSendingKey
    | NoPeerKey
    | NoReceivingChain
    | TooManySkipped
    | DecryptionFailed
    | NoRatchetKey

  datatype Header = Header(dhPublic: X25519Public, messageNumber: nat, previousMessageNumber: nat)

  datatype ChainKey = ChainKey(key: Key, index: nat) {
    function MessageKey(): Key {
      Hmac(key, MessageKeyInfo)
    }

    function Next(): ChainKey {
      ChainKey(Hmac(key, ChainKeyInfo), index + 1)
    }
  }

  datatype RatchetChain = RatchetChain(
    ourKey: Option<Scalar>,
    theirPublic: Option<X25519Public>,
    chainKey: Option<ChainKey>,
    skipped: seq<(nat, Key)>)

  /** The value of a whole ratchet. */
  datatype Ratchet = Ratchet(
    root: Key,
    sending: RatchetChain,
    receiving: RatchetChain,
    sessionId: string,
    associatedData: Bytes)

  type Message = (Box<Header>, Header)

  // ---------------------------------------------------------------- key derivation

  function NextRoot(root: Key, shared: Key): Key {
    Hkdf(root, [shared], RatchetRootInfo)
  }

  function FirstChain(root: Key, shared: Key): ChainKey {
    ChainKey(Hkdf(root, [shared], RatchetChainInfo), 0)
  }

  function Advanced(ck: ChainKey, n: nat): ChainKey {
    ChainKey(ChainFrom(ck.key, ChainKeyInfo, n), ck.index + n)
  }

  /** The (index, key) pairs of the `n` positions from `ck` on. */
  function KeysFrom(ck: ChainKey, n: nat): seq<(nat, Key)> {
    seq(n, (i: int) requires 0 <= i => (ck.index + i, MessageKeyAt(ck.key, ChainKeyInfo, i)))
  }

  // ---------------------------------------------------------------- operations as functions

  function InitInitiator(sessionId: string, root: Key, ourKey: Scalar, peer: X25519Public, aad: Bytes): Ratchet {
    var shared := DiffieHellman(ourKey, peer);
    Ratchet(
      NextRoot(root, shared),
      RatchetChain(Some(ourKey), Some(peer), Some(FirstChain(root, shared)), []),
      RatchetChain(None, Some(peer), None, []),
      sessionId, aad)
  }

  function InitResponder(sessionId: string, root: Key, ourKey: Scalar, aad: Bytes): Ratchet {
    Ratchet(
      root,
      RatchetChain(Some(ourKey), None, None, []),
      RatchetChain(None, None, None, []),
      sessionId, aad)
  }

  /** The state in which `Encrypt` seals: the sending chain is derived on first use. */
  function EnsureSending(r: Ratchet): Result<Ratchet, RatchetError> {
    if r.sending.chainKey.Some? then Success(r)
    else if r.sending.ourKey.None? then Failure(NoSendingKey)
    else if r.sending.theirPublic.None? then Failure(NoPeerKey)
    else
      var shared := DiffieHellman(r.sending.ourKey.value, r.sending.theirPublic.value);
      Success(r.(root := NextRoot(r.root, shared),
                 sending := r.sending.(chainKey := Some(FirstChain(r.root, shared)))))
  }

  function EncryptStep(r: Ratchet, plaintext: Bytes): (Result<Message, RatchetError>, Ratchet) {
    match EnsureSending(r)
    case Failure(e) => (Failure(e), r)
    case Success(ready) =>
      var ck := ready.sending.chainKey.value;
      var header := Header(if r.sending.ourKey.Some? then PublicOf(r.sending.ourKey.value) else ZeroPoint, ck.index, 0);
      (Success((Sealed(ck.MessageKey(), ck.index, header, plaintext), header)),
       ready.(sending := ready.sending.(chainKey := Some(ck.Next()))))
  }

  /** The first stored key for message `n`. */
  function FindSkipped(skipped: seq<(nat, Key)>, n: nat): (r: Option<Key>)
    ensures r.None? <==> forall j :: 0 <= j < |skipped| ==> skipped[j].0 != n
    ensures r.Some? ==> exists j :: 0 <= j < |skipped| && skipped[j] == (n, r.value)
  {
    if skipped == [] then None
    else if skipped[0].0 == n then Some(skipped[0].1)
    else FindSkipped(skipped[1..], n)
  }

  /** How many keys the catch-up loop can push from a list of `stored` keys before it gives up. */
  function Room(stored: nat): nat {
    if stored < MAX_SKIP_MESSAGES then MAX_SKIP_MESSAGES + 1 - stored else 1
  }

  function OpenMessage(key: Key, box: Box<Header>, header: Header): Result<Bytes, RatchetError> {
    match Open(key, header.messageNumber, header, box)
    case Some(plaintext) => Success(plaintext)
    case None => Failure(DecryptionFailed)
  }

  function Gap(ck: ChainKey, n: nat): nat {
    if ck.index < n then n - ck.index else 0
  }

  function CatchUp(rc: RatchetChain, ck: ChainKey, advance: nat, store: nat): RatchetChain {
    rc.(chainKey := Some(Advanced(ck, advance)), skipped := rc.skipped + KeysFrom(ck, store))
  }

  /** Decryption in closed form: the loop of the source is replaced by its total effect. */
  function DecryptStep(r: Ratchet, box: Box<Header>, header: Header): (Result<Bytes, RatchetError>, Ratchet) {
    var rc := r.receiving;
    match FindSkipped(rc.skipped, header.messageNumber)
    case Some(key) => (OpenMessage(key, box, header), r)
    case None =>
      if rc.chainKey.None? then (Failure(NoReceivingChain), r)
      else
        var ck := rc.chainKey.value;
        var gap := Gap(ck, header.messageNumber);
        var room := Room(|rc.skipped|);
        if gap >= room then
          (Failure(TooManySkipped), r.(receiving := CatchUp(rc, ck, room - 1, room)))
        else
          (OpenMessage(MessageKeyAt(ck.key, ChainKeyInfo, gap), box, header),
           r.(receiving := CatchUp(rc, ck, gap + 1, gap)))
  }

  function DhStep(r: Ratchet, peer: X25519Public): (Result<(), RatchetError>, Ratchet) {
    var ourKey := if r.receiving.ourKey.Some? then r.receiving.ourKey else r.sending.ourKey;
    if ourKey.None? then (Failure(NoRatchetKey), r)
    else
      var shared := DiffieHellman(ourKey.value, peer);
      var stepped := r.(root := NextRoot(r.root, shared), sending := r.sending.(theirPublic := Some(peer)));
      var chain := Some(FirstChain(r.root, shared));
      (Success(()),
       if r.receiving.ourKey.Some? then
         stepped.(sending := stepped.sending.(ourKey := ourKey, chainKey := chain),
                  receiving := stepped.receiving.(ourKey := None))
       else
         stepped.(receiving := stepped.receiving.(chainKey := chain)))
  }

  // ---------------------------------------------------------------- runs of one ratchet

  datatype Op = Encrypt(plaintext: Bytes) | Decrypt(box: Box<Header>, header: Header) | DhRatchet(peer: X25519Public)

  datatype Outcome =
    | Encrypted(message: Result<Message, RatchetError>)
    | Decrypted(plaintext: Result<Bytes, RatchetError>)
    | Stepped(done: Result<(), RatchetError>)

  function Apply(r: Ratchet, op: Op): (Outcome, Ratchet) {
    match op
    case Encrypt(p) => var (o, r') := EncryptStep(r, p); (Encrypted(o), r')
    case Decrypt(b, h) => var (o, r') := DecryptStep(r, b, h); (Decrypted(o), r')
    case DhRatchet(p) => var (o, r') := DhStep(r, p); (Stepped(o), r')
  }

  function Run(r: Ratchet, ops: seq<Op>): Ratchet
    decreases |ops|
  {
    if ops == [] then r else Run(Apply(r, ops[0]).1, ops[1..])
  }

  function Outcomes(r: Ratchet, ops: seq<Op>): seq<Outcome>
    decreases |ops|
  {
    if ops == [] then [] else [Apply(r, ops[0]).0] + Outcomes(Apply(r, ops[0]).1, ops[1..])
  }

  // ---------------------------------------------------------------- the live object

  lemma KeysFromExtends(ck: ChainKey, n: nat)
    ensures KeysFrom(ck, n + 1) == KeysFrom(ck, n) + [(Advanced(ck, n).index, Advanced(ck, n).MessageKey())]
  {
  }

  class DoubleRatchet {
    var rootKey: Key
    var sendingChain: RatchetChain
    var receivingChain: RatchetChain
    var sessionId: string
    var associatedData: Bytes

    function State(): Ratchet
      reads this
    {
      Ratchet(rootKey, sendingChain, receivingChain, sessionId, associatedData)
    }

    constructor FromState(r: Ratchet)
      ensures State() == r
    {
      rootKey := r.root;
      sendingChain, receivingChain := r.sending, r.receiving;
      sessionId, associatedData := r.sessionId, r.associatedData;
    }

    constructor Init(id: string, root: Key, ourKey: Scalar, peer: X25519Public, aad: Bytes)
      ensures State() == InitInitiator(id, root, ourKey, peer, aad)
    {
      var shared := DiffieHellman(ourKey, peer);
      rootKey := NextRoot(root, shared);
      sendingChain := RatchetChain(Some(ourKey), Some(peer), Some(FirstChain(root, shared)), []);
      receivingChain := RatchetChain(None, Some(peer), None, []);
      sessionId, associatedData := id, aad;
    }

    constructor InitAsResponder(id: string, root: Key, ourKey: Scalar, aad: Bytes)
      ensures State() == InitResponder(id, root, ourKey, aad)
    {
      rootKey := root;
      sendingChain := RatchetChain(Some(ourKey), None, None, []);
      receivingChain := RatchetChain(None, None, None, []);
      sessionId, associatedData := id, aad;
    }

    method Encrypt(plaintext: Bytes) returns (result: Result<Message, RatchetError>)
      modifies this
      ensures (result, State()) == EncryptStep(old(State()), plaintext)
    {
      if sendingChain.chainKey.None? {
        if sendingChain.ourKey.None? {
          return Failure(NoSendingKey);
        }
        if sendingChain.theirPublic.None? {
          return Failure(NoPeerKey);
        }
        var shared := DiffieHellman(sendingChain.ourKey.value, sendingChain.theirPublic.value);
        sendingChain := sendingChain.(chainKey := Some(FirstChain(rootKey, shared)));
        rootKey := NextRoot(rootKey, shared);
      }
      var chain := sendingChain.chainKey.value;
      sendingChain := sendingChain.(chainKey := Some(chain.Next()));
      var dhPublic := if sendingChain.ourKey.Some? then PublicOf(sendingChain.ourKey.value) else ZeroPoint;
      var header := Header(dhPublic, chain.index, 0);
      result := Success((Sealed(chain.MessageKey(), chain.index, header, plaintext), header));
    }

    /** The loop pushes one key per iteration, so the growth of the stored list is its
        iteration count: at most `Room` of the list it started from. */
    method Decrypt(box: Box<Header>, header: Header) returns (result: Result<Bytes, RatchetError>)
      modifies this
      ensures (result, State()) == DecryptStep(old(State()), box, header)
      ensures |receivingChain.skipped| - |old(receivingChain.skipped)| <= Room(|old(receivingChain.skipped)|)
    {
      var stored := FindSkipped(receivingChain.skipped, header.messageNumber);
      if stored.Some? {
        return OpenMessage(stored.value, box, header);
      }
      if receivingChain.chainKey.None? {
        return Failure(NoReceivingChain);
      }
      ghost var start, before := receivingChain.chainKey.value, receivingChain;
      ghost var room := Room(|before.skipped|);
      ghost var n: nat := 0;
      assert KeysFrom(start, 0) == [];
      while receivingChain.chainKey.value.index < header.messageNumber
        invariant receivingChain.chainKey.Some?
        invariant n < room && n <= Gap(start, header.messageNumber)
        invariant n == 0 || |before.skipped| + n <= MAX_SKIP_MESSAGES
        invariant receivingChain == CatchUp(before, start, n, n)
        invariant unchanged(`rootKey, `sendingChain, `sessionId, `associatedData)
        decreases header.messageNumber - receivingChain.chainKey.value.index
      {
        var chain := receivingChain.chainKey.value;
        KeysFromExtends(start, n);
        receivingChain := receivingChain.(skipped := receivingChain.skipped + [(chain.index, chain.MessageKey())]);
        assert receivingChain.skipped == before.skipped + KeysFrom(start, n + 1);
        if |receivingChain.skipped| > MAX_SKIP_MESSAGES {
          return Failure(TooManySkipped);
        }
        receivingChain := receivingChain.(chainKey := Some(chain.Next()));
        n := n + 1;
      }
      var chain := receivingChain.chainKey.value;
      receivingChain := receivingChain.(chainKey := Some(chain.Next()));
      result := OpenMessage(chain.MessageKey(), box, header);
    }

    method DhRatchet(peer: X25519Public) returns (result: Result<(), RatchetError>)
      modifies this
      ensures (result, State()) == DhStep(old(State()), peer)
    {
      var ourKey := if receivingChain.ourKey.Some? then receivingChain.ourKey else sendingChain.ourKey;
      if ourKey.None? {
        return Failure(NoRatchetKey);
      }
      var shared := DiffieHellman(ourKey.value, peer);
      var chain := FirstChain(rootKey, shared);
      rootKey := NextRoot(rootKey, shared);
      sendingChain := sendingChain.(theirPublic := Some(peer));
      if receivingChain.ourKey.Some? {
        sendingChain := sendingChain.(ourKey := receivingChain.ourKey, chainKey := Some(chain));
        receivingChain := receivingChain.(ourKey := None);
      } else {
        receivingChain := receivingChain.(chainKey := Some(chain));
      }
      result := Success(());
    }
  }
}
