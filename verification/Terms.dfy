/** Symbolic cryptography.

    Keys are terms. A hash-based derivation is a constructor, so it is injective and
    never collides with another derivation; a Diffie-Hellman result is an unordered
    pair of secrets; an authenticated box opens only under the key, nonce and
    associated data it was sealed with. Nothing else about the primitives is used. */
module Terms {
  import opened Results

  type Byte = n: int | 0 <= n < 256
  type Bytes = seq<Byte>

  /** An X25519 secret. */
  type Scalar = nat

  /** An X25519 public key: the point of a secret, or the all-zero key. */
  datatype X25519Public = Point(secret: Scalar) | ZeroPoint

  /** The info strings of the HMAC and HKDF calls. */
  datatype Label =
    | ChainKeyInfo        // presidium-chain-key
    | MessageKeyInfo      // presidium-message-key
    | SenderAdvance       // presidium-sender-advance
    | RatchetRootInfo     // presidium-ratchet-root
    | RatchetChainInfo    // presidium-ratchet-chain
    | PqxdhSharedInfo     // presidium-pqxdh-shared
    | PqxdhMasterInfo     // PQXDH-MASTER
    | RootKeyInfo         // ROOT_KEY
    | SendingChainInfo    // SENDING_CHAIN
    | ReceivingChainInfo  // RECEIVING_CHAIN
    | IdentityKemInfo     // identity-pq-seed

  datatype Key =
    | Seed(n: nat)                                      // random bytes
    | NoSalt                                            // HKDF without a salt
    | Hmac(key: Key, info: Label)
    | Hkdf(salt: Key, ikm: seq<Key>, info: Label)
    | Dh(low: Scalar, high: Scalar)
    | ZeroShared                                        // X25519 with the all-zero key
    | KemShared(owner: Key, coin: nat)                  // ML-KEM secret encapsulated to `owner`
    | KemRejected(secret: Key, owner: Key, coin: nat)   // implicit rejection of a foreign ciphertext

  function PublicOf(secret: Scalar): X25519Public {
    Point(secret)
  }

  function DiffieHellman(secret: Scalar, peer: X25519Public): Key {
    match peer
    case ZeroPoint => ZeroShared
    case Point(other) => if secret <= other then Dh(secret, other) else Dh(other, secret)
  }

  /** Both ends of an exchange compute the same secret, and a party's own secret and the
      result determine the peer's public key. */
  lemma DiffieHellmanAgrees(a: Scalar, b: Scalar, p: X25519Public)
    ensures DiffieHellman(a, PublicOf(b)) == DiffieHellman(b, PublicOf(a))
    ensures DiffieHellman(a, p) == DiffieHellman(a, PublicOf(b)) <==> p == PublicOf(b)
  {
  }

  /** A ChaCha20-Poly1305 box, or bytes that are no box at all. */
  datatype Box<A> =
    | Sealed(key: Key, nonce: nat, aad: A, plaintext: Bytes)
    | Garbage(raw: Bytes)

  function Open<A(==)>(key: Key, nonce: nat, aad: A, box: Box<A>): Option<Bytes> {
    if box.Sealed? && box.key == key && box.nonce == nonce && box.aad == aad
    then Some(box.plaintext)
    else None
  }

  // ---------------------------------------------------------------- hash chains

  /** The key reached from `start` after `n` HMAC steps under `step`. */
  function ChainFrom(start: Key, step: Label, n: nat): Key {
    if n == 0 then start else Hmac(ChainFrom(start, step, n - 1), step)
  }

  /** The message key derived at position `n` of such a chain. */
  function MessageKeyAt(start: Key, step: Label, n: nat): Key {
    Hmac(ChainFrom(start, step, n), MessageKeyInfo)
  }

  lemma {:induction false} ChainFromAdds(start: Key, step: Label, i: nat, j: nat)
    ensures ChainFrom(ChainFrom(start, step, i), step, j) == ChainFrom(start, step, i + j)
  {
    if j == 0 {
    } else {
      ChainFromAdds(start, step, i, j - 1);
    }
  }

  /** Two chains whose starting keys are not themselves HMAC outputs meet only at the same
      position of the same chain, and so do their message keys. */
  lemma {:induction false} ChainsNeverCross(a: Key, b: Key, step: Label, i: nat, j: nat)
    requires !a.Hmac? && !b.Hmac?
    ensures ChainFrom(a, step, i) == ChainFrom(b, step, j) <==> a == b && i == j
    ensures MessageKeyAt(a, step, i) == MessageKeyAt(b, step, j) <==> a == b && i == j
  {
    if i == 0 || j == 0 {
    } else {
      ChainsNeverCross(a, b, step, i - 1, j - 1);
    }
  }

  /** A chain from a key that is no HMAC output meets a chain from any other key exactly when that key
      lies on it, as far back as the other chain has come. */
  lemma {:induction false} ChainsMeet(a: Key, b: Key, step: Label, i: nat, j: nat)
    requires !a.Hmac?
    ensures ChainFrom(a, step, i) == ChainFrom(b, step, j) <==> j <= i && b == ChainFrom(a, step, i - j)
  {
    if i == 0 || j == 0 {
    } else {
      ChainsMeet(a, b, step, i - 1, j - 1);
    }
  }

  /** How many HKDF extractions are nested in the salt position of a key. */
  function SaltDepth(k: Key): nat {
    if k.Hkdf? then 1 + SaltDepth(k.salt) else 0
  }

  /** The key a hash chain started from: what is left when all HMAC steps are undone. */
  function ChainStart(k: Key): Key {
    if k.Hmac? then ChainStart(k.key) else k
  }

  lemma {:induction false} StartOfChain(start: Key, step: Label, n: nat)
    ensures ChainStart(ChainFrom(start, step, n)) == ChainStart(start)
    ensures ChainStart(MessageKeyAt(start, step, n)) == ChainStart(start)
  {
    if n == 0 {
    } else {
      StartOfChain(start, step, n - 1);
    }
  }
}
