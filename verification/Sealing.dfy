/** The two envelopes a custody key seals secrets in, byte for byte. Encryption, key
    agreement and key derivation are abstract functions; what they promise is `Lawful`.
    A byte string is a sequence of characters. */
module Sealing {
  import opened Wrappers

  type Bytes = string

  const SYMMETRIC_MAGIC: Bytes := "pfk1"
  const WRAPPED_MAGIC: Bytes := "pfw1"
  const ENVELOPE_VERSION: Bytes := "\U{01}"
  const KEY_ID_LENGTH := 16
  const NONCE_SIZE := 12
  const PUBLIC_KEY_SIZE := 32
  const HEADER_SIZE := 4 + 1 + KEY_ID_LENGTH
  const TAG_SIZE := 16

  /** AES-GCM over key, nonce, text and associated data; X25519; and the derivation of the
      message key. */
  datatype Crypto = Crypto(
    encrypt: (Bytes, Bytes, Bytes, Bytes) -> Bytes,
    decrypt: (Bytes, Bytes, Bytes, Bytes) -> Option<Bytes>,
    scalarOf: Bytes -> Bytes,
    publicHalf: Bytes -> Bytes,
    agree: (Bytes, Bytes) -> Bytes,
    derive: (Bytes, Bytes, Bytes) -> Bytes)

  /** Ideal encryption: it opens what it sealed, and under no other associated data. The
      ciphertext holds at least a tag; nothing more is asked of its length. */
  ghost predicate Lawful(c: Crypto) {
    && (forall k, n, p, a :: c.decrypt(k, n, c.encrypt(k, n, p, a), a) == Some(p))
    && (forall k, n, p, a, b :: a != b ==> c.decrypt(k, n, c.encrypt(k, n, p, a), b) == None)
    && (forall k, n, p, a :: |c.encrypt(k, n, p, a)| >= TAG_SIZE)
    && (forall s :: |c.publicHalf(s)| == PUBLIC_KEY_SIZE)
    && (forall s, t :: c.agree(s, c.publicHalf(t)) == c.agree(t, c.publicHalf(s)))
  }

  datatype CustodyKey = CustodyKey(secret: Bytes, keyId: Bytes)

  predicate ValidKey(k: CustodyKey) { |k.keyId| == KEY_ID_LENGTH }

  /** The randomness of one seal: a nonce, and the scalar of the ephemeral key. */
  datatype Entropy = Entropy(nonce: Bytes, scalar: Bytes)

  predicate ValidEntropy(e: Entropy) { |e.nonce| == NONCE_SIZE }

  datatype SealingError = EmptyMaterial | WrongCustodyKey(sealedWith: Bytes) | CorruptSeal

  predicate StartsWith(blob: Bytes, magic: Bytes) { |magic| <= |blob| && blob[..|magic|] == magic }

  predicate IsWrapped(blob: Bytes) { StartsWith(blob, WRAPPED_MAGIC) }

  /** The key id in the header, which both envelopes lay out alike. */
  function SealedKeyId(blob: Bytes): Option<Bytes> {
    if (StartsWith(blob, SYMMETRIC_MAGIC) || StartsWith(blob, WRAPPED_MAGIC)) && |blob| >= HEADER_SIZE
    then Some(blob[5..HEADER_SIZE])
    else None
  }

  function Header(magic: Bytes, k: CustodyKey): Bytes { magic + ENVELOPE_VERSION + k.keyId }

  // --- the symmetric envelope -------------------------------------------------------

  function Seal(c: Crypto, k: CustodyKey, plaintext: Bytes, context: Bytes, e: Entropy): Result<Bytes, SealingError> {
    if plaintext == "" then Failure(EmptyMaterial)
    else
      var header := Header(SYMMETRIC_MAGIC, k);
      Success(header + e.nonce + c.encrypt(k.secret, e.nonce, plaintext, header + context))
  }

  function Open(c: Crypto, k: CustodyKey, blob: Bytes, context: Bytes): Result<Bytes, SealingError> {
    if |blob| <= HEADER_SIZE + NONCE_SIZE || !StartsWith(blob, SYMMETRIC_MAGIC) then Failure(CorruptSeal)
    else if blob[4..5] != ENVELOPE_VERSION then Failure(CorruptSeal)
    else if blob[5..HEADER_SIZE] != k.keyId then Failure(WrongCustodyKey(blob[5..HEADER_SIZE]))
    else
      var header := blob[..HEADER_SIZE];
      var rest := blob[HEADER_SIZE..];
      var found := c.decrypt(k.secret, rest[..NONCE_SIZE], rest[NONCE_SIZE..], header + context);
      if found.Some? then Success(found.value) else Failure(CorruptSeal)
  }

  // --- the wrapped envelope -----------------------------------------------------------

  /** Seal to the public half that belongs to `k`, without holding `k`'s secret scalar. */
  function Wrap(c: Crypto, k: CustodyKey, plaintext: Bytes, context: Bytes, e: Entropy): Result<Bytes, SealingError> {
    if plaintext == "" then Failure(EmptyMaterial)
    else
      var header := Header(WRAPPED_MAGIC, k);
      var recipient := c.publicHalf(c.scalarOf(k.secret));
      var ephemeral := c.publicHalf(e.scalar);
      var key := c.derive(c.agree(e.scalar, recipient), ephemeral, recipient);
      Success(header + ephemeral + e.nonce + c.encrypt(key, e.nonce, plaintext, header + ephemeral + context))
  }

  const PREFIX_SIZE := HEADER_SIZE + PUBLIC_KEY_SIZE + NONCE_SIZE

  function Unwrap(c: Crypto, k: CustodyKey, blob: Bytes, context: Bytes): Result<Bytes, SealingError> {
    if |blob| <= PREFIX_SIZE || !StartsWith(blob, WRAPPED_MAGIC) then Failure(CorruptSeal)
    else if blob[4..5] != ENVELOPE_VERSION then Failure(CorruptSeal)
    else if blob[5..HEADER_SIZE] != k.keyId then Failure(WrongCustodyKey(blob[5..HEADER_SIZE]))
    else
      var header := blob[..HEADER_SIZE];
      var ephemeral := blob[HEADER_SIZE..HEADER_SIZE + PUBLIC_KEY_SIZE];
      var nonce := blob[HEADER_SIZE + PUBLIC_KEY_SIZE..PREFIX_SIZE];
      var scalar := c.scalarOf(k.secret);
      var key := c.derive(c.agree(scalar, ephemeral), ephemeral, c.publicHalf(scalar));
      var found := c.decrypt(key, nonce, blob[PREFIX_SIZE..], header + ephemeral + context);
      if found.Some? then Success(found.value) else Failure(CorruptSeal)
  }

  /** The magic decides which envelope is opened. */
  function OpenAny(c: Crypto, k: CustodyKey, blob: Bytes, context: Bytes): Result<Bytes, SealingError> {
    if IsWrapped(blob) then Unwrap(c, k, blob, context) else Open(c, k, blob, context)
  }

  // --- round trips -----------------------------------------------------------------------

  /** A seal opens under its key and context to what was sealed, names its key without
      being found, and opens under no other context and no other key. */
  lemma SealOpens(c: Crypto, k: CustodyKey, plaintext: Bytes, context: Bytes, e: Entropy, other: Bytes, stranger: CustodyKey)
    requires Lawful(c) && ValidKey(k) && ValidEntropy(e) && plaintext != ""
    requires other != context && ValidKey(stranger) && stranger.keyId != k.keyId
    ensures var blob := Seal(c, k, plaintext, context, e).value;
            && Open(c, k, blob, context) == OpenAny(c, k, blob, context) == Success(plaintext)
            && SealedKeyId(blob) == Some(k.keyId)
            && Open(c, k, blob, other) == Failure(CorruptSeal)
            && Open(c, stranger, blob, context) == Failure(WrongCustodyKey(k.keyId))
  {
    var header := Header(SYMMETRIC_MAGIC, k);
    var text := c.encrypt(k.secret, e.nonce, plaintext, header + context);
    var blob := header + e.nonce + text;
    assert blob == Seal(c, k, plaintext, context, e).value;
    assert blob[..4] == SYMMETRIC_MAGIC && blob[4..5] == ENVELOPE_VERSION && blob[5..HEADER_SIZE] == k.keyId;
    assert blob[..HEADER_SIZE] == header;
    assert blob[HEADER_SIZE..][..NONCE_SIZE] == e.nonce && blob[HEADER_SIZE..][NONCE_SIZE..] == text;
    assert blob[0] == 'p' && blob[1] == 'f' && blob[2] == 'k';
    assert blob[..4][2] != WRAPPED_MAGIC[2];
    assert header + other != header + context by {
      assert (header + other)[|header|..] == other;
      assert (header + context)[|header|..] == context;
    }
  }

  /** The same for a wrapped secret: the two sides of the key agreement meet. */
  lemma WrapOpens(c: Crypto, k: CustodyKey, plaintext: Bytes, context: Bytes, e: Entropy, other: Bytes)
    requires Lawful(c) && ValidKey(k) && ValidEntropy(e) && plaintext != "" && other != context
    ensures var blob := Wrap(c, k, plaintext, context, e).value;
            && OpenAny(c, k, blob, context) == Success(plaintext)
            && SealedKeyId(blob) == Some(k.keyId)
            && OpenAny(c, k, blob, other) == Failure(CorruptSeal)
  {
    var header := Header(WRAPPED_MAGIC, k);
    var scalar := c.scalarOf(k.secret);
    var recipient, ephemeral := c.publicHalf(scalar), c.publicHalf(e.scalar);
    var key := c.derive(c.agree(e.scalar, recipient), ephemeral, recipient);
    assert key == c.derive(c.agree(scalar, ephemeral), ephemeral, recipient);
    var text := c.encrypt(key, e.nonce, plaintext, header + ephemeral + context);
    var blob := header + ephemeral + e.nonce + text;
    assert blob == Wrap(c, k, plaintext, context, e).value;
    assert blob[..4] == WRAPPED_MAGIC && blob[4..5] == ENVELOPE_VERSION && blob[5..HEADER_SIZE] == k.keyId;
    assert blob[..HEADER_SIZE] == header && blob[HEADER_SIZE..HEADER_SIZE + PUBLIC_KEY_SIZE] == ephemeral;
    assert blob[HEADER_SIZE + PUBLIC_KEY_SIZE..PREFIX_SIZE] == e.nonce && blob[PREFIX_SIZE..] == text;
    var bound := header + ephemeral;
    assert bound + other != bound + context by {
      assert (bound + other)[|bound|..] == other;
      assert (bound + context)[|bound|..] == context;
    }
  }
}
