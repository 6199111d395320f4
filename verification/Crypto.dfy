/** The cryptographic library as a record of functions, the laws the protocol
    relies on, and the key schedule (tls_web_server/tls/key_schedule.py).
    Randomness (ephemeral keys, nonces, PSS salts) is always an argument. */
module Crypto {
  import opened Wire

  type Key32 = b: Bytes | |b| == 32 witness seq(32, _ => 0)
  type Nonce = b: Bytes | |b| == 12 witness seq(12, _ => 0)

  const TAG_LEN := 16

  /** The two info strings: b"toy tls client write key" and b"toy tls server write key". */
  datatype Info = ClientWriteKeyLabel | ServerWriteKeyLabel

  datatype Suite = Suite(
    // X25519 (RFC 7748, section 6.1): the raw public key of a private key, and the
    // shared secret, None for the all-zero result that the library refuses.
    publicKey: Bytes -> Key32,
    exchange: (Bytes, Key32) -> Option<Bytes>,
    // HKDF-SHA256 (RFC 5869, section 2) without salt, 32 bytes of output: secret and info.
    hkdf: (Bytes, Info) -> Key32,
    // AES-256-GCM (RFC 5116, sections 2.1 and 2.2): key, nonce, text, associated data.
    seal: (Bytes, Nonce, Bytes, Bytes) -> Bytes,
    open: (Bytes, Nonce, Bytes, Bytes) -> Option<Bytes>,
    // RSASSA-PSS (RFC 8017, section 8.1): key, message, salt or signature.
    rsaPublic: Bytes -> Bytes,
    sign: (Bytes, Bytes, Bytes) -> Bytes,
    verify: (Bytes, Bytes, Bytes) -> bool,
    // X.509: whether a DER string loads, its RSA key if it has one, and path
    // validation against a root, the intermediates, the leaf and a DNS name.
    loads: Bytes -> bool,
    rsaKey: Bytes -> Option<Bytes>,
    chainAccepted: (Bytes, seq<Bytes>, Bytes, Bytes) -> bool)

  /** Both ends of an X25519 exchange compute the same secret. */
  ghost predicate ExchangeCommutes(s: Suite) {
    forall a, b :: s.exchange(a, s.publicKey(b)) == s.exchange(b, s.publicKey(a))
  }

  /** Two honestly generated keys never meet in the all-zero secret. */
  ghost predicate HonestExchangeSucceeds(s: Suite) {
    forall a, b :: s.exchange(a, s.publicKey(b)).Some?
  }

  /** Opening what was sealed gives the plaintext, and sealing adds one tag. */
  ghost predicate SealOpens(s: Suite) {
    forall k, n, p, ad ::
      |s.seal(k, n, p, ad)| == |p| + TAG_LEN && s.open(k, n, s.seal(k, n, p, ad), ad) == Some(p)
  }

  ghost predicate SignVerifies(s: Suite) {
    forall k, m, salt :: s.verify(s.rsaPublic(k), s.sign(k, m, salt), m)
  }

  datatype SessionKeys = SessionKeys(clientWrite: Bytes, serverWrite: Bytes)

  /** derive_session_keys: one HKDF output per direction, separated by label only. */
  function DeriveSessionKeys(s: Suite, secret: Bytes): SessionKeys {
    SessionKeys(s.hkdf(secret, ClientWriteKeyLabel), s.hkdf(secret, ServerWriteKeyLabel))
  }

  /** The two labels never give one key. */
  ghost predicate LabelsSeparate(s: Suite) {
    forall secret :: s.hkdf(secret, ClientWriteKeyLabel) != s.hkdf(secret, ServerWriteKeyLabel)
  }

  /** The first 32 bytes, filled up with zeros. */
  function Pad(b: Bytes): Key32 {
    seq(32, i => if 0 <= i < |b| then b[i] else 0)
  }

  /** Bytewise sum. */
  function Sum(a: Key32, b: Key32): Key32 {
    seq(32, i requires 0 <= i < 32 => (a[i] as int + b[i] as int) % 256)
  }

  /** An insecure suite that obeys every law above: the laws do not contradict each other.
      Its secrets are the sums of the two shares, and its keys depend on them. */
  function ToySuite(): Suite {
    Suite(b => Pad(b),
          (a, b) => Some(Sum(Pad(a), b)),
          (secret, info) => Pad([if info == ClientWriteKeyLabel then 0 else 1] + secret),
          (_, _, text, _) => text + seq(TAG_LEN, _ => 0),
          (_, _, sealed, _) => if |sealed| < TAG_LEN then None else Some(sealed[..|sealed| - TAG_LEN]),
          _ => [],
          (_, _, _) => [],
          (_, _, _) => true,
          _ => true,
          _ => Some([]),
          (_, _, _, _) => true)
  }

  lemma {:induction false} LawsAreConsistent()
    ensures var s := ToySuite();
      ExchangeCommutes(s) && HonestExchangeSucceeds(s) && SealOpens(s) && SignVerifies(s) && LabelsSeparate(s)
  {
    var s := ToySuite();
    forall a, b
      ensures s.exchange(a, s.publicKey(b)) == s.exchange(b, s.publicKey(a))
    {
      assert Sum(Pad(a), Pad(b)) == Sum(Pad(b), Pad(a));
    }
    forall k, n, p, ad
      ensures |s.seal(k, n, p, ad)| == |p| + TAG_LEN && s.open(k, n, s.seal(k, n, p, ad), ad) == Some(p)
    {
      var sealed := s.seal(k, n, p, ad);
      assert sealed[..|sealed| - TAG_LEN] == p;
    }
    forall secret
      ensures s.hkdf(secret, ClientWriteKeyLabel) != s.hkdf(secret, ServerWriteKeyLabel)
    {
      assert s.hkdf(secret, ClientWriteKeyLabel)[0] != s.hkdf(secret, ServerWriteKeyLabel)[0];
    }
  }
}
