/** The cryptographic primitives, as uninterpreted functions, and the laws the protocols rely on.

`hmac(key, message)` is HMAC-SHA256, `hkdf(secret, salt, info, i)` byte i of the HKDF-SHA256 output
stream, `expand(prk, info, i)` byte i of the HKDF-Expand stream, `seal` and `open` are
ChaCha20-Poly1305 with the nonce built from the counter, `dh` and `publicKey` are X25519.
*/
module Primitives {
  import opened Bits
  import opened Bytes
  import opened Wrappers

  datatype Crypto = Crypto(
    hmac: (bytes, bytes) -> Block32,
    sha256: bytes -> Block32,
    hkdf: (bytes, bytes, bytes, nat) -> byte,
    expand: (bytes, bytes, nat) -> byte,
    publicKey: Block32 -> Block32,
    dh: (Block32, Block32) -> Block32,
    seal: (bytes, uint64, bytes, bytes) -> bytes,
    open: (bytes, uint64, bytes, bytes) -> Option<bytes>
  )

  /** Diffie-Hellman commutes; Open inverts Seal under the same key, counter and associated data; a
      ciphertext is 16 bytes longer than its plaintext. */
  ghost predicate Lawful(c: Crypto) {
    && (forall a: Block32, b: Block32 :: c.dh(a, c.publicKey(b)) == c.dh(b, c.publicKey(a)))
    && (forall key: bytes, n: uint64, aad: bytes, text: bytes ::
          c.open(key, n, aad, c.seal(key, n, aad, text)) == Some(text))
    && (forall key: bytes, n: uint64, aad: bytes, text: bytes :: |c.seal(key, n, aad, text)| == |text| + 16)
    && (forall key: bytes, n: uint64, aad: bytes, box: bytes ::
          c.open(key, n, aad, box).Some? ==> |box| == |c.open(key, n, aad, box).value| + 16)
  }

  function HkdfBytes(c: Crypto, secret: bytes, salt: bytes, info: bytes, from: nat, count: nat): (s: bytes)
    ensures |s| == count
  {
    seq<byte>(count, i requires 0 <= i => c.hkdf(secret, salt, info, from + i))
  }

  /** expandKey: the first 32 bytes of the HKDF stream. */
  function ExpandKey(c: Crypto, secret: bytes, salt: bytes, info: bytes): Block32 {
    HkdfBytes(c, secret, salt, info, 0, 32)
  }

  function ExpandBytes(c: Crypto, prk: bytes, info: bytes, from: nat, count: nat): (s: bytes)
    ensures |s| == count
  {
    seq<byte>(count, i requires 0 <= i => c.expand(prk, info, from + i))
  }

  function ExpandBlock(c: Crypto, prk: bytes, info: bytes, from: nat): Block32 {
    ExpandBytes(c, prk, info, from, 32)
  }

  lemma OpenShortens(c: Crypto, key: bytes, n: uint64, aad: bytes, box: bytes)
    requires Lawful(c)
    ensures c.open(key, n, aad, box).Some? ==> |box| == |c.open(key, n, aad, box).value| + 16
  {}

  // ---------------------------------------------------------------- two inputs told apart

  /** SHA-256 tells these two inputs apart. */
  ghost predicate HashApart(c: Crypto, x: bytes, y: bytes) {
    c.sha256(x) == c.sha256(y) ==> x == y
  }

  /** HMAC tells these two keys and messages apart. */
  ghost predicate MacApart(c: Crypto, key1: bytes, message1: bytes, key2: bytes, message2: bytes) {
    c.hmac(key1, message1) == c.hmac(key2, message2) ==> key1 == key2 && message1 == message2
  }

  /** So do its first 16 bytes. */
  ghost predicate ShortMacApart(c: Crypto, key1: bytes, message1: bytes, key2: bytes, message2: bytes) {
    c.hmac(key1, message1)[..16] == c.hmac(key2, message2)[..16] ==> key1 == key2 && message1 == message2
  }

  /** The first 32 bytes of HKDF tell these two secrets and salts apart. */
  ghost predicate HkdfApart(c: Crypto, secret1: bytes, salt1: bytes, secret2: bytes, salt2: bytes, info: bytes) {
    (forall j: nat | j < 32 :: c.hkdf(secret1, salt1, info, j) == c.hkdf(secret2, salt2, info, j)) ==>
      secret1 == secret2 && salt1 == salt2
  }

  /** The first 32 bytes of HKDF-Expand tell these two keys and infos apart. */
  ghost predicate ExpandApart(c: Crypto, prk1: bytes, info1: bytes, prk2: bytes, info2: bytes) {
    (forall j: nat | j < 32 :: c.expand(prk1, info1, j) == c.expand(prk2, info2, j)) ==> prk1 == prk2 && info1 == info2
  }

  // ---------------------------------------------------------------- examples

  const TAG: bytes := [0, 0, 0, 0, 0, 0, 0, 0, 0, 0, 0, 0, 0, 0, 0, 0]

  /** A tag that shows the key. */
  function KeyTag(key: bytes): (tag: bytes)
    ensures |tag| == 16
  {
    if |key| >= 16 then key[..16] else TAG
  }

  /** A value of `Crypto` around any keyed hash: a tag stands for encryption, a constant stream for HKDF, constants
      for the rest. */
  function WithHmac(hmac: (bytes, bytes) -> Block32, stream: byte): Crypto {
    var block: Block32 := seq(32, _ => 1);
    Crypto(
      hmac, m => block, (a, b, i, n) => stream, (a, i, n) => stream, a => block, (a, b) => block,
      (k, n, a, m) => m + KeyTag(k),
      (k, n, a, b) => if |b| >= 16 && b[|b| - 16..] == KeyTag(k) then Some(b[..|b| - 16]) else None)
  }

  lemma WithHmacLawful(hmac: (bytes, bytes) -> Block32, stream: byte)
    ensures Lawful(WithHmac(hmac, stream))
  {
    var c := WithHmac(hmac, stream);
    forall key: bytes, n: uint64, aad: bytes, text: bytes
      ensures c.open(key, n, aad, c.seal(key, n, aad, text)) == Some(text)
    {
      var box := c.seal(key, n, aad, text);
      assert box[|box| - 16..] == KeyTag(key) && box[..|box| - 16] == text;
    }
  }

  /** Nothing opens under a key with another tag. */
  lemma OtherTagRefused(hmac: (bytes, bytes) -> Block32, stream: byte, key: bytes, other: bytes, n: uint64, aad: bytes,
                        text: bytes)
    requires KeyTag(key) != KeyTag(other)
    ensures var c := WithHmac(hmac, stream); c.open(other, n, aad, c.seal(key, n, aad, text)) == None
  {
    var box := text + KeyTag(key);
    assert box[|box| - 16..] == KeyTag(key);
  }

  /** The laws can be met. */
  lemma LawsAreConsistent()
    ensures exists c: Crypto :: Lawful(c)
  {
    WithHmacLawful((k, m) => seq(32, _ => 0), 0);
  }
}
