/**
 * The interface of the `ring` crate as the shielded container uses it:
 * the ChaCha20-Poly1305 AEAD (section 2.8 of RFC 8439), the SHA-512 digest
 * (section 6.4 of FIPS 180-4), key and nonce construction, and the system
 * random source. The primitives themselves are not modelled: they are the
 * fields of `Algorithms`, and `Algorithms.Valid` is the contract assumed of them.
 */
module Ring {
  import opened Wrappers

  newtype byte = x: int | 0 <= x < 256

  type Bytes = seq<byte>

  /** `CHACHA20_POLY1305.key_len()` */
  const KEY_LEN: nat := 32
  /** `aead::NONCE_LEN`, also `CHACHA20_POLY1305.nonce_len()` */
  const NONCE_LEN: nat := 12
  /** length of the Poly1305 tag that sealing appends */
  const TAG_LEN: nat := 16
  /** `SHA512.output_len` */
  const DIGEST_LEN: nat := 64

  /** `ring::error::Unspecified` */
  datatype Unspecified = Unspecified

  /**
   * The cipher and the hash. `seal(key, nonce, aad, plaintext)` is the
   * ciphertext followed by the tag; `open(key, nonce, aad, sealed)` is the
   * plaintext when the tag verifies; `maxInputLen` is the per-nonce input
   * limit past which ring refuses to seal or open.
   */
  datatype Algorithms = Algorithms(
    seal: (Bytes, Bytes, Bytes, Bytes) -> Bytes,
    open: (Bytes, Bytes, Bytes, Bytes) -> Option<Bytes>,
    digest: Bytes -> Bytes,
    maxInputLen: nat)
  {
    /**
     * The assumed contract: sealing appends exactly one tag, opening what was
     * sealed with the same key, nonce and AAD gives the plaintext back, an
     * open that succeeds was given a genuine seal of the plaintext it returns
     * (ChaCha20-Poly1305 is deterministic, so this holds exactly), and the digest has a
     * fixed length.
     */
    ghost predicate Valid() {
      && (forall key, nonce, aad, p :: |seal(key, nonce, aad, p)| == |p| + TAG_LEN)
      && (forall key, nonce, aad, p :: open(key, nonce, aad, seal(key, nonce, aad, p)) == Some(p))
      && (forall key, nonce, aad, c ::
            open(key, nonce, aad, c).Some? ==> seal(key, nonce, aad, open(key, nonce, aad, c).value) == c)
      && (forall x :: |digest(x)| == DIGEST_LEN)
    }
  }

  /** A cipher that only appends sixteen zero bytes meets the contract, so it is not contradictory. */
  lemma AssumptionsAreConsistent()
    ensures exists alg: Algorithms :: alg.Valid()
  {
    var zeros: Bytes := seq(TAG_LEN, _ => 0);
    var seal := (key: Bytes, nonce: Bytes, aad: Bytes, p: Bytes) => p + zeros;
    var open := (key: Bytes, nonce: Bytes, aad: Bytes, c: Bytes) =>
      if |c| >= TAG_LEN && c[|c| - TAG_LEN..] == zeros then Some(c[..|c| - TAG_LEN]) else None;
    var alg := Algorithms(seal, open, (x: Bytes) => seq(DIGEST_LEN, _ => 0), 0);
    forall key, nonce, aad, p ensures alg.open(key, nonce, aad, alg.seal(key, nonce, aad, p)) == Some(p) {
      var c := p + zeros;
      assert c[|c| - TAG_LEN..] == zeros && c[..|c| - TAG_LEN] == p;
    }
    forall key, nonce, aad, c | alg.open(key, nonce, aad, c).Some?
      ensures alg.seal(key, nonce, aad, alg.open(key, nonce, aad, c).value) == c
    {
      assert c == c[..|c| - TAG_LEN] + c[|c| - TAG_LEN..];
    }
    assert alg.Valid();
  }

  /** `aead::UnboundKey`: key bytes bound to their algorithm. */
  datatype UnboundKey = UnboundKey(algorithm: Algorithms, bytes: Bytes)

  /** `aead::Nonce` */
  datatype Nonce = Nonce(bytes: Bytes)

  /** `UnboundKey::new`: refuses key bytes of the wrong length. */
  function NewUnboundKey(alg: Algorithms, keyBytes: Bytes): (r: Result<UnboundKey, Unspecified>)
    ensures r.Ok? <==> |keyBytes| == KEY_LEN
    ensures r.Ok? ==> r.value.algorithm == alg && r.value.bytes == keyBytes
  {
    if |keyBytes| == KEY_LEN then Ok(UnboundKey(alg, keyBytes)) else Err(Unspecified)
  }

  /** `Nonce::try_assume_unique_for_key`: refuses nonce bytes of the wrong length. */
  function TryAssumeUniqueForKey(nonceBytes: Bytes): (r: Result<Nonce, Unspecified>)
    ensures r.Ok? <==> |nonceBytes| == NONCE_LEN
    ensures r.Ok? ==> r.value.bytes == nonceBytes
  {
    if |nonceBytes| == NONCE_LEN then Ok(Nonce(nonceBytes)) else Err(Unspecified)
  }

  /**
   * What opening `inOut` in place yields: nothing when it is shorter than a
   * tag, when its ciphertext is over the input limit, or when the tag does
   * not verify; otherwise the plaintext, of which `inOut` is the genuine seal.
   */
  function OpenWithin(key: UnboundKey, nonce: Nonce, aad: Bytes, inOut: Bytes): (r: Option<Bytes>)
    requires key.algorithm.Valid()
    ensures r.Some? ==> |inOut| == |r.value| + TAG_LEN && |r.value| <= key.algorithm.maxInputLen
    ensures r.Some? ==> key.algorithm.seal(key.bytes, nonce.bytes, aad, r.value) == inOut
  {
    if |inOut| < TAG_LEN || |inOut| - TAG_LEN > key.algorithm.maxInputLen then None
    else key.algorithm.open(key.bytes, nonce.bytes, aad, inOut)
  }

  /**
   * `ring::rand::SystemRandom`. Its output is arbitrary, and it may fail;
   * what is filled and whether it fails is chosen nondeterministically.
   */
  class SystemRandom {
    constructor () {}

    /**
     * `SecureRandom::fill`: overwrites `dest` with arbitrary bytes or fails.
     * It carries no contract beyond its frame: nothing is promised about the
     * bytes, and on failure nothing about `dest`.
     */
    method Fill(dest: array<byte>) returns (r: Result<(), Unspecified>)
      modifies dest
    {
      var available: bool := *;
      if !available {
        return Err(Unspecified);
      }
      var i := 0;
      while i < dest.Length
        invariant 0 <= i <= dest.Length
      {
        var b: byte := *;
        dest[i] := b;
        i := i + 1;
      }
      r := Ok(());
    }
  }
}
