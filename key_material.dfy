/**
 * The key schedule of src/lib.rs: drawing a prekey and a nonce from the
 * random source, and deriving the cipher key from the prekey. Also the
 * outcomes of the crate's `expect` calls, which abort the operation.
 */
module KeyMaterial {
  import opened Wrappers
  import opened Ring

  /** `SHIELD_PREKEY_LEN`: 16 KiB of prekey */
  const SHIELD_PREKEY_LEN: nat := 16 * 1024

  /** `MAGIC_BYTE`: fills buffers that are allocated but not yet populated */
  const MAGIC_BYTE: byte := 0xDF

  /** One constructor per `expect` message in src/lib.rs ("new Nonce" is used twice): the operation panics there. */
  datatype Panic =
    | RngFillPrekey        // "rng fill prekey"
    | RngFillNonce         // "rng fill"
    | SealingKeyRejected   // "new SealingKey"
    | OpeningKeyRejected   // "new OpeningKey"
    | NonceRejected        // "new Nonce"
    | SealInPlace          // "seal in place"
    | OpenInPlace          // "open in place"

  /** `new_prekey`: a buffer of `SHIELD_PREKEY_LEN` bytes filled by the random source. */
  method NewPrekey(rng: SystemRandom) returns (r: Result<Bytes, Panic>)
    ensures r.Ok? ==> |r.value| == SHIELD_PREKEY_LEN
    ensures r.Err? ==> r.error == RngFillPrekey
  {
    var k := new byte[SHIELD_PREKEY_LEN](_ => MAGIC_BYTE);
    var filled := rng.Fill(k);
    if filled.Err? {
      return Err(RngFillPrekey);
    }
    r := Ok(k[..]);
  }

  /** `new_nonce`: a buffer of the cipher's nonce length filled by the random source. */
  method NewNonce(rng: SystemRandom) returns (r: Result<Bytes, Panic>)
    ensures r.Ok? ==> |r.value| == NONCE_LEN
    ensures r.Err? ==> r.error == RngFillNonce
  {
    var n := new byte[NONCE_LEN](_ => MAGIC_BYTE);
    var filled := rng.Fill(n);
    if filled.Err? {
      return Err(RngFillNonce);
    }
    r := Ok(n[..]);
  }

  /**
   * `prekey_to_key`: the cipher key is the first `KEY_LEN` bytes of the
   * SHA-512 digest of the whole prekey. Being a function of the prekey alone,
   * the key derived when opening equals the one derived when sealing.
   */
  function PrekeyToKey(alg: Algorithms, prekey: Bytes): (key: Bytes)
    requires alg.Valid()
    ensures |key| == KEY_LEN
    ensures key <= alg.digest(prekey)
  {
    alg.digest(prekey)[0..KEY_LEN]
  }
}
