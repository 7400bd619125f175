/**
 * ring's `SealingKey` and `OpeningKey`, the `BoundKey`s that pair an
 * `UnboundKey` with a nonce sequence; here the sequence is always a
 * `OneNonceSequence`. Each seal or open first advances the sequence.
 */
module BoundKeys {
  import opened Wrappers
  import opened Ring
  import opened NonceSequence

  class SealingKey {
    const key: UnboundKey
    const nonceSequence: OneNonceSequence

    /** `SealingKey::new` */
    constructor (key: UnboundKey, nonceSequence: OneNonceSequence)
      ensures this.key == key && this.nonceSequence == nonceSequence
    {
      this.key := key;
      this.nonceSequence := nonceSequence;
    }

    /**
     * `seal_in_place_append_tag`: the new contents of `inOut` are its
     * ciphertext followed by the tag, under the nonce the sequence yields.
     * Fails when the sequence is spent or the input is over the limit.
     */
    method SealInPlaceAppendTag(aad: Bytes, inOut: Bytes) returns (r: Result<Bytes, Unspecified>)
      requires key.algorithm.Valid()
      modifies nonceSequence
      ensures nonceSequence.slot == None
      ensures r.Ok? <==> old(nonceSequence.slot).Some? && |inOut| <= key.algorithm.maxInputLen
      ensures r.Ok? ==> r.value == key.algorithm.seal(key.bytes, old(nonceSequence.slot).value.bytes, aad, inOut)
      ensures r.Ok? ==> |r.value| == |inOut| + TAG_LEN
    {
      var nonce := nonceSequence.Advance();
      if nonce.Err? {
        return Err(Unspecified);
      }
      if |inOut| > key.algorithm.maxInputLen {
        return Err(Unspecified);
      }
      r := Ok(key.algorithm.seal(key.bytes, nonce.value.bytes, aad, inOut));
    }
  }

  class OpeningKey {
    const key: UnboundKey
    const nonceSequence: OneNonceSequence

    /** `OpeningKey::new` */
    constructor (key: UnboundKey, nonceSequence: OneNonceSequence)
      ensures this.key == key && this.nonceSequence == nonceSequence
    {
      this.key := key;
      this.nonceSequence := nonceSequence;
    }

    /**
     * `open_in_place`: on success `r` is the plaintext and `after`, the new
     * contents of `inOut`, is that plaintext followed by the tag bytes that
     * stay behind (the buffer is not shortened). On failure the contents of
     * `inOut` are left unspecified.
     */
    method OpenInPlace(aad: Bytes, inOut: Bytes) returns (r: Result<Bytes, Unspecified>, after: Bytes)
      requires key.algorithm.Valid()
      modifies nonceSequence
      ensures nonceSequence.slot == None
      ensures r.Ok? <==> old(nonceSequence.slot).Some? && OpenWithin(key, old(nonceSequence.slot).value, aad, inOut).Some?
      ensures r.Ok? ==> OpenWithin(key, old(nonceSequence.slot).value, aad, inOut) == Some(r.value)
      ensures r.Ok? ==> after == r.value + inOut[|inOut| - TAG_LEN..]
    {
      var nonce := nonceSequence.Advance();
      if nonce.Err? {
        r, after := Err(Unspecified), *;
        return;
      }
      var plaintext := OpenWithin(key, nonce.value, aad, inOut);
      if plaintext.None? {
        r, after := Err(Unspecified), *;
        return;
      }
      r, after := Ok(plaintext.value), plaintext.value + inOut[|inOut| - TAG_LEN..];
    }
  }
}
