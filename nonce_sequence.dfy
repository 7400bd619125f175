/** `OneNonceSequence` (src/lib.rs): a nonce sequence that yields its one nonce once. */
module NonceSequence {
  import opened Wrappers
  import opened Ring

  class OneNonceSequence {
    /** the `Option<Nonce>` the tuple struct wraps */
    var slot: Option<Nonce>

    /** `OneNonceSequence::new` */
    constructor (nonce: Nonce)
      ensures slot == Some(nonce)
    {
      slot := Some(nonce);
    }

    /**
     * `NonceSequence::advance`: hands out the stored nonce and empties the
     * slot, so that the first call succeeds and every later call fails.
     */
    method Advance() returns (r: Result<Nonce, Unspecified>)
      modifies this
      ensures slot == None
      ensures old(slot).Some? ==> r == Ok(old(slot).value)
      ensures old(slot).None? ==> r == Err(Unspecified)
    {
      var taken := slot;
      slot := None;
      r := if taken.Some? then Ok(taken.value) else Err(Unspecified);
    }
  }
}
