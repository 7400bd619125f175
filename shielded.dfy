/**
 * `Shielded` and `UnShielded` (src/lib.rs). The exclusive borrow that an
 * `UnShielded` holds on its `Shielded` is the ghost flag `borrowed`; the
 * ghost counter `epoch` tells the live view from views already dropped.
 */
module ShieldedMemory {
  import opened Wrappers
  import opened Ring
  import opened NonceSequence
  import opened BoundKeys
  import opened KeyMaterial
  import opened Sealing

  /** Memory kept encrypted, with the key material of its last seal. */
  class Shielded {
    /** `SHIELD_CIPHER` and `SHIELD_PREKEY_HASH` */
    const alg: Algorithms
    var prekey: Bytes
    var nonce: Bytes
    var memory: Bytes

    /** the buffer the container was built from */
    ghost const original: Bytes
    /** the plaintext of the last successful seal */
    ghost var secret: Bytes
    /** the key material of every successful seal, oldest first */
    ghost var history: seq<Draw>
    /** a live `UnShielded` holds the exclusive borrow */
    ghost var borrowed: bool
    /** number of views dropped so far */
    ghost var epoch: nat

    /** Lengths of the key material, and the stored pair is the one the last seal drew. */
    ghost predicate Valid()
      reads this
    {
      && alg.Valid()
      && |prekey| == SHIELD_PREKEY_LEN
      && |nonce| == NONCE_LEN
      && (history != [] ==> history[|history| - 1] == Draw(prekey, nonce))
    }

    /** At rest: `memory` is the seal of `secret` under the stored prekey and nonce. */
    ghost predicate Sealed()
      reads this
    {
      && Valid()
      && !borrowed
      && history != []
      && |secret| <= alg.maxInputLen
      && memory == SealedMemory(alg, Draw(prekey, nonce), secret)
    }

    /** `secret` is what the code as written has sealed after the shields in `history`. */
    ghost predicate AsWrittenHistory()
      reads this
    {
      Valid() && history != [] && secret == SecretAfter(alg, original, history)
    }

    /** The struct literal of `Shielded::new`: placeholder key material, `memory` still plaintext. */
    constructor (alg: Algorithms, buf: Bytes)
      requires alg.Valid()
      ensures Valid() && !borrowed && epoch == 0 && history == []
      ensures this.alg == alg && original == buf && secret == buf && memory == buf
      ensures prekey == seq(SHIELD_PREKEY_LEN, _ => MAGIC_BYTE)
      ensures nonce == seq(NONCE_LEN, _ => MAGIC_BYTE)
    {
      this.alg := alg;
      prekey := seq(SHIELD_PREKEY_LEN, _ => MAGIC_BYTE);
      nonce := seq(NONCE_LEN, _ => MAGIC_BYTE);
      memory := buf;
      original := buf;
      secret := buf;
      history := [];
      borrowed := false;
      epoch := 0;
    }

    /** `Shielded::new`: takes `buf` and seals it at once. */
    static method New(alg: Algorithms, buf: Bytes) returns (r: Result<Shielded, Panic>)
      requires alg.Valid()
      ensures r.Ok? ==> fresh(r.value) && r.value.alg == alg && r.value.epoch == 0
      ensures r.Ok? ==> r.value.Sealed() && r.value.AsWrittenHistory()
      ensures r.Ok? ==> r.value.original == buf && r.value.secret == buf && |r.value.history| == 1
      ensures r.Ok? ==> |r.value.memory| == |buf| + TAG_LEN
      ensures r.Err? ==> r.error in {RngFillPrekey, RngFillNonce, SealInPlace}
      ensures r == Err(SealInPlace) ==> |buf| > alg.maxInputLen
      ensures |buf| > alg.maxInputLen ==> r.Err?
    {
      var shielded := new Shielded(alg, buf);
      var sealed := shielded.Shield();
      if sealed.Err? {
        return Err(sealed.error);
      }
      r := Ok(shielded);
    }

    /** `From<Vec<u8>>::from`: the same as `Shielded::new`. */
    static method From(alg: Algorithms, buf: Bytes) returns (r: Result<Shielded, Panic>)
      requires alg.Valid()
      ensures r.Ok? ==> fresh(r.value) && r.value.alg == alg && r.value.epoch == 0
      ensures r.Ok? ==> r.value.Sealed() && r.value.AsWrittenHistory()
      ensures r.Ok? ==> r.value.original == buf && r.value.secret == buf && |r.value.history| == 1
      ensures r.Ok? ==> |r.value.memory| == |buf| + TAG_LEN
      ensures r.Err? ==> r.error in {RngFillPrekey, RngFillNonce, SealInPlace}
      ensures r == Err(SealInPlace) ==> |buf| > alg.maxInputLen
      ensures |buf| > alg.maxInputLen ==> r.Err?
    {
      r := New(alg, buf);
    }

    /**
     * `shield`: draws a fresh prekey and nonce, seals the whole of `memory`
     * in place with the prekey as AAD, and only then stores the new prekey
     * and nonce. A panic leaves the container as it was.
     */
    method Shield() returns (r: Result<(), Panic>)
      requires Valid()
      modifies this
      ensures Valid() && borrowed == old(borrowed) && epoch == old(epoch)
      ensures r.Err? ==> r.error in {RngFillPrekey, RngFillNonce, SealInPlace}
      ensures r == Err(SealInPlace) ==> |old(memory)| > alg.maxInputLen
      ensures |old(memory)| > alg.maxInputLen ==> r.Err?
      ensures r.Err? ==> prekey == old(prekey) && nonce == old(nonce) && memory == old(memory)
      ensures r.Err? ==> secret == old(secret) && history == old(history)
      ensures r.Ok? ==> |prekey| == SHIELD_PREKEY_LEN && |nonce| == NONCE_LEN
      ensures r.Ok? ==> history == old(history) + [Draw(prekey, nonce)]
      ensures r.Ok? ==> memory == SealedMemory(alg, Draw(prekey, nonce), old(memory))
      ensures r.Ok? ==> secret == old(memory) && |memory| == |old(memory)| + TAG_LEN
      ensures r.Ok? && !borrowed ==> Sealed()
    {
      var rng := new SystemRandom();
      var newPrekey := NewPrekey(rng);
      if newPrekey.Err? {
        return Err(newPrekey.error);
      }
      var nonceBytes := NewNonce(rng);
      if nonceBytes.Err? {
        return Err(nonceBytes.error);
      }
      var key := PrekeyToKey(alg, newPrekey.value);
      var unboundKey := NewUnboundKey(alg, key);
      assert unboundKey.Ok?;  // expect("new SealingKey") never fires
      var nonceValue := TryAssumeUniqueForKey(nonceBytes.value);
      assert nonceValue.Ok?;  // expect("new Nonce") never fires
      var nonceSequence := new OneNonceSequence(nonceValue.value);
      var sealingKey := new SealingKey(unboundKey.value, nonceSequence);
      var aad := newPrekey.value;
      var sealed := sealingKey.SealInPlaceAppendTag(aad, memory);
      if sealed.Err? {
        return Err(SealInPlace);
      }
      secret := memory;
      memory := sealed.value;
      prekey := newPrekey.value;
      nonce := nonceBytes.value;
      history := history + [Draw(prekey, nonce)];
      assert |prekey| == SHIELD_PREKEY_LEN;  // the debug_assert_eq! on the prekey
      assert |nonce| == NONCE_LEN;           // the debug_assert_eq! on the nonce
      r := Ok(());
    }

    /**
     * `unshield`: opens `memory` in place under the key derived from the
     * stored prekey, the stored nonce and the stored prekey as AAD. It
     * succeeds exactly when the memory authenticates; a view is then over a
     * plaintext of which the old memory was the genuine seal, and when the
     * container was at rest the view is its secret. An authentication
     * failure panics and no view exists.
     */
    method Unshield() returns (r: Result<UnShielded, Panic>)
      requires Valid() && !borrowed
      modifies this
      ensures Valid() && prekey == old(prekey) && nonce == old(nonce)
      ensures history == old(history) && epoch == old(epoch)
      ensures r.Ok? <==> Unsealed(alg, Draw(prekey, nonce), old(memory)).Some?
      ensures r.Err? ==> r.error == OpenInPlace && !borrowed && secret == old(secret)
      ensures r.Ok? ==> fresh(r.value) && r.value.shielded == this && r.value.Valid()
      ensures r.Ok? ==> Unsealed(alg, Draw(prekey, nonce), old(memory)) == Some(r.value.AsRef())
      ensures r.Ok? ==> old(memory) == SealedMemory(alg, Draw(prekey, nonce), r.value.AsRef())
      ensures r.Ok? ==> memory == OpenedInPlace(alg, Draw(prekey, nonce), r.value.AsRef())
      ensures r.Ok? ==> r.value.plaintextLen + TAG_LEN == |memory| == |old(memory)|
      ensures old(Sealed()) ==> r.Ok? && r.value.AsRef() == old(secret) && secret == old(secret)
    {
      var key := PrekeyToKey(alg, prekey);
      var unboundKey := NewUnboundKey(alg, key);
      assert unboundKey.Ok?;  // expect("new OpeningKey") never fires
      var nonceValue := TryAssumeUniqueForKey(nonce);
      assert nonceValue.Ok?;  // expect("new Nonce") never fires
      var nonceSequence := new OneNonceSequence(nonceValue.value);
      var openingKey := new OpeningKey(unboundKey.value, nonceSequence);
      var aad := prekey;
      var plaintext, after := openingKey.OpenInPlace(aad, memory);
      memory := after;
      if plaintext.Err? {
        return Err(OpenInPlace);
      }
      secret := plaintext.value;
      borrowed := true;
      var view := new UnShielded(this, |plaintext.value|);
      r := Ok(view);
    }
  }

  /** Decrypted contents of a `Shielded`, borrowed until the view is dropped. */
  class UnShielded {
    const shielded: Shielded
    const plaintextLen: nat
    /** the container's `epoch` when this view was made */
    ghost const epoch: nat

    constructor (shielded: Shielded, plaintextLen: nat)
      ensures this.shielded == shielded && this.plaintextLen == plaintextLen
      ensures epoch == shielded.epoch
    {
      this.shielded := shielded;
      this.plaintextLen := plaintextLen;
      epoch := shielded.epoch;
    }

    /**
     * This view is live: it holds the borrow, and its container's memory is
     * the plaintext followed by the tag left behind by the open.
     */
    ghost predicate Valid()
      reads this, shielded
    {
      && shielded.Valid()
      && shielded.borrowed
      && shielded.epoch == epoch
      && plaintextLen == |shielded.secret|
      && shielded.memory == OpenedInPlace(shielded.alg, Draw(shielded.prekey, shielded.nonce), shielded.secret)
    }

    /** `AsRef::as_ref`: the plaintext prefix of the memory, always within bounds. */
    function AsRef(): (plaintext: Bytes)
      reads this, shielded
      requires Valid()
      ensures |plaintext| == plaintextLen < |shielded.memory|
      ensures plaintext == shielded.secret
    {
      shielded.memory[..plaintextLen]
    }

    /**
     * `Drop::drop` as written: re-seals the whole memory, the plaintext and
     * the stale tag, so the memory grows by one tag. The borrow ends and this
     * view is spent. A panic while sealing leaves the plaintext in memory.
     */
    method Drop() returns (r: Result<(), Panic>)
      requires Valid()
      modifies shielded
      ensures shielded.Valid() && !shielded.borrowed && shielded.epoch == old(shielded.epoch) + 1
      ensures !Valid()
      ensures r.Err? ==> r.error in {RngFillPrekey, RngFillNonce, SealInPlace}
      ensures r.Err? ==> shielded.memory == old(shielded.memory) && shielded.history == old(shielded.history)
      ensures r.Err? ==> shielded.prekey == old(shielded.prekey) && shielded.nonce == old(shielded.nonce)
      ensures r.Err? ==> shielded.secret == old(shielded.secret)
      ensures r == Err(SealInPlace) ==> |old(shielded.memory)| > shielded.alg.maxInputLen
      ensures |old(shielded.memory)| > shielded.alg.maxInputLen ==> r.Err?
      ensures r.Ok? ==> shielded.Sealed()
      ensures r.Ok? ==> shielded.history == old(shielded.history) + [Draw(shielded.prekey, shielded.nonce)]
      ensures r.Ok? ==> shielded.secret == old(shielded.memory) && shielded.secret[..plaintextLen] == old(AsRef())
      ensures r.Ok? ==> |shielded.memory| == old(|shielded.memory|) + TAG_LEN
      ensures r.Ok? && old(shielded.AsWrittenHistory()) ==> shielded.AsWrittenHistory()
    {
      ghost var h := shielded.history;
      r := shielded.Shield();
      shielded.borrowed := false;
      shielded.epoch := shielded.epoch + 1;
      if r.Ok? {
        assert shielded.history[..|h|] == h;
      }
    }

    /**
     * The corrected drop: shortens the memory to the plaintext before it is
     * re-sealed, so that the next view shows the same plaintext and the
     * memory stays one tag longer than it.
     */
    method DropTruncating() returns (r: Result<(), Panic>)
      requires Valid()
      modifies shielded
      ensures shielded.Valid() && !shielded.borrowed && shielded.epoch == old(shielded.epoch) + 1
      ensures !Valid()
      ensures r.Err? ==> r.error in {RngFillPrekey, RngFillNonce, SealInPlace}
      ensures r.Err? ==> shielded.memory == old(AsRef()) && shielded.history == old(shielded.history)
      ensures r.Err? ==> shielded.prekey == old(shielded.prekey) && shielded.nonce == old(shielded.nonce)
      ensures r.Err? ==> shielded.secret == old(shielded.secret)
      ensures r == Err(SealInPlace) ==> plaintextLen > shielded.alg.maxInputLen
      ensures plaintextLen > shielded.alg.maxInputLen ==> r.Err?
      ensures r.Ok? ==> shielded.Sealed()
      ensures r.Ok? ==> shielded.history == old(shielded.history) + [Draw(shielded.prekey, shielded.nonce)]
      ensures r.Ok? ==> shielded.secret == old(shielded.secret) == old(AsRef())
      ensures r.Ok? ==> |shielded.memory| == plaintextLen + TAG_LEN
    {
      shielded.memory := shielded.memory[..plaintextLen];
      r := shielded.Shield();
      shielded.borrowed := false;
      shielded.epoch := shielded.epoch + 1;
    }
  }

  /**
   * After `new(buf)` and `|history| - 1` view cycles of the code as written,
   * the memory is `|buf| + 16 * |history|` bytes long and the secret a view
   * would show still begins with `buf`.
   */
  lemma MemoryLengthAfterCycles(s: Shielded)
    requires s.Sealed() && s.AsWrittenHistory()
    ensures |s.memory| == |s.original| + TAG_LEN * |s.history|
    ensures |s.secret| == |s.original| + TAG_LEN * (|s.history| - 1)
    ensures s.secret[..|s.original|] == s.original
  {
    SecretAfterGrows(s.alg, s.original, s.history);
  }
}
