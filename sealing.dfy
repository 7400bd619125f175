/**
 * The container's memory as values: what one seal under a given draw of key
 * material produces, what opening it in place leaves behind, and what the
 * memory holds after a number of view cycles of src/lib.rs as written.
 */
module Sealing {
  import opened Wrappers
  import opened Ring
  import opened KeyMaterial

  /** The key material one `shield` draws: a prekey and a nonce. */
  datatype Draw = Draw(prekey: Bytes, nonce: Bytes)

  /**
   * `shield`'s seal: the key is derived from the prekey, the prekey is the
   * AAD (authenticated, not encrypted), and the tag is appended.
   */
  function SealedMemory(alg: Algorithms, d: Draw, plaintext: Bytes): (m: Bytes)
    requires alg.Valid()
    ensures |m| == |plaintext| + TAG_LEN
  {
    alg.seal(PrekeyToKey(alg, d.prekey), d.nonce, d.prekey, plaintext)
  }

  /**
   * `unshield`'s open of `memory` under the stored prekey and nonce: the key
   * is derived the same way and the same AAD is used. When it succeeds,
   * `memory` is exactly the seal of the plaintext it returns.
   */
  function Unsealed(alg: Algorithms, d: Draw, memory: Bytes): (r: Option<Bytes>)
    requires alg.Valid()
    ensures r.Some? ==> memory == SealedMemory(alg, d, r.value)
    ensures r.Some? ==> |r.value| <= alg.maxInputLen
  {
    OpenWithin(UnboundKey(alg, PrekeyToKey(alg, d.prekey)), Nonce(d.nonce), d.prekey, memory)
  }

  /** Round trip: what `shield` sealed (within the input limit), `unshield` opens again. */
  lemma UnsealSealed(alg: Algorithms, d: Draw, plaintext: Bytes)
    requires alg.Valid() && |plaintext| <= alg.maxInputLen
    ensures Unsealed(alg, d, SealedMemory(alg, d, plaintext)) == Some(plaintext)
  {
  }

  /**
   * Tampering: memory that is not the seal of `secret` under `d` (a flipped
   * bit in it, or a different prekey or nonce) never opens to `secret`.
   */
  lemma TamperedMemoryNeverOpensToSecret(alg: Algorithms, d: Draw, secret: Bytes, memory: Bytes)
    requires alg.Valid() && memory != SealedMemory(alg, d, secret)
    ensures Unsealed(alg, d, memory) != Some(secret)
  {
  }

  /**
   * Memory after a successful `open_in_place`: the plaintext, followed by the
   * tag of the seal, which stays in the buffer because it is not shortened.
   */
  function OpenedInPlace(alg: Algorithms, d: Draw, plaintext: Bytes): (m: Bytes)
    requires alg.Valid()
    ensures |m| == |plaintext| + TAG_LEN && m[..|plaintext|] == plaintext
  {
    plaintext + SealedMemory(alg, d, plaintext)[|plaintext|..]
  }

  /**
   * The plaintext sealed by the last of the `|history|` shields that began
   * with `Shielded::new(buf)`, when each view's drop re-seals the whole
   * memory as src/lib.rs does: the previous plaintext and its stale tag.
   */
  function SecretAfter(alg: Algorithms, buf: Bytes, history: seq<Draw>): Bytes
    requires alg.Valid() && |history| >= 1
    decreases |history|
  {
    if |history| == 1 then buf
    else OpenedInPlace(alg, history[|history| - 2], SecretAfter(alg, buf, history[..|history| - 1]))
  }

  /** Each view cycle adds one stale tag to the sealed plaintext; `buf` stays its prefix. */
  lemma {:induction false} SecretAfterGrows(alg: Algorithms, buf: Bytes, history: seq<Draw>)
    requires alg.Valid() && |history| >= 1
    ensures |SecretAfter(alg, buf, history)| == |buf| + TAG_LEN * (|history| - 1)
    ensures SecretAfter(alg, buf, history)[..|buf|] == buf
  {
    if |history| > 1 {
      var prev := SecretAfter(alg, buf, history[..|history| - 1]);
      SecretAfterGrows(alg, buf, history[..|history| - 1]);
      var m := OpenedInPlace(alg, history[|history| - 2], prev);
      assert m[..|buf|] == m[..|prev|][..|buf|];
    }
  }

  /**
   * After `Shielded::new(buf)` and `|history| - 1` view cycles the memory is
   * `|buf| + 16 * |history|` bytes long: one tag more per cycle.
   */
  lemma MemoryAfterCycles(alg: Algorithms, buf: Bytes, history: seq<Draw>)
    requires alg.Valid() && |history| >= 1
    ensures |SealedMemory(alg, history[|history| - 1], SecretAfter(alg, buf, history))| == |buf| + TAG_LEN * |history|
  {
    SecretAfterGrows(alg, buf, history);
  }

  /**
   * The second view after `Shielded::new(buf)` shows `buf` followed by the
   * sixteen tag bytes of the first seal, not `buf`.
   */
  lemma SecondViewExposesStaleTag(alg: Algorithms, buf: Bytes, first: Draw, second: Draw)
    requires alg.Valid()
    ensures SecretAfter(alg, buf, [first, second]) == buf + SealedMemory(alg, first, buf)[|buf|..]
    ensures SecretAfter(alg, buf, [first, second]) != buf
  {
  }
}
