# Shielded memory, modelled in Dafny

`shielded` (a Rust crate, one file: `src/lib.rs`) keeps a secret buffer
encrypted in process memory. It generates a 16 KiB random prekey and a
12-byte nonce, derives a ChaCha20-Poly1305 key (section 2.8 of RFC 8439)
from the first 32 bytes of the prekey's SHA-512 digest (section 6.4 of
FIPS 180-4), and seals the buffer in place with the prekey as additional
authenticated data. `unshield` opens the buffer in place and returns an
`UnShielded` view. When the view is dropped, the buffer is sealed again
under new key material.

The model follows the code's own structure:

- `Ring` (ring.dfy) is the interface of the `ring` crate. The cipher, the
  digest and the cipher's input limit are the fields of `Algorithms`.
  `Algorithms.Valid` is the contract assumed of them:
  - a seal is one tag (16 bytes) longer than its plaintext;
  - opening a seal with the same key, nonce and AAD gives the plaintext back;
  - an open that succeeds was given the genuine seal of what it returns;
  - the digest is 64 bytes long.

  `AssumptionsAreConsistent` shows that some `Algorithms` meets this contract.
  `SystemRandom.Fill` is nondeterministic and may fail.
- `NonceSequence` (nonce_sequence.dfy) is `OneNonceSequence`.
- `BoundKeys` (bound_keys.dfy) holds ring's `SealingKey` and `OpeningKey`. Each advances its nonce sequence before it seals or opens.
- `KeyMaterial` (key_material.dfy) holds the constants, `new_prekey`, `new_nonce` and `prekey_to_key`. It also defines `Panic`, with one value per `expect` message in the source (the two `expect("new Nonce")` calls share `NonceRejected`).
- `Sealing` (sealing.dfy) describes the container's memory as values:
  - one seal;
  - one open;
  - memory after an open in place;
  - the plaintext sealed after any number of view cycles of the code as written.
- `ShieldedMemory` (shielded.dfy) defines the two classes, `Shielded` and `UnShielded`.
  - The exclusive borrow is a ghost `borrowed` flag plus a ghost `epoch`.
  - The ghost `history` records the key material of every seal.
  - The ghost `secret` is the plaintext of the last seal.
- `Scenarios` (scenarios.dfy) holds callers that chain the operations into full life cycles.

An `expect` that can fire becomes an `Err(Panic)` result. The ones that cannot fire are proved so at their call sites: the key and nonce lengths, and the first advance of a fresh nonce sequence.

The intended design has the buffer return to its plaintext length plus one tag after each view. The model follows the code, where the buffer grows by one tag per view cycle (see Findings).

## Model

| member | source | states |
|---|---|---|
| `Ring.NewUnboundKey` | src/lib.rs:73 | ring's `UnboundKey::new` taken as given, not a proved property: it accepts exactly keys of `KEY_LEN` bytes; with `PrekeyToKey` this shows `expect("new SealingKey")` and `expect("new OpeningKey")` never fire |
| `Ring.TryAssumeUniqueForKey` | src/lib.rs:74 | ring's `Nonce::try_assume_unique_for_key` taken as given, not a proved property: it accepts exactly nonces of `NONCE_LEN` bytes; with the stored nonce length this shows `expect("new Nonce")` never fires |
| `Ring.OpenWithin` | src/lib.rs:102-104 | ring's in-place open behind `open_in_place`: it fails on input shorter than a tag, over the limit, or not authenticating; a plaintext it returns is one the input genuinely seals |
| `Ring.SystemRandom.Fill` | src/lib.rs:144 | `rng.fill`: overwrites the buffer with arbitrary bytes or fails; it carries no contract beyond its frame |
| `BoundKeys.SealingKey.constructor` | src/lib.rs:76 | `SealingKey::new` pairs the unbound key with the one-shot nonce sequence |
| `BoundKeys.OpeningKey.constructor` | src/lib.rs:99 | `OpeningKey::new` pairs the unbound key with the one-shot nonce sequence |
| `ShieldedMemory.UnShielded.constructor` | src/lib.rs:106-109 | the struct literal records the container and `plaintext_len`, and the container's current epoch |
| `KeyMaterial.NewPrekey` | src/lib.rs:142-146 | on success the prekey is exactly `SHIELD_PREKEY_LEN` (16384) bytes; a random source failure is the "rng fill prekey" panic |
| `KeyMaterial.NewNonce` | src/lib.rs:148-152 | on success the nonce is exactly the cipher's nonce length (12) bytes; a random source failure is the "rng fill" panic |
| `KeyMaterial.PrekeyToKey` | src/lib.rs:154-157 | the key is exactly `KEY_LEN` (32) bytes and is the first 32 bytes of the 64-byte digest of the prekey; it depends on the prekey alone |
| `NonceSequence.OneNonceSequence.constructor` | src/lib.rs:162-166 | a new sequence holds its one nonce |
| `NonceSequence.OneNonceSequence.Advance` | src/lib.rs:168-172 | the first call returns the stored nonce, every later call `Unspecified`; the slot is empty after any call |
| `BoundKeys.SealingKey.SealInPlaceAppendTag` | src/lib.rs:73-85 | advances the one-shot sequence, fails when it is spent or the input is over the limit, otherwise the buffer becomes the seal under that nonce (16 bytes longer) |
| `BoundKeys.OpeningKey.OpenInPlace` | src/lib.rs:96-104 | succeeds exactly when the nonce is available and the buffer authenticates; the plaintext is then what the buffer seals, and the buffer keeps its length: plaintext then stale tag |
| `Sealing.SealedMemory` | src/lib.rs:72-85 | the seal under a drawn prekey and nonce (key derived from the prekey, prekey as AAD) is one tag longer than its plaintext |
| `Sealing.Unsealed` | src/lib.rs:95-104 | an open that succeeds under a prekey and nonce returns a plaintext of which the memory is the genuine seal under the same key derivation, nonce and AAD |
| `Sealing.UnsealSealed` | src/lib.rs:72-104 | round trip: what `shield` sealed within the input limit, the open of `unshield` with the same stored prekey and nonce gives back |
| `Sealing.TamperedMemoryNeverOpensToSecret` | src/lib.rs:78-104 | memory that is not the seal of the secret under the stored key material (tampered memory, prekey or nonce) never opens to that secret |
| `Sealing.OpenedInPlace` | src/lib.rs:102-107 | after an open in place the memory is the plaintext followed by the tag: as long as before, with the plaintext as its prefix |
| `Sealing.SecretAfterGrows` | src/lib.rs:136-139 | after k view cycles the sealed plaintext is `buf` followed by k stale tags: its length is `len(buf) + 16k` and `buf` is its prefix |
| `Sealing.MemoryAfterCycles` | src/lib.rs:83-85 | after `new(buf)` and k view cycles `memory.len() == len(buf) + 16(k+1)` |
| `Sealing.SecondViewExposesStaleTag` | src/lib.rs:130-139 | the plaintext of the second view is `buf` followed by the first seal's tag, never `buf` itself |
| `ShieldedMemory.Shielded.constructor` | src/lib.rs:58-62 | placeholder `MAGIC_BYTE` prekey and nonce of the right lengths; memory is still the plaintext buffer |
| `ShieldedMemory.Shielded.New` | src/lib.rs:57-66 | the container is at rest, its memory the seal of `buf` (`len(buf) + 16` bytes) under the stored prekey and nonce; it panics only on a random source failure or a buffer over the input limit |
| `ShieldedMemory.Shielded.From` | src/lib.rs:113-117 | the same contract as `Shielded::new` |
| `ShieldedMemory.Shielded.Shield` | src/lib.rs:68-91 | memory becomes the seal of its whole previous contents under the newly drawn prekey (also the AAD) and nonce, which are then stored; it grows by 16 bytes; the stored lengths are 16384 and 12; on a panic nothing changes |
| `ShieldedMemory.Shielded.Unshield` | src/lib.rs:94-110 | succeeds iff the memory authenticates under the stored prekey and nonce; a view is only over a plaintext the old memory genuinely sealed; memory keeps its length; `plaintext_len == memory.len() - 16`; from rest the view is the sealed secret; failure is the "open in place" panic |
| `ShieldedMemory.UnShielded.AsRef` | src/lib.rs:130-134 | the view is `memory[..plaintext_len]`, always within bounds, and equals the plaintext the open recovered |
| `ShieldedMemory.UnShielded.Drop` | src/lib.rs:136-140 | calls `shield` once: the borrow ends and the view is spent; on success the container is at rest again with memory one tag longer, sealing the view followed by the stale tag; a panic leaves the plaintext in memory |
| `ShieldedMemory.UnShielded.DropTruncating` | src/lib.rs:136-140 | corrected drop: shortens memory to the plaintext before `shield`, so the container is at rest with the same secret and memory `plaintext_len + 16` bytes long |
| `ShieldedMemory.MemoryLengthAfterCycles` | src/lib.rs:83-107 | for the container itself: after `new(buf)` and k view cycles memory is `len(buf) + 16(k+1)` bytes and the next view begins with `buf` |
| `Scenarios.RoundTrip` | src/lib.rs:57-139 | `new(buf)`, `unshield`, `as_ref` gives exactly `buf` (empty included); authentication never fails on the way |
| `Scenarios.TwoViews` | src/lib.rs:130-139 | as written, the first view is `buf`, the second `buf` plus 16 stale bytes, and memory ends at `len(buf) + 48` |
| `Scenarios.TwoViewsTruncating` | src/lib.rs:136-139 | with the corrected drop both views are `buf` and memory ends at `len(buf) + 16` |

## Findings

| source | as written | input that shows it | evidently intended | confidence | as-written member | corrected member |
|---|---|---|---|---|---|---|
| src/lib.rs:136-139 | `open_in_place` leaves the 16 tag bytes in `memory` and `drop` re-seals all of it, so every view cycle seals one more stale tag | `Shielded::new(b"hello")`, `unshield`, drop, `unshield`: the second `as_ref()` is 21 bytes, `"hello"` followed by the first seal's tag; memory is 37 bytes, and 53 after the second drop | truncate `memory` to `plaintext_len` before re-sealing: every view is `"hello"` and memory stays 21 bytes | medium; not executed | `ShieldedMemory.UnShielded.Drop` (shown by `Sealing.SecondViewExposesStaleTag` and `Scenarios.TwoViews`) | `ShieldedMemory.UnShielded.DropTruncating` (proved in `Scenarios.TwoViewsTruncating`) |

A side effect: memory grows without bound, so a drop eventually panics once memory exceeds the cipher's input limit. `Drop`'s contract states this, and the plaintext then stays in memory.

`UnShielded.Drop` keeps the code's behaviour, so that the rest of the model describes the program as it is. The corrected `DropTruncating` sits beside it and is proved to give the intended behaviour.

## Left out

- ChaCha20-Poly1305 and SHA-512 internals (src/lib.rs:37-42) are not modelled. They are function-valued fields of `Ring.Algorithms` with an assumed contract on lengths and correctness.
- Integrity is stated as "an open that succeeds saw a genuine seal", which holds exactly for a deterministic AEAD. Unforgeability is not stated: the cryptographic chance of a forgery, such as a tampered memory that happens to be a valid seal of some other plaintext, cannot be expressed.
- The value of ring's per-nonce input limit for ChaCha20-Poly1305 is left as the parameter `maxInputLen`.
- `SystemRandom` (src/lib.rs:69, 144, 150) is a nondeterministic source that may fail. That its output is fresh, or differs from earlier draws, is probabilistic and not stated. So the model does not state that re-sealing changes the key material or the ciphertext.
- Rust's borrow checking (src/lib.rs:94, 123-127) is the ghost `borrowed` flag and `epoch`. Drop runs when the caller calls `Drop`, not automatically at scope exit or during unwinding.
- Panics are `Err(Panic)` results. Unwinding, the panic messages and `catch_unwind` are not modelled.
- After a failed open the memory contents are left unspecified (ring's treatment of the buffer on failure is not modelled).
- The placeholder `MAGIC_BYTE` contents (src/lib.rs:46, 59-60, 143, 149) are only modelled at construction and as the initial fill of the random buffers.
- Zeroization of superseded key material is not modelled, because the code does not do it.
- `ring::aead::NonceSequence` is a trait. The bound keys are specialised to `OneNonceSequence`.
- `usize` lengths are unbounded integers, and `Vec` capacity and reallocation are not modelled.
