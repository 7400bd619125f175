/**
 * Callers of the container: the life cycles its documentation describes,
 * put together from the operations of `ShieldedMemory` and proved from
 * their contracts alone.
 */
module Scenarios {
  import opened Wrappers
  import opened Ring
  import opened KeyMaterial
  import opened ShieldedMemory

  /**
   * `Shielded::new(buf)`, `unshield`, `as_ref`, drop: the view is `buf`,
   * the empty buffer included. Only the random source or a buffer over the
   * cipher's input limit can make it panic; authentication never fails.
   */
  method RoundTrip(alg: Algorithms, buf: Bytes) returns (r: Result<Bytes, Panic>)
    requires alg.Valid()
    ensures r.Ok? ==> r.value == buf
    ensures r.Err? ==> r.error in {RngFillPrekey, RngFillNonce, SealInPlace}
    ensures |buf| > alg.maxInputLen ==> r.Err?
  {
    var s := Shielded.New(alg, buf);
    if s.Err? {
      return Err(s.error);
    }
    var view := s.value.Unshield();
    assert view.Ok?;
    var plaintext := view.value.AsRef();
    var dropped := view.value.Drop();
    if dropped.Err? {
      return Err(dropped.error);
    }
    r := Ok(plaintext);
  }

  /**
   * Two view cycles of the code as written: the first view is `buf`, the
   * second is `buf` followed by the sixteen stale tag bytes of the first
   * seal, and the memory ends three tags longer than `buf`.
   */
  method TwoViews(alg: Algorithms, buf: Bytes) returns (r: Result<(Bytes, Bytes, nat), Panic>)
    requires alg.Valid()
    ensures r.Ok? ==> r.value.0 == buf
    ensures r.Ok? ==> |r.value.1| == |buf| + TAG_LEN && r.value.1[..|buf|] == buf && r.value.1 != buf
    ensures r.Ok? ==> r.value.2 == |buf| + 3 * TAG_LEN
    ensures r.Err? ==> r.error in {RngFillPrekey, RngFillNonce, SealInPlace}
  {
    var s := Shielded.New(alg, buf);
    if s.Err? {
      return Err(s.error);
    }
    var first := s.value.Unshield();
    assert first.Ok?;
    var firstPlaintext := first.value.AsRef();
    var dropped := first.value.Drop();
    if dropped.Err? {
      return Err(dropped.error);
    }
    var second := s.value.Unshield();
    assert second.Ok?;
    var secondPlaintext := second.value.AsRef();
    dropped := second.value.Drop();
    if dropped.Err? {
      return Err(dropped.error);
    }
    r := Ok((firstPlaintext, secondPlaintext, |s.value.memory|));
  }

  /**
   * Two view cycles with the corrected drop: both views are `buf` and the
   * memory ends one tag longer than `buf`.
   */
  method TwoViewsTruncating(alg: Algorithms, buf: Bytes) returns (r: Result<(Bytes, Bytes, nat), Panic>)
    requires alg.Valid()
    ensures r.Ok? ==> r.value.0 == buf && r.value.1 == buf
    ensures r.Ok? ==> r.value.2 == |buf| + TAG_LEN
    ensures r.Err? ==> r.error in {RngFillPrekey, RngFillNonce, SealInPlace}
  {
    var s := Shielded.New(alg, buf);
    if s.Err? {
      return Err(s.error);
    }
    var first := s.value.Unshield();
    assert first.Ok?;
    var firstPlaintext := first.value.AsRef();
    var dropped := first.value.DropTruncating();
    if dropped.Err? {
      return Err(dropped.error);
    }
    var second := s.value.Unshield();
    assert second.Ok?;
    var secondPlaintext := second.value.AsRef();
    dropped := second.value.DropTruncating();
    if dropped.Err? {
      return Err(dropped.error);
    }
    r := Ok((firstPlaintext, secondPlaintext, |s.value.memory|));
  }
}
