/**
 What several modules share.
 */
module Prelude {

  datatype Option<T> = None | Some(value: T)

  const MAX_INT64: int := 0x7FFF_FFFF_FFFF_FFFF

  /** Durations and times are counted in nanoseconds. */
  const SECOND: int := 1_000_000_000

  lemma Fewer<T>(a: set<T>, b: set<T>)
    requires a <= b
    ensures |a| <= |b|
  {
    assert b == a + (b - a);
  }
}
