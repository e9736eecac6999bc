/** Vocabulary shared by the modules of the XS Nexus model. */
module Prelude {

  datatype Option<+T> = None | Some(value: T)

  datatype Result<+T, +E> = Success(value: T) | Failure(error: E)

  // Bounds of the machine integers of the original; every place where the
  // original relies on them is written out explicitly.
  const U16_MAX: nat := 0xFFFF
  const U32_MAX: nat := 0xFFFF_FFFF
  const U64_MAX: nat := 0xFFFF_FFFF_FFFF_FFFF

  type Byte = b: nat | b < 256

  /** `saturating_add` on an unsigned integer whose largest value is `max`. */
  function SaturatingAdd(a: nat, b: nat, max: nat): nat {
    if a + b <= max then a + b else max
  }

  /** `Instant::duration_since`, which saturates at zero. */
  function Since(now: nat, before: nat): nat {
    if now <= before then 0 else now - before
  }

  function Min(a: int, b: int): int {
    if a <= b then a else b
  }

  function Max(a: int, b: int): int {
    if a <= b then b else a
  }

  /** The delay after `failures` failures in a row: it starts at `base` and doubles up to `cap`. */
  function Backoff(failures: nat, base: nat, cap: nat): nat {
    var exponent := Min(if failures == 0 then 0 else failures - 1, 6);
    Min(base * (match exponent case 0 => 1 case 1 => 2 case 2 => 4 case 3 => 8 case 4 => 16 case 5 => 32 case _ => 64), cap)
  }

  /** A loop over `keys` that has not visited all of them finds one to visit. */
  lemma {:induction false} StillOpen<T>(done: set<T>, keys: set<T>)
    requires done <= keys && done != keys
    ensures exists k :: k in keys - done
  {
    assert keys == done + (keys - done);
  }
}
