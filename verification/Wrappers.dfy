/** Shared result types and small arithmetic helpers. */
module Wrappers {
  datatype Option<+T> = None | Some(value: T) {
    function UnwrapOr(other: T): T { if Some? then value else other }
  }

  /** The largest unsigned 64-bit value; the source's saturating additions stop here. */
  const U64_MAX: nat := 0xFFFF_FFFF_FFFF_FFFF

  function Min(a: int, b: int): int { if a < b then a else b }

  function Max(a: int, b: int): int { if a < b then b else a }
}
