/** Value types shared by every component. */
module Common {

  datatype Option<+T> = None | Some(value: T)

  newtype Byte = x: int | 0 <= x < 0x100

  type Bytes = seq<Byte>

  /** Largest value of the 64-bit counters, offsets and identifiers. */
  const U64_MAX: nat := 0xFFFF_FFFF_FFFF_FFFF

  /** The most bytes of a file that one datagram carries. */
  const MAX_CHUNK: nat := 1183

  /** A side of a screen. */
  datatype Position = Left | Right | Top | Bottom

  function Min(a: int, b: int): int {
    if a <= b then a else b
  }

  function Max(a: int, b: int): int {
    if a >= b then a else b
  }

  /** `now.saturating_duration_since(then)` on a millisecond clock. */
  function Elapsed(now: nat, then_: nat): nat {
    if now >= then_ then now - then_ else 0
  }
}
