/** Fixed-width integers of the source, and the state of the standard library's `DefaultHasher`. */
module Machine {

  const U8_BOUND: int := 0x100
  const U16_BOUND: int := 0x1_0000
  const U32_BOUND: int := 0x1_0000_0000
  const U64_BOUND: int := 0x1_0000_0000_0000_0000

  type u8 = x: int | 0 <= x < U8_BOUND
  type u16 = x: int | 0 <= x < U16_BOUND
  type u32 = x: int | 0 <= x < U32_BOUND
  type u64 = x: int | 0 <= x < U64_BOUND

  /** Rust's `as u8`: keep the low eight bits. */
  function AsU8(x: nat): (r: u8)
    ensures x < U8_BOUND ==> r == x
  {
    x % U8_BOUND
  }

  /**
   * A `DefaultHasher`, seen only through the bytes written into it. The hash it
   * computes is foreign code; callers pass it in as `finish` (the value of
   * `Hasher::finish` after those bytes), so the model never fixes its values.
   */
  datatype Hasher = Hasher(written: seq<u8>)

  /** `(b as u8).hash(&mut hasher)`: hashing a `u8` writes that one byte. */
  function HashU8(h: Hasher, b: u8): (r: Hasher)
    ensures |r.written| == |h.written| + 1
    ensures r.written[..|h.written|] == h.written && r.written[|h.written|] == b
  {
    Hasher(h.written + [b])
  }
}
