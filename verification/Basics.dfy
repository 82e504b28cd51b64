// Machine words, options and results shared by every module.
module Basics {

  type Byte = b: int | 0 <= b < 0x100
  type U8 = Byte
  type U16 = n: int | 0 <= n < 0x1_0000
  type I16 = n: int | -0x8000 <= n < 0x8000
  type U32 = n: int | 0 <= n < 0x1_0000_0000
  type I32 = n: int | -0x8000_0000 <= n < 0x8000_0000
  type U64 = n: int | 0 <= n < 0x1_0000_0000_0000_0000

  const U32_MAX: U32 := 0xFFFF_FFFF
  const U64_MAX: U64 := 0xFFFF_FFFF_FFFF_FFFF

  /** A 16-byte session, host or device identity. */
  type Identity = s: seq<Byte> | |s| == 16
    witness [0, 0, 0, 0, 0, 0, 0, 0, 0, 0, 0, 0, 0, 0, 0, 0]

  const ZERO_IDENTITY: Identity := [0, 0, 0, 0, 0, 0, 0, 0, 0, 0, 0, 0, 0, 0, 0, 0]

  datatype Option<+T> = None | Some(value: T)

  function Widen(o: Option<U32>): Option<U64> { if o.Some? then Some(o.value) else None }

  datatype Result<+T, +E> = Ok(value: T) | Err(error: E)

  function Min(a: int, b: int): int { if a < b then a else b }

  function Max(a: int, b: int): int { if a < b then b else a }

  /** Unsigned increment that wraps at 32 bits, as `++` on a uint32_t does. */
  function Inc32(n: U32): U32 { if n == U32_MAX then 0 else n + 1 }

  function Inc64(n: U64): U64 { if n == U64_MAX then 0 else n + 1 }

  /** Unsigned 64-bit subtraction. */
  function Elapsed(now: U64, since: U64): U64 {
    if now >= since then now - since else now - since + 0x1_0000_0000_0000_0000
  }

  function SaturatingAdd32(a: U32, b: U32): U32 { if b > U32_MAX - a then U32_MAX else a + b }

  function SaturatingAdd64(a: U64, b: U64): U64 { if b > U64_MAX - a then U64_MAX else a + b }
}
