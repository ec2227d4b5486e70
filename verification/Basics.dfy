/** Machine integers, options and the configuration values the modelled code reads. */
module Basics {

  datatype Option<+T> = None | Some(value: T)

  const MOD32: int := 0x1_0000_0000
  const MOD64: int := 0x1_0000_0000_0000_0000

  type octet = x: int | 0 <= x < 256
  type u32 = x: int | 0 <= x < 0x1_0000_0000
  type u64 = x: int | 0 <= x < 0x1_0000_0000_0000_0000

  /** The C++ conversion of a signed value to `uint64_t`: negative values wrap. */
  function AsU64(x: int): u64 { x % 0x1_0000_0000_0000_0000 }

  /** The conversion to `uint32_t`: the high bits are dropped. */
  function AsU32(x: int): u32 { x % 0x1_0000_0000 }

  /** `(uint64_t)mb * 1024 * 1024`, in 64 bits. */
  function Mebibytes(mb: int): u64 { AsU64(AsU64(mb) * 1048576) }

  /** For every `int` setting: the expected number of bytes, or for a negative one just below 2^64. */
  lemma {:induction false} MebibytesExactly(mb: int)
    requires -0x8000_0000 <= mb < 0x8000_0000
    ensures Mebibytes(mb) == if mb >= 0 then mb * 1048576 else MOD64 + mb * 1048576
  {
    if mb < 0 {
      assert AsU64(mb) == mb + 0x1_0000_0000_0000_0000;
      assert AsU64(mb) * 1048576 == 1048575 * 0x1_0000_0000_0000_0000 + (0x1_0000_0000_0000_0000 + mb * 1048576);
    }
  }

  /** The fields of `Configuration` that the modelled code reads. They are C++ `int`s and may be negative. */
  datatype Config = Config(
    cacheThresholdMb: int,
    includeUserApps: bool,
    includeSystemApps: bool,
    includeExternalCache: bool,
    idleDelayMinutes: int,
    maxCleanupMbPerRun: int,
    maxFilesPerBatch: int)

  lemma {:induction false} Associative<T>(a: seq<T>, b: seq<T>, c: seq<T>)
    ensures (a + b) + c == a + (b + c)
  {
  }
}
