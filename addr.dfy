/** Byte and word addresses of the 32-bit guest address space (the `ByteAddr` and
    `WordAddr` types of the emulator). A byte address is a `u32`; its word address
    is the byte address divided by the word size, its sub-address the remainder. */
module Addr {

  type u8 = x: int | 0 <= x < 0x100
  type u32 = x: int | 0 <= x < 0x1_0000_0000

  const WORD_SIZE: nat := 4
  const U32_LIMIT: nat := 0x1_0000_0000

  /** `ByteAddr::waddr`: the word that holds byte address `a`. */
  function WAddr(a: u32): nat { a / WORD_SIZE }

  /** `ByteAddr::subaddr`: the position of byte address `a` inside its word. */
  function SubAddr(a: u32): nat { a % WORD_SIZE }

  /** `ByteAddr::is_aligned`. */
  predicate IsAligned(a: u32) { a % WORD_SIZE == 0 }

  /** `ByteAddr + u32`, wrapping modulo 2^32. */
  function Add(a: u32, n: u32): (r: u32)
    ensures a + n < U32_LIMIT ==> r == a + n
    ensures a + n >= U32_LIMIT ==> r == a + n - U32_LIMIT && r < a
  {
    (a + n) % U32_LIMIT
  }

  /** The overflow test `ptr + len < ptr` holds exactly when the true sum leaves
      the 32-bit address space. */
  lemma AddWrapsIff(a: u32, n: u32)
    ensures Add(a, n) < a <==> a + n >= U32_LIMIT
  {
  }
}
