/** The caller-supplied state store (`Risc0Context`): the program counter, the
    machine-mode word, word-addressed memory and the record of hook calls. */
module Context {
  import opened Addr
  import opened Bytes
  import opened Platform
  import opened Cycle

  /** The word at word address `w`; a word never stored reads as zero. */
  function Load(mem: map<nat, u32>, w: nat): u32 {
    if w in mem then mem[w] else 0
  }

  /** The byte at byte address `a`, little-endian inside its word (`peek_u8`). */
  function ByteAt(mem: map<nat, u32>, a: u32): u8 {
    ByteOf(Load(mem, WAddr(a)), SubAddr(a))
  }

  /** Memory after the read-modify-write of `store_u8`. */
  function StoreByte(mem: map<nat, u32>, a: u32, b: u8): map<nat, u32> {
    mem[WAddr(a) := WithByte(Load(mem, WAddr(a)), SubAddr(a), b)]
  }

  /** A byte store is read back at its address, leaves every other byte as it was
      (including the other three bytes of the same word) and writes no other word. */
  lemma StoreByteReadBack(mem: map<nat, u32>, a: u32, b: u8, a2: u32)
    ensures ByteAt(StoreByte(mem, a, b), a2) == if a2 == a then b else ByteAt(mem, a2)
    ensures forall w :: w != WAddr(a) ==> Load(StoreByte(mem, a, b), w) == Load(mem, w)
  {
    if WAddr(a2) == WAddr(a) {
      SetByteBytes(Load(mem, WAddr(a)), SubAddr(a), b, SubAddr(a2));
    }
  }

  class Context {
    var pc: u32
    var mode: u32
    var mem: map<nat, u32>
    var trace: seq<Event>

    constructor (pc0: u32, mode0: u32, mem0: map<nat, u32>)
      ensures pc == pc0 && mode == mode0 && mem == mem0 && trace == []
    {
      pc, mode, mem, trace := pc0, mode0, mem0, [];
    }

    /** `peek_u32`: a read that is not an instrumented access. */
    method PeekU32(w: nat) returns (v: u32)
      ensures v == Load(mem, w)
    {
      v := Load(mem, w);
    }

    method LoadU32(w: nat) returns (v: u32)
      ensures v == Load(mem, w)
    {
      v := Load(mem, w);
    }

    method StoreU32(w: nat, v: u32)
      modifies this`mem
      ensures mem == old(mem)[w := v]
    {
      mem := mem[w := v];
    }

    /** The default `load_register`: the word at `base + idx`. */
    method LoadRegister(base: nat, idx: nat) returns (v: u32)
      ensures v == Load(mem, base + idx)
    {
      v := LoadU32(base + idx);
    }

    /** The default `store_register`: the word at `base + idx`, nothing else. */
    method StoreRegister(base: nat, idx: nat, word: u32)
      modifies this`mem
      ensures mem == old(mem)[base + idx := word]
    {
      StoreU32(base + idx, word);
    }

    method OnEcallCycle(cur: CycleState, next: CycleState, s0: u32, s1: u32, s2: u32)
      modifies this`trace
      ensures trace == old(trace) + [EcallCycle(cur, next, s0, s1, s2)]
    {
      trace := trace + [EcallCycle(cur, next, s0, s1, s2)];
    }

    method OnTerminate(a0: u32, a1: u32)
      modifies this`trace
      ensures trace == old(trace) + [Terminated(a0, a1)]
    {
      trace := trace + [Terminated(a0, a1)];
    }

    method SuspendHook()
      modifies this`trace
      ensures trace == old(trace) + [Suspended]
    {
      trace := trace + [Suspended];
    }

    method ResumeHook()
      modifies this`trace
      ensures trace == old(trace) + [Resumed]
    {
      trace := trace + [Resumed];
    }

    method TrapRewind()
      modifies this`trace
      ensures trace == old(trace) + [TrapRewound]
    {
      trace := trace + [TrapRewound];
    }

    method TrapHook(cause: TrapCause)
      modifies this`trace
      ensures trace == old(trace) + [Trapped(cause)]
    {
      trace := trace + [Trapped(cause)];
    }
  }
}
