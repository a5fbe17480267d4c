/** The host I/O ecalls as functions of the machine state: the length check shared
    by `ecall_read` and `ecall_write`, the bytes `ecall_write` hands to the host, and
    the three phases of `ecall_read` exactly as its loops run them. */
module HostIo {
  import opened Addr
  import opened Bytes
  import opened Platform
  import opened Cycle
  import opened Context
  import opened Registers

  /** `host_read(fd, buf)` gives back the bytes it read, never more than the
      buffer holds. */
  type HostReader = f: (u32, u32) -> seq<u8> | forall fd, len :: |f(fd, len)| <= len
    witness (fd: u32, len: u32) => []

  /** The host side of the context: `host_read` and `host_write` (which returns the
      count it reports). */
  datatype Host = Host(read: HostReader, write: (u32, seq<u8>) -> u32)

  /** The length checks done before the host is called. */
  function CheckIoLength(p: Platform, ptr: u32, len: u32): (r: Result<()>)
    ensures r.Ok? <==> ptr + len < U32_LIMIT && len <= p.maxIoBytes
    ensures ptr + len >= U32_LIMIT ==> r == Err(InvalidLength)
    ensures ptr + len < U32_LIMIT && len > p.maxIoBytes ==> r == Err(InvalidLengthTooBig)
  {
    if Add(ptr, len) < ptr then Err(InvalidLength)
    else if len > p.maxIoBytes then Err(InvalidLengthTooBig)
    else Ok(())
  }

  /** The argument registers of a host I/O ecall: A0 = fd, A1 = ptr, A2 = len, read
      from the bank of the current mode. */
  datatype IoArgs = IoArgs(fd: u32, ptr: u32, len: u32)

  function IoRegs(p: Platform, mode: u32, mem: map<nat, u32>): IoArgs {
    IoArgs(Load(mem, RegSlot(p, mode, REG_A0)), Load(mem, RegSlot(p, mode, REG_A1)),
           Load(mem, RegSlot(p, mode, REG_A2)))
  }

  /** The `len` bytes starting at `ptr`, as `peek` collects them. */
  function PeekBytes(mem: map<nat, u32>, ptr: u32, len: u32): (b: seq<u8>)
    ensures |b| == len
  {
    seq(len, k requires 0 <= k < len => ByteAt(mem, Add(ptr, k)))
  }

  // ---------------------------------------------------------------------------
  // ecall_read

  /** `next_io_state`: the phase that follows, from the pointer and what is left. */
  function NextIoState(ptr: u32, rlen: nat): (c: CycleState)
    ensures c == Decode <==> rlen == 0
    ensures c == HostReadWords <==> rlen != 0 && IsAligned(ptr) && rlen >= WORD_SIZE
    ensures c == HostReadBytes <==> rlen != 0 && (!IsAligned(ptr) || rlen < WORD_SIZE)
  {
    if rlen == 0 then Decode
    else if !IsAligned(ptr) || rlen < WORD_SIZE then HostReadBytes
    else HostReadWords
  }

  /** The variables of `ecall_read` after the host call: the pointer, the index into
      the buffer, the bytes left, and the context state it changes. */
  datatype IoState = IoState(
    ptr: u32, i: nat, rlen: nat,
    mem: map<nat, u32>, pc: u32, cur: CycleState, trace: seq<Event>)

  /** The pointer never passes the end of the checked range and the index never
      passes the end of the buffer. */
  predicate Fits(buf: seq<u8>, s: IoState) {
    s.ptr + s.rlen < U32_LIMIT && s.i + s.rlen <= |buf|
  }

  /** The `on_ecall_cycle` report of a transition from the current state. */
  function Report(s: IoState, next: CycleState): Event
    requires s.rlen < U32_LIMIT
  {
    EcallCycle(s.cur, next, WAddr(s.ptr), SubAddr(s.ptr), s.rlen)
  }

  /** The byte loop `while rlen > 0 && !ptr.is_aligned()`, used before and after
      the word phase. */
  function ByteLoop(buf: seq<u8>, s: IoState): (r: IoState)
    requires Fits(buf, s)
    ensures Fits(buf, r)
    ensures r.ptr + r.rlen == s.ptr + s.rlen && r.i + r.rlen == s.i + s.rlen
    ensures r.rlen <= s.rlen && (r.rlen == 0 || IsAligned(r.ptr))
    ensures r.pc == s.pc && r.cur == s.cur && r.trace == s.trace
    decreases s.rlen
  {
    if s.rlen > 0 && !IsAligned(s.ptr) then
      ByteLoop(buf, s.(mem := StoreByte(s.mem, s.ptr, buf[s.i]),
                       ptr := s.ptr + 1, i := s.i + 1, rlen := s.rlen - 1))
    else
      s
  }

  /** `min(rlen / MAX_IO_WORDS, MAX_IO_WORDS)`: the `words` of one batch. */
  function BatchWords(p: ValidPlatform, rlen: nat): (words: nat)
    requires rlen >= p.maxIoWords
    ensures 1 <= words <= p.maxIoWords && Span(p.maxIoWords, words) <= rlen
  {
    SpanIsProduct(p.maxIoWords, BatchWordsOf(p, rlen));
    BatchWordsOf(p, rlen)
  }

  function BatchWordsOf(p: ValidPlatform, rlen: nat): (words: nat)
    requires rlen >= p.maxIoWords
    ensures 1 <= words <= p.maxIoWords && p.maxIoWords * words <= rlen
  {
    var q := rlen / p.maxIoWords;
    assert p.maxIoWords * q <= rlen;
    if q < p.maxIoWords then q
    else
      assert p.maxIoWords * p.maxIoWords <= p.maxIoWords * q by {
        MulLeft(p.maxIoWords, p.maxIoWords, q);
      }
      p.maxIoWords
  }

  lemma MulLeft(a: nat, b: nat, c: nat)
    requires b <= c
    ensures a * b <= a * c
  {
  }

  /** The memory write of slot `j` of a batch: the buffer word at `i` into the word
      of `ptr` while `j < words` (nothing when that slice passes the end of the
      buffer, a panic), zero into the safe-write slot otherwise. */
  function SlotStore(p: Platform, buf: seq<u8>, s: IoState, words: nat, j: nat)
    : Option<map<nat, u32>>
  {
    if j < words then
      if s.i + WORD_SIZE > |buf| then None
      else Some(s.mem[WAddr(s.ptr) := FromLeBytes(buf[s.i .. s.i + WORD_SIZE])])
    else Some(s.mem[WAddr(p.safeWriteAddr) := 0])
  }

  /** A slot fails only on a data slot whose slice passes the end of the buffer; a
      data slot writes the buffer word at `i` into the word of `ptr`, a padding
      slot writes zero into the safe-write slot, and no other word changes. */
  lemma SlotStoreWrites(p: Platform, buf: seq<u8>, s: IoState, words: nat, j: nat)
    ensures SlotStore(p, buf, s, words, j).None? <==> j < words && s.i + WORD_SIZE > |buf|
    ensures SlotStore(p, buf, s, words, j).Some? && j < words ==>
              Load(SlotStore(p, buf, s, words, j).value, WAddr(s.ptr))
                == FromLeBytes(buf[s.i .. s.i + WORD_SIZE])
    ensures SlotStore(p, buf, s, words, j).Some? && j >= words ==>
              Load(SlotStore(p, buf, s, words, j).value, WAddr(p.safeWriteAddr)) == 0
    ensures SlotStore(p, buf, s, words, j).Some? ==>
              forall w :: w != WAddr(s.ptr) && w != WAddr(p.safeWriteAddr)
                          ==> Load(SlotStore(p, buf, s, words, j).value, w) == Load(s.mem, w)
  {
  }

  /** How far `n` slots of a batch move `ptr`, `i` and `rlen`: `n * words`,
      written as a sum so that the solver needs no multiplication. */
  function Span(n: nat, words: nat): nat {
    if n == 0 then 0 else words + Span(n - 1, words)
  }

  lemma {:induction false} SpanIsProduct(n: nat, words: nat)
    ensures Span(n, words) == n * words
  {
    if n > 0 {
      SpanIsProduct(n - 1, words);
    }
  }

  /** The slots `j .. MAX_IO_WORDS` of one batch (`for j in 0..MAX_IO_WORDS`):
      each stores as `SlotStore` says and moves `ptr`, `i` and `rlen` on by
      `words`. */
  function BatchSlots(p: ValidPlatform, buf: seq<u8>, s: IoState, words: nat, j: nat)
    : (r: Result<IoState>)
    requires 1 <= words && j <= p.maxIoWords
    requires Span(p.maxIoWords - j, words) <= s.rlen
    requires Fits(buf, s)
    ensures r.Ok? ==> Fits(buf, r.value)
    ensures r.Ok? ==> r.value.rlen + Span(p.maxIoWords - j, words) == s.rlen
    ensures r.Ok? ==> r.value.ptr == s.ptr + Span(p.maxIoWords - j, words)
    ensures r.Ok? ==> r.value.i == s.i + Span(p.maxIoWords - j, words)
    ensures r.Ok? ==> r.value.pc == s.pc && r.value.cur == s.cur && r.value.trace == s.trace
    ensures r.Err? ==> r.error == SliceOutOfRange
    decreases p.maxIoWords - j
  {
    if j == p.maxIoWords then Ok(s)
    else
      var mem := SlotStore(p, buf, s, words, j);
      if mem.None? then Err(SliceOutOfRange)
      else
        BatchSlots(p, buf, s.(mem := mem.value, ptr := s.ptr + words,
                              i := s.i + words, rlen := s.rlen - words), words, j + 1)
  }

  /** One slot of a batch, unfolded: what `BatchSlots` does from slot `j` when the
      slot's store is possible. */
  lemma BatchSlotStep(p: ValidPlatform, buf: seq<u8>, s: IoState, words: nat, j: nat)
    requires 1 <= words && j < p.maxIoWords
    requires Span(p.maxIoWords - j, words) <= s.rlen
    requires Fits(buf, s)
    ensures words <= s.rlen && s.ptr + words < U32_LIMIT
    ensures SlotStore(p, buf, s, words, j).None? ==>
              BatchSlots(p, buf, s, words, j) == Err(SliceOutOfRange)
    ensures SlotStore(p, buf, s, words, j).Some? ==>
              var t := s.(mem := SlotStore(p, buf, s, words, j).value, ptr := s.ptr + words,
                          i := s.i + words, rlen := s.rlen - words);
              && Fits(buf, t) && Span(p.maxIoWords - (j + 1), words) <= t.rlen
              && BatchSlots(p, buf, s, words, j) == BatchSlots(p, buf, t, words, j + 1)
  {
  }

  datatype Option<T> = None | Some(value: T)

  /** The word phase `while rlen >= MAX_IO_WORDS`: one batch, then `next_pc` when
      nothing is left, then the report of the next phase. */
  function Batches(p: ValidPlatform, buf: seq<u8>, s: IoState): (r: Result<IoState>)
    requires Fits(buf, s)
    ensures r.Ok? ==> Fits(buf, r.value) && r.value.rlen < p.maxIoWords
    ensures r.Ok? ==> r.value.rlen <= s.rlen
    ensures r.Ok? ==> r.value.ptr + r.value.rlen == s.ptr + s.rlen
    ensures r.Ok? ==> r.value.i + r.value.rlen == s.i + s.rlen
    ensures r.Err? ==> r.error == SliceOutOfRange
    decreases s.rlen
  {
    if s.rlen < p.maxIoWords then Ok(s)
    else
      var words := BatchWords(p, s.rlen);
      match BatchSlots(p, buf, s, words, 0)
      case Err(e) => Err(e)
      case Ok(t) =>
        var next := NextIoState(t.ptr, t.rlen);
        Batches(p, buf, t.(pc := if t.rlen == 0 then Add(t.pc, WORD_SIZE) else t.pc,
                           cur := next, trace := t.trace + [Report(t, next)]))
  }

  /** The three data phases of `ecall_read`: bytes up to alignment, word batches,
      bytes up to alignment again. */
  function ReadPhases(p: ValidPlatform, buf: seq<u8>, s: IoState): (r: Result<IoState>)
    requires Fits(buf, s)
    ensures r.Err? ==> r.error == SliceOutOfRange
  {
    match Batches(p, buf, ByteLoop(buf, s))
    case Err(e) => Err(e)
    case Ok(t) => Ok(ByteLoop(buf, t))
  }

  /** The buffer `ecall_read` hands to the host, after the host filled its front. */
  function ReadBuffer(data: seq<u8>, len: nat): (buf: seq<u8>)
    requires |data| <= len
    ensures |buf| == len && buf[..|data|] == data
  {
    data + seq(len - |data|, _ => 0)
  }

  /** The state right after `host_read`: A0 holds the count, pc has moved on if the
      count is zero, and the setup report and the first phase report are made. */
  function ReadStart(p: ValidPlatform, mode: u32, pc: u32, mem: map<nat, u32>,
                     trace: seq<Event>, ptr: u32, data: seq<u8>): (s: IoState)
    requires ptr + |data| < U32_LIMIT
    ensures s.ptr == ptr && s.i == 0 && s.rlen == |data| && s.cur == NextIoState(ptr, |data|)
    ensures Load(s.mem, RegStoreSlot(p, mode, REG_A0)) == |data|
    ensures s.pc == pc || s.pc == Add(pc, WORD_SIZE)
    ensures s.pc == Add(pc, WORD_SIZE) <==> |data| == 0
    ensures |s.trace| == |trace| + 2 && s.trace[..|trace|] == trace
  {
    var rlen := |data|;
    var next := NextIoState(ptr, rlen);
    IoState(ptr, 0, rlen, mem[RegStoreSlot(p, mode, REG_A0) := rlen],
            if rlen == 0 then Add(pc, WORD_SIZE) else pc, next,
            trace + [EcallCycle(MachineEcall, HostReadSetup, 0, 0, 0),
                     EcallCycle(HostReadSetup, next, WAddr(ptr), SubAddr(ptr), rlen)])
  }

  /** The whole of `ecall_read` as a function of the state before it. */
  function ReadSpec(p: ValidPlatform, mode: u32, pc: u32, mem: map<nat, u32>,
                    trace: seq<Event>, host: Host): (r: Result<IoState>)
    ensures var args := IoRegs(p, mode, mem);
            CheckIoLength(p, args.ptr, args.len).Err? ==>
              r == Err(CheckIoLength(p, args.ptr, args.len).error)
    ensures var args := IoRegs(p, mode, mem);
            CheckIoLength(p, args.ptr, args.len).Ok? && r.Err? ==> r.error == SliceOutOfRange
  {
    var args := IoRegs(p, mode, mem);
    match CheckIoLength(p, args.ptr, args.len)
    case Err(e) => Err(e)
    case Ok(_) =>
      var data := host.read(args.fd, args.len);
      ReadPhases(p, ReadBuffer(data, args.len),
                 ReadStart(p, mode, pc, mem, trace, args.ptr, data))
  }
}
