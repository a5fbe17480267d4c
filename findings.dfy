/** Three places where `r0vm.rs` does not do what it evidently means to: each is
    shown on the code as written (the definitions in `HostIo` and `R0vm`), and a
    corrected definition is given here with the intended property proved. */
module Findings {
  import opened Addr
  import opened Bytes
  import opened Platform
  import opened Cycle
  import opened Context
  import opened Registers
  import opened HostIo
  import opened ReadProps
  import opened R0vm

  // ---------------------------------------------------------------------------
  // 1. The word batch moves `ptr`, `i` and `rlen` by `words` per slot

  /** The machine bank's A0..A2 for a read of `len` bytes to `ptr` from fd 0, on the
      example platform. */
  function ReadRequest(ptr: u32, len: u32): map<nat, u32> {
    map[WAddr(ExamplePlatform.machineRegsAddr) + REG_A1 := ptr,
        WAddr(ExamplePlatform.machineRegsAddr) + REG_A2 := len]
  }

  /** A host that answers every read of at least eight bytes with 1, 2, ..., 8. */
  const EightBytes: Host :=
    Host((fd: u32, len: u32) => if len >= 8 then [1, 2, 3, 4, 5, 6, 7, 8] else [],
         (fd: u32, b: seq<u8>) => 0)

  /** The bytes the host returns in the scenario below. */
  const Eight: seq<u8> := [1, 2, 3, 4, 5, 6, 7, 8]

  /** The one batch of the scenario, slot by slot: `words == 2`, so slot 1 writes
      the buffer's bytes 3..6 into the word slot 0 wrote, and slots 2 and 3 pad. */
  lemma ScenarioBatch(s: IoState)
    requires s.ptr == 0x1000 && s.i == 0 && s.rlen == 8
    ensures BatchSlots(ExamplePlatform, Eight, s, 2, 0)
         == Ok(s.(mem := s.mem[0x400 := FromLeBytes([3, 4, 5, 6])]
                              [WAddr(ExamplePlatform.safeWriteAddr) := 0],
                  ptr := 0x1008, i := 8, rlen := 0))
  {
    var p := ExamplePlatform;
    var safe := WAddr(p.safeWriteAddr);
    assert Eight[0 .. 4] == [1, 2, 3, 4] && Eight[2 .. 6] == [3, 4, 5, 6];
    var m1 := s.mem[0x400 := FromLeBytes([1, 2, 3, 4])];
    var m2 := m1[0x400 := FromLeBytes([3, 4, 5, 6])];
    var m3 := m2[safe := 0];
    var m4 := m3[safe := 0];
    assert m4 == s.mem[0x400 := FromLeBytes([3, 4, 5, 6])][safe := 0];
    var t := s.(mem := m4, ptr := 0x1008, i := 8, rlen := 0);
    assert BatchSlots(p, Eight, t, 2, 4) == Ok(t);
    assert BatchSlots(p, Eight, s.(mem := m3, ptr := 0x1006, i := 6, rlen := 2), 2, 3) == Ok(t);
    assert BatchSlots(p, Eight, s.(mem := m2, ptr := 0x1004, i := 4, rlen := 4), 2, 2) == Ok(t);
    assert BatchSlots(p, Eight, s.(mem := m1, ptr := 0x1002, i := 2, rlen := 6), 2, 1) == Ok(t);
  }

  /** The scenario's final state: the batch, pc moved on and `Decode` reported. */
  lemma ScenarioState(pc: u32)
    ensures var s := ReadStart(ExamplePlatform, 1, pc, ReadRequest(0x1000, 8), [], 0x1000, Eight);
            ReadSpec(ExamplePlatform, 1, pc, ReadRequest(0x1000, 8), [], EightBytes)
            == Ok(s.(mem := s.mem[0x400 := FromLeBytes([3, 4, 5, 6])]
                                 [WAddr(ExamplePlatform.safeWriteAddr) := 0],
                     ptr := 0x1008, i := 8, rlen := 0, pc := Add(pc, WORD_SIZE), cur := Decode,
                     trace := s.trace + [EcallCycle(HostReadWords, Decode, 0x402, 0, 0)]))
  {
    var p := ExamplePlatform;
    var mem := ReadRequest(0x1000, 8);
    assert IoRegs(p, 1, mem) == IoArgs(0, 0x1000, 8);
    assert EightBytes.read(0, 8) == Eight;
    assert ReadBuffer(Eight, 8) == Eight;
    var s := ReadStart(p, 1, pc, mem, [], 0x1000, Eight);
    assert ByteLoop(Eight, s) == s;
    assert s.cur == HostReadWords && s.ptr == 0x1000 && s.i == 0 && s.rlen == 8;
    assert BatchWords(p, 8) == 2;
    ScenarioBatch(s);
    var t := s.(mem := s.mem[0x400 := FromLeBytes([3, 4, 5, 6])][WAddr(p.safeWriteAddr) := 0],
                ptr := 0x1008, i := 8, rlen := 0);
    assert Report(t, Decode) == EcallCycle(HostReadWords, Decode, 0x402, 0, 0);
    var u := t.(pc := Add(t.pc, WORD_SIZE), cur := Decode, trace := t.trace + [Report(t, Decode)]);
    assert Batches(p, Eight, u) == Ok(u);
    assert Batches(p, Eight, s) == Ok(u);
    assert ByteLoop(Eight, u) == u;
  }

  /** As written: a machine-mode read of eight bytes to the aligned address 0x1000
      with four slots per batch runs one batch of `words == 2`. Its second slot
      writes bytes 3..6 over the first word and the word at 0x1004 is never
      written, although pc moves on and `Decode` is reported. */
  lemma BatchStrideScenario(pc: u32)
    ensures var r := ReadSpec(ExamplePlatform, 1, pc, ReadRequest(0x1000, 8), [], EightBytes);
            && r.Ok?
            && ByteAt(r.value.mem, 0x1000) == 3 && ByteAt(r.value.mem, 0x1003) == 6
            && Load(r.value.mem, 0x401) == 0 && ByteAt(r.value.mem, 0x1004) == 0
            && r.value.pc == Add(pc, WORD_SIZE) && r.value.cur == Decode
  {
    ScenarioState(pc);
    var m := ReadSpec(ExamplePlatform, 1, pc, ReadRequest(0x1000, 8), [], EightBytes).value.mem;
    assert FromLeBytes([3, 4, 5, 6]) == 0x0605_0403;
    assert Load(m, 0x400) == 0x0605_0403 && Load(m, 0x401) == 0;
    assert ByteAt(m, 0x1000) == ByteOf(0x0605_0403, 0) == 3;
    assert ByteAt(m, 0x1003) == ByteOf(0x0605_0403, 3) == 6;
  }

  // ---------------------------------------------------------------------------
  // 2. The byte phases: an aligned short tail is never copied, and pc does not
  //    move on when a byte phase uses up the count

  /** As written: a read of fewer than `MAX_IO_WORDS` bytes (but more than none)
      never moves pc on and never reports `Decode`, even when the first byte loop
      copies all of it; when the pointer is aligned nothing is copied at all and
      only A0 changes. */
  lemma ShortReadStalls(p: ValidPlatform, mode: u32, pc: u32, mem: map<nat, u32>,
                        trace: seq<Event>, host: Host)
    requires var args := IoRegs(p, mode, mem);
             && CheckIoLength(p, args.ptr, args.len).Ok?
             && 0 < |host.read(args.fd, args.len)| < p.maxIoWords
    ensures var args := IoRegs(p, mode, mem);
            var count := |host.read(args.fd, args.len)|;
            var r := ReadSpec(p, mode, pc, mem, trace, host);
            && r.Ok? && r.value.pc == pc && r.value.cur != Decode
            && (IsAligned(args.ptr) ==>
                  r.value.rlen == count && r.value.mem == mem[RegStoreSlot(p, mode, REG_A0) := count])
  {
    var args := IoRegs(p, mode, mem);
    var data := host.read(args.fd, args.len);
    var buf := ReadBuffer(data, args.len);
    var s := ReadStart(p, mode, pc, mem, trace, args.ptr, data);
    var b := ByteLoop(buf, s);
    assert Batches(p, buf, b) == Ok(b);
    if IsAligned(args.ptr) {
      assert b == s;
      assert ByteLoop(buf, b) == s;
    }
  }

  // ---------------------------------------------------------------------------
  // 1 and 2 corrected: every byte lands and pc moves on exactly once

  /** A corrected data slot: the buffer word at `i` goes to the word of `ptr`, and
      `ptr`, `i` and `rlen` move on by one word. */
  function WordStep(buf: seq<u8>, s: IoState): (r: IoState)
    requires Fits(buf, s) && s.rlen >= 4
    ensures Fits(buf, r) && r.pc == s.pc && r.cur == s.cur && r.trace == s.trace
    ensures r.ptr == s.ptr + 4 && r.i == s.i + 4 && r.rlen == s.rlen - 4
    ensures IsAligned(s.ptr) ==> IsAligned(r.ptr)
  {
    s.(mem := s.mem[WAddr(s.ptr) := FromLeBytes(buf[s.i .. s.i + 4])],
       ptr := s.ptr + 4, i := s.i + 4, rlen := s.rlen - 4)
  }

  /** A padding slot: zero goes to the safe-write slot and nothing moves. */
  function PadStep(p: Platform, s: IoState): (r: IoState)
    ensures r == s.(mem := r.mem) && WAddr(p.safeWriteAddr) in r.mem
  {
    s.(mem := s.mem[WAddr(p.safeWriteAddr) := 0])
  }

  /** Corrected slots `j ..` of a batch of `words` data slots. */
  function FixedSlots(p: ValidPlatform, buf: seq<u8>, s: IoState, words: nat, j: nat)
    : (r: IoState)
    requires words <= p.maxIoWords && j <= p.maxIoWords && Fits(buf, s)
    requires j < words ==> Span(words - j, 4) <= s.rlen
    ensures Fits(buf, r) && r.pc == s.pc && r.cur == s.cur && r.trace == s.trace
    ensures r.ptr + r.rlen == s.ptr + s.rlen && r.i + r.rlen == s.i + s.rlen
    ensures j < words ==> r.rlen + Span(words - j, 4) == s.rlen
    ensures j >= words ==> r.rlen == s.rlen
    ensures IsAligned(s.ptr) ==> IsAligned(r.ptr)
    decreases p.maxIoWords - j
  {
    if j == p.maxIoWords then s
    else if j < words then FixedSlots(p, buf, WordStep(buf, s), words, j + 1)
    else FixedSlots(p, buf, PadStep(p, s), words, j + 1)
  }

  /** `min(rlen / WORD_SIZE, MAX_IO_WORDS)`: the data slots of a corrected batch. */
  function FixedWords(p: ValidPlatform, rlen: nat): (words: nat)
    requires rlen >= 4
    ensures 1 <= words <= p.maxIoWords && Span(words, 4) <= rlen
  {
    var words := if rlen / 4 < p.maxIoWords then rlen / 4 else p.maxIoWords;
    SpanIsProduct(words, 4);
    words
  }

  /** Corrected word phase: batches while a whole word is left, each followed, as
      written, by `next_pc` when nothing is left and by a report. */
  function FixedBatches(p: ValidPlatform, buf: seq<u8>, s: IoState): (r: IoState)
    requires Fits(buf, s) && (s.rlen == 0 || IsAligned(s.ptr))
    ensures Fits(buf, r) && r.rlen < 4
    ensures r.ptr + r.rlen == s.ptr + s.rlen && r.i + r.rlen == s.i + s.rlen
    decreases s.rlen
  {
    if s.rlen < 4 then s
    else
      var t := FixedSlots(p, buf, s, FixedWords(p, s.rlen), 0);
      var next := NextIoState(t.ptr, t.rlen);
      FixedBatches(p, buf, t.(pc := if t.rlen == 0 then Add(t.pc, WORD_SIZE) else t.pc,
                              cur := next, trace := t.trace + [Report(t, next)]))
  }

  /** Corrected tail: every byte left is stored, aligned or not. */
  function FixedTail(buf: seq<u8>, s: IoState): (r: IoState)
    requires Fits(buf, s)
    ensures Fits(buf, r) && r.rlen == 0
    ensures r.ptr + r.rlen == s.ptr + s.rlen && r.i + r.rlen == s.i + s.rlen
    ensures r.pc == s.pc && r.cur == s.cur && r.trace == s.trace
    decreases s.rlen
  {
    if s.rlen == 0 then s
    else
      FixedTail(buf, s.(mem := StoreByte(s.mem, s.ptr, buf[s.i]),
                        ptr := s.ptr + 1, i := s.i + 1, rlen := s.rlen - 1))
  }

  /** When a byte phase has used up the count and `Decode` was not yet reported:
      `next_pc` and the report of the transition to `Decode`. */
  function Finish(s: IoState): (r: IoState)
    requires s.rlen < U32_LIMIT
    ensures r.mem == s.mem && r.ptr == s.ptr && r.i == s.i && r.rlen == s.rlen
  {
    if s.rlen == 0 && s.cur != Decode then
      s.(pc := Add(s.pc, WORD_SIZE), cur := Decode, trace := s.trace + [Report(s, Decode)])
    else s
  }

  /** The corrected data phases of `ecall_read`. */
  function FixedPhases(p: ValidPlatform, buf: seq<u8>, s: IoState): IoState
    requires Fits(buf, s)
  {
    var a := Finish(ByteLoop(buf, s));
    Finish(FixedTail(buf, FixedBatches(p, buf, a)))
  }

  /** The corrected `ecall_read` as a function of the state before it. */
  function FixedReadSpec(p: ValidPlatform, mode: u32, pc: u32, mem: map<nat, u32>,
                         trace: seq<Event>, host: Host): Result<IoState>
  {
    var args := IoRegs(p, mode, mem);
    match CheckIoLength(p, args.ptr, args.len)
    case Err(e) => Err(e)
    case Ok(_) =>
      var data := host.read(args.fd, args.len);
      Ok(FixedPhases(p, ReadBuffer(data, args.len),
                     ReadStart(p, mode, pc, mem, trace, args.ptr, data)))
  }

  /** The bytes from `ptr0` up to the pointer of `s` hold the buffer's first bytes. */
  predicate Copied(buf: seq<u8>, ptr0: u32, s: IoState) {
    ptr0 <= s.ptr && s.i == s.ptr - ptr0 && Landed(s.mem, buf, ptr0, 0, s.i)
  }

  lemma CopiedByte(buf: seq<u8>, ptr0: u32, s: IoState)
    requires Fits(buf, s) && s.rlen > 0 && Copied(buf, ptr0, s)
    ensures Copied(buf, ptr0, s.(mem := StoreByte(s.mem, s.ptr, buf[s.i]),
                                 ptr := s.ptr + 1, i := s.i + 1, rlen := s.rlen - 1))
  {
    var mem := StoreByte(s.mem, s.ptr, buf[s.i]);
    forall a: u32 | ptr0 <= a < ptr0 + (s.i + 1)
      ensures ByteAt(mem, a) == buf[a - ptr0]
    {
      StoreByteReadBack(s.mem, s.ptr, buf[s.i], a);
    }
  }

  /** The bytes of a word decoded from four bytes are those four bytes. */
  lemma WordBytes(bs: seq<u8>, d: nat)
    requires |bs| == 4 && d < 4
    ensures ByteOf(FromLeBytes(bs), d) == bs[d]
  {
    BytesRoundTrip(bs);
    ToLeBytesByteOf(FromLeBytes(bs), d);
  }

  lemma CopiedWord(buf: seq<u8>, ptr0: u32, s: IoState)
    requires Fits(buf, s) && s.rlen >= 4 && IsAligned(s.ptr) && Copied(buf, ptr0, s)
    ensures Copied(buf, ptr0, WordStep(buf, s))
  {
    var bs := buf[s.i .. s.i + 4];
    var mem := s.mem[WAddr(s.ptr) := FromLeBytes(bs)];
    forall a: u32 | ptr0 <= a < ptr0 + (s.i + 4)
      ensures ByteAt(mem, a) == buf[a - ptr0]
    {
      if a < s.ptr {
        assert WAddr(a) < WAddr(s.ptr);
        assert ByteAt(mem, a) == ByteAt(s.mem, a);
      } else {
        assert WAddr(a) == WAddr(s.ptr) && SubAddr(a) == a - s.ptr;
        WordBytes(bs, a - s.ptr);
      }
    }
  }

  lemma CopiedSafe(p: Platform, buf: seq<u8>, ptr0: u32, end: nat, s: IoState)
    requires Copied(buf, ptr0, s) && s.ptr <= end
    requires !InRange(ptr0, end, WAddr(p.safeWriteAddr))
    ensures Copied(buf, ptr0, PadStep(p, s))
  {
    var mem := PadStep(p, s).mem;
    forall a: u32 | ptr0 <= a < ptr0 + s.i
      ensures ByteAt(mem, a) == buf[a - ptr0]
    {
      assert WAddr(a) * 4 <= a < (WAddr(a) + 1) * 4;
      assert InRange(ptr0, end, WAddr(a));
      assert ByteAt(mem, a) == ByteAt(s.mem, a) == buf[0 + (a - ptr0)];
    }
  }

  lemma {:induction false} ByteLoopCopies(buf: seq<u8>, ptr0: u32, s: IoState)
    requires Fits(buf, s) && Copied(buf, ptr0, s)
    ensures Copied(buf, ptr0, ByteLoop(buf, s))
    decreases s.rlen
  {
    if s.rlen > 0 && !IsAligned(s.ptr) {
      CopiedByte(buf, ptr0, s);
      ByteLoopCopies(buf, ptr0, s.(mem := StoreByte(s.mem, s.ptr, buf[s.i]),
                                   ptr := s.ptr + 1, i := s.i + 1, rlen := s.rlen - 1));
    }
  }

  lemma {:induction false} FixedTailCopies(buf: seq<u8>, ptr0: u32, s: IoState)
    requires Fits(buf, s) && Copied(buf, ptr0, s)
    ensures Copied(buf, ptr0, FixedTail(buf, s))
    decreases s.rlen
  {
    if s.rlen > 0 {
      CopiedByte(buf, ptr0, s);
      FixedTailCopies(buf, ptr0, s.(mem := StoreByte(s.mem, s.ptr, buf[s.i]),
                                    ptr := s.ptr + 1, i := s.i + 1, rlen := s.rlen - 1));
    }
  }

  lemma {:induction false} FixedSlotsCopies(p: ValidPlatform, buf: seq<u8>, ptr0: u32,
                                            s: IoState, words: nat, j: nat)
    requires words <= p.maxIoWords && j <= p.maxIoWords && Fits(buf, s)
    requires j < words ==> Span(words - j, 4) <= s.rlen
    requires IsAligned(s.ptr) && Copied(buf, ptr0, s)
    requires !InRange(ptr0, s.ptr + s.rlen, WAddr(p.safeWriteAddr))
    ensures Copied(buf, ptr0, FixedSlots(p, buf, s, words, j))
    decreases p.maxIoWords - j
  {
    if j < p.maxIoWords {
      if j < words {
        CopiedWord(buf, ptr0, s);
        var t := WordStep(buf, s);
        assert t.ptr + t.rlen == s.ptr + s.rlen;
        assert j + 1 < words ==> Span(words - (j + 1), 4) <= t.rlen;
        FixedSlotsCopies(p, buf, ptr0, t, words, j + 1);
      } else {
        CopiedSafe(p, buf, ptr0, s.ptr + s.rlen, s);
        FixedSlotsCopies(p, buf, ptr0, PadStep(p, s), words, j + 1);
      }
    }
  }

  lemma {:induction false} FixedBatchesCopies(p: ValidPlatform, buf: seq<u8>, ptr0: u32,
                                              s: IoState)
    requires Fits(buf, s) && (s.rlen == 0 || IsAligned(s.ptr)) && Copied(buf, ptr0, s)
    requires !InRange(ptr0, s.ptr + s.rlen, WAddr(p.safeWriteAddr))
    ensures Copied(buf, ptr0, FixedBatches(p, buf, s))
    decreases s.rlen
  {
    if s.rlen >= 4 {
      var words := FixedWords(p, s.rlen);
      FixedSlotsCopies(p, buf, ptr0, s, words, 0);
      var t := FixedSlots(p, buf, s, words, 0);
      var next := NextIoState(t.ptr, t.rlen);
      FixedBatchesCopies(p, buf, ptr0,
                         t.(pc := if t.rlen == 0 then Add(t.pc, WORD_SIZE) else t.pc,
                            cur := next, trace := t.trace + [Report(t, next)]));
    }
  }

  lemma FinishInv(pc0: u32, trace0: seq<Event>, s: IoState)
    requires ReadInv(pc0, trace0, s) && s.rlen < U32_LIMIT
    ensures ReadInv(pc0, trace0, Finish(s))
    ensures s.rlen == 0 ==> Finish(s).cur == Decode
  {
    if s.rlen == 0 && s.cur != Decode {
      ReportStep(pc0, trace0, s, Finish(s));
    }
  }

  lemma {:induction false} FixedBatchesInv(p: ValidPlatform, buf: seq<u8>, pc0: u32,
                                           trace0: seq<Event>, s: IoState)
    requires Fits(buf, s) && (s.rlen == 0 || IsAligned(s.ptr)) && ReadInv(pc0, trace0, s)
    ensures ReadInv(pc0, trace0, FixedBatches(p, buf, s))
    decreases s.rlen
  {
    if s.rlen >= 4 {
      var t := FixedSlots(p, buf, s, FixedWords(p, s.rlen), 0);
      var next := NextIoState(t.ptr, t.rlen);
      var u := t.(pc := if t.rlen == 0 then Add(t.pc, WORD_SIZE) else t.pc,
                  cur := next, trace := t.trace + [Report(t, next)]);
      ReportStep(pc0, trace0, t, u);
      FixedBatchesInv(p, buf, pc0, trace0, u);
    }
  }

  /** The invariant speaks of pc, the cycle state and the trace only, and of the
      count once `Decode` is reported. */
  lemma ReadInvKept(pc0: u32, trace0: seq<Event>, s: IoState, t: IoState)
    requires ReadInv(pc0, trace0, s)
    requires t.pc == s.pc && t.cur == s.cur && t.trace == s.trace
    requires t.cur == Decode ==> t.rlen == 0
    ensures ReadInv(pc0, trace0, t)
  {
  }

  /** After the first byte loop: the word phase and the tail copy the rest, and
      the final step reports `Decode` if it was not reported yet. */
  lemma FixedRestCopy(p: ValidPlatform, buf: seq<u8>, ptr0: u32, pc0: u32,
                      trace0: seq<Event>, a: IoState)
    requires Fits(buf, a) && (a.rlen == 0 || IsAligned(a.ptr)) && Copied(buf, ptr0, a)
    requires ReadInv(pc0, trace0, a)
    requires !InRange(ptr0, a.ptr + a.rlen, WAddr(p.safeWriteAddr))
    ensures var t := Finish(FixedTail(buf, FixedBatches(p, buf, a)));
            && Copied(buf, ptr0, t) && t.rlen == 0 && t.ptr == a.ptr + a.rlen
            && t.cur == Decode && ReadInv(pc0, trace0, t)
  {
    FixedBatchesCopies(p, buf, ptr0, a);
    FixedBatchesInv(p, buf, pc0, trace0, a);
    var b := FixedBatches(p, buf, a);
    FixedTailCopies(buf, ptr0, b);
    var c := FixedTail(buf, b);
    ReadInvKept(pc0, trace0, b, c);
    FinishInv(pc0, trace0, c);
  }

  /** The corrected data phases copy every byte the host returned to its address,
      leave nothing over, report `Decode` last and move pc on exactly once; every
      report conforms to `next_io_state` and the reports are chained. */
  lemma FixedPhasesCopy(p: ValidPlatform, buf: seq<u8>, pc0: u32, trace0: seq<Event>,
                        s: IoState)
    requires Fits(buf, s) && s.i == 0 && ReadInv(pc0, trace0, s)
    requires !InRange(s.ptr, s.ptr + s.rlen, WAddr(p.safeWriteAddr))
    ensures var t := FixedPhases(p, buf, s);
            && Landed(t.mem, buf, s.ptr, 0, s.rlen)
            && t.rlen == 0 && t.cur == Decode && t.pc == Add(pc0, WORD_SIZE)
            && ReadInv(pc0, trace0, t)
  {
    assert Copied(buf, s.ptr, s);
    ByteLoopCopies(buf, s.ptr, s);
    FinishInv(pc0, trace0, ByteLoop(buf, s));
    FixedRestCopy(p, buf, s.ptr, pc0, trace0, Finish(ByteLoop(buf, s)));
  }

  /** The corrected `ecall_read`: after the length check, the bytes the host
      returned are at `ptr .. ptr + count` and pc has moved on exactly once, with
      `Decode` reported last. */
  lemma FixedReadLands(p: ValidPlatform, mode: u32, pc: u32, mem: map<nat, u32>,
                       trace: seq<Event>, host: Host)
    requires var args := IoRegs(p, mode, mem);
             !InRange(args.ptr, args.ptr + args.len, WAddr(p.safeWriteAddr))
    ensures var args := IoRegs(p, mode, mem);
            var r := FixedReadSpec(p, mode, pc, mem, trace, host);
            && (r.Ok? <==> CheckIoLength(p, args.ptr, args.len).Ok?)
            && (r.Ok? ==>
                  var data := host.read(args.fd, args.len);
                  && (forall k :: 0 <= k < |data| ==> ByteAt(r.value.mem, args.ptr + k) == data[k])
                  && r.value.pc == Add(pc, WORD_SIZE) && r.value.cur == Decode
                  && ReadInv(pc, trace, r.value))
  {
    var args := IoRegs(p, mode, mem);
    if CheckIoLength(p, args.ptr, args.len).Ok? {
      var data := host.read(args.fd, args.len);
      var buf := ReadBuffer(data, args.len);
      var s := ReadStart(p, mode, pc, mem, trace, args.ptr, data);
      ReadStartInv(p, mode, pc, mem, trace, args.ptr, data);
      assert !InRange(s.ptr, s.ptr + s.rlen, WAddr(p.safeWriteAddr));
      FixedPhasesCopy(p, buf, pc, trace, s);
      var t := FixedPhases(p, buf, s);
      forall k | 0 <= k < |data|
        ensures ByteAt(t.mem, args.ptr + k) == data[k]
      {
        assert buf[k] == data[k];
        var a: u32 := args.ptr + k;
        assert ByteAt(t.mem, a) == buf[0 + (a - args.ptr)];
      }
    }
  }

  // ---------------------------------------------------------------------------
  // 3. The user-mode dispatch test is inverted

  /** As written: on the example layout, the aligned kernel entry 0xc000_0000,
      which the trap table would accept, makes `user_ecall` trap, while the
      unaligned 0xc000_0001, which is not an instruction address, is entered. */
  lemma InvertedUserEntry()
    ensures TrapEntryValid(ExamplePlatform, 0xc000_0000)
    ensures !UserEntryAccepted(ExamplePlatform, 0, 0xc000_0000)
    ensures !TrapEntryValid(ExamplePlatform, 0xc000_0001)
    ensures UserEntryAccepted(ExamplePlatform, 0, 0xc000_0001)
  {
  }

  /** As written, no entry `user_ecall` takes is one the trap table would take. */
  lemma UserEntryNeverValid(p: Platform, idx: u32, entry: u32)
    ensures UserEntryAccepted(p, idx, entry) ==> !TrapEntryValid(p, entry)
  {
  }

  /** The evidently intended test: a known index and an aligned entry in the
      kernel, as `trap` demands of its table. */
  predicate IntendedUserEntryAccepted(p: Platform, idx: u32, entry: u32) {
    idx < p.syscallMax && IsAligned(entry) && entry >= p.kernelStart
  }

  /** The intended test refuses every entry below the kernel, as the written one
      does, and above it takes exactly the entries the written one refuses; on the
      example layout, whatever it takes below the register area is also a valid
      trap-table entry. */
  lemma IntendedUserEntry(p: Platform, idx: u32, entry: u32)
    ensures entry < p.kernelStart ==>
              !IntendedUserEntryAccepted(p, idx, entry) && !UserEntryAccepted(p, idx, entry)
    ensures idx < p.syscallMax && entry >= p.kernelStart ==>
              (IntendedUserEntryAccepted(p, idx, entry) <==> !UserEntryAccepted(p, idx, entry))
    ensures (p == ExamplePlatform && entry < 0xff00_0000 && IntendedUserEntryAccepted(p, idx, entry))
              ==> TrapEntryValid(p, entry)
  {
  }
}
