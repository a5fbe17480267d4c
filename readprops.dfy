/** What `ecall_read` guarantees, proved about the phase functions of `HostIo` that
    its loops are shown to compute: how pc moves, what the reports say, which words
    change, when the word phase cannot slice out of range, and the empty read. */
module ReadProps {
  import opened Addr
  import opened Bytes
  import opened Platform
  import opened Cycle
  import opened Context
  import opened Registers
  import opened HostIo

  // ---------------------------------------------------------------------------
  // Reports and pc

  /** A phase report whose next state is the one `next_io_state` gives for the
      pointer and count it carries. */
  predicate Conforms(e: Event) {
    && e.EcallCycle?
    && e.s0 * 4 + e.s1 < U32_LIMIT
    && e.next == NextIoState(e.s0 * 4 + e.s1, e.s2)
  }

  /** The report at `k + 1` starts in the state the report at `k` went to. */
  predicate Follows(trace: seq<Event>, k: nat)
    requires k + 1 < |trace|
  {
    trace[k].EcallCycle? && trace[k + 1].EcallCycle? && trace[k + 1].cur == trace[k].next
  }

  /** The state `s` of `ecall_read` started with pc `pc0` and trace `trace0`: the
      setup report was made, every later report conforms to `next_io_state` and
      starts where the previous one ended, the current state is the last report's
      next state, `Decode` is reported only once nothing is left, and pc has moved
      on one word exactly when `Decode` was reported. */
  predicate ReadInv(pc0: u32, trace0: seq<Event>, s: IoState) {
    && |s.trace| >= |trace0| + 2
    && s.trace[..|trace0|] == trace0
    && s.trace[|trace0|] == EcallCycle(MachineEcall, HostReadSetup, 0, 0, 0)
    && (forall k | |trace0| < k < |s.trace| :: Conforms(s.trace[k]))
    && (forall k | |trace0| <= k < |s.trace| - 1 :: Follows(s.trace, k))
    && s.trace[|s.trace| - 1].EcallCycle? && s.cur == s.trace[|s.trace| - 1].next
    && (s.cur == Decode ==> s.rlen == 0)
    && s.pc == if s.cur == Decode then Add(pc0, WORD_SIZE) else pc0
  }

  /** A report made from a state describes that state's pointer and count. */
  lemma ReportConforms(s: IoState)
    requires s.rlen < U32_LIMIT
    ensures Conforms(Report(s, NextIoState(s.ptr, s.rlen)))
  {
  }

  lemma ReadStartInv(p: ValidPlatform, mode: u32, pc: u32, mem: map<nat, u32>,
                     trace: seq<Event>, ptr: u32, data: seq<u8>)
    requires ptr + |data| < U32_LIMIT
    ensures ReadInv(pc, trace, ReadStart(p, mode, pc, mem, trace, ptr, data))
  {
    var s := ReadStart(p, mode, pc, mem, trace, ptr, data);
    assert s.trace[..|trace|] == trace;
  }

  /** Reporting from a state that keeps the invariant, and moving pc on when the
      count is used up, keeps it. */
  lemma ReportStep(pc0: u32, trace0: seq<Event>, t: IoState, u: IoState)
    requires ReadInv(pc0, trace0, t) && t.rlen < U32_LIMIT && t.cur != Decode
    requires u == t.(pc := if t.rlen == 0 then Add(t.pc, WORD_SIZE) else t.pc,
                     cur := NextIoState(t.ptr, t.rlen),
                     trace := t.trace + [Report(t, NextIoState(t.ptr, t.rlen))])
    ensures ReadInv(pc0, trace0, u)
  {
    var n := |t.trace|;
    ReportConforms(t);
    assert u.trace[..|trace0|] == trace0 by {
      assert u.trace[..|trace0|] == t.trace[..|trace0|];
    }
    assert Follows(u.trace, n - 1);
    forall k | |trace0| <= k < |u.trace| - 1
      ensures Follows(u.trace, k)
    {
      if k < n - 1 {
        assert Follows(t.trace, k);
      }
    }
    forall k | |trace0| < k < |u.trace|
      ensures Conforms(u.trace[k])
    {
      if k < n {
        assert u.trace[k] == t.trace[k];
      }
    }
  }

  /** The batches keep the invariant: each batch moves pc on only when it used up
      the count, and reports from the state it ended in. */
  lemma {:induction false} BatchesInv(p: ValidPlatform, buf: seq<u8>, pc0: u32,
                                      trace0: seq<Event>, s: IoState)
    requires Fits(buf, s) && ReadInv(pc0, trace0, s)
    ensures Batches(p, buf, s).Ok? ==> ReadInv(pc0, trace0, Batches(p, buf, s).value)
    decreases s.rlen
  {
    if s.rlen >= p.maxIoWords {
      var words := BatchWords(p, s.rlen);
      var b := BatchSlots(p, buf, s, words, 0);
      if b.Ok? {
        var t := b.value;
        var next := NextIoState(t.ptr, t.rlen);
        var u := t.(pc := if t.rlen == 0 then Add(t.pc, WORD_SIZE) else t.pc,
                    cur := next, trace := t.trace + [Report(t, next)]);
        ReportStep(pc0, trace0, t, u);
        BatchesInv(p, buf, pc0, trace0, u);
      }
    }
  }

  /** pc after `ecall_read`: it has moved on one word or not at all; it moved
      exactly when the last report was `Decode`, and then nothing is left to copy.
      Every report conforms to `next_io_state` and the reports are chained. */
  /** The byte loops touch neither the reports nor pc, and only lower the count. */
  lemma ByteLoopInv(buf: seq<u8>, pc0: u32, trace0: seq<Event>, s: IoState)
    requires Fits(buf, s) && ReadInv(pc0, trace0, s)
    ensures ReadInv(pc0, trace0, ByteLoop(buf, s))
  {
  }

  /** A successful read ends in a state that keeps `ReadInv`. */
  lemma ReadSpecInv(p: ValidPlatform, mode: u32, pc: u32, mem: map<nat, u32>,
                    trace: seq<Event>, host: Host)
    requires ReadSpec(p, mode, pc, mem, trace, host).Ok?
    ensures ReadInv(pc, trace, ReadSpec(p, mode, pc, mem, trace, host).value)
  {
    var args := IoRegs(p, mode, mem);
    var data := host.read(args.fd, args.len);
    var buf := ReadBuffer(data, args.len);
    var s := ReadStart(p, mode, pc, mem, trace, args.ptr, data);
    ReadStartInv(p, mode, pc, mem, trace, args.ptr, data);
    ByteLoopInv(buf, pc, trace, s);
    var b := ByteLoop(buf, s);
    BatchesInv(p, buf, pc, trace, b);
    ByteLoopInv(buf, pc, trace, Batches(p, buf, b).value);
  }

  lemma ReadPc(p: ValidPlatform, mode: u32, pc: u32, mem: map<nat, u32>,
               trace: seq<Event>, host: Host)
    ensures ReadSpec(p, mode, pc, mem, trace, host).Ok? ==>
              ReadInv(pc, trace, ReadSpec(p, mode, pc, mem, trace, host).value)
    ensures ReadSpec(p, mode, pc, mem, trace, host).Ok? ==>
              var t := ReadSpec(p, mode, pc, mem, trace, host).value;
              && (t.pc == pc || t.pc == Add(pc, WORD_SIZE))
              && (t.pc == Add(pc, WORD_SIZE) <==> t.cur == Decode)
              && (t.cur == Decode ==> t.rlen == 0)
  {
    if ReadSpec(p, mode, pc, mem, trace, host).Ok? {
      ReadSpecInv(p, mode, pc, mem, trace, host);
      assert Add(pc, WORD_SIZE) != pc;
    }
  }

  // ---------------------------------------------------------------------------
  // Which words change

  /** Word `w` holds a byte of the range `[lo, hi)`. */
  predicate InRange(lo: nat, hi: nat, w: nat) {
    lo < (w + 1) * 4 && w * 4 < hi
  }

  /** Since `mem0`, only the safe-write slot and words of the destination range
      `[ptr0, s.ptr + s.rlen)` have changed, and the pointer has not gone below
      `ptr0`. */
  ghost predicate FrameInv(p: Platform, mem0: map<nat, u32>, ptr0: nat, s: IoState) {
    && ptr0 <= s.ptr
    && forall w :: Load(s.mem, w) != Load(mem0, w) ==>
         w == WAddr(p.safeWriteAddr) || InRange(ptr0, s.ptr + s.rlen, w)
  }

  lemma {:induction false} ByteLoopFrame(p: Platform, buf: seq<u8>, mem0: map<nat, u32>,
                                         ptr0: nat, s: IoState)
    requires Fits(buf, s) && FrameInv(p, mem0, ptr0, s)
    ensures FrameInv(p, mem0, ptr0, ByteLoop(buf, s))
    decreases s.rlen
  {
    if s.rlen > 0 && !IsAligned(s.ptr) {
      var mem := StoreByte(s.mem, s.ptr, buf[s.i]);
      StoreByteReadBack(s.mem, s.ptr, buf[s.i], s.ptr);
      ByteLoopFrame(p, buf, mem0, ptr0, s.(mem := mem, ptr := s.ptr + 1, i := s.i + 1,
                                          rlen := s.rlen - 1));
    }
  }

  lemma {:induction false} BatchSlotsFrame(p: ValidPlatform, buf: seq<u8>, mem0: map<nat, u32>,
                                           ptr0: nat, s: IoState, words: nat, j: nat)
    requires 1 <= words && j <= p.maxIoWords && Span(p.maxIoWords - j, words) <= s.rlen
    requires Fits(buf, s) && FrameInv(p, mem0, ptr0, s)
    ensures BatchSlots(p, buf, s, words, j).Ok? ==>
              FrameInv(p, mem0, ptr0, BatchSlots(p, buf, s, words, j).value)
    decreases p.maxIoWords - j
  {
    if j < p.maxIoWords {
      BatchSlotStep(p, buf, s, words, j);
      var m := SlotStore(p, buf, s, words, j);
      if m.Some? {
        var t := s.(mem := m.value, ptr := s.ptr + words, i := s.i + words,
                    rlen := s.rlen - words);
        assert FrameInv(p, mem0, ptr0, t);
        BatchSlotsFrame(p, buf, mem0, ptr0, t, words, j + 1);
      }
    }
  }

  lemma {:induction false} BatchesFrame(p: ValidPlatform, buf: seq<u8>, mem0: map<nat, u32>,
                                        ptr0: nat, s: IoState)
    requires Fits(buf, s) && FrameInv(p, mem0, ptr0, s)
    ensures Batches(p, buf, s).Ok? ==> FrameInv(p, mem0, ptr0, Batches(p, buf, s).value)
    decreases s.rlen
  {
    if s.rlen >= p.maxIoWords {
      var words := BatchWords(p, s.rlen);
      var b := BatchSlots(p, buf, s, words, 0);
      BatchSlotsFrame(p, buf, mem0, ptr0, s, words, 0);
      if b.Ok? {
        var t := b.value;
        var next := NextIoState(t.ptr, t.rlen);
        BatchesFrame(p, buf, mem0, ptr0,
                     t.(pc := if t.rlen == 0 then Add(t.pc, WORD_SIZE) else t.pc,
                        cur := next, trace := t.trace + [Report(t, next)]));
      }
    }
  }

  /** The words `ecall_read` may change: the A0 slot of the current bank (the
      count), the safe-write slot, and the words of the `count` bytes from `ptr`;
      every other word keeps its value. */
  lemma ReadFrame(p: ValidPlatform, mode: u32, pc: u32, mem: map<nat, u32>,
                  trace: seq<Event>, host: Host, w: nat)
    requires ReadSpec(p, mode, pc, mem, trace, host).Ok?
    requires w != RegStoreSlot(p, mode, REG_A0) && w != WAddr(p.safeWriteAddr)
    requires var args := IoRegs(p, mode, mem);
             !InRange(args.ptr, args.ptr + |host.read(args.fd, args.len)|, w)
    ensures Load(ReadSpec(p, mode, pc, mem, trace, host).value.mem, w) == Load(mem, w)
  {
    var args := IoRegs(p, mode, mem);
    var data := host.read(args.fd, args.len);
    var buf := ReadBuffer(data, args.len);
    var s := ReadStart(p, mode, pc, mem, trace, args.ptr, data);
    ByteLoopFrame(p, buf, s.mem, args.ptr, s);
    var b := ByteLoop(buf, s);
    BatchesFrame(p, buf, s.mem, args.ptr, b);
    var c := Batches(p, buf, b).value;
    ByteLoopFrame(p, buf, s.mem, args.ptr, c);
  }

  /** A0 after `ecall_read` holds the number of bytes the host returned, unless the
      destination range or the safe-write slot covers the A0 slot itself. */
  lemma ReadSetsA0(p: ValidPlatform, mode: u32, pc: u32, mem: map<nat, u32>,
                   trace: seq<Event>, host: Host)
    requires ReadSpec(p, mode, pc, mem, trace, host).Ok?
    requires RegStoreSlot(p, mode, REG_A0) != WAddr(p.safeWriteAddr)
    requires var args := IoRegs(p, mode, mem);
             !InRange(args.ptr, args.ptr + |host.read(args.fd, args.len)|,
                      RegStoreSlot(p, mode, REG_A0))
    ensures var args := IoRegs(p, mode, mem);
            Load(ReadSpec(p, mode, pc, mem, trace, host).value.mem, RegStoreSlot(p, mode, REG_A0))
              == |host.read(args.fd, args.len)|
  {
    var args := IoRegs(p, mode, mem);
    var data := host.read(args.fd, args.len);
    var buf := ReadBuffer(data, args.len);
    var s := ReadStart(p, mode, pc, mem, trace, args.ptr, data);
    ByteLoopFrame(p, buf, s.mem, args.ptr, s);
    var b := ByteLoop(buf, s);
    BatchesFrame(p, buf, s.mem, args.ptr, b);
    var c := Batches(p, buf, b).value;
    ByteLoopFrame(p, buf, s.mem, args.ptr, c);
  }

  // ---------------------------------------------------------------------------
  // The byte loops

  /** The `n` bytes from `ptr0` in `mem` are the buffer's bytes from `i0`. */
  predicate Landed(mem: map<nat, u32>, buf: seq<u8>, ptr0: u32, i0: nat, n: nat) {
    && ptr0 + n <= U32_LIMIT && i0 + n <= |buf|
    && forall a: u32 :: ptr0 <= a < ptr0 + n ==> ByteAt(mem, a) == buf[i0 + (a - ptr0)]
  }

  /** One more landed byte in front of a landed range. */
  lemma LandedCons(mem: map<nat, u32>, buf: seq<u8>, ptr0: u32, i0: nat, n: nat)
    requires i0 < |buf| && ptr0 + 1 < U32_LIMIT && ByteAt(mem, ptr0) == buf[i0]
    requires Landed(mem, buf, ptr0 + 1, i0 + 1, n)
    ensures Landed(mem, buf, ptr0, i0, n + 1)
  {
    forall a: u32 | ptr0 < a < ptr0 + n + 1
      ensures ByteAt(mem, a) == buf[i0 + (a - ptr0)]
    {
      assert ptr0 + 1 <= a < ptr0 + 1 + n;
    }
  }

  /** A byte loop stores each byte it consumes at its address: the bytes from the
      pointer it started at up to the one it stopped at are the buffer's. */
  lemma {:induction false} ByteLoopLands(buf: seq<u8>, s: IoState)
    requires Fits(buf, s)
    ensures Landed(ByteLoop(buf, s).mem, buf, s.ptr, s.i, s.rlen - ByteLoop(buf, s).rlen)
    decreases s.rlen
  {
    if s.rlen > 0 && !IsAligned(s.ptr) {
      var t := s.(mem := StoreByte(s.mem, s.ptr, buf[s.i]), ptr := s.ptr + 1,
                  i := s.i + 1, rlen := s.rlen - 1);
      var r := ByteLoop(buf, t);
      assert ByteLoop(buf, s) == r;
      ByteLoopLands(buf, t);
      ByteLoopKeeps(buf, t, s.ptr);
      StoreByteReadBack(s.mem, s.ptr, buf[s.i], s.ptr);
      LandedCons(r.mem, buf, s.ptr, s.i, t.rlen - r.rlen);
      assert s.rlen - r.rlen == t.rlen - r.rlen + 1;
    }
  }

  /** A byte loop changes no byte outside the range it stepped over. */
  lemma {:induction false} ByteLoopKeeps(buf: seq<u8>, s: IoState, a: u32)
    requires Fits(buf, s)
    requires !(s.ptr <= a < ByteLoop(buf, s).ptr)
    ensures ByteAt(ByteLoop(buf, s).mem, a) == ByteAt(s.mem, a)
    decreases s.rlen
  {
    if s.rlen > 0 && !IsAligned(s.ptr) {
      var t := s.(mem := StoreByte(s.mem, s.ptr, buf[s.i]), ptr := s.ptr + 1,
                  i := s.i + 1, rlen := s.rlen - 1);
      ByteLoopKeeps(buf, t, a);
      StoreByteReadBack(s.mem, s.ptr, buf[s.i], a);
    }
  }

  /** From an aligned pointer a byte loop does nothing at all. */
  lemma ByteLoopAligned(buf: seq<u8>, s: IoState)
    requires Fits(buf, s) && IsAligned(s.ptr)
    ensures ByteLoop(buf, s) == s
  {
  }

  // ---------------------------------------------------------------------------
  // The word phase cannot slice out of range when MAX_IO_WORDS >= 4

  lemma {:induction false} SpanMono(n: nat, m: nat, words: nat)
    requires n <= m
    ensures Span(n, words) <= Span(m, words)
    decreases m
  {
    if n < m {
      SpanMono(n, m - 1, words);
    }
  }

  lemma {:induction false} SpanAtLeast(n: nat, words: nat)
    requires 1 <= n
    ensures Span(n, words) >= words
  {
    assert Span(n, words) == words + Span(n - 1, words);
  }

  /** The count left at a data slot is at least one whole word when batches have
      at least four slots. */
  lemma DataSlotHasWord(p: ValidPlatform, words: nat, j: nat)
    requires 4 <= p.maxIoWords && 1 <= words <= p.maxIoWords && j < words
    ensures Span(p.maxIoWords - j, words) >= WORD_SIZE
  {
    if words >= 4 {
      SpanAtLeast(p.maxIoWords - j, words);
    } else {
      SpanMono(5 - words, p.maxIoWords - j, words);
      assert Span(5 - words, words) >= 4 by {
        if words == 1 {
          assert Span(4, 1) == 4;
        } else if words == 2 {
          assert Span(3, 2) == 6;
        } else {
          assert Span(2, 3) == 6;
        }
      }
    }
  }

  lemma {:induction false} BatchSlotsInRange(p: ValidPlatform, buf: seq<u8>, s: IoState,
                                             words: nat, j: nat)
    requires 4 <= p.maxIoWords
    requires 1 <= words <= p.maxIoWords && j <= p.maxIoWords
    requires Span(p.maxIoWords - j, words) <= s.rlen && Fits(buf, s)
    ensures BatchSlots(p, buf, s, words, j).Ok?
    decreases p.maxIoWords - j
  {
    if j < p.maxIoWords {
      BatchSlotStep(p, buf, s, words, j);
      if j < words {
        DataSlotHasWord(p, words, j);
      }
      var t := s.(mem := SlotStore(p, buf, s, words, j).value, ptr := s.ptr + words,
                  i := s.i + words, rlen := s.rlen - words);
      BatchSlotsInRange(p, buf, t, words, j + 1);
    }
  }

  lemma {:induction false} BatchesInRange(p: ValidPlatform, buf: seq<u8>, s: IoState)
    requires 4 <= p.maxIoWords && Fits(buf, s)
    ensures Batches(p, buf, s).Ok?
    decreases s.rlen
  {
    if s.rlen >= p.maxIoWords {
      var words := BatchWords(p, s.rlen);
      BatchSlotsInRange(p, buf, s, words, 0);
      var t := BatchSlots(p, buf, s, words, 0).value;
      var next := NextIoState(t.ptr, t.rlen);
      BatchesInRange(p, buf, t.(pc := if t.rlen == 0 then Add(t.pc, WORD_SIZE) else t.pc,
                                cur := next, trace := t.trace + [Report(t, next)]));
    }
  }

  /** With at least four slots per batch, a read that passes the length check
      never fails: the word phase never slices past the end of the buffer. */
  lemma ReadNeverSlicesOut(p: ValidPlatform, mode: u32, pc: u32, mem: map<nat, u32>,
                           trace: seq<Event>, host: Host)
    requires 4 <= p.maxIoWords
    ensures var args := IoRegs(p, mode, mem);
            (ReadSpec(p, mode, pc, mem, trace, host).Ok? <==>
             CheckIoLength(p, args.ptr, args.len).Ok?)
  {
    var args := IoRegs(p, mode, mem);
    if CheckIoLength(p, args.ptr, args.len).Ok? {
      var data := host.read(args.fd, args.len);
      var buf := ReadBuffer(data, args.len);
      var s := ReadStart(p, mode, pc, mem, trace, args.ptr, data);
      BatchesInRange(p, buf, ByteLoop(buf, s));
    }
  }

  // ---------------------------------------------------------------------------
  // The empty read

  /** A read for which the host returns nothing: A0 becomes 0, pc moves on one
      word, and the single phase report goes straight to `Decode`. */
  lemma EmptyRead(p: ValidPlatform, mode: u32, pc: u32, mem: map<nat, u32>,
                  trace: seq<Event>, host: Host)
    requires var args := IoRegs(p, mode, mem);
             && CheckIoLength(p, args.ptr, args.len).Ok?
             && host.read(args.fd, args.len) == []
    ensures var args := IoRegs(p, mode, mem);
            ReadSpec(p, mode, pc, mem, trace, host) == Ok(IoState(
              args.ptr, 0, 0, mem[RegStoreSlot(p, mode, REG_A0) := 0],
              Add(pc, WORD_SIZE), Decode,
              trace + [EcallCycle(MachineEcall, HostReadSetup, 0, 0, 0),
                       EcallCycle(HostReadSetup, Decode, WAddr(args.ptr), SubAddr(args.ptr), 0)]))
  {
  }

  /** The counters of `ecall_read` never lose a byte: at the end, the bytes consumed
      plus the bytes left make up the host's count, and the pointer has moved on
      by the bytes consumed. */
  lemma ReadCount(p: ValidPlatform, mode: u32, pc: u32, mem: map<nat, u32>,
                  trace: seq<Event>, host: Host)
    ensures var args := IoRegs(p, mode, mem);
            var r := ReadSpec(p, mode, pc, mem, trace, host);
            r.Ok? ==>
              var count := |host.read(args.fd, args.len)|;
              && r.value.rlen <= count && r.value.i + r.value.rlen == count
              && r.value.ptr + r.value.rlen == args.ptr + count
  {
    var args := IoRegs(p, mode, mem);
    if CheckIoLength(p, args.ptr, args.len).Ok? {
      var data := host.read(args.fd, args.len);
      var s := ReadStart(p, mode, pc, mem, trace, args.ptr, data);
      assert s.i == 0 && s.rlen == |data| && s.ptr == args.ptr;
    }
  }
}
