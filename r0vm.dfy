/** `Risc0Machine`: the control-transfer engine that wraps a context and implements
    ecall, mret, trap, register access and the memory-access checks for the
    instruction emulator. */
module R0vm {
  import opened Addr
  import opened Bytes
  import opened Platform
  import opened Cycle
  import opened Context
  import opened Registers
  import opened HostIo

  /** The memory `suspend` leaves: pc and mode in their two slots, every other
      word as it was, so that `resume` reads back exactly what was saved. */
  function SuspendImage(p: ValidPlatform, mem: map<nat, u32>, pc: u32, mode: u32)
    : (m: map<nat, u32>)
    ensures Load(m, WAddr(p.suspendPcAddr)) == pc
    ensures Load(m, WAddr(p.suspendModeAddr)) == mode
    ensures forall w :: w != WAddr(p.suspendPcAddr) && w != WAddr(p.suspendModeAddr)
                        ==> Load(m, w) == Load(mem, w)
  {
    mem[WAddr(p.suspendPcAddr) := pc][WAddr(p.suspendModeAddr) := mode]
  }

  /** The `user_ecall` test on dispatch index and table entry, as written: the
      entry is taken only when it is NOT aligned and not below the kernel. */
  predicate UserEntryAccepted(p: Platform, idx: u32, entry: u32) {
    idx < p.syscallMax && !(IsAligned(entry) || entry < p.kernelStart)
  }

  /** The `trap` test on a trap-table entry. */
  predicate TrapEntryValid(p: Platform, entry: u32) {
    IsAligned(entry) && p.isKernelMemory(entry)
  }

  /** The entry of the ecall dispatch table for index `idx`. */
  function UserEntry(p: Platform, mem: map<nat, u32>, idx: u32): u32 {
    Load(mem, WAddr(p.ecallDispatchAddr) + idx)
  }

  /** The entry of the trap dispatch table for `cause`. */
  function TrapEntry(p: Platform, mem: map<nat, u32>, cause: TrapCause): u32 {
    Load(mem, WAddr(p.trapDispatchAddr) + cause.AsU32())
  }

  /** `check_insn_load`: nothing is fetched from the zero page, and user mode
      fetches nothing at or above the kernel's start. */
  function CheckInsnLoad(p: Platform, mode: u32, addr: u32): (ok: bool)
    ensures ok ==> addr >= p.zeroPageEnd
    ensures ok && !IsMachine(mode) ==> addr < p.kernelStart
    ensures IsMachine(mode) ==> (ok <==> addr >= p.zeroPageEnd)
    ensures !IsMachine(mode) ==> (ok <==> p.zeroPageEnd <= addr < p.kernelStart)
  {
    !(addr < p.zeroPageEnd || (!IsMachine(mode) && addr >= p.kernelStart))
  }

  /** `check_data_load`: machine mode may load anywhere, user mode only from user
      memory. */
  function CheckDataLoad(p: Platform, mode: u32, addr: u32): (ok: bool)
    ensures IsMachine(mode) ==> ok
    ensures !IsMachine(mode) ==> (ok <==> p.isUserMemory(addr))
  {
    IsMachine(mode) || p.isUserMemory(addr)
  }

  /** `check_data_store`: the same rule as for loads. */
  function CheckDataStore(p: Platform, mode: u32, addr: u32): (ok: bool)
    ensures ok == CheckDataLoad(p, mode, addr)
    ensures ok <==> IsMachine(mode) || p.isUserMemory(addr)
  {
    CheckDataLoad(p, mode, addr)
  }

  class Risc0Machine {
    const ctx: Context
    const plat: ValidPlatform

    constructor (ctx: Context, plat: ValidPlatform)
      ensures this.ctx == ctx && this.plat == plat
    {
      this.ctx := ctx;
      this.plat := plat;
    }

    predicate IsMachineMode()
      reads ctx
    {
      IsMachine(ctx.mode)
    }

    // -------------------------------------------------------------------------
    // What each operation does, stated once over the states before and after.

    /** `enter_trap` succeeded: the old pc is saved at MEPC, pc is the target and the
        mode is machine mode. */
    twostate predicate EnteredTrap(target: u32)
      reads ctx
    {
      && ctx.pc == target && ctx.mode == 1
      && ctx.mem == old(ctx.mem)[WAddr(plat.mepcAddr) := old(ctx.pc)]
    }

    twostate predicate PcModeMemUnchanged()
      reads ctx
    {
      ctx.pc == old(ctx.pc) && ctx.mode == old(ctx.mode) && ctx.mem == old(ctx.mem)
    }

    /** Outcome of `trap(cause)`: a bad table entry is fatal, a trap in machine mode
        is fatal, otherwise the trap is entered and `false` returned. */
    twostate predicate TrapDone(cause: TrapCause, new r: Result<bool>)
      reads ctx
    {
      var entry := TrapEntry(plat, old(ctx.mem), cause);
      if !TrapEntryValid(plat, entry) then
        r == Err(InvalidTrapAddress) && PcModeMemUnchanged()
        && ctx.trace == old(ctx.trace) + [TrapRewound]
      else if IsMachine(old(ctx.mode)) then
        r == Err(IllegalTrapInMachineMode) && PcModeMemUnchanged()
        && ctx.trace == old(ctx.trace) + [TrapRewound]
      else
        r == Ok(false) && EnteredTrap(entry)
        && ctx.trace == old(ctx.trace) + [TrapRewound, Trapped(cause)]
    }

    /** Outcome of `user_ecall`: the dispatch entry is entered, or the ecall becomes
        an `EnvironmentCallFromUserMode` trap. */
    twostate predicate UserEcallDone(new r: Result<bool>)
      reads ctx
    {
      var idx := Load(old(ctx.mem), RegSlot(plat, old(ctx.mode), REG_A7));
      var entry := UserEntry(plat, old(ctx.mem), idx);
      if !UserEntryAccepted(plat, idx, entry) then
        TrapDone(EnvironmentCallFromUserMode, r)
      else if IsMachine(old(ctx.mode)) then
        r == Err(IllegalTrapInMachineMode) && PcModeMemUnchanged()
        && ctx.trace == old(ctx.trace)
      else
        r == Ok(true) && EnteredTrap(entry) && ctx.trace == old(ctx.trace)
    }

    /** Outcome of `ecall_terminate`: pc, mode and memory stay, the user bank's A0 and
        A1 go to `on_terminate`, and the two transitions are reported. */
    twostate predicate TerminateDone(new r: Result<bool>)
      reads ctx
    {
      && r == Ok(false) && PcModeMemUnchanged()
      && ctx.trace == old(ctx.trace) + [
           EcallCycle(CycleState.MachineEcall, Terminate, 0, 0, 0),
           Terminated(Load(old(ctx.mem), WAddr(plat.userRegsAddr) + REG_A0),
                      Load(old(ctx.mem), WAddr(plat.userRegsAddr) + REG_A1)),
           EcallCycle(Terminate, CycleState.Suspend, 0, 0, 0)]
    }

    /** Outcome of `ecall_poseidon2`: pc moves on one word, one transition. */
    twostate predicate PoseidonDone(new r: Result<bool>)
      reads ctx
    {
      && r == Ok(false)
      && ctx.pc == Add(old(ctx.pc), WORD_SIZE)
      && ctx.mode == old(ctx.mode) && ctx.mem == old(ctx.mem)
      && ctx.trace == old(ctx.trace) + [EcallCycle(CycleState.MachineEcall, PoseidonEntry, 0, 0, 0)]
    }

    /** Outcome of `ecall_write`: a bad length fails after the first report and
        before anything else; otherwise the host gets the `len` bytes at `ptr`, A0
        gets its count, pc moves on one word and two transitions are reported. */
    twostate predicate WriteDone(host: Host, new r: Result<bool>)
      reads ctx
    {
      var args := IoRegs(plat, old(ctx.mode), old(ctx.mem));
      var setup := EcallCycle(CycleState.MachineEcall, HostWrite, 0, 0, 0);
      match CheckIoLength(plat, args.ptr, args.len)
      case Err(e) =>
        r == Err(e) && PcModeMemUnchanged() && ctx.trace == old(ctx.trace) + [setup]
      case Ok(_) =>
        && r == Ok(false)
        && ctx.pc == Add(old(ctx.pc), WORD_SIZE) && ctx.mode == old(ctx.mode)
        && ctx.mem == old(ctx.mem)[RegStoreSlot(plat, old(ctx.mode), REG_A0) :=
             host.write(args.fd, PeekBytes(old(ctx.mem), args.ptr, args.len))]
        && ctx.trace == old(ctx.trace) + [setup, EcallCycle(HostWrite, Decode, 0, 0, 0)]
    }

    /** Outcome of `ecall_read`: a bad length fails after the first report and before
        anything else; otherwise the state is the one `ReadSpec` computes. */
    twostate predicate ReadDone(host: Host, new r: Result<bool>)
      reads ctx
    {
      var args := IoRegs(plat, old(ctx.mode), old(ctx.mem));
      var spec := ReadSpec(plat, old(ctx.mode), old(ctx.pc), old(ctx.mem), old(ctx.trace), host);
      && ctx.mode == old(ctx.mode)
      && (CheckIoLength(plat, args.ptr, args.len).Err? ==>
            PcModeMemUnchanged()
            && ctx.trace == old(ctx.trace) + [EcallCycle(CycleState.MachineEcall, HostReadSetup, 0, 0, 0)])
      && (spec.Err? ==> r == Err(spec.error))
      && (spec.Ok? ==>
            && r == Ok(false) && ctx.pc == spec.value.pc && ctx.mem == spec.value.mem
            && ctx.trace == spec.value.trace)
    }

    /** Outcome of `machine_ecall`: dispatch on A7; an unknown number is the
        `unimplemented!` panic and changes nothing. */
    twostate predicate MachineEcallDone(host: Host, new r: Result<bool>)
      reads ctx
    {
      var op := Load(old(ctx.mem), RegSlot(plat, old(ctx.mode), REG_A7));
      if op == plat.ecallTerminate then TerminateDone(r)
      else if op == plat.ecallRead then ReadDone(host, r)
      else if op == plat.ecallWrite then WriteDone(host, r)
      else if op == plat.ecallPoseidon2 then PoseidonDone(r)
      else r == Err(Unimplemented) && PcModeMemUnchanged() && ctx.trace == old(ctx.trace)
    }

    // -------------------------------------------------------------------------
    // Registers and memory

    method LoadRegister(idx: nat) returns (v: u32)
      ensures v == Load(ctx.mem, RegSlot(plat, ctx.mode, idx))
    {
      v := ctx.LoadRegister(RegsBase(plat, ctx.mode), idx);
    }

    /** `store_register`: the bank of the current mode, with x0 redirected. */
    method StoreRegister(idx: nat, word: u32)
      modifies ctx`mem
      ensures ctx.mem == old(ctx.mem)[RegStoreSlot(plat, ctx.mode, idx) := word]
    {
      var base := RegsBase(plat, ctx.mode);
      if idx == REG_ZERO {
        base := base + 2 * REG_MAX;
      }
      ctx.StoreRegister(base, idx, word);
    }

    method LoadMemory(w: nat) returns (v: u32)
      ensures v == Load(ctx.mem, w)
    {
      v := ctx.LoadU32(w);
    }

    method StoreMemory(w: nat, v: u32)
      modifies ctx`mem
      ensures ctx.mem == old(ctx.mem)[w := v]
    {
      ctx.StoreU32(w, v);
    }

    method NextPc()
      modifies ctx`pc
      ensures ctx.pc == Add(old(ctx.pc), WORD_SIZE)
    {
      ctx.pc := Add(ctx.pc, WORD_SIZE);
    }

    /** `peek_u8`: the byte at `ptr`, read without an instrumented access. */
    method PeekU8(ptr: u32) returns (b: u8)
      ensures b == ByteAt(ctx.mem, ptr)
    {
      var word := ctx.PeekU32(WAddr(ptr));
      var bytes := ToLeBytes(word);
      ToLeBytesByteOf(word, SubAddr(ptr));
      b := bytes[SubAddr(ptr)];
    }

    /** `peek`: `len` bytes from `ptr` on, one `peek_u8` each; memory is not changed. */
    method Peek(ptr: u32, len: u32) returns (bytes: seq<u8>)
      ensures |bytes| == len
      ensures forall k :: 0 <= k < len ==> bytes[k] == ByteAt(ctx.mem, Add(ptr, k))
    {
      bytes := seq(len, _ => 0);
      var i := 0;
      while i < len
        invariant 0 <= i <= len && |bytes| == len
        invariant forall k :: 0 <= k < i ==> bytes[k] == ByteAt(ctx.mem, Add(ptr, k))
      {
        var b := PeekU8(Add(ptr, i));
        bytes := bytes[i := b];
        i := i + 1;
      }
    }

    /** `store_u8`: read the word, replace one byte, write the word back. */
    method StoreU8(addr: u32, b: u8)
      modifies ctx`mem
      ensures ctx.mem == StoreByte(old(ctx.mem), addr, b)
    {
      var offset := SubAddr(addr);
      var word := LoadMemory(WAddr(addr));
      var bytes := ToLeBytes(word);
      StoreViaLeBytes(word, offset, b);
      bytes := bytes[offset := b];
      StoreMemory(WAddr(addr), FromLeBytes(bytes));
    }

    // -------------------------------------------------------------------------
    // Suspend and resume

    /** `suspend`: pc and mode are saved in the two suspend slots, nothing else. */
    method Suspend()
      modifies ctx`mem, ctx`trace
      ensures ctx.mem == SuspendImage(plat, old(ctx.mem), ctx.pc, ctx.mode)
      ensures ctx.trace == old(ctx.trace) + [Suspended]
    {
      StoreMemory(WAddr(plat.suspendPcAddr), ctx.pc);
      StoreMemory(WAddr(plat.suspendModeAddr), ctx.mode);
      ctx.SuspendHook();
    }

    /** `resume`: pc and mode are taken from the two suspend slots. */
    method Resume()
      modifies ctx`pc, ctx`mode, ctx`trace
      ensures ctx.pc == Load(ctx.mem, WAddr(plat.suspendPcAddr))
      ensures ctx.mode == Load(ctx.mem, WAddr(plat.suspendModeAddr))
      ensures ctx.trace == old(ctx.trace) + [Resumed]
    {
      var pc := LoadMemory(WAddr(plat.suspendPcAddr));
      var mode := LoadMemory(WAddr(plat.suspendModeAddr));
      ctx.pc := pc;
      ctx.mode := mode;
      ctx.ResumeHook();
    }

    // -------------------------------------------------------------------------
    // Traps

    /** `enter_trap`: refused in machine mode. */
    method EnterTrap(target: u32) returns (r: Result<()>)
      modifies ctx`pc, ctx`mode, ctx`mem
      ensures IsMachine(old(ctx.mode)) ==> r == Err(IllegalTrapInMachineMode) && PcModeMemUnchanged()
      ensures !IsMachine(old(ctx.mode)) ==> r == Ok(()) && EnteredTrap(target)
    {
      if IsMachineMode() {
        return Err(IllegalTrapInMachineMode);
      }
      var pc := ctx.pc;
      StoreMemory(WAddr(plat.mepcAddr), pc);
      ctx.pc := target;
      ctx.mode := 1;
      return Ok(());
    }

    /** `trap`: rewind, look the cause up in the trap table, check the entry and
        enter the trap there. */
    method Trap(cause: TrapCause) returns (r: Result<bool>)
      modifies ctx
      ensures TrapDone(cause, r)
    {
      ctx.TrapRewind();
      var entry := LoadMemory(WAddr(plat.trapDispatchAddr) + cause.AsU32());
      if !IsAligned(entry) || !plat.isKernelMemory(entry) {
        return Err(InvalidTrapAddress);
      }
      var entered := EnterTrap(entry);
      if entered.Err? {
        return Err(entered.error);
      }
      ctx.TrapHook(cause);
      return Ok(false);
    }

    /** `mret`: only in machine mode; returns to the saved pc plus one word, in user
        mode. */
    method Mret() returns (r: Result<bool>)
      modifies ctx`pc, ctx`mode
      ensures !IsMachine(old(ctx.mode)) ==> r == Err(IllegalMretInUserMode) && PcModeMemUnchanged()
      ensures IsMachine(old(ctx.mode)) ==>
        && r == Ok(true)
        && ctx.pc == Add(Load(ctx.mem, WAddr(plat.mepcAddr)), WORD_SIZE)
        && ctx.mode == 0
    {
      if !IsMachineMode() {
        return Err(IllegalMretInUserMode);
      }
      var saved := LoadMemory(WAddr(plat.mepcAddr));
      ctx.pc := Add(saved, WORD_SIZE);
      ctx.mode := 0;
      return Ok(true);
    }

    // -------------------------------------------------------------------------
    // Ecalls

    /** `ecall`: machine ecall in machine mode, user ecall otherwise. */
    method Ecall(host: Host) returns (r: Result<bool>)
      modifies ctx
      ensures IsMachine(old(ctx.mode)) ==> MachineEcallDone(host, r)
      ensures !IsMachine(old(ctx.mode)) ==> UserEcallDone(r)
    {
      if IsMachineMode() {
        r := MachineEcall(host);
      } else {
        r := UserEcall();
      }
    }

    method MachineEcall(host: Host) returns (r: Result<bool>)
      modifies ctx
      ensures MachineEcallDone(host, r)
    {
      var op := LoadRegister(REG_A7);
      if op == plat.ecallTerminate {
        r := EcallTerminate();
      } else if op == plat.ecallRead {
        r := EcallRead(host);
      } else if op == plat.ecallWrite {
        r := EcallWrite(host);
      } else if op == plat.ecallPoseidon2 {
        r := EcallPoseidon2();
      } else {
        r := Err(Unimplemented);
      }
    }

    method UserEcall() returns (r: Result<bool>)
      modifies ctx
      ensures UserEcallDone(r)
    {
      var idx := LoadRegister(REG_A7);
      if idx >= plat.syscallMax {
        r := Trap(EnvironmentCallFromUserMode);
        return;
      }
      var entry := LoadMemory(WAddr(plat.ecallDispatchAddr) + idx);
      if IsAligned(entry) || entry < plat.kernelStart {
        r := Trap(EnvironmentCallFromUserMode);
        return;
      }
      var entered := EnterTrap(entry);
      if entered.Err? {
        return Err(entered.error);
      }
      return Ok(true);
    }

    method EcallTerminate() returns (r: Result<bool>)
      modifies ctx`trace
      ensures TerminateDone(r)
    {
      ctx.OnEcallCycle(CycleState.MachineEcall, Terminate, 0, 0, 0);
      var a0 := LoadMemory(WAddr(plat.userRegsAddr) + REG_A0);
      var a1 := LoadMemory(WAddr(plat.userRegsAddr) + REG_A1);
      ctx.OnTerminate(a0, a1);
      ctx.OnEcallCycle(Terminate, CycleState.Suspend, 0, 0, 0);
      return Ok(false);
    }

    method EcallPoseidon2() returns (r: Result<bool>)
      modifies ctx`pc, ctx`trace
      ensures PoseidonDone(r)
    {
      NextPc();
      ctx.OnEcallCycle(CycleState.MachineEcall, PoseidonEntry, 0, 0, 0);
      return Ok(false);
    }

    method EcallWrite(host: Host) returns (r: Result<bool>)
      modifies ctx`pc, ctx`mem, ctx`trace
      ensures WriteDone(host, r)
    {
      ctx.OnEcallCycle(CycleState.MachineEcall, HostWrite, 0, 0, 0);
      var fd := LoadRegister(REG_A0);
      var ptr := LoadRegister(REG_A1);
      var len := LoadRegister(REG_A2);
      if Add(ptr, len) < ptr {
        return Err(InvalidLength);
      }
      if len > plat.maxIoBytes {
        return Err(InvalidLengthTooBig);
      }
      var bytes := Peek(ptr, len);
      assert bytes == PeekBytes(ctx.mem, ptr, len);
      var rlen := host.write(fd, bytes);
      StoreRegister(REG_A0, rlen);
      NextPc();
      ctx.OnEcallCycle(HostWrite, Decode, 0, 0, 0);
      return Ok(false);
    }

    /** The state of the loops of `ecall_read` as the functions of `HostIo` see it. */
    function Snapshot(ptr: u32, i: nat, rlen: nat, cur: CycleState): IoState
      reads ctx
    {
      IoState(ptr, i, rlen, ctx.mem, ctx.pc, cur, ctx.trace)
    }

    method EcallRead(host: Host) returns (r: Result<bool>)
      modifies ctx
      ensures ReadDone(host, r)
    {
      ctx.OnEcallCycle(CycleState.MachineEcall, HostReadSetup, 0, 0, 0);
      var cur := HostReadSetup;
      var fd := LoadRegister(REG_A0);
      var ptr := LoadRegister(REG_A1);
      var len := LoadRegister(REG_A2);
      if Add(ptr, len) < ptr {
        return Err(InvalidLength);
      }
      if len > plat.maxIoBytes {
        return Err(InvalidLengthTooBig);
      }
      var data := host.read(fd, len);
      var bytes := ReadBuffer(data, len);
      var rlen: nat := |data|;
      StoreRegister(REG_A0, rlen);
      if rlen == 0 {
        NextPc();
      }
      var next := NextIoState(ptr, rlen);
      ctx.OnEcallCycle(cur, next, WAddr(ptr), SubAddr(ptr), rlen);
      cur := next;
      var i: nat := 0;
      assert Snapshot(ptr, i, rlen, cur)
          == ReadStart(plat, old(ctx.mode), old(ctx.pc), old(ctx.mem), old(ctx.trace), ptr, data);

      var ok := ReadLoops(bytes, ptr, rlen, cur);
      if !ok {
        return Err(SliceOutOfRange);
      }
      return Ok(false);
    }

    /** The data phases of `ecall_read` after `host_read`; `ok` is false when a batch
        slices past the end of the buffer. */
    method ReadLoops(bytes: seq<u8>, ptr0: u32, rlen0: nat, cur0: CycleState) returns (ok: bool)
      requires Fits(bytes, Snapshot(ptr0, 0, rlen0, cur0))
      modifies ctx`mem, ctx`pc, ctx`trace
      ensures ok == ReadPhases(plat, bytes, old(Snapshot(ptr0, 0, rlen0, cur0))).Ok?
      ensures ok ==> var t := ReadPhases(plat, bytes, old(Snapshot(ptr0, 0, rlen0, cur0))).value;
                     ctx.pc == t.pc && ctx.mem == t.mem && ctx.trace == t.trace
    {
      var ptr, i, rlen := ReadByteLoop(bytes, ptr0, 0, rlen0, cur0);
      var cur;
      ok, ptr, i, rlen, cur := ReadWordPhase(bytes, ptr, i, rlen, cur0);
      if !ok {
        return;
      }
      ptr, i, rlen := ReadByteLoop(bytes, ptr, i, rlen, cur);
    }

    /** A byte loop of `ecall_read`: `store_u8` while bytes are left and the pointer
        is not aligned. */
    method ReadByteLoop(bytes: seq<u8>, ptr0: u32, i0: nat, rlen0: nat, cur: CycleState)
      returns (ptr: u32, i: nat, rlen: nat)
      requires Fits(bytes, Snapshot(ptr0, i0, rlen0, cur))
      modifies ctx`mem
      ensures Snapshot(ptr, i, rlen, cur) == ByteLoop(bytes, old(Snapshot(ptr0, i0, rlen0, cur)))
    {
      ptr, i, rlen := ptr0, i0, rlen0;
      while rlen > 0 && !IsAligned(ptr)
        invariant Fits(bytes, Snapshot(ptr, i, rlen, cur))
        invariant ByteLoop(bytes, Snapshot(ptr, i, rlen, cur))
               == ByteLoop(bytes, old(Snapshot(ptr0, i0, rlen0, cur)))
        decreases rlen
      {
        StoreU8(ptr, bytes[i]);
        ptr := ptr + 1;
        i := i + 1;
        rlen := rlen - 1;
      }
    }

    /** The word phase of `ecall_read`: batches while `rlen >= MAX_IO_WORDS`, each
        followed by `next_pc` when nothing is left and by a report. `ok` is false
        when a batch slices past the end of the buffer. */
    method ReadWordPhase(bytes: seq<u8>, ptr0: u32, i0: nat, rlen0: nat, cur0: CycleState)
      returns (ok: bool, ptr: u32, i: nat, rlen: nat, cur: CycleState)
      requires Fits(bytes, Snapshot(ptr0, i0, rlen0, cur0))
      modifies ctx`mem, ctx`pc, ctx`trace
      ensures ok == Batches(plat, bytes, old(Snapshot(ptr0, i0, rlen0, cur0))).Ok?
      ensures ok ==> Snapshot(ptr, i, rlen, cur)
                     == Batches(plat, bytes, old(Snapshot(ptr0, i0, rlen0, cur0))).value
    {
      ptr, i, rlen, cur := ptr0, i0, rlen0, cur0;
      while rlen >= plat.maxIoWords
        invariant Fits(bytes, Snapshot(ptr, i, rlen, cur))
        invariant Batches(plat, bytes, Snapshot(ptr, i, rlen, cur))
               == Batches(plat, bytes, old(Snapshot(ptr0, i0, rlen0, cur0)))
        decreases rlen
      {
        var words := if rlen / plat.maxIoWords < plat.maxIoWords then rlen / plat.maxIoWords
                     else plat.maxIoWords;
        assert words == BatchWords(plat, rlen);
        ghost var b0 := Snapshot(ptr, i, rlen, cur);
        ok, ptr, i, rlen := ReadBatch(bytes, ptr, i, rlen, cur, words);
        if !ok {
          return;
        }
        if rlen == 0 {
          NextPc();
        }
        var next := NextIoState(ptr, rlen);
        ctx.OnEcallCycle(cur, next, WAddr(ptr), SubAddr(ptr), rlen);
        cur := next;
      }
      ok := true;
    }

    /** One batch: `for j in 0..MAX_IO_WORDS`, each slot storing a buffer word or a
        zero into the safe-write slot, and moving `ptr`, `i` and `rlen` by `words`. */
    method ReadBatch(bytes: seq<u8>, ptr0: u32, i0: nat, rlen0: nat, cur: CycleState, words: nat)
      returns (ok: bool, ptr: u32, i: nat, rlen: nat)
      requires 1 <= words && Span(plat.maxIoWords, words) <= rlen0
      requires Fits(bytes, Snapshot(ptr0, i0, rlen0, cur))
      modifies ctx`mem
      ensures ok == BatchSlots(plat, bytes, old(Snapshot(ptr0, i0, rlen0, cur)), words, 0).Ok?
      ensures ok ==> Snapshot(ptr, i, rlen, cur)
                     == BatchSlots(plat, bytes, old(Snapshot(ptr0, i0, rlen0, cur)), words, 0).value
    {
      ptr, i, rlen := ptr0, i0, rlen0;
      ghost var target := BatchSlots(plat, bytes, Snapshot(ptr0, i0, rlen0, cur), words, 0);
      ghost var s := Snapshot(ptr0, i0, rlen0, cur);
      var j := 0;
      while j < plat.maxIoWords
        invariant j <= plat.maxIoWords && Span(plat.maxIoWords - j, words) <= s.rlen
        invariant s == Snapshot(ptr, i, rlen, cur)
        invariant Fits(bytes, s)
        invariant BatchSlots(plat, bytes, s, words, j) == target
        decreases plat.maxIoWords - j
      {
        BatchSlotStep(plat, bytes, s, words, j);
        ok, ptr, i, rlen := ReadSlot(bytes, ptr, i, rlen, cur, words, j);
        if !ok {
          return;
        }
        s := s.(mem := SlotStore(plat, bytes, s, words, j).value, ptr := s.ptr + words,
                i := s.i + words, rlen := s.rlen - words);
        j := j + 1;
      }
      ok := true;
    }

    /** Slot `j` of a batch: the store of `SlotStore`, then `ptr`, `i` and `rlen`
        move by `words`; `ok` is false when the slice is past the buffer's end. */
    method ReadSlot(bytes: seq<u8>, ptr0: u32, i0: nat, rlen0: nat, cur: CycleState,
                    words: nat, j: nat)
      returns (ok: bool, ptr: u32, i: nat, rlen: nat)
      requires words <= rlen0 && ptr0 + words < U32_LIMIT
      modifies ctx`mem
      ensures ok == SlotStore(plat, bytes, old(Snapshot(ptr0, i0, rlen0, cur)), words, j).Some?
      ensures ok ==> Snapshot(ptr, i, rlen, cur) == old(Snapshot(ptr0, i0, rlen0, cur)).(
                       mem := SlotStore(plat, bytes, old(Snapshot(ptr0, i0, rlen0, cur)), words, j).value,
                       ptr := ptr0 + words, i := i0 + words, rlen := rlen0 - words)
    {
      ptr, i, rlen := ptr0, i0, rlen0;
      if j < words {
        if i + WORD_SIZE > |bytes| {
          return false, ptr, i, rlen;
        }
        var word := FromLeBytes(bytes[i .. i + WORD_SIZE]);
        StoreMemory(WAddr(ptr), word);
      } else {
        StoreMemory(WAddr(plat.safeWriteAddr), 0);
      }
      ptr := ptr + words;
      i := i + words;
      rlen := rlen - words;
      ok := true;
    }
  }
}
