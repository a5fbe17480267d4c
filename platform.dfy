/** The platform layout the control-transfer engine relies on. The values of the
    memory layout, of the I/O limits and of the host ecall numbers belong to a
    platform module that is not part of this model: they are the fields of
    `Platform`, and `Wf` states the only facts the proofs use about them. The
    register numbers are those of the RISC-V integer register file. */
module Platform {
  import opened Addr

  // Register indices (RISC-V ABI names): x0, a0 = x10, a1, a2, a7 = x17.
  const REG_ZERO: nat := 0
  const REG_A0: nat := 10
  const REG_A1: nat := 11
  const REG_A2: nat := 12
  const REG_A7: nat := 17
  const REG_MAX: nat := 32

  /** Trap causes, numbered as the exception codes of the RISC-V `mcause` CSR. */
  datatype TrapCause =
    | InstructionAddressMisaligned
    | InstructionAccessFault
    | IllegalInstruction
    | Breakpoint
    | LoadAddressMisaligned
    | LoadAccessFault
    | StoreAddressMisaligned
    | StoreAccessFault
    | EnvironmentCallFromUserMode
  {
    function AsU32(): u32 {
      match this
      case InstructionAddressMisaligned => 0
      case InstructionAccessFault => 1
      case IllegalInstruction => 2
      case Breakpoint => 3
      case LoadAddressMisaligned => 4
      case LoadAccessFault => 5
      case StoreAddressMisaligned => 6
      case StoreAccessFault => 7
      case EnvironmentCallFromUserMode => 8
    }
  }

  /** Byte addresses of the fixed slots and tables, the limits and the host ecall
      numbers, and the two memory-region predicates. */
  datatype Platform = Platform(
    zeroPageEnd: u32,        // ZERO_PAGE_END_ADDR
    kernelStart: u32,        // KERNEL_START_ADDR
    machineRegsAddr: u32,    // MACHINE_REGS_ADDR
    userRegsAddr: u32,       // USER_REGS_ADDR
    mepcAddr: u32,           // MEPC_ADDR
    suspendPcAddr: u32,      // SUSPEND_PC_ADDR
    suspendModeAddr: u32,    // SUSPEND_MODE_ADDR
    safeWriteAddr: u32,      // SAFE_WRITE_ADDR
    ecallDispatchAddr: u32,  // ECALL_DISPATCH_ADDR
    trapDispatchAddr: u32,   // TRAP_DISPATCH_ADDR
    syscallMax: u32,         // SYSCALL_MAX
    maxIoBytes: u32,         // MAX_IO_BYTES
    maxIoWords: u32,         // MAX_IO_WORDS
    ecallTerminate: u32,     // HOST_ECALL_TERMINATE
    ecallRead: u32,          // HOST_ECALL_READ
    ecallWrite: u32,         // HOST_ECALL_WRITE
    ecallPoseidon2: u32,     // HOST_ECALL_POSEIDON2
    isKernelMemory: u32 -> bool,
    isUserMemory: u32 -> bool)
  {
    /** The assumptions made about the platform:
        - a word batch has at least one slot;
        - the two suspend slots are different words;
        - the two register banks do not overlap, and neither bank's x0 slot is the
          other bank's redirect slot for x0 (base + 2 * REG_MAX);
        - the four host ecall numbers are distinct. */
    predicate Wf() {
      && maxIoWords >= 1
      && WAddr(suspendPcAddr) != WAddr(suspendModeAddr)
      && (WAddr(userRegsAddr) >= WAddr(machineRegsAddr) + REG_MAX
          || WAddr(machineRegsAddr) >= WAddr(userRegsAddr) + REG_MAX)
      && WAddr(machineRegsAddr) + 2 * REG_MAX != WAddr(userRegsAddr)
      && WAddr(userRegsAddr) + 2 * REG_MAX != WAddr(machineRegsAddr)
      && ecallTerminate != ecallRead && ecallTerminate != ecallWrite
      && ecallTerminate != ecallPoseidon2 && ecallRead != ecallWrite
      && ecallRead != ecallPoseidon2 && ecallWrite != ecallPoseidon2
    }
  }

  /** One layout that meets the assumptions: registers, MEPC, the suspend slots and
      the dispatch tables at the top of the address space, kernel memory from
      0xc000_0000, a four-word batch and a 1 KiB I/O limit. */
  const ExamplePlatform: Platform := Platform(
    0x0001_0000, 0xc000_0000,
    0xffff_0000, 0xffff_0080, 0xffff_0200, 0xffff_0210, 0xffff_0214, 0xffff_0218,
    0xffff_1000, 0xffff_2000,
    512, 1024, 4,
    0, 1, 2, 3,
    (a: u32) => 0xc000_0000 <= a < 0xff00_0000,
    (a: u32) => 0x0001_0000 <= a < 0xc000_0000)

  type ValidPlatform = p: Platform | p.Wf() witness ExamplePlatform
}
