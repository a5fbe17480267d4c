# RISC Zero rv32im-v2 control-transfer engine in Dafny

This project models `Risc0Machine`, the control-transfer engine of the RISC Zero
v2 zkVM executor (`risc0/risc0/circuit/rv32im-v2/src/execute/r0vm.rs`). The engine
wraps a caller-supplied state store (`Risc0Context`) and gives the instruction
emulator the following:

- `ecall`. In machine mode this is the host ecalls terminate, read, write and
  poseidon2. In user mode the call is dispatched through the ecall table held in
  guest memory.
- `mret` and `trap`. A trap escalates to machine mode through the trap table.
- Register access on two banks held in memory, chosen by the mode. A store to x0
  is redirected to a word that no register load reads.
- `suspend` and `resume`, which checkpoint pc and mode in two fixed slots.
- Byte access inside little-endian words (`peek_u8`, `peek`, `store_u8`).
- The checks on instruction fetch, data loads and data stores.

Modules:

- `Addr`: byte and word addresses, and the wrapping `ByteAddr + u32`.
- `Bytes`: the little-endian bytes of a word, `to_le_bytes`/`from_le_bytes`, and
  the replacement of one byte.
- `Platform`: the platform layout and limits. They are abstract fields restricted
  by `Wf`. `ExamplePlatform` is one layout that meets `Wf`.
- `Cycle`: the `CycleState` phases, the hook calls recorded as events, and the
  error outcomes.
- `Context`: the state store as a class. It holds pc, the mode word,
  word-addressed memory and the trace of hook calls. It has the default
  `load_register`/`store_register` (the word at base + idx).
- `Registers`: bank selection and the x0 redirect.
- `HostIo`: the length check and the bytes `ecall_write` hands to the host. It
  also has the phases of `ecall_read` as functions, exactly as the loops run them
  (`ByteLoop`, `BatchSlots`, `Batches`, `ReadPhases`, `ReadSpec`).
- `R0vm`: the machine as a class over a `Context`. Each method of `r0vm.rs` is a
  method with the same branches and the same error conditions. The three loops of
  `ecall_read` and the inner `for j in 0..MAX_IO_WORDS` loop are proved equal to
  the `HostIo` functions.
- `ReadProps`: what `ecall_read` guarantees, proved about those functions.
  - Every phase report agrees with `next_io_state`, and the reports are chained.
  - pc moves on at most once.
  - The counters never lose a byte.
  - The words the read may change are known.
  - The bytes of the byte loops land at their addresses.
  - With at least four slots per batch, no batch slices past the buffer.
- `Findings`: three places where the code does not do what it evidently means to
  do (see "## Findings").

The machine follows the code as written, including three quirks:

- the inverted alignment test of `user_ecall`;
- the batch arithmetic of `ecall_read`;
- `mret` returning to the saved pc plus one word.

The corrected definitions of the findings stand beside the machine and are proved
there.

The context's hooks (`on_ecall_cycle`, `on_terminate`, `trap_rewind`, `trap`,
`suspend`, `resume`) are recorded as `Event`s in the context's `trace`, in program
order. `host_read` and `host_write` are an oracle, `Host`, passed to the ecall
methods. `host_read` gives back at most the requested number of bytes.

Three places in `ecall_read` and `user_ecall` contradict what the surrounding code
itself shows was meant. The model keeps the code as written, and `Findings`
proves the consequences:

- A data slot of a word batch stores the four-byte slice `bytes[i..i + WORD_SIZE]`
  at `ptr.waddr()` (r0vm.rs:209-214), so each slot covers one word. Yet every
  slot, padding slots included, moves `ptr`, `i` and `rlen` on by `words`
  (r0vm.rs:215-217). Slots then overwrite each other and words are skipped
  (finding 1).
- The word phase calls `next_pc` once `rlen` reaches zero (r0vm.rs:220-222), and
  `next_io_state` has a `Decode` case for the same condition (r0vm.rs:183-185).
  Neither byte loop does this (r0vm.rs:199-204, 230-235). The tail loop also
  stops at an aligned pointer, so a short aligned remainder is never copied
  (finding 2).
- `trap` refuses a table entry that is not aligned (r0vm.rs:330), but `user_ecall`
  refuses one that is aligned (r0vm.rs:143) (finding 3).

## Model

| member | source | states |
|---|---|---|
| Addr.Add | risc0/risc0/circuit/rv32im-v2/src/execute/r0vm.rs:169 | `ByteAddr + u32` is the true sum when it fits in 32 bits; otherwise it is the sum minus 2^32 and below the first operand |
| Addr.AddWrapsIff | risc0/risc0/circuit/rv32im-v2/src/execute/r0vm.rs:169-171 | the overflow test `ptr + len < ptr` holds exactly when the true sum leaves the 32-bit address space |
| Bytes.WordRoundTrip | risc0/risc0/circuit/rv32im-v2/src/execute/r0vm.rs:300-302 | `from_le_bytes(to_le_bytes(w)) == w` |
| Bytes.BytesRoundTrip | risc0/risc0/circuit/rv32im-v2/src/execute/r0vm.rs:300-302 | `to_le_bytes(from_le_bytes(b)) == b` for any four bytes |
| Bytes.ToLeBytesByteOf | risc0/risc0/circuit/rv32im-v2/src/execute/r0vm.rs:291-294 | byte k of `to_le_bytes(w)` is the k-th least significant byte of w |
| Bytes.SetByteBytes | risc0/risc0/circuit/rv32im-v2/src/execute/r0vm.rs:300-302 | replacing byte k puts the new byte there and leaves every other byte as it was |
| Bytes.SetByteBound | risc0/risc0/circuit/rv32im-v2/src/execute/r0vm.rs:300-302 | replacing a byte of a 32-bit word gives a 32-bit word |
| Bytes.WithByte | risc0/risc0/circuit/rv32im-v2/src/execute/r0vm.rs:298-302 | the rebuilt word holds the new byte at the store's offset |
| Bytes.StoreViaLeBytes | risc0/risc0/circuit/rv32im-v2/src/execute/r0vm.rs:299-302 | the round trip of `store_u8` through `to_le_bytes`, the byte update and `from_le_bytes` replaces exactly one byte of the word |
| Context.StoreByteReadBack | risc0/risc0/circuit/rv32im-v2/src/execute/r0vm.rs:297-304 | a byte store is read back at its address; every other byte, including the other three of the same word, is unchanged; no other word is written |
| Context.Context.LoadRegister | risc0/risc0/circuit/rv32im-v2/src/execute/r0vm.rs:44-46 | the default `load_register` reads the word at base + idx |
| Context.Context.StoreRegister | risc0/risc0/circuit/rv32im-v2/src/execute/r0vm.rs:48-50 | the default `store_register` writes the word at base + idx and no other |
| Context.Context.PeekU32 | risc0/risc0/circuit/rv32im-v2/src/execute/r0vm.rs:42 | gives the word at the address |
| Context.Context.LoadU32 | risc0/risc0/circuit/rv32im-v2/src/execute/r0vm.rs:52 | gives the word at the address |
| Context.Context.StoreU32 | risc0/risc0/circuit/rv32im-v2/src/execute/r0vm.rs:54 | writes the word at the address and no other |
| Context.Context.OnEcallCycle | risc0/risc0/circuit/rv32im-v2/src/execute/r0vm.rs:56-63 | records the transition and its three payload words, and nothing else |
| Context.Context.OnTerminate | risc0/risc0/circuit/rv32im-v2/src/execute/r0vm.rs:65 | records the two exit words, and nothing else |
| Context.Context.SuspendHook | risc0/risc0/circuit/rv32im-v2/src/execute/r0vm.rs:67-70 | records the suspend hook, and nothing else |
| Context.Context.ResumeHook | risc0/risc0/circuit/rv32im-v2/src/execute/r0vm.rs:72-75 | records the resume hook, and nothing else |
| Context.Context.TrapRewind | risc0/risc0/circuit/rv32im-v2/src/execute/r0vm.rs:77-79 | records the rewind, and nothing else |
| Context.Context.TrapHook | risc0/risc0/circuit/rv32im-v2/src/execute/r0vm.rs:81-83 | records the trap and its cause, and nothing else |
| Registers.RegsBase | risc0/risc0/circuit/rv32im-v2/src/execute/r0vm.rs:356-360 | a non-zero mode word selects the machine bank, zero the user bank |
| Registers.RegStoreSlot | risc0/risc0/circuit/rv32im-v2/src/execute/r0vm.rs:366-378 | a store to x0 goes to base + 2 * REG_MAX; a store to any other register goes to the word its load reads |
| Registers.RegisterStoreTargets | risc0/risc0/circuit/rv32im-v2/src/execute/r0vm.rs:372-378 | no register store, in either mode, writes the word either mode reads as x0 |
| HostIo.CheckIoLength | risc0/risc0/circuit/rv32im-v2/src/execute/r0vm.rs:169-174 | a length passes exactly when `ptr + len` does not wrap and `len <= MAX_IO_BYTES`; a wrap gives the invalid-length error, and a length too big gives the too-big error |
| HostIo.IoRegs | risc0/risc0/circuit/rv32im-v2/src/execute/r0vm.rs:166-168 | fd, ptr and len are A0, A1 and A2 of the bank of the current mode (no contract of its own) |
| HostIo.PeekBytes | risc0/risc0/circuit/rv32im-v2/src/execute/r0vm.rs:282-288 | `peek` gives exactly `len` bytes |
| HostIo.NextIoState | risc0/risc0/circuit/rv32im-v2/src/execute/r0vm.rs:182-190 | Decode exactly when nothing is left; HostReadWords exactly when the pointer is aligned and a whole word is left; HostReadBytes otherwise |
| HostIo.ByteLoop | risc0/risc0/circuit/rv32im-v2/src/execute/r0vm.rs:199-204 | the byte loop keeps `ptr + rlen` and `i + rlen`; it stops with nothing left or an aligned pointer; it leaves pc, cycle state and trace alone |
| HostIo.BatchWords | risc0/risc0/circuit/rv32im-v2/src/execute/r0vm.rs:207 | `min(rlen / MAX_IO_WORDS, MAX_IO_WORDS)` is at least one, and a batch's `MAX_IO_WORDS` moves of `words` fit in the count left |
| HostIo.BatchSlots | risc0/risc0/circuit/rv32im-v2/src/execute/r0vm.rs:208-218 | the slots of a batch move `ptr`, `i` and `rlen` by `words` each, padding slots included; the only failure is an out-of-range slice |
| HostIo.SlotStore | risc0/risc0/circuit/rv32im-v2/src/execute/r0vm.rs:209-214 | the store of one batch slot (no contract of its own; see `SlotStoreWrites`) |
| HostIo.SlotStoreWrites | risc0/risc0/circuit/rv32im-v2/src/execute/r0vm.rs:209-214 | a slot fails only when a data slot's slice passes the buffer's end; a data slot writes the buffer word at `i` into the word of `ptr`; a padding slot writes zero into the safe-write slot; no other word changes |
| HostIo.Batches | risc0/risc0/circuit/rv32im-v2/src/execute/r0vm.rs:206-228 | the word phase leaves fewer than `MAX_IO_WORDS` bytes, never more than it found, and keeps `ptr + rlen` and `i + rlen` |
| HostIo.ReadPhases | risc0/risc0/circuit/rv32im-v2/src/execute/r0vm.rs:197-235 | the data phases fail only by an out-of-range slice |
| HostIo.ReadBuffer | risc0/risc0/circuit/rv32im-v2/src/execute/r0vm.rs:175-176 | the buffer has `len` bytes and starts with what the host returned |
| HostIo.ReadStart | risc0/risc0/circuit/rv32im-v2/src/execute/r0vm.rs:163-195 | after the host call: A0 holds the host's count, nothing is consumed yet, pc moved on exactly when the count is zero, the state is `next_io_state` of the pointer and count, and two reports were added |
| HostIo.ReadSpec | risc0/risc0/circuit/rv32im-v2/src/execute/r0vm.rs:162-239 | the whole read as a function of the state before it; a failed length check gives that check's error, and any later failure is the out-of-range slice |
| ReadProps.ReportConforms | risc0/risc0/circuit/rv32im-v2/src/execute/r0vm.rs:192-194 | a phase report carries the pointer's word address, its sub-address, the count left and `next_io_state` of them |
| ReadProps.ReadStartInv | risc0/risc0/circuit/rv32im-v2/src/execute/r0vm.rs:163-195 | after the host call and the first report, the read invariant holds: setup report first, reports chained and conforming, pc moved on exactly when Decode was reported |
| ReadProps.ReportStep | risc0/risc0/circuit/rv32im-v2/src/execute/r0vm.rs:220-227 | `next_pc` when nothing is left, followed by a report, keeps the read invariant |
| ReadProps.BatchesInv | risc0/risc0/circuit/rv32im-v2/src/execute/r0vm.rs:206-228 | the word phase keeps the read invariant |
| ReadProps.ReadPc | risc0/risc0/circuit/rv32im-v2/src/execute/r0vm.rs:176-235 | after a read, pc has moved on one word or not at all; it moved exactly when Decode was the last report, and then nothing is left; every report conforms to `next_io_state` |
| ReadProps.ReadCount | risc0/risc0/circuit/rv32im-v2/src/execute/r0vm.rs:197-235 | at the end of a read, bytes consumed plus bytes left equal the host's count, and the pointer moved by the bytes consumed |
| ReadProps.ByteLoopFrame | risc0/risc0/circuit/rv32im-v2/src/execute/r0vm.rs:199-204 | the byte loop writes only words of the destination range |
| ReadProps.BatchSlotsFrame | risc0/risc0/circuit/rv32im-v2/src/execute/r0vm.rs:208-218 | a batch writes only words of the destination range and the safe-write slot |
| ReadProps.BatchesFrame | risc0/risc0/circuit/rv32im-v2/src/execute/r0vm.rs:206-228 | the word phase writes only words of the destination range and the safe-write slot |
| ReadProps.ReadFrame | risc0/risc0/circuit/rv32im-v2/src/execute/r0vm.rs:162-239 | a read changes no word except the A0 slot, the safe-write slot and the words holding `ptr .. ptr + count` |
| ReadProps.ReadSetsA0 | risc0/risc0/circuit/rv32im-v2/src/execute/r0vm.rs:176-177 | after a read, A0 holds the number of bytes the host returned, unless the destination range or the safe-write slot covers the A0 slot itself |
| ReadProps.ByteLoopLands | risc0/risc0/circuit/rv32im-v2/src/execute/r0vm.rs:199-204 | each byte the byte loop consumes is stored at its own address |
| ReadProps.ByteLoopKeeps | risc0/risc0/circuit/rv32im-v2/src/execute/r0vm.rs:199-204 | the byte loop changes no byte outside the range it stepped over |
| ReadProps.ByteLoopAligned | risc0/risc0/circuit/rv32im-v2/src/execute/r0vm.rs:199 | from an aligned pointer the byte loop does nothing |
| ReadProps.BatchSlotsInRange | risc0/risc0/circuit/rv32im-v2/src/execute/r0vm.rs:209-211 | with at least four slots per batch, no data slot slices past the buffer |
| ReadProps.BatchesInRange | risc0/risc0/circuit/rv32im-v2/src/execute/r0vm.rs:206-228 | with at least four slots per batch, the word phase never fails |
| ReadProps.ReadNeverSlicesOut | risc0/risc0/circuit/rv32im-v2/src/execute/r0vm.rs:162-239 | with at least four slots per batch, a read fails exactly when its length check fails |
| ReadProps.EmptyRead | risc0/risc0/circuit/rv32im-v2/src/execute/r0vm.rs:176-195 | when the host returns nothing: A0 becomes 0, pc moves on one word, the reports are setup then straight to Decode, and nothing else changes |
| R0vm.SuspendImage | risc0/risc0/circuit/rv32im-v2/src/execute/r0vm.rs:101-104 | after `suspend` the two slots hold pc and mode and every other word is as it was, so `resume` reads back exactly pc and mode |
| R0vm.CheckInsnLoad | risc0/risc0/circuit/rv32im-v2/src/execute/r0vm.rs:389-391 | machine mode fetches exactly outside the zero page; user mode fetches exactly between the zero page's end and the kernel's start |
| R0vm.UserEntryAccepted | risc0/risc0/circuit/rv32im-v2/src/execute/r0vm.rs:138-145 | the test of `user_ecall` as written: an index below SYSCALL_MAX and an entry that is not aligned and not below the kernel (no contract of its own; see `UserEcall`) |
| R0vm.UserEntry | risc0/risc0/circuit/rv32im-v2/src/execute/r0vm.rs:142 | the ecall table entry for an index (no contract of its own) |
| R0vm.TrapEntryValid | risc0/risc0/circuit/rv32im-v2/src/execute/r0vm.rs:330 | the test of `trap`: the entry is aligned and in kernel memory (no contract of its own; see `Trap`) |
| R0vm.TrapEntry | risc0/risc0/circuit/rv32im-v2/src/execute/r0vm.rs:328-329 | the trap table entry for a cause (no contract of its own) |
| R0vm.CheckDataLoad | risc0/risc0/circuit/rv32im-v2/src/execute/r0vm.rs:393-395 | machine mode may load anywhere; user mode may load exactly from user memory |
| R0vm.CheckDataStore | risc0/risc0/circuit/rv32im-v2/src/execute/r0vm.rs:397-399 | a store is allowed exactly when `check_data_load` allows the same address: in machine mode always, in user mode exactly for user memory |
| R0vm.Risc0Machine.LoadRegister | risc0/risc0/circuit/rv32im-v2/src/execute/r0vm.rs:354-362 | reads the register's word in the bank of the current mode |
| R0vm.Risc0Machine.IsMachineMode | risc0/risc0/circuit/rv32im-v2/src/execute/r0vm.rs:118-120 | machine mode is any non-zero mode word (no contract of its own) |
| R0vm.Risc0Machine.StoreRegister | risc0/risc0/circuit/rv32im-v2/src/execute/r0vm.rs:364-379 | writes only the register's store slot in the current bank, redirected for x0 |
| R0vm.Risc0Machine.LoadMemory | risc0/risc0/circuit/rv32im-v2/src/execute/r0vm.rs:381-383 | gives the word at the address |
| R0vm.Risc0Machine.StoreMemory | risc0/risc0/circuit/rv32im-v2/src/execute/r0vm.rs:385-387 | writes the word at the address and no other |
| R0vm.Risc0Machine.NextPc | risc0/risc0/circuit/rv32im-v2/src/execute/r0vm.rs:122-124 | pc moves on one word, wrapping |
| R0vm.Risc0Machine.PeekU8 | risc0/risc0/circuit/rv32im-v2/src/execute/r0vm.rs:290-295 | gives the little-endian byte at the address |
| R0vm.Risc0Machine.Peek | risc0/risc0/circuit/rv32im-v2/src/execute/r0vm.rs:282-288 | gives `len` bytes, the k-th being the byte at `ptr + k`, and changes nothing |
| R0vm.Risc0Machine.StoreU8 | risc0/risc0/circuit/rv32im-v2/src/execute/r0vm.rs:297-304 | memory becomes the byte store of the address (see `StoreByteReadBack`) |
| R0vm.Risc0Machine.Suspend | risc0/risc0/circuit/rv32im-v2/src/execute/r0vm.rs:100-105 | memory becomes the suspend image of pc and mode; the suspend hook is recorded |
| R0vm.Risc0Machine.Resume | risc0/risc0/circuit/rv32im-v2/src/execute/r0vm.rs:107-116 | pc and mode are the words of the two suspend slots; the resume hook is recorded |
| R0vm.Risc0Machine.EnterTrap | risc0/risc0/circuit/rv32im-v2/src/execute/r0vm.rs:271-280 | fails in machine mode and changes nothing; otherwise the old pc is saved at MEPC, pc becomes the target and the mode becomes 1 |
| R0vm.Risc0Machine.Trap | risc0/risc0/circuit/rv32im-v2/src/execute/r0vm.rs:326-336 | after the rewind: an unaligned or non-kernel table entry is fatal; a trap in machine mode is fatal; otherwise the trap is entered at the entry, the trap hook is recorded, and the result is false |
| R0vm.Risc0Machine.Mret | risc0/risc0/circuit/rv32im-v2/src/execute/r0vm.rs:316-324 | fails in user mode and changes nothing; otherwise pc is the word at MEPC plus one word, the mode is 0 and the result is true |
| R0vm.Risc0Machine.Ecall | risc0/risc0/circuit/rv32im-v2/src/execute/r0vm.rs:308-314 | a machine ecall exactly when the mode word is non-zero, a user ecall otherwise |
| R0vm.Risc0Machine.MachineEcall | risc0/risc0/circuit/rv32im-v2/src/execute/r0vm.rs:126-134 | dispatches on A7 to terminate, read, write or poseidon2; any other number is the unimplemented failure and changes nothing |
| R0vm.Risc0Machine.UserEcall | risc0/risc0/circuit/rv32im-v2/src/execute/r0vm.rs:136-149 | an index at or past SYSCALL_MAX, an aligned entry or an entry below the kernel becomes an `EnvironmentCallFromUserMode` trap; otherwise the trap is entered at the entry and the result is true |
| R0vm.Risc0Machine.EcallTerminate | risc0/risc0/circuit/rv32im-v2/src/execute/r0vm.rs:151-160 | pc, mode and memory stay; the reports are MachineEcall to Terminate, then `on_terminate` with the user bank's A0 and A1, then Terminate to Suspend; the result is false |
| R0vm.Risc0Machine.EcallPoseidon2 | risc0/risc0/circuit/rv32im-v2/src/execute/r0vm.rs:263-269 | pc moves on one word; MachineEcall to PoseidonEntry is reported; the result is false |
| R0vm.Risc0Machine.EcallWrite | risc0/risc0/circuit/rv32im-v2/src/execute/r0vm.rs:241-261 | a bad length fails after the setup report and changes nothing else; otherwise the host gets the `len` bytes peeked at `ptr`, only A0 is written (with the host's count), pc moves on one word, the reports are exactly MachineEcall to HostWrite then HostWrite to Decode, and the result is false |
| R0vm.Risc0Machine.EcallRead | risc0/risc0/circuit/rv32im-v2/src/execute/r0vm.rs:162-239 | a bad length fails after the setup report and changes nothing else; otherwise the new pc, memory and trace are those of `ReadSpec`, whose properties are the `ReadProps` rows |
| R0vm.Risc0Machine.ReadLoops | risc0/risc0/circuit/rv32im-v2/src/execute/r0vm.rs:197-235 | the three loops end in the state `ReadPhases` computes, or fail exactly when it does |
| R0vm.Risc0Machine.ReadByteLoop | risc0/risc0/circuit/rv32im-v2/src/execute/r0vm.rs:199-204 | the loop ends in the state `ByteLoop` computes |
| R0vm.Risc0Machine.ReadWordPhase | risc0/risc0/circuit/rv32im-v2/src/execute/r0vm.rs:206-228 | the loop ends in the state `Batches` computes, or fails exactly when it does |
| R0vm.Risc0Machine.ReadBatch | risc0/risc0/circuit/rv32im-v2/src/execute/r0vm.rs:208-218 | the `for j` loop ends in the state `BatchSlots` computes, or fails exactly when it does |
| R0vm.Risc0Machine.ReadSlot | risc0/risc0/circuit/rv32im-v2/src/execute/r0vm.rs:209-217 | one slot makes the store of `SlotStore` and moves `ptr`, `i` and `rlen` by `words` |
| Findings.BatchStrideScenario | risc0/risc0/circuit/rv32im-v2/src/execute/r0vm.rs:206-218 | as written, an eight-byte read (a machine ecall) to 0x1000 leaves bytes 3..6 in the first word and the word at 0x1004 unwritten, yet pc moves on and Decode is reported |
| Findings.ShortReadStalls | risc0/risc0/circuit/rv32im-v2/src/execute/r0vm.rs:197-235 | as written, a read of fewer than `MAX_IO_WORDS` bytes never moves pc on or reports Decode; from an aligned pointer it copies nothing and changes only A0 |
| Findings.FixedSlots | risc0/risc0/circuit/rv32im-v2/src/execute/r0vm.rs:208-218 | corrected batch: data slots move `ptr`, `i` and `rlen` by one word each, padding slots move nothing |
| Findings.FixedBatches | risc0/risc0/circuit/rv32im-v2/src/execute/r0vm.rs:206-228 | corrected word phase: it leaves less than a word and keeps `ptr + rlen` and `i + rlen` |
| Findings.FixedTail | risc0/risc0/circuit/rv32im-v2/src/execute/r0vm.rs:230-235 | corrected tail: every byte left is stored, so nothing is left |
| Findings.FixedSlotsCopies | risc0/risc0/circuit/rv32im-v2/src/execute/r0vm.rs:208-218 | a corrected batch keeps every copied byte in place and adds the words it stores |
| Findings.FixedPhasesCopy | risc0/risc0/circuit/rv32im-v2/src/execute/r0vm.rs:197-235 | the corrected phases copy every byte to its address, leave nothing, report Decode last, move pc on exactly once and keep the read invariant |
| Findings.FixedReadLands | risc0/risc0/circuit/rv32im-v2/src/execute/r0vm.rs:162-239 | the corrected read fails exactly when the length check fails; otherwise byte k of the host's data is at `ptr + k`, pc has moved on exactly one word, and Decode is the last report |
| Findings.InvertedUserEntry | risc0/risc0/circuit/rv32im-v2/src/execute/r0vm.rs:143 | as written, on the example layout, the aligned kernel entry 0xc000_0000 traps and the unaligned 0xc000_0001 is entered |
| Findings.UserEntryNeverValid | risc0/risc0/circuit/rv32im-v2/src/execute/r0vm.rs:143-147 | as written, no entry `user_ecall` jumps to would pass the trap table's own check |
| Findings.IntendedUserEntry | risc0/risc0/circuit/rv32im-v2/src/execute/r0vm.rs:143 | the corrected test refuses everything below the kernel; above the kernel it accepts exactly what the written test refuses; on the example layout what it accepts is a valid trap-table entry |

## Left out

- Instruction stepping and decoding (`step`, `on_insn_decoded`, `on_normal_end`) and the pc accessors: they belong to the emulator, which is not part of this model.
- Failures of the context: `load_u32`, `store_u32`, `peek_u32`, the hooks and the host calls never fail in the model. Memory is total, and a word never stored reads as zero.
- The host: `host_read` and `host_write` are an oracle. A host that reports more bytes than it was asked for is not modelled.
- Platform constants: addresses, `SYSCALL_MAX`, `MAX_IO_BYTES`, `MAX_IO_WORDS`, the host ecall numbers, `is_kernel_memory` and `is_user_memory` are abstract. The platform module is not part of this model. `Platform.Wf` lists the only facts the proofs use.
- `ByteAddr` arithmetic: `+` is modelled as wrapping modulo 2^32. Inside `ecall_read` the pointer stays below `ptr + len`, which the length check bounds, so it never wraps there.
- Panics: the `unimplemented!` of an unknown machine ecall and the out-of-range slice in the word phase of `ecall_read` are modelled as error results (`Unimplemented`, `SliceOutOfRange`).
- Memory accesses are not recorded. In the source, `load_u32` and `store_u32` are counted accesses of the context and `peek_u32` is not. In the model, `PeekU32` and `LoadU32` both just read the word, and no load or store appears in `trace`. So the model does not show which accesses an ecall makes, how many it makes, or how they are ordered relative to the `on_ecall_cycle` reports. An example is the `MAX_IO_WORDS` stores of every batch, padding included. Only the resulting memory is stated.
- HostIo.PeekBytes: states only the length; the contents are stated by `R0vm.Risc0Machine.Peek`, which `ecall_write` uses.
- R0vm.Risc0Machine.EcallRead: states the new pc, memory and trace through `ReadSpec`, not the bytes copied, because as written the bytes are not all copied (findings 1 and 2). What does hold is proved in `ReadProps`.
- The other files of the repository (GPU kernels, keccak wrappers, guest programs, host CLIs, profiling macros) are not part of this model.

## Findings

| source | as written | input that shows it | evidently intended | confidence | as-written member | corrected member |
|---|---|---|---|---|---|---|
| risc0/risc0/circuit/rv32im-v2/src/execute/r0vm.rs:206-218 | every one of the `MAX_IO_WORDS` slots moves `ptr`, `i` and `rlen` by `words`, padding slots included, and `ptr` moves by `words` bytes, not words | machine mode (a read is reached only through `machine_ecall`), `MAX_IO_WORDS` = 4, machine-bank A1 = 0x1000, A2 = 8, the host returns bytes 1..8: one batch with `words` = 2, so the word at 0x1000 ends as bytes 3..6 and the word at 0x1004 is never written, yet pc moves on and Decode is reported | a data slot copies one word and moves everything by one word; padding slots move nothing. The corrected batch also runs while a whole word is left and takes `min(rlen / WORD_SIZE, MAX_IO_WORDS)` data slots, where the code divides by and compares with `MAX_IO_WORDS`; the two agree when `MAX_IO_WORDS` = 4 | not executed | Findings.BatchStrideScenario | Findings.FixedReadLands |
| risc0/risc0/circuit/rv32im-v2/src/execute/r0vm.rs:230-235 | the tail loop stops at an aligned pointer, and neither byte loop calls `next_pc` | A1 = 0x1000, A2 = 3, the host returns 3 bytes: nothing is copied, A0 = 3, pc is not moved on and Decode is never reported; with A1 = 0x1001 and 2 bytes, both bytes are copied but pc still stays | the tail copies every byte left, and pc moves on, with a Decode report, once the count reaches zero | not executed | Findings.ShortReadStalls | Findings.FixedPhasesCopy |
| risc0/risc0/circuit/rv32im-v2/src/execute/r0vm.rs:143 | `user_ecall` traps when the dispatch entry IS aligned | dispatch entry 0xc000_0000, aligned and in kernel memory: `EnvironmentCallFromUserMode` trap; entry 0xc000_0001: entered, with pc at an unaligned address | trap when the entry is NOT aligned or below the kernel, as `trap` does at line 330 | not executed | Findings.InvertedUserEntry | Findings.IntendedUserEntry |
