/** The cycle states reported to the proving circuit, the context hooks the engine
    calls (recorded as events), and the engine's error outcomes. */
module Cycle {
  import opened Addr
  import opened Platform

  /** The phases of `CycleState` that the control-transfer engine reports. */
  datatype CycleState =
    | Decode
    | MachineEcall
    | Terminate
    | Suspend
    | HostReadSetup
    | HostReadBytes
    | HostReadWords
    | HostWrite
    | PoseidonEntry

  /** One call of a context hook, in program order: `on_ecall_cycle` with its three
      payload words, `on_terminate`, `trap_rewind`, `trap`, `suspend`, `resume`. */
  datatype Event =
    | EcallCycle(cur: CycleState, next: CycleState, s0: u32, s1: u32, s2: u32)
    | Terminated(a0: u32, a1: u32)
    | TrapRewound
    | Trapped(cause: TrapCause)
    | Suspended
    | Resumed

  /** The failures of the engine: the `bail!` messages, the `unimplemented!` panic
      for an unknown machine ecall, and the out-of-range slice panic of the word
      phase of `ecall_read`. */
  datatype Error =
    | InvalidLength
    | InvalidLengthTooBig
    | IllegalTrapInMachineMode
    | IllegalMretInUserMode
    | InvalidTrapAddress
    | Unimplemented
    | SliceOutOfRange

  datatype Result<T> = Ok(value: T) | Err(error: Error)
}
