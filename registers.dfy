/** Which memory word a register access uses: the bank is chosen by the machine
    mode, and a store to x0 is redirected past both banks' registers. */
module Registers {
  import opened Addr
  import opened Platform

  /** `is_machine_mode`: any non-zero mode word means machine mode. */
  predicate IsMachine(mode: u32) { mode != 0 }

  /** The word address of register x0 of the bank in use. */
  function RegsBase(p: Platform, mode: u32): (base: nat)
    ensures IsMachine(mode) ==> base == WAddr(p.machineRegsAddr)
    ensures !IsMachine(mode) ==> base == WAddr(p.userRegsAddr)
  {
    if IsMachine(mode) then WAddr(p.machineRegsAddr) else WAddr(p.userRegsAddr)
  }

  /** The word `load_register(idx)` reads. */
  function RegSlot(p: Platform, mode: u32, idx: nat): nat {
    RegsBase(p, mode) + idx
  }

  /** The word `store_register(idx, _)` writes: for x0 the base is moved on by
      twice the bank size, so the store lands on a word no register load reads. */
  function RegStoreSlot(p: Platform, mode: u32, idx: nat): (w: nat)
    ensures idx != REG_ZERO ==> w == RegSlot(p, mode, idx)
    ensures idx == REG_ZERO ==> w == RegsBase(p, mode) + 2 * REG_MAX
  {
    var base := if idx == REG_ZERO then RegsBase(p, mode) + 2 * REG_MAX else RegsBase(p, mode);
    base + idx
  }

  /** No register store, in either mode, writes the word that either mode reads as
      x0; a store to any other register writes exactly the word read back for it. */
  lemma RegisterStoreTargets(p: ValidPlatform, storeMode: u32, loadMode: u32, idx: nat)
    requires idx < REG_MAX
    ensures RegStoreSlot(p, storeMode, idx) != RegSlot(p, loadMode, REG_ZERO)
    ensures idx != REG_ZERO ==> RegStoreSlot(p, storeMode, idx) == RegSlot(p, storeMode, idx)
  {
  }
}
