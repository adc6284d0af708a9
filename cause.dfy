/**
 * The machine trap-cause register (`mcause`) and the names of the causes.
 *
 * Section 3.1.15 of the RISC-V Privileged Architecture (version 1.12) lays the
 * 32-bit register out as a 31-bit exception code in bits 0..30 and the
 * interrupt flag in bit 31.  The source reinterprets the raw word as a packed
 * bit-field struct; here the split is written with division and remainder by
 * 2^31, which is what masking with 0x7FFFFFFF and shifting right by 31 compute.
 */
module Cause {
  import opened Wrappers

  /** 2^31: the weight of the interrupt flag. */
  const InterruptBit: nat := 0x8000_0000

  /** A value of a 32-bit machine register. */
  type Word32 = x: int | 0 <= x < 0x1_0000_0000

  /** The decoded cause: the `XCause` bit-field struct. */
  datatype XCause = XCause(code: nat, isInterrupt: nat)

  /** The field widths of `XCause`: 31 bits of code, one bit of flag. */
  predicate WellFormed(c: XCause) {
    c.code < InterruptBit && c.isInterrupt <= 1
  }

  /** Packs the two fields back into one register word. */
  function Encode(c: XCause): Word32
    requires WellFormed(c)
  {
    c.isInterrupt * InterruptBit + c.code
  }

  /**
   * Reading `mcause` into an `XCause` (`newMCause`).  It never fails: every
   * word decodes into well-formed fields that pack back to the same word.
   */
  function Decode(raw: Word32): (c: XCause)
    ensures WellFormed(c)
    ensures Encode(c) == raw
  {
    XCause(raw % InterruptBit, raw / InterruptBit)
  }

  /** Packing and then decoding gives the fields back. */
  lemma DecodeEncode(c: XCause)
    requires WellFormed(c)
    ensures Decode(Encode(c)) == c
  {
    var raw := Encode(c);
    var d := Decode(raw);
    assert d.isInterrupt * InterruptBit + d.code == c.isInterrupt * InterruptBit + c.code;
    if d.isInterrupt < c.isInterrupt {
      assert false;
    } else if d.isInterrupt > c.isInterrupt {
      assert false;
    }
  }

  /** Two words with the same decoding are the same word. */
  lemma DecodeInjective(a: Word32, b: Word32)
    requires Decode(a) == Decode(b)
    ensures a == b
  {
  }

  /** The flag is set exactly on the upper half of the word range. */
  lemma DecodeInterruptFlag(raw: Word32)
    ensures Decode(raw).isInterrupt == 1 <==> raw >= InterruptBit
  {
  }

  // Exception codes named by the `XCauseException` enumeration.
  const InstructionAccessFault: nat := 1
  const IllegalInstruction: nat := 2
  const LoadAccessFault: nat := 5
  const StoreAmoAccessFault: nat := 7
  const InstructionPageFault: nat := 12
  const LoadPageFault: nat := 13
  const StoreAmoPageFault: nat := 15

  const ExceptionCodes: set<nat> := {
    InstructionAccessFault, IllegalInstruction, LoadAccessFault, StoreAmoAccessFault,
    InstructionPageFault, LoadPageFault, StoreAmoPageFault }

  // Interrupt codes named by the `XCauseInterrupt` enumeration.
  const MachineSoftwareInterrupt: nat := 3
  const MachineTimerInterrupt: nat := 7
  const MachineExternalInterrupt: nat := 11
  const CounterOverflowInterrupt: nat := 13

  const IrqCodes: set<nat> := {
    MachineSoftwareInterrupt, MachineTimerInterrupt, MachineExternalInterrupt,
    CounterOverflowInterrupt }

  /**
   * `exception_names`: a designated-initializer array, so its length is one
   * more than the largest code (16) and every other slot is a NULL pointer,
   * written here as `None`.
   */
  const ExceptionTable: seq<Option<string>> := [
    None,
    Some("Instruction access fault"),
    Some("Illegal instruction"),
    None,
    None,
    Some("Load access fault"),
    None,
    Some("Store/AMO access fault"),
    None,
    None,
    None,
    None,
    Some("Instruction page fault"),
    Some("Load page fault"),
    None,
    Some("Store/AMO page fault")
  ]

  /** `irq_names`: 14 slots, named at 3, 7, 11 and 13. */
  const IrqTable: seq<Option<string>> := [
    None,
    None,
    None,
    Some("Machine software interrupt"),
    None,
    None,
    None,
    Some("Machine timer interrupt"),
    None,
    None,
    None,
    Some("Machine external interrupt"),
    None,
    Some("Counter overflow interrupt")
  ]

  /**
   * The name of an exception code.  Unlike the unchecked array index of the
   * source, codes past the table or on a hole give `None`; a name is found
   * exactly for the codes of the enumeration.
   */
  function ExceptionName(code: nat): (r: Option<string>)
    ensures r.Some? <==> code in ExceptionCodes
    ensures r.Some? ==> |r.value| > 0
  {
    if code < |ExceptionTable| then ExceptionTable[code] else None
  }

  /** The name of an interrupt code, `None` outside the enumeration. */
  function IrqName(code: nat): (r: Option<string>)
    ensures r.Some? <==> code in IrqCodes
    ensures r.Some? ==> |r.value| > 0
  {
    if code < |IrqTable| then IrqTable[code] else None
  }

  /**
   * The source reads both tables with no bounds check: every code beyond the
   * last slot (16 for exceptions, 14 for interrupts) would read past the
   * array, and code 0 hits a NULL entry in both.
   */
  lemma TablesHaveHolesAndEnds()
    ensures |ExceptionTable| == 16 && |IrqTable| == 14
    ensures ExceptionTable[0].None? && IrqTable[0].None?
    ensures forall code: nat :: code >= |ExceptionTable| ==> code !in ExceptionCodes
    ensures forall code: nat :: code >= |IrqTable| ==> code !in IrqCodes
  {
  }
}
