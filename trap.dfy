/**
 * The machine-mode trap handler `irq_handler`.
 *
 * The handler prints the decoded cause, then either names the exception and
 * stops, or names the interrupt and, for a machine external interrupt, claims
 * the pending source from the PLIC, prints it and completes it, and stops.
 * It never returns: every path ends in `hotloop`.
 *
 * The handler is a function here from what it reads from the hardware (the
 * raw `mcause`, the hart number from `mhartid`, the value the claim register
 * answers with) to the trace of what it does: the strings it hands to
 * `fprint`, the PLIC loads and stores, and the final halt.
 */
module Trap {
  import opened Wrappers
  import Cause
  import Text
  import Plic

  /** One observable action of the handler. */
  datatype Step =
    | Emit(text: string)                      // `fprint(&w, text)`
    | ClaimOp(at: Plic.Addr, id: Plic.Reg)    // `plic_claim` loads `id` from `at`
    | CompleteOp(at: Plic.Addr, id: Plic.Reg) // `plic_complete` stores `id` to `at`
    | Halt                                    // `hotloop`

  /** The name string the handler prints, when the table has one. */
  function NameSteps(name: Option<string>): (t: seq<Step>)
    ensures name.Some? ==> t == [Emit(name.value)]
    ensures name.None? ==> t == []
  {
    match name
    case Some(s) => [Emit(s)]
    case None => []
  }

  /** The fixed opening: `irq: `, the interrupt flag in binary, the code in hexadecimal. */
  function Header(c: Cause.XCause): seq<Step> {
    [Emit("irq: "), Emit(Text.ItoaText(2, c.isInterrupt)), Emit(" : code: "), Emit(Text.ItoaText(16, c.code)), Emit(": ")]
  }

  /** The claim/complete exchange of a machine external interrupt. */
  function ExternalSteps(hart: nat, claimed: Plic.Reg): seq<Step>
    requires hart < 0x4000_0000
  {
    var p := Plic.NewPlicDriver(Plic.PlicBase);
    var ctx := Plic.Context(hart, 0);
    [ClaimOp(Plic.Slot(p.claim, Plic.ClaimIndex(ctx)), claimed),
     Emit("PLIC source: "),
     Emit(Text.ItoaText(16, claimed as int)),
     CompleteOp(Plic.Slot(p.complete, Plic.CompleteIndex(ctx)), claimed),
     Emit("\n"),
     Halt]
  }

  /**
   * `irq_handler()` for the raw cause `raw` on hart `hart`, when the claim
   * register answers `claimed`.  A cause whose name table has no entry prints
   * no name (see the findings on the name tables).
   */
  function Dispatch(raw: Cause.Word32, hart: nat, claimed: Plic.Reg): (t: seq<Step>)
    requires hart < 0x4000_0000
    ensures |t| > 0 && t[|t| - 1] == Halt
  {
    var c := Cause.Decode(raw);
    Header(c) +
    if c.isInterrupt == 0 then
      [Emit("exception: ")] + NameSteps(Cause.ExceptionName(c.code)) + [Halt]
    else
      [Emit("interrupt: ")] + NameSteps(Cause.IrqName(c.code)) + [Emit(": ")] +
      if c.code == Cause.MachineExternalInterrupt then ExternalSteps(hart, claimed)
      else [Emit("\n"), Halt]
  }

  /** Every path ends in the halt loop, and nothing halts before the end. */
  lemma DispatchHalts(raw: Cause.Word32, hart: nat, claimed: Plic.Reg)
    requires hart < 0x4000_0000
    ensures var t := Dispatch(raw, hart, claimed);
      |t| > 0 && t[|t| - 1] == Halt && forall i :: 0 <= i < |t| - 1 ==> t[i] != Halt
  {
    var c := Cause.Decode(raw);
    var t := Dispatch(raw, hart, claimed);
    var n := NameSteps(if c.isInterrupt == 0 then Cause.ExceptionName(c.code) else Cause.IrqName(c.code));
    assert forall i :: 0 <= i < |n| ==> n[i].Emit?;
  }

  /** Whether a trace touches the PLIC at all. */
  predicate TouchesPlic(t: seq<Step>) {
    exists i :: 0 <= i < |t| && (t[i].ClaimOp? || t[i].CompleteOp?)
  }

  /** The handler talks to the PLIC exactly when the cause is the machine external interrupt. */
  lemma ClaimOnlyForExternal(raw: Cause.Word32, hart: nat, claimed: Plic.Reg)
    requires hart < 0x4000_0000
    ensures TouchesPlic(Dispatch(raw, hart, claimed)) <==>
      Cause.Decode(raw).isInterrupt == 1 && Cause.Decode(raw).code == Cause.MachineExternalInterrupt
  {
    var c := Cause.Decode(raw);
    var t := Dispatch(raw, hart, claimed);
    var n := NameSteps(if c.isInterrupt == 0 then Cause.ExceptionName(c.code) else Cause.IrqName(c.code));
    assert forall i :: 0 <= i < |n| ==> n[i].Emit?;
    if c.isInterrupt == 1 && c.code == Cause.MachineExternalInterrupt {
      assert t[|t| - 6].ClaimOp?;
    }
  }

  /**
   * For a machine external interrupt the handler claims once and then
   * completes the same source at the same register, with nothing but
   * printing in between.
   */
  lemma CompleteMatchesClaim(raw: Cause.Word32, hart: nat, claimed: Plic.Reg)
    requires hart < 0x4000_0000
    requires Cause.Decode(raw).isInterrupt == 1 && Cause.Decode(raw).code == Cause.MachineExternalInterrupt
    ensures var t := Dispatch(raw, hart, claimed);
      exists i, j :: 0 <= i < j < |t| &&
        t[i].ClaimOp? && t[j].CompleteOp? && t[j].at == t[i].at && t[i].id == claimed && t[j].id == claimed &&
        (forall k :: i < k < j ==> t[k].Emit?) &&
        (forall k :: 0 <= k < |t| && k != i && k != j ==> !t[k].ClaimOp? && !t[k].CompleteOp?)
  {
    var c := Cause.Decode(raw);
    var t := Dispatch(raw, hart, claimed);
    var n := NameSteps(Cause.IrqName(c.code));
    assert forall k :: 0 <= k < |n| ==> n[k].Emit?;
    var ctx := Plic.Context(hart, 0);
    Plic.ClaimCompleteSameRegister(Plic.PlicBase, ctx);
    var i := |t| - 6;
    var j := |t| - 3;
    assert t[i].ClaimOp? && t[j].CompleteOp? && t[j].at == t[i].at;
  }

  /** The text a trace hands to `fprint`, in order. */
  function Printed(t: seq<Step>): string {
    if t == [] then [] else (if t[0].Emit? then t[0].text else []) + Printed(t[1..])
  }

  /** Printing distributes over concatenation of traces. */
  lemma {:induction false} PrintedAppend(a: seq<Step>, b: seq<Step>)
    ensures Printed(a + b) == Printed(a) + Printed(b)
    decreases |a|
  {
    if a == [] {
      assert a + b == b;
    } else {
      assert (a + b)[1..] == a[1..] + b;
      PrintedAppend(a[1..], b);
    }
  }

  /** The text of the opening. */
  function HeaderText(c: Cause.XCause): string {
    "irq: " + Text.ItoaText(2, c.isInterrupt) + " : code: " + Text.ItoaText(16, c.code) + ": "
  }

  /** A step that prints `x` in front of a trace adds `x` in front of its text. */
  lemma PrintedEmit(x: string, t: seq<Step>)
    ensures Printed([Emit(x)] + t) == x + Printed(t)
  {
    assert ([Emit(x)] + t)[1..] == t;
  }

  /** The opening steps print the opening text. */
  lemma HeaderPrints(c: Cause.XCause)
    ensures Printed(Header(c)) == HeaderText(c)
  {
    var flag := Text.ItoaText(2, c.isInterrupt);
    var code := Text.ItoaText(16, c.code);
    var t4 := [Emit(": ")];
    var t3 := [Emit(code)] + t4;
    var t2 := [Emit(" : code: ")] + t3;
    var t1 := [Emit(flag)] + t2;
    assert Header(c) == [Emit("irq: ")] + t1;
    PrintedEmit(": ", []);
    assert t4 == [Emit(": ")] + [];
    PrintedEmit(code, t4);
    PrintedEmit(" : code: ", t3);
    PrintedEmit(flag, t2);
    PrintedEmit("irq: ", t1);
  }

  /**
   * The printed report starts with the cause as `itoa` renders it, so the
   * flag and the code can be read back from it (`Text.ItoaRoundTrip`).
   */
  lemma ReportStartsWithCause(raw: Cause.Word32, hart: nat, claimed: Plic.Reg)
    requires hart < 0x4000_0000
    ensures HeaderText(Cause.Decode(raw)) <= Printed(Dispatch(raw, hart, claimed))
  {
    var c := Cause.Decode(raw);
    var h := Header(c);
    var t := Dispatch(raw, hart, claimed);
    assert t == h + t[|h|..];
    PrintedAppend(h, t[|h|..]);
    HeaderPrints(c);
  }

  /**
   * The name printed is the table's entry for the cause: a known code prints
   * its name, an unknown code prints none.
   */
  lemma NamePrintedIffKnown(raw: Cause.Word32, hart: nat, claimed: Plic.Reg)
    requires hart < 0x4000_0000
    ensures var c := Cause.Decode(raw);
      var t := Dispatch(raw, hart, claimed);
      var known := if c.isInterrupt == 0 then c.code in Cause.ExceptionCodes else c.code in Cause.IrqCodes;
      var name := if c.isInterrupt == 0 then Cause.ExceptionName(c.code) else Cause.IrqName(c.code);
      t[|Header(c)| + 1] == (if known then Emit(name.value) else if c.isInterrupt == 0 then Halt else Emit(": "))
  {
  }

  /** What the C expression `exception_names[code]` or `irq_names[code]` reads. */
  datatype TableRead =
    | NullSlot          // a slot the initialiser leaves zero
    | PastEnd           // an index beyond the last slot of the array
    | Name(s: string)   // a slot holding a name

  /** Indexing a name table with no bounds check. */
  function ReadSlot(table: seq<Option<string>>, code: nat): (r: TableRead)
    ensures r.PastEnd? <==> code >= |table|
    ensures r.Name? <==> code < |table| && table[code].Some?
  {
    if code >= |table| then PastEnd
    else
      match table[code]
      case None => NullSlot
      case Some(s) => Name(s)
  }

  /**
   * `exception_names[cause.code]` / `irq_names[cause.code]` as the handler
   * evaluates them: the exception table has 16 slots and the interrupt table
   * 14, and nothing checks the code against either.
   */
  function NameAsWritten(c: Cause.XCause): (r: TableRead)
    ensures r.PastEnd? <==> c.code >= (if c.isInterrupt == 0 then 16 else 14)
  {
    ReadSlot(if c.isInterrupt == 0 then Cause.ExceptionTable else Cause.IrqTable, c.code)
  }

  /**
   * As written, the handler passes `fprint` no string for common causes:
   * an instruction-address-misaligned exception (code 0), a breakpoint (3),
   * an environment call from M-mode (11) and a supervisor timer interrupt
   * (interrupt 5) find a NULL slot, and exception code 16 or interrupt
   * code 14 reads past the array.
   */
  lemma NameAsWrittenMissing()
    ensures NameAsWritten(Cause.Decode(0)) == NullSlot
    ensures NameAsWritten(Cause.Decode(3)) == NullSlot
    ensures NameAsWritten(Cause.Decode(11)) == NullSlot
    ensures NameAsWritten(Cause.Decode(0x8000_0005)) == NullSlot
    ensures NameAsWritten(Cause.Decode(16)) == PastEnd
    ensures NameAsWritten(Cause.Decode(0x8000_000E)) == PastEnd
  {
    assert Cause.Decode(0) == Cause.XCause(0, 0);
    assert Cause.Decode(3) == Cause.XCause(3, 0);
    assert Cause.Decode(11) == Cause.XCause(11, 0);
    assert Cause.Decode(0x8000_0005) == Cause.XCause(5, 1);
    assert Cause.Decode(16) == Cause.XCause(16, 0);
    assert Cause.Decode(0x8000_000E) == Cause.XCause(14, 1);
  }

  /**
   * The modelled lookup and the C read agree on every cause: the C read
   * finds a name exactly for the codes of the enumeration, it is then the
   * name the lookup returns, and the lookup returns none exactly where the
   * C read hits a NULL slot or runs past the array.
   */
  lemma NameMatchesTableRead(c: Cause.XCause)
    ensures var name := if c.isInterrupt == 0 then Cause.ExceptionName(c.code) else Cause.IrqName(c.code);
      var codes := if c.isInterrupt == 0 then Cause.ExceptionCodes else Cause.IrqCodes;
      var read := NameAsWritten(c);
      && (read.Name? <==> c.code in codes)
      && (name.Some? <==> read.Name?)
      && (name.Some? ==> read.s == name.value)
      && (name.None? <==> read.NullSlot? || read.PastEnd?)
  {
  }

  /** Scenario: a UART interrupt on hart 0 whose claim answers source 10. */
  lemma UartInterruptScenario()
    ensures Cause.Decode(0x8000_000B) == Cause.XCause(11, 1)
    ensures Cause.IrqName(11) == Some("Machine external interrupt")
    ensures var t := Dispatch(0x8000_000B, 0, 10);
      t[|t| - 6] == ClaimOp(Plic.Addr(0x0c20_0004), 10) &&
      t[|t| - 3] == CompleteOp(Plic.Addr(0x0c20_0004), 10) &&
      t[|t| - 4] == Emit("0xa")
  {
    assert Cause.Decode(0x8000_000B) == Cause.XCause(11, 1);
    assert Text.ItoaText(16, 10) == "0xa" by {
      assert Text.Digits(16, 10) == "a";
    }
  }

  /** Scenario: an illegal instruction prints its name and halts without touching the PLIC. */
  lemma IllegalInstructionScenario(hart: nat, claimed: Plic.Reg)
    requires hart < 0x4000_0000
    ensures var t := Dispatch(2, hart, claimed);
      t == Header(Cause.XCause(2, 0)) + [Emit("exception: "), Emit("Illegal instruction"), Halt]
  {
    assert Cause.Decode(2) == Cause.XCause(2, 0);
  }
}
