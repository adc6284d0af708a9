/**
 * The start-up sequence of `main`, without its CSR writes: FIFO set-up,
 * the progress messages, the PLIC configuration for the UART source and the
 * UART's receive interrupt, in the order the program performs them.
 */
module Boot {
  import Uart
  import Plic

  /** The progress messages `main` prints, each as the C string literal it passes. */
  const InitMsg: string := "init\n\0"
  const IrqMsg: string := "interrupts enabled\n\0"
  const PlicMsg: string := "PLIC configured for UART\n\0"
  const UartIrqMsg: string := "UART interrupts enabled\n\0"
  const WaitMsg: string := "waiting for interrupts\n\0"

  /** The C string of a literal with one trailing NUL is the literal. */
  lemma CStrOfLiteral(s: string)
    requires '\0' !in s
    ensures Uart.CStr(s + "\0") == s
  {
    Uart.CStrAt(s + "\0", |s|);
    assert (s + "\0")[..|s|] == s;
  }

  /** A message without CR, sent through `fprint`, reads back from the wire as itself. */
  lemma MessageReadsBack(text: string)
    requires '\0' !in text && '\r' !in text
    ensures Uart.Collapse(Uart.Expand(Uart.CStr(text + "\0"))) == text
  {
    CStrOfLiteral(text);
    Uart.CollapseExpand(text);
  }

  /** Every message is made of C `char`s. */
  lemma MessagesAreCChars()
    ensures forall k :: 0 <= k < |InitMsg| ==> Uart.IsCChar(InitMsg[k])
    ensures forall k :: 0 <= k < |IrqMsg| ==> Uart.IsCChar(IrqMsg[k])
    ensures forall k :: 0 <= k < |PlicMsg| ==> Uart.IsCChar(PlicMsg[k])
    ensures forall k :: 0 <= k < |UartIrqMsg| ==> Uart.IsCChar(UartIrqMsg[k])
    ensures forall k :: 0 <= k < |WaitMsg| ==> Uart.IsCChar(WaitMsg[k])
  {
  }

  /**
   * The first part of `main`: FIFO set-up, then the first two messages.
   */
  method Greet(uart: Uart.UartDriver)
    requires uart.Valid() && Uart.TxReady(uart.ports[Uart.Lsr])
    modifies uart, uart.ports
    ensures uart.Valid() && uart.ports == old(uart.ports)
    ensures uart.sent == old(uart.sent) + Uart.Expand(Uart.CStr(InitMsg)) + Uart.Expand(Uart.CStr(IrqMsg))
    ensures uart.ports[Uart.Iir] == Uart.FifoInitValue(old(uart.ports[Uart.Iir]))
    ensures forall k :: 0 <= k < 8 && k != Uart.Rtx && k != Uart.Iir ==> uart.ports[k] == old(uart.ports[k])
  {
    MessagesAreCChars();
    uart.FifoInit();
    uart.Fprint(InitMsg);
    uart.Fprint(IrqMsg);
  }

  /**
   * The last part of `main` before its echo loop: the PLIC message, the
   * UART's receive interrupt, and the last two messages.
   */
  method Finish(uart: Uart.UartDriver)
    requires uart.Valid() && Uart.TxReady(uart.ports[Uart.Lsr])
    modifies uart, uart.ports
    ensures uart.Valid() && uart.ports == old(uart.ports)
    ensures uart.sent == old(uart.sent) + Uart.Expand(Uart.CStr(PlicMsg)) +
      Uart.Expand(Uart.CStr(UartIrqMsg)) + Uart.Expand(Uart.CStr(WaitMsg))
    ensures uart.ports[Uart.Ier] == Uart.IerSet(old(uart.ports[Uart.Ier]), 1)
    ensures forall k :: 0 <= k < 8 && k != Uart.Rtx && k != Uart.Ier ==> uart.ports[k] == old(uart.ports[k])
  {
    MessagesAreCChars();
    uart.Fprint(PlicMsg);
    uart.IrqEnableSet(1);
    uart.Fprint(UartIrqMsg);
    uart.Fprint(WaitMsg);
  }

  /**
   * `main` up to its echo loop, on hart `hart`.  Afterwards the wire carries
   * the five messages with CR LF line ends; the IER has the receive interrupt
   * (bit 0) added and the FIFO control register its three low bits, and no
   * other UART register but the holding register has changed; the PLIC routes
   * source 10 to the hart's machine-mode context with priority 1 over
   * threshold 0, keeps the other bits of the enable word, and every other
   * PLIC word is as before.
   */
  method Start(uart: Uart.UartDriver, mem: Plic.Mmio, hart: nat) returns (ctx: Plic.Word)
    requires uart.Valid() && Uart.TxReady(uart.ports[Uart.Lsr]) && mem.Valid() && hart < 7936
    modifies uart, uart.ports, mem
    ensures uart.Valid() && mem.Valid() && uart.ports == old(uart.ports)
    ensures uart.sent == old(uart.sent) + Uart.Expand(Uart.CStr(InitMsg)) + Uart.Expand(Uart.CStr(IrqMsg)) +
      Uart.Expand(Uart.CStr(PlicMsg)) + Uart.Expand(Uart.CStr(UartIrqMsg)) + Uart.Expand(Uart.CStr(WaitMsg))
    ensures uart.ports[Uart.Ier] == Uart.IerSet(old(uart.ports[Uart.Ier]), 1)
    ensures (uart.ports[Uart.Ier] & 1) == 1
    ensures uart.ports[Uart.Iir] == Uart.FifoInitValue(old(uart.ports[Uart.Iir]))
    ensures forall k :: 0 <= k < 8 && k != Uart.Rtx && k != Uart.Ier && k != Uart.Iir ==> uart.ports[k] == old(uart.ports[k])
    ensures ctx == Plic.Context(hart, 0)
    ensures var p := Plic.NewPlicDriver(Plic.PlicBase);
      var pri := Plic.Slot(p.priority, Plic.PriorityIndex(Plic.UartSource));
      var th := Plic.Slot(p.threshold, Plic.ThresholdIndex(ctx));
      var en := Plic.EnableWord(p, ctx, Plic.UartSource);
      && mem.words[pri] == 1
      && mem.words[th] == 0
      && Plic.Enabled(mem.words, p, ctx, Plic.UartSource)
      && mem.words[en] == Plic.SetBit(old(mem.words[en]), Plic.EnableBit(Plic.UartSource))
      && forall a :: a != pri && a != th && a != en ==> mem.words[a] == old(mem.words[a])
  {
    Greet(uart);
    ctx := Plic.ConfigureUart(mem, hart);
    ghost var ier := uart.ports[Uart.Ier];
    Finish(uart);
    Uart.IerSetEnables(ier);
  }
}
