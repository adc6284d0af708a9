/**
 * The 16550-compatible UART driver and the print routine built on it.
 *
 * The driver is a pointer to eight byte-wide device registers: the
 * receive/transmit holding register at offset 0, the interrupt-enable
 * register (IER) at 1, the interrupt-identification/FIFO-control register at
 * 2 and the line-status register (LSR) at 5.  The registers are an array of
 * bytes here, and the characters stored to the transmit register are
 * collected, in order, in `sent`: what the device puts on the wire.
 */
module Uart {

  /** A byte register. */
  type Byte = bv8

  /** Offsets of the registers the driver uses. */
  const Rtx: int := 0x0
  const Ier: int := 0x1
  const Iir: int := 0x2
  const Lsr: int := 0x5

  /** LSR bit 5: the transmit holding register can take a character. */
  predicate TxReady(lsr: Byte) {
    (lsr & 0x20) != 0
  }

  /** LSR bit 0: a received character is waiting. */
  predicate RxReady(lsr: Byte) {
    (lsr & 0x01) != 0
  }

  /** A character a C `char` can hold: one that fits eight bits. */
  predicate IsCChar(c: char) {
    c as int < 256
  }

  /** The byte a C `char` is stored as: its low eight bits. */
  function ByteOf(c: char): Byte {
    (c as int % 256) as Byte
  }

  /** The C `char` a register byte is loaded as. */
  function CharOf(b: Byte): (c: char)
    ensures c as int < 256
  {
    (b as int) as char
  }

  /** What the transmitter sends for one character: a newline goes out as CR LF. */
  function ExpandOut(c: char): (s: string)
    ensures |s| >= 1 && s[|s| - 1] == c
    ensures c == '\n' ==> s == "\r\n"
    ensures c != '\n' ==> s == [c]
  {
    if c == '\n' then "\r\n" else [c]
  }

  /** What the transmitter sends for a whole text, character by character. */
  function Expand(s: string): (w: string)
    ensures |w| >= |s|
  {
    if s == [] then [] else ExpandOut(s[0]) + Expand(s[1..])
  }

  /** What the receiver hands back for one received character: CR becomes newline. */
  function TranslateIn(c: char): (r: char)
    ensures r != '\r'
    ensures c == '\r' ==> r == '\n'
    ensures c != '\r' ==> r == c
  {
    if c == '\r' then '\n' else c
  }

  /** Reading a wire stream back: every CR LF pair is one newline. */
  function Collapse(w: string): string {
    if w == [] then []
    else if |w| >= 2 && w[0] == '\r' && w[1] == '\n' then ['\n'] + Collapse(w[2..])
    else [w[0]] + Collapse(w[1..])
  }

  /** Expansion distributes over concatenation. */
  lemma {:induction false} ExpandAppend(s: string, t: string)
    ensures Expand(s + t) == Expand(s) + Expand(t)
    decreases |s|
  {
    if s == [] {
      assert s + t == t;
    } else {
      assert (s + t)[1..] == s[1..] + t;
      ExpandAppend(s[1..], t);
    }
  }

  /** Sending one more character appends its expansion. */
  lemma ExpandSnoc(s: string, c: char)
    ensures Expand(s + [c]) == Expand(s) + ExpandOut(c)
  {
    ExpandAppend(s, [c]);
    assert Expand([c]) == ExpandOut(c) + Expand([]);
  }

  /** The wire carries each character once, plus one CR per newline. */
  lemma {:induction false} ExpandLength(s: string)
    ensures |Expand(s)| == |s| + multiset(s)['\n']
    decreases |s|
  {
    if s != [] {
      assert s == [s[0]] + s[1..];
      ExpandLength(s[1..]);
    }
  }

  /**
   * For a text without carriage returns, reading the wire back gives the text:
   * the CR inserted before each newline is the only change on the wire.
   */
  lemma {:induction false} CollapseExpand(s: string)
    requires '\r' !in s
    ensures Collapse(Expand(s)) == s
    decreases |s|
  {
    if s != [] {
      assert s == [s[0]] + s[1..];
      var rest := Expand(s[1..]);
      CollapseExpand(s[1..]);
      if s[0] == '\n' {
        assert Expand(s) == "\r\n" + rest;
        assert (Expand(s))[2..] == rest;
      } else {
        assert Expand(s) == [s[0]] + rest;
        assert (Expand(s))[1..] == rest;
      }
    }
  }

  /** No bare newline reaches the wire: every LF sent is preceded by a CR. */
  lemma {:induction false} ExpandNewlinesAfterCr(s: string, i: int)
    requires 0 <= i < |Expand(s)| && Expand(s)[i] == '\n'
    ensures i >= 1 && Expand(s)[i - 1] == '\r'
    decreases |s|
  {
    assert s != [];
    var head := ExpandOut(s[0]);
    if i >= |head| {
      ExpandNewlinesAfterCr(s[1..], i - |head|);
    }
  }

  /** The C string a `const char *` designates: the characters before the first NUL. */
  function CStr(s: string): (r: string)
    ensures |r| <= |s| && r == s[..|r|] && '\0' !in r
    ensures |r| < |s| <==> '\0' in s
    ensures |r| < |s| ==> s[|r|] == '\0'
  {
    if s == [] || s[0] == '\0' then [] else [s[0]] + CStr(s[1..])
  }

  /** A prefix without NUL that stops at a NUL is the C string. */
  lemma {:induction false} CStrAt(s: string, i: int)
    requires 0 <= i < |s| && s[i] == '\0' && '\0' !in s[..i]
    ensures CStr(s) == s[..i]
    decreases i
  {
    if i > 0 {
      assert s[0] == s[..i][0];
      assert s[1..][..i - 1] == s[1..i];
      assert '\0' !in s[1..][..i - 1] by {
        assert s[1..i] == s[..i][1..];
      }
      CStrAt(s[1..], i - 1);
      assert s[..i] == [s[0]] + s[1..i];
    }
  }

  /** The new IER value after `uart_irq_enable_set(flags)`: the low four flag bits are ORed in. */
  function IerSet(ier: Byte, flags: Byte): (r: Byte)
    ensures (r & 0xF0) == (ier & 0xF0)
    ensures (r & flags & 0x0F) == (flags & 0x0F)
  {
    ier | (flags & 0x0F)
  }

  /** The new IER value after `uart_irq_enable_clear(flags)`: the low four flag bits are cleared. */
  function IerClear(ier: Byte, flags: Byte): (r: Byte)
    ensures (r & 0xF0) == (ier & 0xF0)
    ensures (r & flags & 0x0F) == 0
  {
    ier & !(flags & 0x0F)
  }

  /** Enabling what is enabled changes nothing. */
  lemma IerSetIdempotent(ier: Byte, flags: Byte)
    ensures IerSet(IerSet(ier, flags), flags) == IerSet(ier, flags)
  {
  }

  /** `uart_irq_enable_set(uart, 1)`, as `main` calls it, turns on the received-data interrupt (IER bit 0). */
  lemma IerSetEnables(ier: Byte)
    ensures (IerSet(ier, 1) & 1) == 1
  {
  }

  /** Clearing flags just set leaves the register as clearing them alone would. */
  lemma IerClearAfterSet(ier: Byte, flags: Byte)
    ensures IerClear(IerSet(ier, flags), flags) == IerClear(ier, flags)
  {
  }

  /** Bits outside the flags are untouched by either update. */
  lemma IerUpdatesKeepOthers(ier: Byte, flags: Byte)
    ensures (IerSet(ier, flags) & !flags) == (ier & !flags)
    ensures (IerClear(ier, flags) & !flags) == (ier & !flags)
  {
  }

  /** The value after `uart_fifo_init`: FIFO enable and both FIFO resets (`1 | 3 << 1`). */
  function FifoInitValue(fcr: Byte): (r: Byte)
    ensures (r & 0x07) == 0x07
    ensures (r & 0xF8) == (fcr & 0xF8)
  {
    fcr | (1 | (3 << 1))
  }

  /**
   * The UART driver: the eight device registers and the characters the
   * transmitter has taken so far.
   */
  class UartDriver {
    var ports: array<Byte>
    var sent: string

    ghost predicate Valid()
      reads this
    {
      ports.Length == 8
    }

    /** `newUartDriver(base)`, with the registers holding `regs` and nothing sent yet. */
    constructor (regs: seq<Byte>)
      requires |regs| == 8
      ensures Valid() && fresh(ports)
      ensures ports[..] == regs && sent == []
    {
      ports := new Byte[8](i requires 0 <= i < 8 => regs[i]);
      sent := [];
    }

    /**
     * `uart_rtx_write(c)`: once the transmitter is ready, a newline is sent
     * as CR followed by LF and any other character as itself.  The wait for
     * readiness is the precondition.
     */
    method RtxWrite(c: char)
      requires Valid() && TxReady(ports[Lsr]) && IsCChar(c)
      modifies this, ports
      ensures Valid() && ports == old(ports)
      ensures sent == old(sent) + ExpandOut(c)
      ensures ports[Rtx] == ByteOf(c)
      ensures forall k :: 0 <= k < 8 && k != Rtx ==> ports[k] == old(ports[k])
    {
      if c == '\n' {
        ports[Rtx] := ByteOf('\r');
        sent := sent + ['\r'];
      }
      ports[Rtx] := ByteOf(c);
      sent := sent + [c];
    }

    /**
     * `uart_rtx_read()`: once a character has arrived, it is loaded from the
     * receive register and a CR is handed back as newline.
     */
    method RtxRead() returns (c: char)
      requires Valid() && RxReady(ports[Lsr])
      ensures c == TranslateIn(CharOf(ports[Rtx]))
    {
      c := CharOf(ports[Rtx]);
      if c == '\r' {
        c := '\n';
      }
    }

    /** `uart_fifo_init()`: sets the three low bits of the FIFO control register. */
    method FifoInit()
      requires Valid()
      modifies ports
      ensures ports[Iir] == FifoInitValue(old(ports[Iir]))
      ensures forall k :: 0 <= k < 8 && k != Iir ==> ports[k] == old(ports[k])
    {
      ports[Iir] := ports[Iir] | (1 | (3 << 1));
    }

    /** `uart_fifo_status()`: the two FIFO status bits at the top of register 2. */
    function FifoStatus(): (r: Byte)
      requires Valid()
      reads this, ports
      ensures r <= 3
      ensures r << 6 == (ports[Iir] & 0xC0)
    {
      (ports[Iir] >> 6) & 3
    }

    /** `uart_irq_enable_set(flags)`: only the IER changes, and only as `IerSet` says. */
    method IrqEnableSet(flags: Byte)
      requires Valid()
      modifies ports
      ensures ports[Ier] == IerSet(old(ports[Ier]), flags)
      ensures forall k :: 0 <= k < 8 && k != Ier ==> ports[k] == old(ports[k])
    {
      ports[Ier] := ports[Ier] | (flags & 0x0F);
    }

    /** `uart_irq_enable_clear(flags)`: only the IER changes, and only as `IerClear` says. */
    method IrqEnableClear(flags: Byte)
      requires Valid()
      modifies ports
      ensures ports[Ier] == IerClear(old(ports[Ier]), flags)
      ensures forall k :: 0 <= k < 8 && k != Ier ==> ports[k] == old(ports[k])
    {
      ports[Ier] := ports[Ier] & !(flags & 0x0F);
    }

    /**
     * `uart_irq_is_pending()`: bit 0 of the interrupt-identification register
     * is low while an interrupt is pending; the result is 1 exactly then.
     */
    function IrqIsPending(): (r: Byte)
      requires Valid()
      reads this, ports
      ensures r <= 1
      ensures r == 1 <==> (ports[Iir] & 1) == 0
    {
      if (ports[Iir] & 1) == 0 then 1 else 0
    }

    /**
     * `fprint(w, s)` with the UART as writer: every character of the C string
     * `s` goes through `uart_rtx_write`, in order, up to the terminating NUL.
     */
    method Fprint(s: string)
      requires Valid() && TxReady(ports[Lsr]) && '\0' in s
      requires forall k :: 0 <= k < |s| ==> IsCChar(s[k])
      modifies this, ports
      ensures Valid() && ports == old(ports)
      ensures sent == old(sent) + Expand(CStr(s))
      ensures forall k :: 0 <= k < 8 && k != Rtx ==> ports[k] == old(ports[k])
    {
      var i := 0;
      while s[i] != '\0'
        invariant 0 <= i < |s| && '\0' !in s[..i]
        invariant Valid() && ports == old(ports)
        invariant sent == old(sent) + Expand(s[..i])
        invariant forall k :: 0 <= k < 8 && k != Rtx ==> ports[k] == old(ports[k])
        decreases |s| - i
      {
        RtxWrite(s[i]);
        ExpandSnoc(s[..i], s[i]);
        assert s[..i + 1] == s[..i] + [s[i]];
        i := i + 1;
        assert s[..|s|] == s;
      }
      CStrAt(s, i);
    }

    /**
     * One round of `main`'s echo loop, `uart_rtx_write(uart_rtx_read())`:
     * the received character goes back out, with CR and LF both echoed as
     * CR LF.
     */
    method Echo() returns (c: char)
      requires Valid() && RxReady(ports[Lsr]) && TxReady(ports[Lsr])
      modifies this, ports
      ensures Valid() && ports == old(ports)
      ensures c == TranslateIn(CharOf(old(ports[Rtx])))
      ensures sent == old(sent) + ExpandOut(c)
      ensures ports[Rtx] == ByteOf(c)
      ensures forall k :: 0 <= k < 8 && k != Rtx ==> ports[k] == old(ports[k])
    {
      c := RtxRead();
      RtxWrite(c);
    }
  }

  /** A received CR or LF is echoed as CR LF; every other character as itself. */
  lemma EchoOf(c: char)
    ensures c == '\r' || c == '\n' ==> ExpandOut(TranslateIn(c)) == "\r\n"
    ensures c != '\r' && c != '\n' ==> ExpandOut(TranslateIn(c)) == [c]
  {
  }
}
