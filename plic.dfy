/**
 * The platform-level interrupt controller (PLIC) driver.
 *
 * A driver is the five base pointers of the controller's register blocks, as
 * laid out by the memory map of the RISC-V PLIC Specification 1.0.0:
 * priorities at offset 0, enable bitmaps at 0x2000, and per context a
 * threshold register at 0x200000 with the claim/complete register four bytes
 * after it.  Every operation is an index formula followed by one 32-bit load
 * or store (or, for enable, a load, an OR and a store).
 *
 * Addresses, indices, source and context numbers are `size_t` of a 32-bit
 * hart: they are integers below 2^32 here and every sum or product the C
 * computes on them is truncated with `Wrap`.  Register contents are `bv32`.
 */
module Plic {

  /** The number of values of a 32-bit `size_t`. */
  const WordSpace: nat := 0x1_0000_0000

  /** A `size_t` value: an address, an index, a source or a context number. */
  type Word = x: int | 0 <= x < WordSpace

  /** The contents of a 32-bit register. */
  type Reg = bv32

  /** Truncation of an unsigned result to 32 bits. */
  function Wrap(x: nat): (w: Word)
    ensures x < WordSpace ==> w == x
  {
    x % WordSpace
  }

  /** The source number the UART is wired to (`PLIC_SRC_UART`). */
  const UartSource: Word := 0xA

  /** The controller's base address on this platform. */
  const PlicBase: Word := 0x0c00_0000

  /** `PlicDriver`: the byte addresses of the five register blocks. */
  datatype PlicDriver = PlicDriver(priority: Word, enable: Word, threshold: Word, claim: Word, complete: Word)

  /** `newPlicDriver(base)`: each block at its offset from the base, as a 32-bit sum. */
  function NewPlicDriver(base: Word): (d: PlicDriver)
    ensures d.priority == base && d.claim == d.complete
  {
    PlicDriver(Wrap(base + 0x0), Wrap(base + 0x2000), Wrap(base + 0x20_0000), Wrap(base + 0x20_0004), Wrap(base + 0x20_0004))
  }

  /**
   * Claim and complete name the same register, one word after the threshold
   * register, and the priorities start at the base itself.
   */
  lemma NewPlicDriverLayout(base: Word)
    ensures NewPlicDriver(base).priority == base
    ensures NewPlicDriver(base).claim == NewPlicDriver(base).complete
    ensures NewPlicDriver(base).claim == Wrap(NewPlicDriver(base).threshold + 4)
  {
  }

  /** A byte address on the memory bus. */
  datatype Addr = Addr(bits: Word)

  /** `&ptr[i]` for a `uint32_t *ptr`: the byte address of word `i`. */
  function Slot(ptr: Word, i: Word): Addr {
    Addr(Wrap(ptr + 4 * i))
  }

  /**
   * `plic_context(mode)` for the hart number read from `mhartid`: the `int`
   * hart number shifted left once, OR the privilege mode.  The shift stays
   * within a signed `int` for harts below 2^30.
   */
  function Context(hart: nat, mode: nat): (ctx: Word)
    requires hart < 0x4000_0000 && mode <= 1
    ensures ctx / 2 == hart && ctx % 2 == mode
  {
    2 * hart + mode
  }

  /** Different (hart, mode) pairs address different contexts. */
  lemma ContextInjective(h1: nat, m1: nat, h2: nat, m2: nat)
    requires h1 < 0x4000_0000 && m1 <= 1 && h2 < 0x4000_0000 && m2 <= 1
    requires Context(h1, m1) == Context(h2, m2)
    ensures h1 == h2 && m1 == m2
  {
    assert h1 == Context(h1, m1) / 2;
  }

  /**
   * `plic_priority_index(src)`: byte offset `src * 4` turned back into a word
   * index.  The 32-bit multiplication drops the top two bits of `src`.
   */
  function PriorityIndex(src: Word): (i: Word)
    ensures i < 0x4000_0000
  {
    Wrap(src * 4) / 4
  }

  /** The priority index keeps the low 30 bits of the source number. */
  lemma PriorityIndexValue(src: Word)
    ensures PriorityIndex(src) == src % 0x4000_0000
    ensures src < 0x4000_0000 ==> PriorityIndex(src) == src
  {
    assert src * 4 == (src % 0x4000_0000) * 4 + (src / 0x4000_0000) * WordSpace;
  }

  /**
   * `plic_enable_index(ctx, src)` as written: `(ctx * 0x80 + (src >> 5)) >> 2`.
   * The word number of the source, `src >> 5`, is added to a byte offset
   * without being scaled by four, and is then divided by four with it.
   */
  function EnableIndex(ctx: Word, src: Word): (i: Word)
    ensures i < 0x4000_0000
  {
    Wrap(ctx * 0x80 + src / 32) / 4
  }

  /** The enable index as written is `ctx * 32 + (src >> 7)`. */
  lemma EnableIndexValue(ctx: Word, src: Word)
    requires ctx < 0x0100_0000
    ensures EnableIndex(ctx, src) == ctx * 32 + src / 128
  {
  }

  /**
   * The enable word of the PLIC memory map: byte offset
   * `ctx * 0x80 + (src / 32) * 4`, as a word index.  Each context owns 32
   * consecutive words and source `src` is bit `src % 32` of word `src / 32`.
   */
  function StandardEnableIndex(ctx: Word, src: Word): Word {
    Wrap(ctx * 0x80 + (src / 32) * 4) / 4
  }

  /** The enable index of the memory map is `ctx * 32 + src / 32`. */
  lemma StandardEnableIndexValue(ctx: Word, src: Word)
    requires ctx < 0x0100_0000
    ensures StandardEnableIndex(ctx, src) == ctx * 32 + src / 32
  {
  }

  /** `plic_threshold_index(ctx)`: one threshold register per 4 KiB page. */
  function ThresholdIndex(ctx: Word): (i: Word)
    ensures i < 0x4000_0000
  {
    Wrap(ctx * 0x1000) / 4
  }

  /** `plic_claim_index(ctx)`: the same stride as the threshold. */
  function ClaimIndex(ctx: Word): (i: Word)
    ensures i < 0x4000_0000
  {
    Wrap(ctx * 0x1000) / 4
  }

  /** `plic_complete_index(ctx)`: the same stride as the threshold. */
  function CompleteIndex(ctx: Word): (i: Word)
    ensures i < 0x4000_0000
  {
    Wrap(ctx * 0x1000) / 4
  }

  /**
   * The three per-context indices coincide, and for every context below 2^20
   * (beyond it the byte offset wraps) they are `ctx * 1024`.
   */
  lemma ContextIndexValue(ctx: Word)
    ensures ThresholdIndex(ctx) == ClaimIndex(ctx) == CompleteIndex(ctx)
    ensures ctx < 0x10_0000 ==> ThresholdIndex(ctx) == ctx * 1024
  {
  }

  /** The single-bit mask `1 << b`. */
  function Mask(b: Reg): Reg
    requires b < 32
  {
    1 << b
  }

  /** Bit `b` of `w` is one. */
  predicate BitSet(w: Reg, b: Reg)
    requires b < 32
  {
    ((w >> b) & 1) == 1
  }

  /** `w | (1 << b)`: bit `b` is set afterwards and every other bit is as before. */
  function SetBit(w: Reg, b: Reg): (r: Reg)
    requires b < 32
    ensures BitSet(r, b)
    ensures (r & !Mask(b)) == (w & !Mask(b))
  {
    w | Mask(b)
  }

  /** Setting a bit never clears another one. */
  lemma SetBitKeeps(w: Reg, b: Reg, c: Reg)
    requires b < 32 && c < 32 && BitSet(w, c)
    ensures BitSet(SetBit(w, b), c)
  {
  }

  /** Setting a bit leaves every other bit as it was. */
  lemma SetBitOthers(w: Reg, b: Reg, c: Reg)
    requires b < 32 && c < 32 && b != c
    ensures BitSet(SetBit(w, b), c) == BitSet(w, c)
  {
  }

  /** Setting a bit that is already set changes nothing. */
  lemma SetBitIdempotent(w: Reg, b: Reg)
    requires b < 32
    ensures SetBit(SetBit(w, b), b) == SetBit(w, b)
  {
  }

  /** `src & 31`: the bit of a source within its enable word. */
  function EnableBit(src: Word): (b: Reg)
    ensures b < 32
  {
    (src % 32) as Reg
  }

  /** Memory as a total map from byte address to the 32-bit word stored there. */
  ghost predicate Total(m: map<Addr, Reg>) {
    forall a: Addr :: a in m
  }

  /** The byte address `plic_enable_set` updates. */
  function EnableWord(p: PlicDriver, ctx: Word, src: Word): Addr {
    Slot(p.enable, EnableIndex(ctx, src))
  }

  /** Whether the enable bit the driver uses for `src` in context `ctx` is one. */
  ghost predicate Enabled(m: map<Addr, Reg>, p: PlicDriver, ctx: Word, src: Word)
    requires Total(m)
  {
    BitSet(m[EnableWord(p, ctx, src)], EnableBit(src))
  }

  /** The memory after `plic_enable_set(p, ctx, src)`. */
  ghost function EnableWrite(m: map<Addr, Reg>, p: PlicDriver, ctx: Word, src: Word): (r: map<Addr, Reg>)
    requires Total(m)
    ensures Total(r)
    ensures Enabled(r, p, ctx, src)
    ensures r[EnableWord(p, ctx, src)] == SetBit(m[EnableWord(p, ctx, src)], EnableBit(src))
    ensures forall a :: a != EnableWord(p, ctx, src) ==> r[a] == m[a]
  {
    var a := EnableWord(p, ctx, src);
    var v := SetBit(m[a], EnableBit(src));
    assert BitSet(v, EnableBit(src));
    m[a := v]
  }

  /** Enabling a source twice is the same as enabling it once. */
  lemma EnableWriteIdempotent(m: map<Addr, Reg>, p: PlicDriver, ctx: Word, src: Word)
    requires Total(m)
    ensures EnableWrite(EnableWrite(m, p, ctx, src), p, ctx, src) == EnableWrite(m, p, ctx, src)
  {
    var a := EnableWord(p, ctx, src);
    SetBitIdempotent(m[a], EnableBit(src));
  }

  /** Enabling one source keeps every source enabled before enabled. */
  lemma EnableWriteKeeps(m: map<Addr, Reg>, p: PlicDriver, ctx: Word, src: Word, other: Word)
    requires Total(m) && Enabled(m, p, ctx, other)
    ensures Enabled(EnableWrite(m, p, ctx, src), p, ctx, other)
  {
    var a := EnableWord(p, ctx, src);
    if EnableWord(p, ctx, other) == a {
      SetBitKeeps(m[a], EnableBit(src), EnableBit(other));
    }
  }

  /**
   * Enabling one source leaves the enable bit of every source with another
   * bit number as it was, even one that shares the word.
   */
  lemma EnableWriteOthers(m: map<Addr, Reg>, p: PlicDriver, ctx: Word, src: Word, other: Word)
    requires Total(m) && EnableBit(src) != EnableBit(other)
    ensures Enabled(EnableWrite(m, p, ctx, src), p, ctx, other) == Enabled(m, p, ctx, other)
  {
    var a := EnableWord(p, ctx, src);
    if EnableWord(p, ctx, other) == a {
      SetBitOthers(m[a], EnableBit(src), EnableBit(other));
    }
  }

  /** A sequence of `plic_enable_set` calls on one context, in order. */
  ghost function EnableAll(m: map<Addr, Reg>, p: PlicDriver, ctx: Word, srcs: seq<Word>): (r: map<Addr, Reg>)
    requires Total(m)
    ensures Total(r)
    decreases |srcs|
  {
    if srcs == [] then m else EnableAll(EnableWrite(m, p, ctx, srcs[0]), p, ctx, srcs[1..])
  }

  /**
   * After enabling a list of sources one by one, every one of them is
   * enabled, and so is every source that was enabled before: the
   * read-modify-write never clears a bit.
   */
  lemma {:induction false} EnableAllEnables(m: map<Addr, Reg>, p: PlicDriver, ctx: Word, srcs: seq<Word>, src: Word)
    requires Total(m)
    requires src in srcs || Enabled(m, p, ctx, src)
    ensures Enabled(EnableAll(m, p, ctx, srcs), p, ctx, src)
    decreases |srcs|
  {
    if srcs != [] {
      var m' := EnableWrite(m, p, ctx, srcs[0]);
      if Enabled(m, p, ctx, src) {
        EnableWriteKeeps(m, p, ctx, srcs[0], src);
      }
      if src !in srcs[1..] {
        assert src == srcs[0] || Enabled(m, p, ctx, src);
      }
      EnableAllEnables(m', p, ctx, srcs[1..], src);
    }
  }

  /** Words that no enable call of the list targets keep their contents. */
  lemma {:induction false} EnableAllFrame(m: map<Addr, Reg>, p: PlicDriver, ctx: Word, srcs: seq<Word>, a: Addr)
    requires Total(m)
    requires forall i :: 0 <= i < |srcs| ==> EnableWord(p, ctx, srcs[i]) != a
    ensures EnableAll(m, p, ctx, srcs)[a] == m[a]
    decreases |srcs|
  {
    if srcs != [] {
      EnableAllFrame(EnableWrite(m, p, ctx, srcs[0]), p, ctx, srcs[1..], a);
    }
  }

  /**
   * The enable index as written sends every source below 128 to the first
   * word of the context, so sources 0 and 32 share a word; the PLIC memory
   * map puts source 32 in the next word.
   */
  lemma EnableIndexAliases(ctx: Word)
    requires ctx < 0x0100_0000
    ensures EnableIndex(ctx, 32) == EnableIndex(ctx, 0)
    ensures StandardEnableIndex(ctx, 32) == StandardEnableIndex(ctx, 0) + 1
  {
    EnableIndexValue(ctx, 32);
    EnableIndexValue(ctx, 0);
    StandardEnableIndexValue(ctx, 32);
    StandardEnableIndexValue(ctx, 0);
  }

  /**
   * Consequence of the aliasing: after `plic_enable_set` for source 32 the
   * bit the driver reads for source 0 is set too, whatever memory held.
   */
  lemma EnableAliasReported(m: map<Addr, Reg>, p: PlicDriver, ctx: Word)
    requires Total(m) && ctx < 0x0100_0000
    ensures Enabled(EnableWrite(m, p, ctx, 32), p, ctx, 0)
  {
    EnableIndexAliases(ctx);
    assert EnableWord(p, ctx, 32) == EnableWord(p, ctx, 0);
    assert EnableBit(32) == EnableBit(0);
  }

  /**
   * With the index of the PLIC memory map, every source of a context has a
   * bit of its own: word and bit together give back the source.
   */
  lemma StandardEnableBitsDistinct(ctx: Word, s1: Word, s2: Word)
    requires ctx < 0x0100_0000
    requires StandardEnableIndex(ctx, s1) == StandardEnableIndex(ctx, s2)
    requires s1 % 32 == s2 % 32
    ensures s1 == s2
  {
    StandardEnableIndexValue(ctx, s1);
    StandardEnableIndexValue(ctx, s2);
  }

  /** The two indices agree exactly on the first 32 sources, among them the UART's. */
  lemma EnableIndexAgreesBelow32(ctx: Word, src: Word)
    requires ctx < 0x0100_0000
    ensures EnableIndex(ctx, src) == StandardEnableIndex(ctx, src) <==> src < 32
  {
    EnableIndexValue(ctx, src);
    StandardEnableIndexValue(ctx, src);
  }

  /**
   * For a driver made by `newPlicDriver`, `plic_complete` stores to the very
   * register `plic_claim` loads from.
   */
  lemma ClaimCompleteSameRegister(base: Word, ctx: Word)
    ensures Slot(NewPlicDriver(base).complete, CompleteIndex(ctx)) == Slot(NewPlicDriver(base).claim, ClaimIndex(ctx))
  {
  }

  /** That register is the 32-bit word after the context's threshold register. */
  lemma ClaimFollowsThreshold(base: Word, ctx: Word)
    ensures Slot(NewPlicDriver(base).claim, ClaimIndex(ctx)).bits == Wrap(Slot(NewPlicDriver(base).threshold, ThresholdIndex(ctx)).bits + 4)
  {
    var i := ThresholdIndex(ctx);
    ContextIndexValue(ctx);
    WrapShift(base, 0x20_0000, 4 * i, 4);
  }

  /** Sums truncated in steps equal the sum truncated once. */
  lemma WrapShift(base: Word, off: nat, x: nat, y: nat)
    ensures Wrap(Wrap(Wrap(base + off) + x) + y) == Wrap(Wrap(base + off + y) + x)
  {
    WrapAdd(base + off, x);
    WrapAdd(base + off + x, y);
    WrapAdd(base + off + y, x);
    assert base + off + x + y == base + off + y + x;
  }

  /** Truncating before adding does not change the truncated sum. */
  lemma WrapAdd(a: nat, b: nat)
    ensures Wrap(Wrap(a) + b) == Wrap(a + b)
  {
    var q := a / WordSpace;
    assert a == q * WordSpace + Wrap(a);
    assert a + b == q * WordSpace + (Wrap(a) + b);
  }

  /** Word `i` of the block at `base + off` is byte `off + 4 * i` from the base. */
  lemma SlotOffset(base: Word, off: nat, i: Word)
    ensures Slot(Wrap(base + off), i).bits == Wrap(base + (off + 4 * i))
  {
  }

  /** The address of the priority word of `src`. */
  lemma PriorityAddr(base: Word, src: Word, off: nat)
    requires src < 0x4000_0000 && off == 4 * src
    ensures Slot(NewPlicDriver(base).priority, PriorityIndex(src)).bits == Wrap(base + off)
  {
    PriorityIndexValue(src);
    SlotOffset(base, 0, src);
  }

  /** The address of the enable word the driver computes for `src` in context `ctx`. */
  lemma EnableAddr(base: Word, ctx: Word, src: Word, off: nat)
    requires ctx < 0x0100_0000 && off == 0x2000 + 4 * (ctx * 32 + src / 128)
    ensures Slot(NewPlicDriver(base).enable, EnableIndex(ctx, src)).bits == Wrap(base + off)
  {
    EnableIndexValue(ctx, src);
    SlotOffset(base, 0x2000, ctx * 32 + src / 128);
  }

  /** The addresses of the threshold and claim/complete words of context `ctx`. */
  lemma ContextAddrs(base: Word, ctx: Word, th: nat, cl: nat)
    requires ctx < 0x10_0000 && th == 0x20_0000 + 4 * (ctx * 1024) && cl == th + 4
    ensures Slot(NewPlicDriver(base).threshold, ThresholdIndex(ctx)).bits == Wrap(base + th)
    ensures Slot(NewPlicDriver(base).claim, ClaimIndex(ctx)).bits == Wrap(base + cl)
  {
    ContextIndexValue(ctx);
    SlotOffset(base, 0x20_0000, ctx * 1024);
    SlotOffset(base, 0x20_0004, ctx * 1024);
  }

  /** Distinct offsets below 2^32 from one base are distinct addresses. */
  lemma OffsetsDistinct(base: Word, x: Word, y: Word)
    requires x != y
    ensures Wrap(base + x) != Wrap(base + y)
  {
  }

  /**
   * Within the limits of the PLIC memory map (sources below 1024, contexts
   * below 15872) the registers the driver writes for one context never share
   * an address: a priority store cannot reach an enable bitmap, an enable
   * store cannot reach a threshold, and threshold and claim/complete are
   * different words.
   */
  lemma RegistersDisjoint(base: Word, ctx: Word, s1: Word, s2: Word)
    requires ctx < 15872 && s1 < 1024 && s2 < 1024
    ensures var p := NewPlicDriver(base);
      var pri := Slot(p.priority, PriorityIndex(s1));
      var en := Slot(p.enable, EnableIndex(ctx, s2));
      var th := Slot(p.threshold, ThresholdIndex(ctx));
      var cl := Slot(p.claim, ClaimIndex(ctx));
      pri != en && pri != th && pri != cl && en != th && en != cl && th != cl
  {
    var oPri := 4 * s1;
    var oEn := 0x2000 + 4 * (ctx * 32 + s2 / 128);
    var oTh := 0x20_0000 + 4 * (ctx * 1024);
    var oCl := 0x20_0004 + 4 * (ctx * 1024);
    assert oPri < oEn < oTh < oCl < WordSpace;
    PriorityAddr(base, s1, oPri);
    EnableAddr(base, ctx, s2, oEn);
    ContextAddrs(base, ctx, oTh, oCl);
    OffsetsDistinct(base, oPri, oEn);
    OffsetsDistinct(base, oPri, oTh);
    OffsetsDistinct(base, oPri, oCl);
    OffsetsDistinct(base, oEn, oTh);
    OffsetsDistinct(base, oEn, oCl);
    OffsetsDistinct(base, oTh, oCl);
  }

  /** The memory the driver stores to and loads from. */
  class Mmio {
    var words: map<Addr, Reg>

    ghost predicate Valid()
      reads this
    {
      Total(words)
    }
  }

  /** `plic_priority_set(p, src, prio)`: stores `prio` in the priority word of `src` and nowhere else. */
  method PrioritySet(p: PlicDriver, mem: Mmio, src: Word, prio: Reg)
    requires mem.Valid()
    modifies mem
    ensures mem.Valid()
    ensures mem.words == old(mem.words)[Slot(p.priority, PriorityIndex(src)) := prio]
  {
    mem.words := mem.words[Slot(p.priority, PriorityIndex(src)) := prio];
  }

  /**
   * `plic_enable_set(p, ctx, src)`: a read-modify-write that ORs bit
   * `src & 31` into the enable word; no other bit and no other word changes.
   */
  method EnableSet(p: PlicDriver, mem: Mmio, ctx: Word, src: Word)
    requires mem.Valid()
    modifies mem
    ensures mem.Valid()
    ensures mem.words == EnableWrite(old(mem.words), p, ctx, src)
  {
    var a := Slot(p.enable, EnableIndex(ctx, src));
    mem.words := mem.words[a := mem.words[a] | Mask(EnableBit(src))];
  }

  /** `plic_threshold_set(p, ctx, th)`: stores the context's threshold. */
  method ThresholdSet(p: PlicDriver, mem: Mmio, ctx: Word, th: Reg)
    requires mem.Valid()
    modifies mem
    ensures mem.Valid()
    ensures mem.words == old(mem.words)[Slot(p.threshold, ThresholdIndex(ctx)) := th]
  {
    mem.words := mem.words[Slot(p.threshold, ThresholdIndex(ctx)) := th];
  }

  /**
   * `plic_claim(p, ctx)`: loads the context's claim register.  Which source
   * the controller answers with is decided by its arbitration hardware; here
   * it is whatever the register holds.
   */
  method Claim(p: PlicDriver, mem: Mmio, ctx: Word) returns (id: Reg)
    requires mem.Valid()
    ensures id == mem.words[Slot(p.claim, ClaimIndex(ctx))]
  {
    id := mem.words[Slot(p.claim, ClaimIndex(ctx))];
  }

  /** `plic_complete(p, ctx, src)`: stores `src` into the context's claim/complete register. */
  method Complete(p: PlicDriver, mem: Mmio, ctx: Word, src: Reg)
    requires mem.Valid()
    modifies mem
    ensures mem.Valid()
    ensures mem.words == old(mem.words)[Slot(p.complete, CompleteIndex(ctx)) := src]
  {
    mem.words := mem.words[Slot(p.complete, CompleteIndex(ctx)) := src];
  }

  /**
   * The controller set-up of `main`: priority 1 for the UART source, its
   * enable bit for the hart's machine-mode context, threshold 0.  Afterwards
   * the UART is enabled, the other 31 bits of its enable word are as before,
   * its priority exceeds the threshold, and every word other than the three
   * written is as before.
   */
  method ConfigureUart(mem: Mmio, hart: nat) returns (ctx: Word)
    requires mem.Valid() && hart < 7936
    modifies mem
    ensures mem.Valid()
    ensures ctx == Context(hart, 0)
    ensures var p := NewPlicDriver(PlicBase);
      var pri := Slot(p.priority, PriorityIndex(UartSource));
      var th := Slot(p.threshold, ThresholdIndex(ctx));
      && mem.words[pri] == 1
      && mem.words[th] == 0
      && Enabled(mem.words, p, ctx, UartSource)
      && mem.words[EnableWord(p, ctx, UartSource)] == SetBit(old(mem.words[EnableWord(p, ctx, UartSource)]), EnableBit(UartSource))
      && forall a :: a != pri && a != th && a != EnableWord(p, ctx, UartSource) ==> mem.words[a] == old(mem.words[a])
  {
    var p := NewPlicDriver(PlicBase);
    ctx := Context(hart, 0);
    RegistersDisjoint(PlicBase, ctx, UartSource, UartSource);
    PrioritySet(p, mem, UartSource, 1);
    EnableSet(p, mem, ctx, UartSource);
    ThresholdSet(p, mem, ctx, 0);
  }
}
