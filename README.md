# riscv-examples `c-lib-riscv`: a Dafny model of the bare-metal runtime

`c-lib-riscv/main.c` is a freestanding RISC-V machine-mode program. It decodes
the `mcause` register, drives a PLIC (platform-level interrupt controller)
and a 16550-style UART through memory-mapped registers, and renders numbers
with its own `itoa`. Its `main` sets up the UART and the PLIC, enables the
UART's receive interrupt and echoes characters. Its trap handler
`irq_handler` prints the cause. For a machine external interrupt it also
claims and completes the PLIC source. It then spins forever.

The model has six modules:

- `Cause` (cause.dfy): the `mcause` decode and the two name tables.
- `Text` (text.dfy): `itoa`. It has a specification function and an imperative method over a 35-character array.
- `Plic` (plic.dfy): the PLIC driver. Index arithmetic is on 32-bit `size_t` with explicit truncation. Loads and stores go to an `Mmio` object holding a total map from address to 32-bit register.
- `Uart` (uart.dfy): the UART driver, a class over an array of eight byte registers, plus `fprint`. `sent` is the sequence of characters the transmitter has taken.
- `Boot` (boot.dfy): the start-up part of `main`.
- `Trap` (trap.dfy): `irq_handler`. It is a function from what the handler reads (raw cause, hart number, the claim register's answer) to a trace of its actions.

`Wrappers` (wrappers.dfy) is the `Option` type.

## Model

| member | source | states |
|---|---|---|
| Cause.Decode | c-lib-riscv/main.c:75-84 | decoding never fails. The code has 31 bits and the flag one bit, and packing them back gives the raw word |
| Cause.DecodeEncode | c-lib-riscv/main.c:75-78 | decoding a packed cause gives the same two fields back |
| Cause.DecodeInjective | c-lib-riscv/main.c:80-84 | different raw words decode differently |
| Cause.DecodeInterruptFlag | c-lib-riscv/main.c:75-78 | the interrupt flag is 1 exactly when bit 31 of the raw word is set |
| Cause.ExceptionName | c-lib-riscv/main.c:40-59 | a name exists exactly for exception codes 1, 2, 5, 7, 12, 13, 15, and it is non-empty |
| Cause.IrqName | c-lib-riscv/main.c:60-73 | a name exists exactly for interrupt codes 3, 7, 11, 13, and it is non-empty |
| Cause.TablesHaveHolesAndEnds | c-lib-riscv/main.c:51-73 | the tables have 16 and 14 slots, slot 0 of each is empty, and no code past a table's end has a name |
| Text.Digits | c-lib-riscv/main.c:229-232 | the do-while emits at least one digit, even for zero |
| Text.DigitsRoundTrip | c-lib-riscv/main.c:229-232 | reading the digits back in the same base gives the number |
| Text.ItoaRoundTrip | c-lib-riscv/main.c:224-246 | `'0'`, then the base letter, then the digits parses back to the number in bases 2..16 |
| Text.DigitsNoLeadingZero | c-lib-riscv/main.c:229-232 | the first digit is `'0'` only for zero |
| Text.DigitsFit | c-lib-riscv/main.c:224-232 | a number below 2^k has at most k digits in any base of at least 2, so a 32-bit number fits the 35-slot buffer |
| Text.NextDigit | c-lib-riscv/main.c:230-231 | the character stored is the last digit of the number in the base, the digits before it are those of the quotient, and a non-zero quotient is smaller than the number, so the do-while ends |
| Text.Prefix | c-lib-riscv/main.c:234-241 | a base letter is written exactly for bases 2, 8, 10 and 16, and it is one character |
| Text.ItoaText | c-lib-riscv/main.c:224-246 | the text is `'0'`, the base letter if any, and the digits, so its length is their sum plus one |
| Text.WriteBaseLetter | c-lib-riscv/main.c:234-241 | b, o, d or x goes in front of the digits for bases 2, 8, 10 and 16, nothing for other bases, and the slots before it are unchanged |
| Text.WriteDigits | c-lib-riscv/main.c:225-232 | the NUL-and-digits loop leaves the digits of `num` followed by NUL at the end of the buffer and touches nothing before them |
| Text.Itoa | c-lib-riscv/main.c:224-246 | the returned index starts `'0'`, then b/o/d/x for bases 2/8/10/16, then the digits, then NUL, and the slots before it are unchanged |
| Plic.NewPlicDriver | c-lib-riscv/main.c:100-109 | the priority block starts at the base, and claim and complete are one address |
| Plic.NewPlicDriverLayout | c-lib-riscv/main.c:100-109 | priorities start at the base. Claim and complete are one register, four bytes after the threshold register |
| Plic.Context | c-lib-riscv/main.c:118-122 | the context is `2 * hart + mode`, and hart and mode can be read back from it |
| Plic.ContextInjective | c-lib-riscv/main.c:118-122 | distinct (hart, mode) pairs give distinct contexts |
| Plic.PriorityIndex | c-lib-riscv/main.c:124 | a 32-bit byte offset shifted right by two is a word index below 2^30 |
| Plic.PriorityIndexValue | c-lib-riscv/main.c:124 | the priority index is `src` modulo 2^30 (the 32-bit `src * 4` loses the top two bits) |
| Plic.EnableIndex | c-lib-riscv/main.c:130-132 | the shifted 32-bit sum is a word index below 2^30 |
| Plic.EnableIndexValue | c-lib-riscv/main.c:130-132 | the enable index as written is `ctx * 32 + src / 128` |
| Plic.StandardEnableIndexValue | c-lib-riscv/main.c:130-132 | the memory-map enable index is `ctx * 32 + src / 32` |
| Plic.EnableIndexAgreesBelow32 | c-lib-riscv/main.c:130-132 | the two enable indices agree exactly for sources below 32, the UART's source 10 among them |
| Plic.ThresholdIndex | c-lib-riscv/main.c:138 | the shifted 32-bit byte offset is a word index below 2^30 |
| Plic.ClaimIndex | c-lib-riscv/main.c:144 | the shifted 32-bit byte offset is a word index below 2^30 |
| Plic.CompleteIndex | c-lib-riscv/main.c:150 | the shifted 32-bit byte offset is a word index below 2^30 |
| Plic.ContextIndexValue | c-lib-riscv/main.c:138-150 | the threshold, claim and complete indices are equal, and are `ctx * 1024` below 2^20 |
| Plic.SetBit | c-lib-riscv/main.c:134-136 | ORing `1 << b` sets bit b and leaves every other bit |
| Plic.SetBitKeeps | c-lib-riscv/main.c:134-136 | setting a bit never clears one |
| Plic.SetBitOthers | c-lib-riscv/main.c:134-136 | every other bit keeps its value |
| Plic.SetBitIdempotent | c-lib-riscv/main.c:134-136 | setting a bit twice is setting it once |
| Plic.EnableWrite | c-lib-riscv/main.c:134-136 | after `plic_enable_set` the source reads enabled, and every word but the one enable word is unchanged |
| Plic.EnableWriteIdempotent | c-lib-riscv/main.c:134-136 | enabling a source twice equals enabling it once |
| Plic.EnableWriteKeeps | c-lib-riscv/main.c:134-136 | a source enabled before stays enabled |
| Plic.EnableWriteOthers | c-lib-riscv/main.c:134-136 | sources with another bit number keep their enable state, even in the same word |
| Plic.EnableAllEnables | c-lib-riscv/main.c:134-136 | after enabling a list of sources, each of them and each source enabled before is enabled |
| Plic.EnableAllFrame | c-lib-riscv/main.c:134-136 | words no call of the list targets keep their contents |
| Plic.EnableIndexAliases | c-lib-riscv/main.c:130-132 | as written, sources 0 and 32 get the same enable word. In the memory map, source 32 is in the next word |
| Plic.EnableAliasReported | c-lib-riscv/main.c:130-136 | as written, enabling source 32 sets the bit read for source 0 |
| Plic.StandardEnableBitsDistinct | c-lib-riscv/main.c:130-136 | with the memory-map index, word and bit determine the source |
| Plic.ClaimCompleteSameRegister | c-lib-riscv/main.c:144-154 | `plic_complete` stores to the register `plic_claim` loads from |
| Plic.ClaimFollowsThreshold | c-lib-riscv/main.c:100-109 | that register is the word after the context's threshold register |
| Plic.RegistersDisjoint | c-lib-riscv/main.c:100-154 | for sources below 1024 and contexts below 15872, no two of a context's priority, enable, threshold and claim words coincide |
| Plic.PrioritySet | c-lib-riscv/main.c:126-128 | stores `prio` at the source's priority word and changes no other word |
| Plic.EnableSet | c-lib-riscv/main.c:134-136 | the new memory is `EnableWrite` of the old |
| Plic.ThresholdSet | c-lib-riscv/main.c:140-142 | stores the threshold at the context's threshold word and changes no other word |
| Plic.Claim | c-lib-riscv/main.c:146-148 | returns the word at the context's claim register and changes nothing |
| Plic.Complete | c-lib-riscv/main.c:152-154 | stores the source at the context's complete register and changes no other word |
| Plic.ConfigureUart | c-lib-riscv/main.c:270-276 | afterwards the UART's priority is 1, the threshold is 0, the UART source is enabled, the other 31 bits of its enable word keep their values, and no other word changed |
| Uart.ExpandOut | c-lib-riscv/main.c:168-174 | a newline goes out as CR LF, any other character as itself |
| Uart.TranslateIn | c-lib-riscv/main.c:176-183 | a received CR is handed back as a newline, and the result is never CR |
| Uart.Expand | c-lib-riscv/main.c:215-218 | `fprint` through `uart_rtx_write` puts at least one character on the wire per character of the text |
| Uart.CollapseExpand | c-lib-riscv/main.c:168-174 | for a text without CR, reading the wire back (CR LF as newline) gives the text |
| Uart.ExpandLength | c-lib-riscv/main.c:168-174 | the wire carries one extra character per newline |
| Uart.ExpandNewlinesAfterCr | c-lib-riscv/main.c:168-174 | every LF on the wire is preceded by a CR |
| Uart.EchoOf | c-lib-riscv/main.c:168-183 | a received CR or LF is echoed as CR LF, and anything else as itself |
| Uart.CStr | c-lib-riscv/main.c:215-218 | the text `fprint` prints is the prefix before the first NUL, and contains no NUL |
| Uart.IerSet | c-lib-riscv/main.c:194-196 | enabling sets the low four flag bits and leaves the high four bits of IER |
| Uart.IerClear | c-lib-riscv/main.c:198-200 | disabling clears the low four flag bits and leaves the high four bits of IER |
| Uart.IerSetIdempotent | c-lib-riscv/main.c:194-196 | enabling twice is enabling once |
| Uart.IerSetEnables | c-lib-riscv/main.c:194-196 | `uart_irq_enable_set(&uart, 1)` turns on IER bit 0 |
| Uart.IerClearAfterSet | c-lib-riscv/main.c:194-200 | clearing after setting the same flags equals clearing alone |
| Uart.IerUpdatesKeepOthers | c-lib-riscv/main.c:194-200 | bits outside the flags are untouched by both updates |
| Uart.FifoInitValue | c-lib-riscv/main.c:190 | FIFO init sets the three low bits and keeps the other five |
| Uart.UartDriver.constructor | c-lib-riscv/main.c:162-164 | a fresh driver over the given register contents, with nothing sent |
| Uart.UartDriver.RtxWrite | c-lib-riscv/main.c:168-174 | for a character that fits a C `char`, once the transmitter is ready, appends `ExpandOut(c)` to the wire and leaves the holding register with `c` and the other registers unchanged |
| Uart.UartDriver.RtxRead | c-lib-riscv/main.c:176-183 | once a character is waiting, returns the received byte with CR turned into a newline |
| Uart.UartDriver.FifoInit | c-lib-riscv/main.c:190 | register 2 becomes `FifoInitValue` of its old value, and no other register changes |
| Uart.UartDriver.FifoStatus | c-lib-riscv/main.c:192 | the result is at most 3 and is the top two bits of register 2 |
| Uart.UartDriver.IrqEnableSet | c-lib-riscv/main.c:194-196 | IER becomes `IerSet` of its old value, and no other register changes |
| Uart.UartDriver.IrqEnableClear | c-lib-riscv/main.c:198-200 | IER becomes `IerClear` of its old value, and no other register changes |
| Uart.UartDriver.IrqIsPending | c-lib-riscv/main.c:202-204 | the result is 1 exactly when bit 0 of register 2 is low, and 0 otherwise |
| Uart.UartDriver.Fprint | c-lib-riscv/main.c:215-218 | for a text of C `char`s, the wire gets the expansion of the C string, character by character, and only the holding register changes |
| Uart.UartDriver.Echo | c-lib-riscv/main.c:284-285 | one round of the echo loop returns the received byte with CR turned into a newline, appends its `ExpandOut` to the wire, leaves that character in the holding register, and changes no other register, so rounds chain |
| Boot.MessageReadsBack | c-lib-riscv/main.c:254-283 | each start-up message (no CR in it) reads back from the wire as itself |
| Boot.MessagesAreCChars | c-lib-riscv/main.c:254-283 | every character of the five start-up messages fits a C `char` |
| Boot.Start | c-lib-riscv/main.c:254-283 | the wire carries the five messages in order. IER becomes `IerSet` of its old value with flag 1, so bit 0 is on, register 2 becomes `FifoInitValue` of its old value, and no other UART register but the holding register changes. The PLIC routes the UART to the hart's machine context with priority 1 over threshold 0, keeps the other 31 bits of the enable word, and changes no other word |
| Trap.Dispatch | c-lib-riscv/main.c:288-324 | the handler's trace is never empty and its last step is the halt loop |
| Trap.DispatchHalts | c-lib-riscv/main.c:288-324 | the handler always ends in the halt loop and halts nowhere earlier |
| Trap.ClaimOnlyForExternal | c-lib-riscv/main.c:300-320 | the handler touches the PLIC exactly when the cause is interrupt 11 |
| Trap.CompleteMatchesClaim | c-lib-riscv/main.c:312-320 | for interrupt 11 there is exactly one claim and one complete. They use the same register and the claimed id, with only printing between |
| Trap.ReportStartsWithCause | c-lib-riscv/main.c:292-298 | the report starts with `irq: `, the flag from `itoa` in base 2, ` : code: `, the code from `itoa` in base 16, then `: ` |
| Trap.NamePrintedIffKnown | c-lib-riscv/main.c:300-310 | right after `exception: ` / `interrupt: ` comes the name when the table has one, and otherwise the next fixed step |
| Trap.NameAsWrittenMissing | c-lib-riscv/main.c:300-310 | as written, exception codes 0, 3, 11 and interrupt code 5 read a NULL slot, and exception code 16 and interrupt code 14 read past the array |
| Trap.ReadSlot | c-lib-riscv/main.c:300-310 | an unchecked table read runs past the end exactly when the code is at least the table's length, and finds a name exactly when the slot inside it is filled |
| Trap.NameAsWritten | c-lib-riscv/main.c:300-310 | `exception_names[code]` reads past its 16 slots and `irq_names[code]` past its 14 exactly for codes at or beyond them |
| Trap.NameMatchesTableRead | c-lib-riscv/main.c:300-310 | the C read finds a name exactly for the codes of the enumeration, the name is then the one the modelled lookup returns, and the lookup has none exactly where the C read hits a NULL slot or runs past the array |
| Trap.UartInterruptScenario | c-lib-riscv/main.c:288-324 | `mcause` 0x8000000B is interrupt 11, "Machine external interrupt". On hart 0 with claim answer 10 the handler claims and completes at 0x0c200004 and prints `0xa` |
| Trap.IllegalInstructionScenario | c-lib-riscv/main.c:288-305 | `mcause` 2 prints the header, `exception: `, "Illegal instruction", and halts |

## Left out

- CSR access (`csrr`/`csrw`/`csrs`, `mret`, `wfi`): the raw `mcause` and the `mhartid` value are inputs of `Trap.Dispatch`, `Plic.ConfigureUart` and `Boot.Start`. The `mtvec`, `mstatus` and `mie` writes of `main` are not modelled.
- The spin-waits on the UART line-status register (`uart_rtx_write`, `uart_rtx_read`, `uart_rtx_flush`): the readiness bit they wait for is a precondition. `uart_rtx_flush` consists of only such a wait and is not modelled.
- `uart_rtx_write` stores CR and the newline back to back after one readiness check. The model assumes the holding register or FIFO takes both.
- Device register semantics: the UART registers and PLIC words are plain memory. Register 2 is the FIFO control register on write and the interrupt identification register on read. The model treats it as one byte.
- PLIC arbitration: the value the claim register answers with is an input.
- `volatile`, the `Writer` function-pointer indirection (`fprint` writes through the UART directly), and the `PLIC_DECLARE`/`UART_DECLARE` macros, which duplicate `newPlicDriver`/`newUartDriver`.
- `main`'s endless echo loop: one round is `Uart.UartDriver.Echo`.
- Trap.Dispatch: for a code whose table slot is empty, the model prints no name. The C passes a NULL or out-of-bounds pointer to `fprint` (see Findings).
- Plic.Context: requires a hart number below 2^30, where `hart << 1` on the C `int` does not overflow.
- Plic.ConfigureUart: requires a hart number below 7936, so that the context is below 15872, the PLIC's limit, and the three registers it writes are distinct.
- Plic.RegistersDisjoint: stated only within the PLIC memory map's limits (sources below 1024, contexts below 15872). Beyond them the 32-bit sums wrap.
- Plic.EnableSet: `1 << (src & 31)` is computed on a C `int`, so bit 31 is signed overflow in C. The model sets bit 31 as the hardware does.
- Text.Itoa: requires a base of 2..16 and a number below 2^32, the `size_t` range. Outside that range, base 0 divides by zero, base 1 loops for every non-zero number, base 17 writes the literal's NUL as a digit, and larger bases read past `hexchars`. These are the caller's obligations in the source.

## Findings

| source | as written | input that shows it | evidently intended | confidence | as-written member | corrected member |
|---|---|---|---|---|---|---|
| c-lib-riscv/main.c:130-132 | `(ctx * 0x80 + (src >> 5)) >> 2` adds the word number unscaled to a byte offset, so the index is `ctx * 32 + src / 128` | context 0, source 32: same word and bit as source 0, so enabling 32 also enables 0 | `ctx * 32 + src / 32`, as in the PLIC memory map (byte offset `0x2000 + ctx * 0x80 + 4 * (src / 32)`) | high, not executed | Plic.EnableAliasReported | Plic.StandardEnableBitsDistinct |
| c-lib-riscv/main.c:300-310 | `exception_names[cause.code]` / `irq_names[cause.code]` are passed to `fprint` unchecked | `mcause` 0 (misaligned fetch), 3 (breakpoint) or 11 (ecall from M-mode): NULL slot, which `fprint` dereferences. Exception codes 16 and up and interrupt codes 14 and up read past the array | print a name only when the table has one | high, not executed | Trap.NameAsWrittenMissing | Trap.NamePrintedIffKnown |

The driver keeps the enable index as written. `Plic.EnableIndexAgreesBelow32` proves that both indices agree for the UART's source 10, so `Plic.ConfigureUart` and `Boot.Start` hold under either index.
