# SiliconWaves W3K UART driver, modelled in Dafny

This project models the polled UART driver that the OpenSBI firmware uses for an early
console on the SiliconWaves W3K serial device (`lib/utils/serial/siliconwaves-uart.c`). The
device has a 16550/8250-style register layout. The driver keeps a singleton configuration
(base address, register shift, register width, input clock, baud rate). It programs the line
parameters once. It then offers a blocking `putc` and a non-blocking `getc` to the console layer.

The memory-mapped registers are not modelled as memory. Every register access is an event in
a trace: `Read(reg, addr, width, value)`, `Write(reg, addr, width, value)` or
`RegisterConsole(name)`. Each event records the logical register index and the bus address
`base + (index << shift)`. Several registers share an index (RBR/THR/DLL at 0, IER/DLM at 1),
so a map from index to value would lose information. A trace does not. Loads are answered from
a supplied sequence of device answers. With this, each operation's effect on the device is a
function of its inputs.

- `uart_registers.dfy`, module `UartRegisters`: the register access layer. It covers the
  32-bit `num << shift` offset, the choice of access width (1 and 2 are honoured, anything else
  is a 4-byte access) and the narrowing of stored values. The `Bus` datatype holds the
  configuration the layer reads, with `ReadEvent`/`WriteEvent` for a single access.
- `siliconwaves_uart.dfy`, module `SiliconwavesUart`: the driver.
  - Constants, the 16-bit baud divisor and the specification of each run as a trace
    (`InitTrace`, `PutcTrace`).
  - The class `Uart`, whose fields are the driver's static variables plus the device's trace
    and pending answers. Its methods are `GetReg`, `SetReg`, `Putc`, `Getc` and `Init`, each
    proved against those specifications.
  - The lemmas that state what each trace means.

`Init` is split in two. It stores the configuration and computes the divisor, and `Program`
issues the register stores and loads of lines 105-128 in source order. Together they produce
exactly `InitTrace`.

The divisor is narrowed to 16 bits before the zero test (line 96 declares
`bdiv` as `u16`). So a quotient such as 65536 narrows to 0 and skips the divisor stores, just
as a too-high baud rate does. `getc` returns the `u32` register value converted to `int`. With
4-byte registers a value of 2^31 or more comes back negative (`AsCInt`).

Preconditions that come from C rather than from the driver's callers:
- `baudrate != 0`: the division at line 103 is unguarded.
- `regShift < 32`: a 32-bit shift by 32 or more is undefined.

## Model

| member | source | states |
|---|---|---|
| UartRegisters.Offset | lib/utils/serial/siliconwaves-uart.c:50 | the offset of register `num` is `num << shift` in u32: it equals `num * 2^shift` when that fits in 32 bits and is congruent to it modulo 2^32 otherwise |
| UartRegisters.OffsetDropsHighBits | lib/utils/serial/siliconwaves-uart.c:62 | the 32-bit shift keeps exactly the low `32 - shift` bits of the index, moved up by `shift` |
| UartRegisters.OffsetInjective | lib/utils/serial/siliconwaves-uart.c:16-28 | with a shift of at most 28, distinct register indices below 16 never share an offset |
| UartRegisters.OffsetExamples | lib/utils/serial/siliconwaves-uart.c:50 | the line status register (index 5) is at byte 20 with shift 2; with shift 31 the high index bits wrap away |
| UartRegisters.AccessWidth | lib/utils/serial/siliconwaves-uart.c:52-57 | the access is as wide as the configured width exactly when that is 1, 2 or 4; every width other than 1 and 2 gives a 4-byte access |
| UartRegisters.Truncate | lib/utils/serial/siliconwaves-uart.c:64-69 | a stored value is narrowed to the access width: below the width's limit, unchanged when it already fits, congruent to the original otherwise |
| UartRegisters.ReadWriteAgree | lib/utils/serial/siliconwaves-uart.c:48-70 | a load and a store of the same index use the same address `base + offset` and the same width; a byte-sized value is stored unchanged |
| SiliconwavesUart.LsrBitsAreMasks | lib/utils/serial/siliconwaves-uart.c:32-37 | the THRE and DR tests are exactly the `& 0x20` and `& 0x01` mask tests on the line status value |
| SiliconwavesUart.Divisor | lib/utils/serial/siliconwaves-uart.c:96-103 | the divisor is the clock/baud quotient when it is below 2^16, and is the quotient modulo 2^16 otherwise |
| SiliconwavesUart.DivisorLow | lib/utils/serial/siliconwaves-uart.c:112 | the byte stored to DLL is below 256 and congruent to the divisor modulo 256, i.e. its low byte |
| SiliconwavesUart.DivisorHigh | lib/utils/serial/siliconwaves-uart.c:114 | the byte stored to DLM is the divisor divided by 256: for a 16-bit divisor the `& 0xff` mask removes nothing |
| SiliconwavesUart.DivisorBytesRoundTrip | lib/utils/serial/siliconwaves-uart.c:110-115 | the low byte plus 256 times the high byte gives back the divisor, and both bytes are zero exactly when the divisor is |
| SiliconwavesUart.DivisorExamples | lib/utils/serial/siliconwaves-uart.c:103 | 24 MHz at 115200 baud gives 208; a quotient of 65536 and a baud rate above the clock both give 0 |
| SiliconwavesUart.FirstReady | lib/utils/serial/siliconwaves-uart.c:74-75 | the index of the first line status answer that reports THRE, with no earlier answer reporting it; `putc` polls one more time than this index |
| SiliconwavesUart.PutcShape | lib/utils/serial/siliconwaves-uart.c:72-78 | `putc` loads only LSR while THRE is clear; after the first load with THRE set it stores `ch` to index 0 exactly once and does nothing else |
| SiliconwavesUart.AsCInt | lib/utils/serial/siliconwaves-uart.c:83 | the `u32` read is returned as a 32-bit `int` with the same bits: in range, congruent modulo 2^32, unchanged below 2^31 |
| SiliconwavesUart.InitTraceLayout | lib/utils/serial/siliconwaves-uart.c:105-130 | initialisation issues, in order: IER←0, LCR←0x80, [DLL, DLM only if the divisor is nonzero], LCR←0x03, FCR←0x01, MCR←0, load LSR, load RBR, SCR←0, console registration |
| SiliconwavesUart.InitDivisorLatch | lib/utils/serial/siliconwaves-uart.c:108-118 | with a nonzero divisor, DLL gets exactly the store of `bdiv % 256` and then DLM exactly the store of `bdiv / 256`, and together they give back the divisor; with a zero divisor nothing lies between the two LCR stores |
| SiliconwavesUart.InitSkipsZeroDivisor | lib/utils/serial/siliconwaves-uart.c:110 | after DLAB is set, indices 0 and 1 are stored to exactly when the divisor is nonzero |
| SiliconwavesUart.InitAccessesAndRegistration | lib/utils/serial/siliconwaves-uart.c:105-130 | initialisation never touches MSR (6) or MDR1 (8), and registers the console once, as its last step |
| SiliconwavesUart.InitReads | lib/utils/serial/siliconwaves-uart.c:122-126 | initialisation loads exactly twice, LSR then RBR, right after the MCR store |
| SiliconwavesUart.InitFinalLineSettings | lib/utils/serial/siliconwaves-uart.c:117-120 | the last value stored to LCR is 0x03 (8N1, DLAB off) and the last value stored to FCR is 0x01 |
| SiliconwavesUart.BringUpTrace | lib/utils/serial/siliconwaves-uart.c:93-118 | for base 0x1000_0000, 24 MHz, 115200 baud and byte registers, DLL gets 0xD0 at the base and DLM gets 0x00 at base + 1 |
| SiliconwavesUart.BringUp | lib/utils/serial/siliconwaves-uart.c:93-133 | that bring-up returns 0, issues 11 accesses and leaves LCR at 0x03 and FCR at 0x01 |
| SiliconwavesUart.Uart.constructor | lib/utils/serial/siliconwaves-uart.c:42-46 | the static configuration starts zeroed, with an empty trace |
| SiliconwavesUart.Uart.GetReg | lib/utils/serial/siliconwaves-uart.c:48-58 | one load of the register at `base + offset` at the configured width; it consumes one answer, returns it narrowed to the width, and changes nothing else |
| SiliconwavesUart.Uart.SetReg | lib/utils/serial/siliconwaves-uart.c:60-70 | one store of the narrowed value to the register at `base + offset` at the configured width, and nothing else |
| SiliconwavesUart.Uart.Putc | lib/utils/serial/siliconwaves-uart.c:72-78 | the loop polls LSR until the first THRE answer, then stores `ch` to THR; the trace grows by exactly `PutcTrace` and the configuration is unchanged |
| SiliconwavesUart.Uart.Getc | lib/utils/serial/siliconwaves-uart.c:80-85 | one LSR load; if DR is set, one RBR load whose value is returned, otherwise -1 and no further access; with 1- or 2-byte registers, -1 is returned exactly when DR is clear |
| SiliconwavesUart.Uart.Program | lib/utils/serial/siliconwaves-uart.c:105-128 | the register stores and loads of initialisation, appended to the trace in source order |
| SiliconwavesUart.Uart.Init | lib/utils/serial/siliconwaves-uart.c:93-133 | stores `base + reg_offset`, shift, width, clock and baud rate exactly as passed, appends exactly `InitTrace` for the 16-bit divisor, consumes two answers and returns 0 |

## Left out

- `lib/utils/serial/fdt_serial_siliconwaves.c`: device-tree glue. It forwards the fields of an 8250 node straight into init and adds no logic. `fdt_parse_uart8250_node` is not part of this model.
- `include/sbi_utils/serial/siliconwaves-uart.h`: it holds only the prototype of init.
- Memory-mapped I/O: `readb`/`readw`/`readl`, `writeb`/`writew`/`writel` and `volatile` are modelled as trace events, not as memory or device behaviour.
- Pointer arithmetic: `base + reg_offset` and `base + offset` are added as unbounded naturals. Wrap-around of a 64-bit address is not modelled.
- The console layer: the console struct and `sbi_console_set_device` are recorded as one `RegisterConsole("w3k_uart")` event. Later dispatch through the console is not modelled.
- Hardware behaviour: DLAB register aliasing, FIFO occupancy, and when THRE or DR become set. These are inputs, given as the sequence of answers to loads.
- SiliconwavesUart.Uart.Putc: requires that some supplied line status answer reports THRE, so the model does not capture the unbounded spin when the device never becomes ready.
- SiliconwavesUart.Uart.Putc: takes `ch` as an unsigned byte, as `char` is on RISC-V. The sign extension of a negative `char` on other targets is not modelled.
- Concurrent use of the registers from several harts.
- The LSR bit constants other than THRE and DR (FIFOE, TEMT, BI, FE, PE, OE and the break-error mask). The driver never uses them.
