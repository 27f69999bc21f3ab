# xv6 serial port driver (uart.c), modelled in Dafny

This project models the COM1 driver of the xv6 kernel (`uart.c`). It is a
driver for an Intel 8250/16550-compatible UART at I/O port 0x3f8. There are
four operations:

- `uartinit` programs the line for 9600 baud, 8 data bits, 1 stop bit, no
  parity, and probes for the device.
- `uartputc` sends one byte after waiting a bounded time for the transmitter.
- `uartgetc` returns a received byte, or -1.
- `uartintr` hands `uartgetc` to the console layer.

The driver's only state is the static flag `uart`, which records whether a
device was found. Everything else it does is port I/O. The model
(`uart.dfy`, module `Uart`) therefore runs the driver against an
environment:

- the class `Uart.Driver` holds the flag as `present`;
- its `trace` records every access in order: `Out(port, byte)`, `In(port)`,
  `Delay(us)` and `IoapicEnable(irq, cpu)`;
- every port read takes its value from an unbounded stream of device
  responses (`responses: nat -> byte`), consumed from `cursor` on.

Each method is proved against a specification function of the responses
(`InitTrace`, `PutcTrace`, `PollCount`, …). The properties the driver
promises are proved as lemmas about those functions:

- the order of the configuration writes;
- the early exit on a missing device;
- the bounded polling;
- that the one data write goes to the transmit register.

A separate reference model of the 16550's registers (`Regs`, `Run`)
describes how writes behave when the divisor latch is open. With it, the
model proves that the configuration sequence leaves divisor 12 (9600 baud)
latched, 8N1 framing, the FIFO off and only the receive interrupt enabled.
It also proves that no later access of `uartinit` disturbs that setting.

## Model

| member | source | states |
|---|---|---|
| Uart.ToByte | uart.c:69-80 | `outb` of the int `c` writes its low byte: the result is congruent to `c` modulo 256, and equals `c` when `c` is already a byte |
| Uart.PollCount | uart.c:76-77 | the number of status reads from loop counter `pos - start` on is at least 1 and at most the polls remaining out of 128, and 0 once 128 polls are spent |
| Uart.PollUnroll | uart.c:76-77 | after `i` polls that found the transmitter busy, the loop has produced exactly `i` read-then-delay pairs and consumed `i` responses |
| Uart.PollsStopAtFirstReady | uart.c:76-77 | putc reads the line status between 1 and 128 times; every read before the last found bit 5 clear; the last found it set, unless all 128 polls were spent |
| Uart.PutcShape | uart.c:76-80 | the whole putc on a present device: `k-1` failed polls, each a read followed by exactly one 10 µs delay; a final read followed by a delay only if it also failed; then the write of `c` to port 0x3f8, even when the transmitter was never seen empty |
| Uart.PutcAccesses | uart.c:76-80 | putc writes exactly once, the low byte of `c` to the transmit register; it reads only the line status, once per poll; it requests no interrupt routing |
| Uart.BannerWrites | uart.c:62-63 | the banner loop writes the banner's characters, one each and in order, to the transmit register and writes nothing else; it reads only the line status and routes no interrupt |
| Uart.InitOrder | uart.c:28-63 | init makes exactly the seven writes 0x3fa←0, 0x3fb←0x80, 0x3f8←12, 0x3f9←0, 0x3fb←0x03, 0x3fc←0, 0x3f9←0x01 in that order, then reads 0x3fd. The trace ends there if and only if that read returned 0xFF. Otherwise it reads 0x3fa and 0x3f8, routes IRQ_COM1 to CPU 0, and then writes "xv6...\n" in order to 0x3f8, reading only 0x3fd |
| Uart.IdlePutc | uart.c:76-80 | on a device whose transmitter is always empty, putc is one status read followed by the write |
| Uart.IdleBanner | uart.c:62-63 | on such a device, the banner loop alternates one status read and one character write per character |
| Uart.IdleInit | uart.c:23-66 | on such a device, init is the configuration writes, the probe, the acknowledgement reads and the routing, then "xv6...\n" as read/write pairs; it consumes 3 + 7 responses |
| Uart.RunConcat | uart.c:29-45 | the register model runs a concatenated trace as the two parts in turn |
| Uart.ConfigProgramsLine | uart.c:33-45 | from any register state, the configuration writes leave divisor 12 latched (115200/12 = 9600 baud), the latch closed, 8 data bits, 1 stop bit, no parity, the FIFO off, no modem control, and only the receive interrupt enabled |
| Uart.QuietTrace | uart.c:50-63 | with the latch closed, a trace whose only writes go to the transmit register leaves every configuration register unchanged |
| Uart.PollIsQuiet | uart.c:76-77 | the polling loop consists only of status reads and delays |
| Uart.BannerIsQuiet | uart.c:62-63 | every access of the banner loop is a read, a delay or a write to the transmit register |
| Uart.InitLeavesLineProgrammed | uart.c:23-66 | whatever the device answers, the line is programmed for 9600 8N1 at the end of init |
| Uart.Driver.constructor | uart.c:19 | the presence flag starts cleared, before any access |
| Uart.Driver.Init | uart.c:23-66 | init's accesses are exactly `InitTrace` of the responses. The flag ends set if and only if it was already set or the probe did not return 0xFF, so it is never cleared |
| Uart.Driver.Announce | uart.c:61-63 | walking the NUL-terminated banner calls putc once per character, in order, and stops at the NUL |
| Uart.Driver.Putc | uart.c:68-82 | with no device, no access at all; with a device, exactly `PutcTrace`; the flag is unchanged either way |
| Uart.Driver.Getc | uart.c:84-92 | with no device, -1 and no access. With a device, one status read; -1 if bit 0 is clear; otherwise the value of one read of 0x3f8. The result lies in -1..255 and the flag is unchanged |
| Uart.Driver.Intr | uart.c:94-98 | forwards to getc: the same accesses and result as one call of it |

## Left out

- Port I/O, the microsecond delay and interrupt routing are recorded as trace events, not performed. Values read from ports come from the response stream. What `ioapicenable` does inside the I/O APIC is not part of this model.
- The response stream is unbounded, so a read never runs out of device answers.
- `IRQ_COM1` is 4, the number the kernel's trap header gives it. That header (`traps.h`) is not part of this model.
- Uart.Driver.Intr: `consoleintr` is not part of this model. The console layer calls `uartgetc` until it returns -1 and then edits its line buffer; the model makes only the single forwarded call and returns its result.
- Interrupts arriving during `uartputc`, and concurrent callers, are not modelled; every operation runs to completion on its own.
- Uart.Driver.Announce: the banner loop of `uartinit` is written as a separate method, which `Uart.Driver.Init` calls right after routing the interrupt. It is the same loop at the same place in the sequence.
- The `char` to `int` conversion when the banner is handed to `uartputc` is taken as the character's code, because every banner character is ASCII.
