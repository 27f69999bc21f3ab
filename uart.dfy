/*
 * Intel 8250/16550 serial port driver for COM1, modelled against an
 * environment: every port access is recorded in a trace, and every port
 * read takes its value from a stream of device responses.
 */
module Uart {

  // ---------------------------------------------------------------------
  // Constants and register layout
  // ---------------------------------------------------------------------

  /** Base I/O port of the first serial controller. */
  const COM1: int := 0x3f8

  /** Interrupt line of COM1 (the kernel's trap table gives it number 4). */
  const IRQ_COM1: int := 4

  /** +0: transmit holding / receive buffer, divisor low byte while the latch is open. */
  const THR: int := COM1 + 0
  /** +1: interrupt enable, divisor high byte while the latch is open. */
  const IER: int := COM1 + 1
  /** +2: FIFO control on write, interrupt identification on read. */
  const FCR: int := COM1 + 2
  /** +3: line control (bit 7 opens the divisor latch). */
  const LCR: int := COM1 + 3
  /** +4: modem control. */
  const MCR: int := COM1 + 4
  /** +5: line status (bit 0 data ready, bit 5 transmit holding empty). */
  const LSR: int := COM1 + 5

  /** Number of line-status polls uartputc makes at most. */
  const MaxPolls: nat := 128

  /** Delay, in microseconds, after each poll that found the transmitter busy. */
  const PollDelay: int := 10

  /** The startup banner, without its terminating NUL. */
  const Banner: string := "xv6...\n"

  /** The banner as the C string the driver walks with a pointer. */
  const CBanner: string := Banner + ['\0']

  /** An 8-bit value as carried by one port access. */
  type byte = x: int | 0 <= x < 256

  /** What a C conversion of an int to unsigned char keeps: the value modulo 256. */
  function ToByte(c: int): (b: byte)
    ensures (c - b) % 256 == 0
    ensures 0 <= c < 256 ==> b == c
  {
    c % 256
  }

  /** One access of the driver to its environment. */
  datatype Event =
    | Out(port: int, value: byte)        // outb(port, value)
    | In(port: int)                      // inb(port)
    | Delay(us: int)                     // microdelay(us)
    | IoapicEnable(irq: int, cpu: int)   // ioapicenable(irq, cpu)

  /** The device's answers to successive port reads. */
  type Responses = nat -> byte

  /** Line-status bit 0x20: the transmit holding register is empty. */
  predicate TxEmpty(status: byte) {
    (status / 0x20) % 2 == 1
  }

  /** Line-status bit 0x01: a received byte is waiting. */
  predicate DataReady(status: byte) {
    status % 2 == 1
  }

  /** The status value a read of an absent device yields. */
  const NoDevice: byte := 0xFF

  // ---------------------------------------------------------------------
  // Projections of a trace
  // ---------------------------------------------------------------------

  /** The port writes of a trace, in order. */
  function Writes(t: seq<Event>): seq<(int, byte)> {
    if t == [] then []
    else (if t[0].Out? then [(t[0].port, t[0].value)] else []) + Writes(t[1..])
  }

  /** The ports read in a trace, in order. */
  function Reads(t: seq<Event>): seq<int> {
    if t == [] then []
    else (if t[0].In? then [t[0].port] else []) + Reads(t[1..])
  }

  /** The interrupt-routing requests of a trace, in order. */
  function Routes(t: seq<Event>): seq<(int, int)> {
    if t == [] then []
    else (if t[0].IoapicEnable? then [(t[0].irq, t[0].cpu)] else []) + Routes(t[1..])
  }

  lemma {:induction false} ProjectConcat(t: seq<Event>, u: seq<Event>)
    ensures Writes(t + u) == Writes(t) + Writes(u)
    ensures Reads(t + u) == Reads(t) + Reads(u)
    ensures Routes(t + u) == Routes(t) + Routes(u)
  {
    if t == [] {
      assert t + u == u;
    } else {
      assert (t + u)[1..] == t[1..] + u;
      ProjectConcat(t[1..], u);
    }
  }

  lemma SeqAssoc<T>(a: seq<T>, b: seq<T>, c: seq<T>, d: seq<T>)
    ensures a + b + c + d == a + (b + (c + d))
  {
  }

  lemma SeqAssoc3<T>(a: seq<T>, b: seq<T>, c: seq<T>)
    ensures a + b + c == a + (b + c)
  {
  }

  /** n copies of s, one after the other. */
  function Repeat<T>(s: seq<T>, n: nat): seq<T> {
    if n == 0 then [] else Repeat(s, n - 1) + s
  }

  // ---------------------------------------------------------------------
  // uartputc: a bounded poll of the line status, then one write
  // ---------------------------------------------------------------------

  /**
   * Number of line-status reads uartputc makes on a present device from
   * response position pos on, when it started polling at position start
   * (so its loop counter is pos - start).
   */
  function PollCount(resp: Responses, start: nat, pos: nat): (k: nat)
    requires start <= pos
    decreases MaxPolls - (pos - start)
    ensures pos - start < MaxPolls ==> 1 <= k <= MaxPolls - (pos - start)
    ensures pos - start >= MaxPolls ==> k == 0
  {
    if pos - start >= MaxPolls then 0
    else if TxEmpty(resp(pos)) then 1
    else 1 + PollCount(resp, start, pos + 1)
  }

  /** The accesses of the polling loop of uartputc from response position pos on. */
  function PollTrace(resp: Responses, start: nat, pos: nat): seq<Event>
    requires start <= pos
    decreases MaxPolls - (pos - start)
  {
    if pos - start >= MaxPolls then []
    else if TxEmpty(resp(pos)) then [In(LSR)]
    else FailedPoll() + PollTrace(resp, start, pos + 1)
  }

  /** A failed poll: one status read followed by one delay. */
  function FailedPoll(): seq<Event> {
    [In(LSR), Delay(PollDelay)]
  }

  /** The accesses of uartputc(c) on a present device. */
  function PutcTrace(resp: Responses, cur: nat, c: int): seq<Event> {
    PollTrace(resp, cur, cur) + [Out(THR, ToByte(c))]
  }

  /** The response position after uartputc on a present device. */
  function PutcCursor(resp: Responses, cur: nat): nat {
    cur + PollCount(resp, cur, cur)
  }

  /** Every status among the responses at positions from up to (not including) to has the transmitter busy. */
  predicate AllBusy(resp: Responses, from: nat, to: nat) {
    forall n :: from <= n < to ==> !TxEmpty(resp(n))
  }

  /** After i failed polls the loop is at counter i, i responses further on. */
  lemma {:induction false} PollUnroll(resp: Responses, cur: nat, i: nat)
    requires i <= MaxPolls
    requires AllBusy(resp, cur, cur + i)
    ensures PollTrace(resp, cur, cur) == Repeat(FailedPoll(), i) + PollTrace(resp, cur, cur + i)
    ensures PollCount(resp, cur, cur) == i + PollCount(resp, cur, cur + i)
  {
    if i > 0 {
      PollUnroll(resp, cur, i - 1);
      var p := cur + (i - 1);
      assert !TxEmpty(resp(p));
      assert PollTrace(resp, cur, p) == FailedPoll() + PollTrace(resp, cur, p + 1);
      assert PollCount(resp, cur, p) == 1 + PollCount(resp, cur, p + 1);
      SeqAssoc3(Repeat(FailedPoll(), i - 1), FailedPoll(), PollTrace(resp, cur, p + 1));
    }
  }

  /** The polls from position pos on stop at the first ready status, or after 128 in all. */
  lemma {:induction false} PollStops(resp: Responses, start: nat, pos: nat)
    requires start <= pos < start + MaxPolls
    ensures var k := PollCount(resp, start, pos);
      AllBusy(resp, pos, pos + k - 1) &&
      (TxEmpty(resp(pos + k - 1)) || pos - start + k == MaxPolls)
    decreases MaxPolls - (pos - start)
  {
    if !TxEmpty(resp(pos)) && pos + 1 < start + MaxPolls {
      PollStops(resp, start, pos + 1);
    }
  }

  /**
   * uartputc reads the line status at most 128 times, stopping at the first
   * read with the transmit-empty bit set; every read before the last found the
   * bit clear; the last read found it clear only when all 128 polls are spent.
   */
  lemma PollsStopAtFirstReady(resp: Responses, cur: nat)
    ensures var k := PollCount(resp, cur, cur);
      1 <= k <= MaxPolls &&
      AllBusy(resp, cur, cur + k - 1) &&
      (TxEmpty(resp(cur + k - 1)) || k == MaxPolls)
  {
    PollStops(resp, cur, cur);
  }

  /**
   * The whole of uartputc(c) on a present device: k - 1 failed polls, each one
   * a read and exactly one delay, then a final read that is followed by a delay
   * only if it too found the transmitter busy, then the write of c's low byte
   * to the transmit register, whether or not the transmitter was seen empty.
   */
  lemma PutcShape(resp: Responses, cur: nat, c: int)
    ensures var k := PollCount(resp, cur, cur);
      PutcTrace(resp, cur, c)
        == Repeat(FailedPoll(), k - 1) + [In(LSR)]
           + (if TxEmpty(resp(cur + k - 1)) then [] else [Delay(PollDelay)])
           + [Out(THR, ToByte(c))]
  {
    var k := PollCount(resp, cur, cur);
    PollsStopAtFirstReady(resp, cur);
    PollUnroll(resp, cur, k - 1);
    if !TxEmpty(resp(cur + k - 1)) {
      assert PollTrace(resp, cur, cur + k) == [];
    }
  }

  lemma {:induction false} RepeatCons<T>(s: seq<T>, n: nat)
    ensures s + Repeat(s, n) == Repeat(s, n + 1)
  {
    if n > 0 {
      RepeatCons(s, n - 1);
    }
  }

  /** The polling loop makes no write and no routing request, and reads only the line status, once per poll. */
  lemma {:induction false} PollAccesses(resp: Responses, start: nat, pos: nat)
    requires start <= pos
    ensures Writes(PollTrace(resp, start, pos)) == []
    ensures Reads(PollTrace(resp, start, pos)) == Repeat([LSR], PollCount(resp, start, pos))
    ensures Routes(PollTrace(resp, start, pos)) == []
    decreases MaxPolls - (pos - start)
  {
    if pos - start < MaxPolls && !TxEmpty(resp(pos)) {
      PollAccesses(resp, start, pos + 1);
      ProjectConcat(FailedPoll(), PollTrace(resp, start, pos + 1));
      RepeatCons([LSR], PollCount(resp, start, pos + 1));
    }
  }

  /** uartputc writes exactly once, the byte c, and reads only the line status, k times. */
  lemma PutcAccesses(resp: Responses, cur: nat, c: int)
    ensures Writes(PutcTrace(resp, cur, c)) == [(THR, ToByte(c))]
    ensures Reads(PutcTrace(resp, cur, c)) == Repeat([LSR], PollCount(resp, cur, cur))
    ensures Routes(PutcTrace(resp, cur, c)) == []
  {
    PollAccesses(resp, cur, cur);
    ProjectConcat(PollTrace(resp, cur, cur), [Out(THR, ToByte(c))]);
  }

  // ---------------------------------------------------------------------
  // uartinit
  // ---------------------------------------------------------------------

  /** The register writes of uartinit before its presence probe. */
  const ConfigWrites: seq<Event> := [
    Out(FCR, 0),              // FIFO off
    Out(LCR, 0x80),           // open the divisor latch
    Out(THR, 115200 / 9600),  // divisor low byte
    Out(IER, 0),              // divisor high byte
    Out(LCR, 0x03),           // close the latch; 8 data bits, 1 stop bit, no parity
    Out(MCR, 0),              // no modem control lines
    Out(IER, 0x01)            // receive interrupts on
  ]

  /** The accesses of the first n rounds of the banner loop: one uartputc per character of s. */
  function BannerTrace(resp: Responses, cur: nat, s: string, n: nat): seq<Event>
    requires n <= |s|
  {
    if n == 0 then []
    else BannerTrace(resp, cur, s, n - 1) + PutcTrace(resp, BannerCursor(resp, cur, s, n - 1), s[n - 1] as int)
  }

  /** The response position after the first n rounds of the banner loop. */
  function BannerCursor(resp: Responses, cur: nat, s: string, n: nat): nat
    requires n <= |s|
  {
    if n == 0 then cur else PutcCursor(resp, BannerCursor(resp, cur, s, n - 1))
  }

  /** The interrupt acknowledgement and routing that follow a successful probe. */
  function AckAndRoute(): seq<Event> {
    [In(FCR), In(THR), IoapicEnable(IRQ_COM1, 0)]
  }

  /** The configuration writes and the probe, one access at a time. */
  lemma ProbedSteps(t: seq<Event>)
    ensures t + [Out(FCR, 0)] + [Out(LCR, 0x80)] + [Out(THR, 115200 / 9600)] + [Out(IER, 0)]
            + [Out(LCR, 0x03)] + [Out(MCR, 0)] + [Out(IER, 0x01)] + [In(LSR)]
         == t + (ConfigWrites + [In(LSR)])
  {
  }

  /** The acknowledgement and routing, one access at a time. */
  lemma AckSteps(t: seq<Event>)
    ensures t + [In(FCR)] + [In(THR)] + [IoapicEnable(IRQ_COM1, 0)] == t + AckAndRoute()
  {
  }

  /** The banner, walked as a C string, ends at its NUL and nowhere before. */
  lemma CBannerEnds()
    ensures |CBanner| == |Banner| + 1 && CBanner[|Banner|] == '\0'
    ensures forall i :: 0 <= i < |Banner| ==> CBanner[i] == Banner[i] != '\0'
  {
  }

  /** The accesses of uartinit, reading responses from position cur on. */
  function InitTrace(resp: Responses, cur: nat): seq<Event> {
    ConfigWrites + [In(LSR)]
    + (if resp(cur) == NoDevice then []
       else AckAndRoute() + BannerTrace(resp, cur + 3, Banner, |Banner|))
  }

  /** The response position after uartinit. */
  function InitCursor(resp: Responses, cur: nat): nat {
    if resp(cur) == NoDevice then cur + 1 else BannerCursor(resp, cur + 3, Banner, |Banner|)
  }

  lemma InitUnfold(resp: Responses, cur: nat)
    ensures resp(cur) == NoDevice ==>
      InitTrace(resp, cur) == ConfigWrites + [In(LSR)] && InitCursor(resp, cur) == cur + 1
    ensures resp(cur) != NoDevice ==>
      InitTrace(resp, cur) == ConfigWrites + [In(LSR)] + (AckAndRoute() + BannerTrace(resp, cur + 3, Banner, |Banner|)) &&
      InitCursor(resp, cur) == BannerCursor(resp, cur + 3, Banner, |Banner|)
  {
  }

  /** The banner loop writes the first n characters of s, in order, to the transmit register, and nothing else. */
  lemma {:induction false} BannerWrites(resp: Responses, cur: nat, s: string, n: nat)
    requires n <= |s|
    ensures |Writes(BannerTrace(resp, cur, s, n))| == n
    ensures forall i :: 0 <= i < n ==> Writes(BannerTrace(resp, cur, s, n))[i] == (THR, ToByte(s[i] as int))
    ensures Routes(BannerTrace(resp, cur, s, n)) == []
    ensures forall p :: p in Reads(BannerTrace(resp, cur, s, n)) ==> p == LSR
  {
    if n > 0 {
      var c := BannerCursor(resp, cur, s, n - 1);
      BannerWrites(resp, cur, s, n - 1);
      PutcAccesses(resp, c, s[n - 1] as int);
      ProjectConcat(BannerTrace(resp, cur, s, n - 1), PutcTrace(resp, c, s[n - 1] as int));
      RepeatOnly([LSR], PollCount(resp, c, c));
    }
  }

  lemma {:induction false} RepeatOnly<T>(s: seq<T>, n: nat)
    ensures forall x :: x in Repeat(s, n) ==> x in s
  {
    if n > 0 {
      RepeatOnly(s, n - 1);
    }
  }

  /**
   * uartinit first makes exactly the seven configuration writes, in order, and only
   * then reads the line status. If that read returns 0xFF nothing further happens.
   * Otherwise it reads the interrupt identification and receive registers, routes
   * IRQ_COM1 to CPU 0, and then its only writes are the seven banner characters,
   * in order, to the transmit register, with no read other than of the line status.
   */
  lemma InitOrder(resp: Responses, cur: nat)
    ensures var t := InitTrace(resp, cur);
      |t| >= 8 &&
      t[..8] == [Out(0x3fa, 0), Out(0x3fb, 0x80), Out(0x3f8, 12), Out(0x3f9, 0),
                 Out(0x3fb, 0x03), Out(0x3fc, 0), Out(0x3f9, 0x01), In(0x3fd)] &&
      (resp(cur) == NoDevice <==> |t| == 8) &&
      (resp(cur) != NoDevice ==>
        |t| >= 11 &&
        t[8..11] == [In(0x3fa), In(0x3f8), IoapicEnable(IRQ_COM1, 0)] &&
        |Writes(t[11..])| == |Banner| &&
        (forall i :: 0 <= i < |Banner| ==> Writes(t[11..])[i] == (0x3f8, Banner[i] as int)) &&
        Routes(t[11..]) == [] &&
        (forall p :: p in Reads(t[11..]) ==> p == 0x3fd))
  {
    var t := InitTrace(resp, cur);
    assert t[..8] == ConfigWrites + [In(LSR)];
    if resp(cur) != NoDevice {
      var b := BannerTrace(resp, cur + 3, Banner, |Banner|);
      assert t[11..] == b;
      BannerWrites(resp, cur + 3, Banner, |Banner|);
      forall i | 0 <= i < |Banner|
        ensures Writes(b)[i] == (0x3f8, Banner[i] as int)
      {
        assert 0 <= Banner[i] as int < 256;
      }
    }
  }

  /** A present, idle device: every status read shows the transmitter empty and no data waiting. */
  function Idle(): Responses {
    (n: nat) => 0x60
  }

  /** On an idle device, uartputc reads the status once and then writes the byte. */
  lemma IdlePutc(cur: nat, c: int)
    ensures PutcTrace(Idle(), cur, c) == [In(LSR), Out(THR, ToByte(c))]
    ensures PutcCursor(Idle(), cur) == cur + 1
  {
    assert TxEmpty(Idle()(cur));
  }

  /** On an idle device, the banner loop alternates one status read and one character write. */
  lemma {:induction false} IdleBanner(cur: nat, s: string, n: nat)
    requires n <= |s|
    ensures BannerCursor(Idle(), cur, s, n) == cur + n
    ensures |BannerTrace(Idle(), cur, s, n)| == 2 * n
    ensures forall i :: 0 <= i < n ==>
      BannerTrace(Idle(), cur, s, n)[2 * i] == In(LSR) &&
      BannerTrace(Idle(), cur, s, n)[2 * i + 1] == Out(THR, ToByte(s[i] as int))
  {
    if n > 0 {
      IdleBanner(cur, s, n - 1);
      IdlePutc(cur + n - 1, s[n - 1] as int);
    }
  }

  /**
   * The whole start-up on an idle device: the seven configuration writes, the
   * probe, the acknowledgement reads, the routing request, and then "xv6...\n"
   * sent one character at a time, each after one status read.
   */
  lemma IdleInit(cur: nat)
    ensures var t := InitTrace(Idle(), cur);
      |t| == 11 + 2 * |Banner| &&
      t[..11] == ConfigWrites + [In(LSR)] + AckAndRoute() &&
      forall i :: 0 <= i < |Banner| ==>
        t[11 + 2 * i] == In(LSR) && t[12 + 2 * i] == Out(THR, Banner[i] as int)
    ensures InitCursor(Idle(), cur) == cur + 3 + |Banner|
  {
    assert Idle()(cur) != NoDevice;
    IdleBanner(cur + 3, Banner, |Banner|);
    var t := InitTrace(Idle(), cur);
    assert t[11..] == BannerTrace(Idle(), cur + 3, Banner, |Banner|);
    forall i | 0 <= i < |Banner|
      ensures t[11 + 2 * i] == In(LSR) && t[12 + 2 * i] == Out(THR, Banner[i] as int)
    {
      assert t[11 + 2 * i] == t[11..][2 * i];
      assert t[12 + 2 * i] == t[11..][2 * i + 1];
    }
  }

  // ---------------------------------------------------------------------
  // Register semantics of the 16550, as a reference for the configuration
  // ---------------------------------------------------------------------

  /** The writable configuration registers of the controller. */
  datatype Regs = Regs(lcr: byte, dll: byte, dlm: byte, ier: byte, fcr: byte, mcr: byte)

  /** Line-control bit 7: offsets +0 and +1 address the divisor latch. */
  predicate LatchOpen(r: Regs) {
    r.lcr >= 0x80
  }

  /** The effect of one access on the configuration registers. */
  function Apply(r: Regs, e: Event): Regs {
    match e
    case Out(port, v) =>
      if port == THR then (if LatchOpen(r) then r.(dll := v) else r)
      else if port == IER then (if LatchOpen(r) then r.(dlm := v) else r.(ier := v))
      else if port == FCR then r.(fcr := v)
      else if port == LCR then r.(lcr := v)
      else if port == MCR then r.(mcr := v)
      else r
    case _ => r
  }

  /** The configuration registers after a trace of accesses. */
  function Run(r: Regs, t: seq<Event>): Regs
    decreases |t|
  {
    if t == [] then r else Run(Apply(r, t[0]), t[1..])
  }

  /** The baud-rate divisor held in the latch. */
  function DivisorOf(r: Regs): nat {
    r.dll + 256 * r.dlm
  }

  /** Data bits per character: 5 plus the value of line-control bits 0-1. */
  function DataBits(r: Regs): int {
    5 + r.lcr % 4
  }

  /** The line as uartinit leaves it: 9600 baud from the 115200 base clock, 8N1, FIFO off, receive interrupts only. */
  predicate LineProgrammed(r: Regs) {
    DivisorOf(r) == 12 && 115200 / DivisorOf(r) == 9600 && 115200 % DivisorOf(r) == 0 &&
    !LatchOpen(r) &&
    DataBits(r) == 8 &&
    (r.lcr / 0x04) % 2 == 0 &&   // bit 2 clear: one stop bit
    (r.lcr / 0x08) % 8 == 0 &&   // bits 3-5 clear: no parity
    r.ier == 0x01 && r.fcr == 0 && r.mcr == 0
  }

  /** Running a concatenated trace runs its two parts in turn. */
  lemma {:induction false} RunConcat(r: Regs, t: seq<Event>, u: seq<Event>)
    ensures Run(r, t + u) == Run(Run(r, t), u)
    decreases |t|
  {
    if t == [] {
      assert t + u == u;
    } else {
      assert (t + u)[0] == t[0];
      assert (t + u)[1..] == t[1..] + u;
      RunConcat(Apply(r, t[0]), t[1..], u);
    }
  }

  /** Whatever state the controller is in, the configuration writes program 9600 baud 8N1. */
  lemma ConfigProgramsLine(r0: Regs)
    ensures LineProgrammed(Run(r0, ConfigWrites))
  {
    var r1 := Apply(r0, ConfigWrites[0]);
    var r2 := Apply(r1, ConfigWrites[1]);
    assert LatchOpen(r2);
    var r3 := Apply(r2, ConfigWrites[2]);
    var r4 := Apply(r3, ConfigWrites[3]);
    var r5 := Apply(r4, ConfigWrites[4]);
    assert !LatchOpen(r5);
    var r6 := Apply(r5, ConfigWrites[5]);
    var r7 := Apply(r6, ConfigWrites[6]);
    assert r7 == Regs(0x03, 12, 0, 0x01, 0, 0);
    assert ConfigWrites == [ConfigWrites[0]] + ConfigWrites[1..];
    calc {
      Run(r0, ConfigWrites);
      Run(r1, ConfigWrites[1..]);
      { assert ConfigWrites[1..][1..] == ConfigWrites[2..]; }
      Run(r2, ConfigWrites[2..]);
      { assert ConfigWrites[2..][1..] == ConfigWrites[3..]; }
      Run(r3, ConfigWrites[3..]);
      { assert ConfigWrites[3..][1..] == ConfigWrites[4..]; }
      Run(r4, ConfigWrites[4..]);
      { assert ConfigWrites[4..][1..] == ConfigWrites[5..]; }
      Run(r5, ConfigWrites[5..]);
      { assert ConfigWrites[5..][1..] == ConfigWrites[6..]; }
      Run(r6, ConfigWrites[6..]);
      { assert ConfigWrites[6..][1..] == []; }
      Run(r7, []);
    }
  }

  /** An access other than a configuration write leaves the registers alone while the latch is closed. */
  lemma {:induction false} QuietTrace(r: Regs, t: seq<Event>)
    requires !LatchOpen(r)
    requires forall i :: 0 <= i < |t| ==> t[i].In? || t[i].Delay? || t[i].IoapicEnable? || t[i] == Out(THR, t[i].value)
    ensures Run(r, t) == r
    decreases |t|
  {
    if t != [] {
      QuietTrace(r, t[1..]);
    }
  }

  /** Polling, transmitting and the banner touch only the transmit register among the writable ones. */
  lemma {:induction false} BannerIsQuiet(resp: Responses, cur: nat, s: string, n: nat)
    requires n <= |s|
    ensures forall i :: 0 <= i < |BannerTrace(resp, cur, s, n)| ==>
      var e := BannerTrace(resp, cur, s, n)[i];
      e.In? || e.Delay? || e.IoapicEnable? || e == Out(THR, e.value)
  {
    if n > 0 {
      BannerIsQuiet(resp, cur, s, n - 1);
      var c := BannerCursor(resp, cur, s, n - 1);
      PollIsQuiet(resp, c, c);
    }
  }

  /** The polling loop consists only of status reads and delays. */
  lemma {:induction false} PollIsQuiet(resp: Responses, start: nat, pos: nat)
    requires start <= pos
    ensures forall j :: 0 <= j < |PollTrace(resp, start, pos)| ==>
      PollTrace(resp, start, pos)[j].In? || PollTrace(resp, start, pos)[j].Delay?
    decreases MaxPolls - (pos - start)
  {
    if pos - start < MaxPolls && !TxEmpty(resp(pos)) {
      PollIsQuiet(resp, start, pos + 1);
    }
  }

  /** After uartinit, whether or not the device answered the probe, the line is programmed as the configuration left it. */
  lemma InitLeavesLineProgrammed(resp: Responses, cur: nat, r0: Regs)
    ensures LineProgrammed(Run(r0, InitTrace(resp, cur)))
  {
    ConfigProgramsLine(r0);
    var r := Run(r0, ConfigWrites);
    var rest := InitTrace(resp, cur)[|ConfigWrites|..];
    assert InitTrace(resp, cur) == ConfigWrites + rest;
    RunConcat(r0, ConfigWrites, rest);
    if resp(cur) != NoDevice {
      BannerIsQuiet(resp, cur + 3, Banner, |Banner|);
      assert rest == [In(LSR)] + AckAndRoute() + BannerTrace(resp, cur + 3, Banner, |Banner|);
    }
    QuietTrace(r, rest);
  }

  // ---------------------------------------------------------------------
  // The driver
  // ---------------------------------------------------------------------

  /**
   * The driver's state (the `uart` presence flag) together with the
   * environment it runs against: the accesses made so far and the device's
   * responses, consumed in order from position `cursor`.
   */
  class Driver {
    /** Whether a UART was detected: the driver's only own state. */
    var present: bool
    /** Every access made to the environment, in order. */
    var trace: seq<Event>
    /** Position of the next response to be read. */
    var cursor: nat
    /** The device's responses to port reads. */
    const responses: Responses

    /** The flag starts cleared, as a zero-initialised static int. */
    constructor (responses: Responses)
      ensures !present && trace == [] && cursor == 0 && this.responses == responses
    {
      present := false;
      trace := [];
      cursor := 0;
      this.responses := responses;
    }

    /** inb: reads the next response. */
    method InB(port: int) returns (v: byte)
      modifies this
      ensures v == responses(old(cursor))
      ensures cursor == old(cursor) + 1 && trace == old(trace) + [In(port)]
      ensures present == old(present)
    {
      v := responses(cursor);
      cursor := cursor + 1;
      trace := trace + [In(port)];
    }

    /** outb: records the write. */
    method OutB(port: int, v: byte)
      modifies this
      ensures trace == old(trace) + [Out(port, v)]
      ensures cursor == old(cursor) && present == old(present)
    {
      trace := trace + [Out(port, v)];
    }

    /** microdelay: records the delay. */
    method MicroDelay(us: int)
      modifies this
      ensures trace == old(trace) + [Delay(us)]
      ensures cursor == old(cursor) && present == old(present)
    {
      trace := trace + [Delay(us)];
    }

    /** ioapicenable: records the routing request. */
    method IoapicEnable(irq: int, cpu: int)
      modifies this
      ensures trace == old(trace) + [Event.IoapicEnable(irq, cpu)]
      ensures cursor == old(cursor) && present == old(present)
    {
      trace := trace + [Event.IoapicEnable(irq, cpu)];
    }

    /**
     * uartinit: programs the line, probes for the device and, when it is
     * there, sets the flag, acknowledges pending interrupts, routes the
     * interrupt and prints the banner. The flag is only ever set, never cleared.
     */
    method Init()
      modifies this
      ensures present == (old(present) || responses(old(cursor)) != NoDevice)
      ensures trace == old(trace) + InitTrace(responses, old(cursor))
      ensures cursor == InitCursor(responses, old(cursor))
    {
      ghost var t0, c0 := trace, cursor;
      OutB(FCR, 0);
      OutB(LCR, 0x80);
      OutB(THR, 115200 / 9600);
      OutB(IER, 0);
      OutB(LCR, 0x03);
      OutB(MCR, 0);
      OutB(IER, 0x01);
      var status := InB(LSR);
      ghost var probed := ConfigWrites + [In(LSR)];
      ProbedSteps(t0);
      if status == NoDevice {
        InitUnfold(responses, c0);
        assert trace == t0 + InitTrace(responses, c0);
        return;
      }
      present := true;
      var iir := InB(FCR);
      var rbr := InB(THR);
      IoapicEnable(IRQ_COM1, 0);
      AckSteps(t0 + probed);
      ghost var t1, b0 := trace, cursor;
      assert b0 == c0 + 3;
      assert t1 == t0 + probed + AckAndRoute();
      Announce();
      ghost var b := BannerTrace(responses, b0, Banner, |Banner|);
      assert trace == t1 + b;
      InitUnfold(responses, c0);
      assert InitTrace(responses, c0) == probed + (AckAndRoute() + b);
      SeqAssoc(t0, probed, AckAndRoute(), b);
      assert trace == t0 + InitTrace(responses, c0);
    }

    /**
     * The banner loop of uartinit: walks the NUL-terminated banner and hands
     * each character to uartputc, on a driver that has found its device.
     */
    method Announce()
      requires present
      modifies this
      ensures present
      ensures trace == old(trace) + BannerTrace(responses, old(cursor), Banner, |Banner|)
      ensures cursor == BannerCursor(responses, old(cursor), Banner, |Banner|)
    {
      ghost var t1, b0 := trace, cursor;
      CBannerEnds();
      var p := 0;
      while CBanner[p] != '\0'
        invariant 0 <= p <= |Banner|
        invariant present
        invariant trace == t1 + BannerTrace(responses, b0, Banner, p)
        invariant cursor == BannerCursor(responses, b0, Banner, p)
        decreases |Banner| - p
      {
        ghost var before := BannerTrace(responses, b0, Banner, p);
        ghost var round := PutcTrace(responses, cursor, Banner[p] as int);
        assert CBanner[p] == Banner[p];
        Putc(CBanner[p] as int);
        assert BannerTrace(responses, b0, Banner, p + 1) == before + round;
        SeqAssoc3(t1, before, round);
        p := p + 1;
      }
    }

    /**
     * uartputc: nothing at all when no device was found; otherwise up to 128
     * status polls, each failed one followed by a delay, and then the write of
     * c to the transmit register, even if the transmitter was never seen empty.
     */
    method Putc(c: int)
      modifies this
      ensures present == old(present)
      ensures !present ==> trace == old(trace) && cursor == old(cursor)
      ensures present ==> trace == old(trace) + PutcTrace(responses, old(cursor), c)
      ensures present ==> cursor == PutcCursor(responses, old(cursor))
    {
      if !present {
        return;
      }
      ghost var t0, c0 := trace, cursor;
      ghost var last: seq<Event> := [];
      var i := 0;
      while i < MaxPolls
        invariant 0 <= i <= MaxPolls
        invariant present
        invariant cursor == c0 + i
        invariant trace == t0 + Repeat(FailedPoll(), i)
        invariant AllBusy(responses, c0, c0 + i)
        invariant last == []
      {
        var status := InB(LSR);
        if TxEmpty(status) {
          last := [In(LSR)];
          break;
        }
        MicroDelay(PollDelay);
        i := i + 1;
      }
      // `last` is the final, successful read, if the loop stopped at one.
      assert trace == t0 + Repeat(FailedPoll(), i) + last;
      assert PollTrace(responses, c0, c0 + i) == last;
      PollUnroll(responses, c0, i);
      SeqAssoc3(t0, Repeat(FailedPoll(), i), last);
      OutB(THR, ToByte(c));
      SeqAssoc3(t0, PollTrace(responses, c0, c0), [Out(THR, ToByte(c))]);
    }

    /**
     * uartgetc: -1 with no access when no device was found; otherwise one
     * status read, and -1 if no byte is waiting, or else the value of exactly
     * one read of the receive register. It never writes.
     */
    method Getc() returns (r: int)
      modifies this
      ensures present == old(present)
      ensures !present ==> r == -1 && trace == old(trace) && cursor == old(cursor)
      ensures present && !DataReady(responses(old(cursor))) ==>
        r == -1 && trace == old(trace) + [In(LSR)] && cursor == old(cursor) + 1
      ensures present && DataReady(responses(old(cursor))) ==>
        r == responses(old(cursor) + 1) && trace == old(trace) + [In(LSR), In(THR)] &&
        cursor == old(cursor) + 2
      ensures -1 <= r < 256
    {
      if !present {
        return -1;
      }
      var status := InB(LSR);
      if !DataReady(status) {
        return -1;
      }
      r := InB(THR);
    }

    /**
     * uartintr: hands uartgetc to the console layer; the model makes the one
     * call of it that delivers the byte now waiting, and returns its result.
     */
    method Intr() returns (r: int)
      modifies this
      ensures present == old(present)
      ensures !present ==> r == -1 && trace == old(trace) && cursor == old(cursor)
      ensures present && !DataReady(responses(old(cursor))) ==>
        r == -1 && trace == old(trace) + [In(LSR)] && cursor == old(cursor) + 1
      ensures present && DataReady(responses(old(cursor))) ==>
        r == responses(old(cursor) + 1) && trace == old(trace) + [In(LSR), In(THR)] &&
        cursor == old(cursor) + 2
    {
      r := Getc();
    }
  }
}
