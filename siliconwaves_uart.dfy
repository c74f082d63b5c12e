/** The polled UART driver for the SiliconWaves W3K serial device: its
    singleton configuration, its initialisation sequence, and its byte
    transmit and receive operations, each described by the register accesses
    it issues. */
module SiliconwavesUart {
  import opened UartRegisters

  datatype Option<T> = None | Some(value: T)

  // Logical register indices of the 16550-style layout. Several names share
  // an index: the device tells them apart by direction and by the DLAB bit.
  const RBR: U32 := 0   // receive buffer (load)
  const THR: U32 := 0   // transmit holding (store)
  const DLL: U32 := 0   // divisor latch, low byte
  const IER: U32 := 1   // interrupt enable
  const DLM: U32 := 1   // divisor latch, high byte
  const FCR: U32 := 2   // FIFO control (store)
  const IIR: U32 := 2   // interrupt identification (load)
  const LCR: U32 := 3   // line control
  const MCR: U32 := 4   // modem control
  const LSR: U32 := 5   // line status
  const MSR: U32 := 6   // modem status
  const SCR: U32 := 7   // scratch
  const MDR1: U32 := 8  // mode

  // Line status bits the driver tests, as bit positions: THRE is mask 0x20
  // (transmit holding register empty), DR is mask 0x01 (receive data ready).
  const LSR_THRE: nat := 5
  const LSR_DR: nat := 0

  // Line control values: DLAB on, and 8 data bits, no parity, 1 stop bit.
  const LCR_DLAB: U32 := 0x80
  const LCR_8N1: U32 := 0x03
  const FCR_ENABLE: U32 := 0x01

  /** The name under which the device is handed to the console layer. */
  const CONSOLE_NAME: string := "w3k_uart"

  /** Whether bit `b` of a line status value is set (`lsr & (1 << b)` is nonzero). */
  predicate LsrHas(lsr: U32, b: nat)
  {
    (lsr / Pow2(b)) % 2 == 1
  }

  /** The bit tests are the source's mask tests: THRE is `lsr & 0x20` and
      DR is `lsr & 0x01`. */
  lemma LsrBitsAreMasks(lsr: U32)
    ensures LsrHas(lsr, LSR_THRE) <==> (lsr as bv32) & 0x20 != 0
    ensures LsrHas(lsr, LSR_DR) <==> (lsr as bv32) & 0x01 != 0
  {
  }

  /** The baud divisor: the unsigned quotient of the clock by the baud rate,
      narrowed to 16 bits. */
  function Divisor(inFreq: U32, baudrate: U32): (bdiv: U16)
    requires baudrate != 0
    ensures inFreq / baudrate < 0x1_0000 ==> bdiv == inFreq / baudrate
    ensures (inFreq / baudrate - bdiv) % 0x1_0000 == 0
  {
    (inFreq / baudrate) % 0x1_0000
  }

  /** `bdiv & 0xff`: the low byte of the divisor. */
  function DivisorLow(bdiv: U16): (low: U8)
    ensures (bdiv - low) % 0x100 == 0
  {
    bdiv % 0x100
  }

  /** `(bdiv >> 8) & 0xff`: the high byte of the divisor. For a 16-bit
      divisor the mask removes nothing. */
  function DivisorHigh(bdiv: U16): (high: U8)
    ensures high == bdiv / 0x100
  {
    (bdiv / 0x100) % 0x100
  }

  /** The two latch bytes together hold the whole 16-bit divisor. */
  lemma DivisorBytesRoundTrip(bdiv: U16)
    ensures DivisorLow(bdiv) + 0x100 * DivisorHigh(bdiv) == bdiv
    ensures DivisorLow(bdiv) == 0 && DivisorHigh(bdiv) == 0 <==> bdiv == 0
  {
  }

  /** The trace `t` followed by the register accesses of initialisation,
      given the divisor and the device's answers to the line status and
      receive buffer loads. */
  function ThenProgram(t: seq<Access>, bus: Bus, bdiv: U16, lsr: U32, rbr: U32): seq<Access>
    requires bus.Valid()
  {
    var t1 := t + [bus.WriteEvent(IER, 0x00)] + [bus.WriteEvent(LCR, LCR_DLAB)];
    var t2 := if bdiv != 0 then t1 + [bus.WriteEvent(DLL, DivisorLow(bdiv))] + [bus.WriteEvent(DLM, DivisorHigh(bdiv))]
              else t1;
    t2 + [bus.WriteEvent(LCR, LCR_8N1)] + [bus.WriteEvent(FCR, FCR_ENABLE)] + [bus.WriteEvent(MCR, 0x00)]
       + [bus.ReadEvent(LSR, lsr)] + [bus.ReadEvent(RBR, rbr)]
       + [bus.WriteEvent(SCR, 0x00)]
  }

  /** The accesses do not depend on what came before them. */
  lemma ThenProgramAppends(t: seq<Access>, bus: Bus, bdiv: U16, lsr: U32, rbr: U32)
    requires bus.Valid()
    ensures ThenProgram(t, bus, bdiv, lsr, rbr) == t + ThenProgram([], bus, bdiv, lsr, rbr)
  {
  }

  /** The events of initialisation: the register accesses, then the
      hand-over to the console layer. */
  function InitTrace(bus: Bus, bdiv: U16, lsr: U32, rbr: U32): seq<Access>
    requires bus.Valid()
  {
    ThenProgram([], bus, bdiv, lsr, rbr) + [RegisterConsole(CONSOLE_NAME)]
  }

  /** Whether event `e` stores to register `reg`. */
  predicate WritesTo(e: Access, reg: U32)
  {
    e.Write? && e.reg == reg
  }

  /** The value last stored to register `reg` in trace `t`, if any. */
  function LastWrite(t: seq<Access>, reg: U32): (r: Option<U32>)
    ensures r.None? <==> forall i :: 0 <= i < |t| ==> !WritesTo(t[i], reg)
    ensures r.Some? ==> exists i :: 0 <= i < |t| && WritesTo(t[i], reg) && t[i].value == r.value &&
                                    forall j :: i < j < |t| ==> !WritesTo(t[j], reg)
  {
    if t == [] then None
    else if WritesTo(t[|t| - 1], reg) then Some(t[|t| - 1].value)
    else
      var r := LastWrite(t[..|t| - 1], reg);
      assert forall i :: 0 <= i < |t| - 1 ==> t[..|t| - 1][i] == t[i];
      r
  }

  /** Whether the device's answer `raw` to a line status load, as seen at
      width `w`, reports the transmit holding register empty. */
  predicate TxReady(raw: U32, w: Width)
  {
    LsrHas(Truncate(raw, w), LSR_THRE)
  }

  /** The position of the first line status answer that reports the
      transmitter ready: the number of polls `putc` makes, minus one. */
  function FirstReady(a: seq<U32>, w: Width): (k: nat)
    requires exists i :: 0 <= i < |a| && TxReady(a[i], w)
    ensures k < |a| && TxReady(a[k], w)
    ensures forall j :: 0 <= j < k ==> !TxReady(a[j], w)
  {
    if TxReady(a[0], w) then 0
    else
      var i :| 0 <= i < |a| && TxReady(a[i], w);
      assert TxReady(a[1..][i - 1], w);
      1 + FirstReady(a[1..], w)
  }

  /** `n` line status loads answered by the first `n` entries of `a`. */
  function Polls(bus: Bus, a: seq<U32>, n: nat): (t: seq<Access>)
    requires bus.Valid() && n <= |a|
  {
    if n == 0 then [] else Polls(bus, a, n - 1) + [bus.ReadEvent(LSR, a[n - 1])]
  }

  lemma AppendAssoc(t: seq<Access>, u: seq<Access>, e: Access)
    ensures t + (u + [e]) == (t + u) + [e]
  {
  }

  /** The events of `putc(ch)` when the line status loads are answered by `a`. */
  function PutcTrace(bus: Bus, a: seq<U32>, ch: U8): seq<Access>
    requires bus.Valid()
    requires exists i :: 0 <= i < |a| && TxReady(a[i], bus.AccessKind())
  {
    Polls(bus, a, FirstReady(a, bus.AccessKind()) + 1) + [bus.WriteEvent(THR, ch)]
  }

  /** The value of a `u32` converted to the C `int` that `getc` returns
      (two's complement reinterpretation of the 32 bits). */
  function AsCInt(v: U32): (r: int)
    ensures -0x8000_0000 <= r < 0x8000_0000
    ensures (v - r) % U32_LIMIT == 0
    ensures v < 0x8000_0000 ==> r == v
  {
    if v < 0x8000_0000 then v else v - U32_LIMIT
  }

  /** The driver's singleton state, together with the device it drives: the
      trace of accesses so far and the answers still to be given to loads. */
  class Uart {
    var base: nat
    var inFreq: U32
    var baudrate: U32
    var regWidth: U32
    var regShift: U32

    var trace: seq<Access>
    var answers: seq<U32>

    /** Static storage starts zeroed; the device will answer loads with `answers`. */
    constructor (answers: seq<U32>)
      ensures base == 0 && inFreq == 0 && baudrate == 0 && regWidth == 0 && regShift == 0
      ensures trace == [] && this.answers == answers
    {
      base, inFreq, baudrate, regWidth, regShift := 0, 0, 0, 0, 0;
      trace, this.answers := [], answers;
    }

    /** The access configuration the driver has stored. `GetReg`, `SetReg`
        and `Program` spell it out as `Bus(base, regShift, regWidth)` in
        their contracts instead: that form needs no heap read, which keeps
        the many calls to them cheap to reason about. */
    function CurrentBus(): Bus
      reads this
    {
      Bus(base, regShift, regWidth)
    }

    /** `get_reg`: one load of register `num`, answered by the next answer. */
    method GetReg(num: U32) returns (v: U32)
      requires regShift < 32 && answers != []
      modifies this`trace, this`answers
      ensures v == Truncate(old(answers[0]), AccessWidth(regWidth))
      ensures answers == old(answers[1..])
      ensures trace == old(trace) + [Bus(base, regShift, regWidth).ReadEvent(num, old(answers[0]))]
    {
      var offset := Offset(num, regShift);
      var raw := answers[0];
      answers := answers[1..];
      if regWidth == 1 {
        v := raw % 0x100;
        trace := trace + [Read(num, base + offset, Byte, v)];
      } else if regWidth == 2 {
        v := raw % 0x1_0000;
        trace := trace + [Read(num, base + offset, Half, v)];
      } else {
        v := raw;
        trace := trace + [Read(num, base + offset, Word, v)];
      }
    }

    /** `set_reg`: one store of `val` to register `num`. */
    method SetReg(num: U32, val: U32)
      requires regShift < 32
      modifies this`trace
      ensures trace == old(trace) + [Bus(base, regShift, regWidth).WriteEvent(num, val)]
    {
      var offset := Offset(num, regShift);
      if regWidth == 1 {
        trace := trace + [Write(num, base + offset, Byte, val % 0x100)];
      } else if regWidth == 2 {
        trace := trace + [Write(num, base + offset, Half, val % 0x1_0000)];
      } else {
        trace := trace + [Write(num, base + offset, Word, val)];
      }
    }

    /** `putc`: poll the line status until the transmitter is ready, then
        store `ch` to the transmit holding register. The device must report
        ready at some point among the answers. */
    method Putc(ch: U8)
      requires regShift < 32
      requires exists i :: 0 <= i < |answers| && TxReady(answers[i], AccessWidth(regWidth))
      modifies this`trace, this`answers
      ensures answers == old(answers)[FirstReady(old(answers), AccessWidth(regWidth)) + 1..]
      ensures trace == old(trace) + PutcTrace(CurrentBus(), old(answers), ch)
    {
      ghost var a, t0, bus := answers, trace, CurrentBus();
      ghost var k := FirstReady(a, bus.AccessKind());
      ghost var n := 1;
      var lsr := GetReg(LSR);
      while !LsrHas(lsr, LSR_THRE)
        invariant 1 <= n <= k + 1
        invariant answers == a[n..]
        invariant lsr == Truncate(a[n - 1], bus.AccessKind())
        invariant trace == t0 + Polls(bus, a, n)
        invariant CurrentBus() == bus
        decreases k + 1 - n
      {
        assert n - 1 != k;
        lsr := GetReg(LSR);
        AppendAssoc(t0, Polls(bus, a, n), bus.ReadEvent(LSR, a[n]));
        n := n + 1;
      }
      assert n == k + 1;
      SetReg(THR, ch);
      AppendAssoc(t0, Polls(bus, a, n), bus.WriteEvent(THR, ch));
    }

    /** `getc`: one line status load; when data is ready, one receive buffer
        load whose value is returned, otherwise -1. */
    method Getc() returns (r: int)
      requires regShift < 32
      requires answers != []
      requires LsrHas(Truncate(answers[0], AccessWidth(regWidth)), LSR_DR) ==> |answers| >= 2
      modifies this`trace, this`answers
      ensures var a, w := old(answers), AccessWidth(regWidth);
              if LsrHas(Truncate(a[0], w), LSR_DR) then
                r == AsCInt(Truncate(a[1], w)) && answers == a[2..] &&
                trace == old(trace) + [CurrentBus().ReadEvent(LSR, a[0]), CurrentBus().ReadEvent(RBR, a[1])]
              else
                r == -1 && answers == a[1..] &&
                trace == old(trace) + [CurrentBus().ReadEvent(LSR, a[0])]
      ensures regWidth == 1 || regWidth == 2 ==>
                (r == -1 <==> !LsrHas(Truncate(old(answers)[0], AccessWidth(regWidth)), LSR_DR))
    {
      var lsr := GetReg(LSR);
      if LsrHas(lsr, LSR_DR) {
        var rbr := GetReg(RBR);
        r := AsCInt(rbr);
        return;
      }
      r := -1;
    }

    /** The register programming of `siliconwaves_uart_init`, once the
        configuration is stored and the divisor computed. */
    method Program(bdiv: U16)
      requires regShift < 32 && |answers| >= 2
      modifies this`trace, this`answers
      ensures answers == old(answers[2..])
      ensures trace == ThenProgram(old(trace), Bus(base, regShift, regWidth), bdiv, old(answers[0]), old(answers[1]))
    {
      SetReg(IER, 0x00);
      SetReg(LCR, LCR_DLAB);
      if bdiv != 0 {
        SetReg(DLL, DivisorLow(bdiv));
        SetReg(DLM, DivisorHigh(bdiv));
      }
      SetReg(LCR, LCR_8N1);
      SetReg(FCR, FCR_ENABLE);
      SetReg(MCR, 0x00);
      var lsr := GetReg(LSR);
      var rbr := GetReg(RBR);
      SetReg(SCR, 0x00);
    }

    /** `siliconwaves_uart_init`: record the configuration, program the line
        parameters and hand the device to the console layer. */
    method Init(base: U64, inFreq: U32, baudrate: U32, regShift: U32, regWidth: U32, regOffset: U32)
      returns (rc: int)
      requires baudrate != 0 && regShift < 32
      requires |answers| >= 2
      modifies this
      ensures this.base == base + regOffset && this.regShift == regShift && this.regWidth == regWidth
      ensures this.inFreq == inFreq && this.baudrate == baudrate
      ensures answers == old(answers[2..])
      ensures trace == old(trace) + InitTrace(CurrentBus(), Divisor(inFreq, baudrate), old(answers[0]), old(answers[1]))
      ensures rc == 0
    {
      this.base := base + regOffset;
      this.regShift := regShift;
      this.regWidth := regWidth;
      this.inFreq := inFreq;
      this.baudrate := baudrate;

      var bdiv := Divisor(this.inFreq, this.baudrate);
      Program(bdiv);
      ThenProgramAppends(old(trace), CurrentBus(), bdiv, old(answers[0]), old(answers[1]));
      trace := trace + [RegisterConsole(CONSOLE_NAME)];
      rc := 0;
    }
  }

  /** `Polls` lists the line status loads in answer order. */
  lemma {:induction false} PollsAt(bus: Bus, a: seq<U32>, n: nat, i: nat)
    requires bus.Valid() && n <= |a| && i < n
    ensures |Polls(bus, a, n)| == n
    ensures Polls(bus, a, n)[i] == bus.ReadEvent(LSR, a[i])
  {
    if i < n - 1 {
      PollsAt(bus, a, n - 1, i);
    } else if n > 1 {
      PollsAt(bus, a, n - 1, 0);
    }
  }

  /** `putc` issues only line status loads while the transmitter is busy;
      after the first load that reports it ready, exactly one store of `ch`
      to the transmit holding register, and nothing else. */
  lemma PutcShape(bus: Bus, a: seq<U32>, ch: U8)
    requires bus.Valid()
    requires exists i :: 0 <= i < |a| && TxReady(a[i], bus.AccessKind())
    ensures var t, k := PutcTrace(bus, a, ch), FirstReady(a, bus.AccessKind());
      && |t| == k + 2
      && (forall i :: 0 <= i <= k ==> t[i].Read? && t[i].reg == LSR && t[i].value == Truncate(a[i], bus.AccessKind()))
      && (forall i :: 0 <= i < k ==> !LsrHas(t[i].value, LSR_THRE))
      && LsrHas(t[k].value, LSR_THRE)
      && t[k + 1] == Write(THR, bus.Address(THR), bus.AccessKind(), ch)
  {
    var k := FirstReady(a, bus.AccessKind());
    PollsAt(bus, a, k + 1, 0);
    forall i | 0 <= i <= k
      ensures PutcTrace(bus, a, ch)[i] == bus.ReadEvent(LSR, a[i])
    {
      PollsAt(bus, a, k + 1, i);
    }
  }

  /** Initialisation, spelled out access by access for both outcomes of the
      divisor test. */
  lemma InitTraceLayout(bus: Bus, bdiv: U16, lsr: U32, rbr: U32)
    requires bus.Valid()
    ensures bdiv != 0 ==> (InitTrace(bus, bdiv, lsr, rbr) ==
      [bus.WriteEvent(IER, 0x00), bus.WriteEvent(LCR, LCR_DLAB),
       bus.WriteEvent(DLL, DivisorLow(bdiv)), bus.WriteEvent(DLM, DivisorHigh(bdiv)),
       bus.WriteEvent(LCR, LCR_8N1), bus.WriteEvent(FCR, FCR_ENABLE), bus.WriteEvent(MCR, 0x00),
       bus.ReadEvent(LSR, lsr), bus.ReadEvent(RBR, rbr), bus.WriteEvent(SCR, 0x00),
       RegisterConsole(CONSOLE_NAME)])
    ensures bdiv == 0 ==> (InitTrace(bus, bdiv, lsr, rbr) ==
      [bus.WriteEvent(IER, 0x00), bus.WriteEvent(LCR, LCR_DLAB),
       bus.WriteEvent(LCR, LCR_8N1), bus.WriteEvent(FCR, FCR_ENABLE), bus.WriteEvent(MCR, 0x00),
       bus.ReadEvent(LSR, lsr), bus.ReadEvent(RBR, rbr), bus.WriteEvent(SCR, 0x00),
       RegisterConsole(CONSOLE_NAME)])
  {
  }

  /** With a nonzero divisor, the two stores right after DLAB is set are its
      low byte to DLL and its high byte to DLM, which together give back the
      divisor; with a zero divisor, nothing is stored between the two line
      control stores. */
  lemma InitDivisorLatch(bus: Bus, bdiv: U16, lsr: U32, rbr: U32)
    requires bus.Valid()
    ensures var t := InitTrace(bus, bdiv, lsr, rbr);
      && t[1] == bus.WriteEvent(LCR, LCR_DLAB)
      && (bdiv != 0 ==>
            && t[2] == bus.WriteEvent(DLL, DivisorLow(bdiv))
            && t[3] == bus.WriteEvent(DLM, DivisorHigh(bdiv))
            && t[2].value == bdiv % 0x100 && t[3].value == bdiv / 0x100
            && t[2].value + 0x100 * t[3].value == bdiv
            && t[4] == bus.WriteEvent(LCR, LCR_8N1))
      && (bdiv == 0 ==> t[2] == bus.WriteEvent(LCR, LCR_8N1))
  {
    InitTraceLayout(bus, bdiv, lsr, rbr);
    DivisorBytesRoundTrip(bdiv);
  }

  /** The divisor latch registers (indices 0 and 1) are stored to after DLAB
      is set exactly when the divisor is nonzero. */
  lemma InitSkipsZeroDivisor(bus: Bus, bdiv: U16, lsr: U32, rbr: U32)
    requires bus.Valid()
    ensures var t := InitTrace(bus, bdiv, lsr, rbr);
      bdiv == 0 <==> forall i :: 1 <= i < |t| ==> !WritesTo(t[i], DLL) && !WritesTo(t[i], DLM)
  {
    InitTraceLayout(bus, bdiv, lsr, rbr);
    var t := InitTrace(bus, bdiv, lsr, rbr);
    if bdiv != 0 {
      assert WritesTo(t[2], DLL);
    }
  }

  /** Initialisation never accesses the modem status or mode registers, and
      hands the device to the console layer once, as its very last step. */
  lemma InitAccessesAndRegistration(bus: Bus, bdiv: U16, lsr: U32, rbr: U32)
    requires bus.Valid()
    ensures var t := InitTrace(bus, bdiv, lsr, rbr);
      && (forall i :: 0 <= i < |t| && !t[i].RegisterConsole? ==> t[i].reg != MSR && t[i].reg != MDR1)
      && t[|t| - 1] == RegisterConsole(CONSOLE_NAME)
      && (forall i :: 0 <= i < |t| - 1 ==> !t[i].RegisterConsole?)
  {
    InitTraceLayout(bus, bdiv, lsr, rbr);
  }

  /** Initialisation reads exactly twice: the line status, then the receive
      buffer, after the modem control store. */
  lemma InitReads(bus: Bus, bdiv: U16, lsr: U32, rbr: U32)
    requires bus.Valid()
    ensures var t, n := InitTrace(bus, bdiv, lsr, rbr), if bdiv != 0 then 2 else 0;
      && t[n + 4] == bus.WriteEvent(MCR, 0x00)
      && t[n + 5] == bus.ReadEvent(LSR, lsr) && t[n + 6] == bus.ReadEvent(RBR, rbr)
      && (forall i :: 0 <= i < |t| && t[i].Read? ==> i == n + 5 || i == n + 6)
  {
    InitTraceLayout(bus, bdiv, lsr, rbr);
  }

  /** After initialisation the line control register was last set to 8N1
      (DLAB off) and the FIFO control register to enabled. */
  lemma InitFinalLineSettings(bus: Bus, bdiv: U16, lsr: U32, rbr: U32)
    requires bus.Valid()
    ensures LastWrite(InitTrace(bus, bdiv, lsr, rbr), LCR) == Some(LCR_8N1)
    ensures LastWrite(InitTrace(bus, bdiv, lsr, rbr), FCR) == Some(FCR_ENABLE)
  {
    InitTraceLayout(bus, bdiv, lsr, rbr);
    var t := InitTrace(bus, bdiv, lsr, rbr);
    var n := if bdiv != 0 then 2 else 0;
    LastWriteIs(t, LCR, n + 2);
    LastWriteIs(t, FCR, n + 3);
  }

  /** A store to `reg` that no later store to `reg` follows is the last one. */
  lemma LastWriteIs(t: seq<Access>, reg: U32, k: nat)
    requires k < |t| && WritesTo(t[k], reg)
    requires forall j :: k < j < |t| ==> !WritesTo(t[j], reg)
    ensures LastWrite(t, reg) == Some(t[k].value)
  {
    var r := LastWrite(t, reg);
    var i :| 0 <= i < |t| && WritesTo(t[i], reg) && t[i].value == r.value &&
             forall j :: i < j < |t| ==> !WritesTo(t[j], reg);
    assert i == k;
  }

  /** The divisor of the W3K bring-up (24 MHz clock, 115200 baud), and two
      rates whose quotient narrows to zero. */
  lemma DivisorExamples()
    ensures Divisor(24_000_000, 115_200) == 208
    ensures Divisor(0x1_0000, 1) == 0
    ensures Divisor(115_200, 230_400) == 0
  {
  }

  /** The accesses of the bring-up scenario: base 0x1000_0000, 24 MHz,
      115200 baud, byte-wide registers with no shift or offset. */
  lemma BringUpTrace(lsr: U32, rbr: U32)
    ensures var t := InitTrace(Bus(0x1000_0000, 0, 1), Divisor(24_000_000, 115_200), lsr, rbr);
      && |t| == 11
      && t[2] == Write(DLL, 0x1000_0000, Byte, 0xD0)
      && t[3] == Write(DLM, 0x1000_0001, Byte, 0x00)
  {
    DivisorExamples();
    InitTraceLayout(Bus(0x1000_0000, 0, 1), 208, lsr, rbr);
    assert Offset(DLL, 0) == 0 && Offset(DLM, 0) == 1;
  }

  /** The bring-up scenario run against a device that answers the two loads
      of initialisation with `lsr` and `rbr`. */
  method BringUp(lsr: U32, rbr: U32) returns (rc: int, t: seq<Access>)
    ensures rc == 0 && |t| == 11
    ensures t[2] == Write(DLL, 0x1000_0000, Byte, 0xD0)
    ensures t[3] == Write(DLM, 0x1000_0001, Byte, 0x00)
    ensures LastWrite(t, LCR) == Some(0x03) && LastWrite(t, FCR) == Some(0x01)
  {
    var uart := new Uart([lsr, rbr]);
    rc := uart.Init(0x1000_0000, 24_000_000, 115_200, 0, 1, 0);
    t := uart.trace;
    var bus := Bus(0x1000_0000, 0, 1);
    assert uart.CurrentBus() == bus;
    assert t == InitTrace(bus, Divisor(24_000_000, 115_200), lsr, rbr);
    BringUpTrace(lsr, rbr);
    InitFinalLineSettings(bus, Divisor(24_000_000, 115_200), lsr, rbr);
  }
}
