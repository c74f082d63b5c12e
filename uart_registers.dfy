/** The register access layer of the SiliconWaves W3K UART: how a logical
    register index becomes a byte offset from the register base, which access
    width is used, and what a single access looks like on the bus.

    Memory-mapped I/O is not modelled as memory: every access is one `Access`
    event, and a driver run is described by the sequence of events it issues. */
module UartRegisters {

  /** One past the largest C `u32`. */
  const U32_LIMIT: nat := 0x1_0000_0000

  type U8 = x: nat | x < 0x100
  type U16 = x: nat | x < 0x1_0000
  type U32 = x: nat | x < 0x1_0000_0000
  type U64 = x: nat | x < 0x1_0000_0000_0000_0000

  function Pow2(n: nat): (r: nat)
    ensures r >= 1
  {
    if n == 0 then 1 else 2 * Pow2(n - 1)
  }

  lemma {:induction false} Pow2Add(a: nat, b: nat)
    ensures Pow2(a + b) == Pow2(a) * Pow2(b)
  {
    if a > 0 {
      Pow2Add(a - 1, b);
      calc {
        Pow2(a + b);
        2 * Pow2(a - 1 + b);
        2 * (Pow2(a - 1) * Pow2(b));
        (2 * Pow2(a - 1)) * Pow2(b);
        Pow2(a) * Pow2(b);
      }
    }
  }

  /** `num << shift` evaluated in 32-bit unsigned arithmetic: the product is
      reduced modulo 2^32. A shift of 32 or more is undefined in C, hence the
      precondition. */
  function Offset(num: U32, shift: nat): (r: U32)
    requires shift < 32
    ensures num * Pow2(shift) < U32_LIMIT ==> r == num * Pow2(shift)
    ensures (num * Pow2(shift) - r) % U32_LIMIT == 0
  {
    (num * Pow2(shift)) % U32_LIMIT
  }

  /** Multiplying by a non-negative factor preserves `<=`. */
  lemma MulLe(a: int, b: int, c: int)
    requires a <= b && c >= 0
    ensures a * c <= b * c
  {
    assert b * c - a * c == (b - a) * c;
  }

  /** If `a` is `q` multiples of `m` plus a remainder below `m`, that
      remainder is `a % m`. */
  lemma ModOfMultiplePlus(a: int, q: int, b: int, m: int)
    requires m > 0 && 0 <= b < m && a == q * m + b
    ensures a % m == b
  {
    var d, r := a / m, a % m;
    assert (d - q) * m == b - r by {
      assert d * m + r == q * m + b;
    }
    if d > q {
      MulLe(1, d - q, m);
    } else if d < q {
      MulLe(1, q - d, m);
    }
  }

  /** The powers of two that name the access widths and the 32-bit limit. */
  lemma Pow2Values()
    ensures Pow2(8) == 0x100 && Pow2(16) == 0x1_0000
    ensures Pow2(28) == 0x1000_0000 && Pow2(32) == U32_LIMIT
  {
    assert Pow2(2) == 4;
    assert Pow2(4) == 16;
    Pow2Add(4, 4);
    Pow2Add(8, 8);
    Pow2Add(16, 8);
    Pow2Add(24, 4);
    Pow2Add(16, 16);
  }

  /** Scaling both a number and the modulus by `p` scales the remainder. */
  lemma ModScaled(n: nat, m: nat, p: nat)
    requires m > 0 && p > 0
    ensures (n * p) % (m * p) == (n % m) * p
  {
    var q, b := n / m, n % m;
    assert n * p == q * (m * p) + b * p by {
      assert n == q * m + b;
    }
    MulLe(b, m - 1, p);
    ModOfMultiplePlus(n * p, q, b * p, m * p);
  }

  /** Shifting left by `s` in 32 bits keeps the low `32 - s` bits of `num`
      and drops the rest: the offset is those bits, moved up by `s`. */
  lemma OffsetDropsHighBits(num: U32, s: nat)
    requires s < 32
    ensures Offset(num, s) == (num % Pow2(32 - s)) * Pow2(s)
  {
    Pow2Add(32 - s, s);
    Pow2Values();
    ModScaled(num, Pow2(32 - s), Pow2(s));
  }

  /** Pow2 is monotone. */
  lemma Pow2Le(a: nat, b: nat)
    requires a <= b
    ensures Pow2(a) <= Pow2(b)
  {
    Pow2Add(a, b - a);
  }

  /** A positive factor keeps distinct numbers distinct. */
  lemma MulInjective(i: nat, j: nat, p: nat)
    requires i != j && p > 0
    ensures i * p != j * p
  {
    if i < j {
      MulLe(i + 1, j, p);
    } else {
      MulLe(j + 1, i, p);
    }
  }

  /** Distinct register indices of the 16-index window never share an
      address when the shift leaves room for them (shift at most 28). */
  lemma OffsetInjective(i: U32, j: U32, s: nat)
    requires i < 16 && j < 16 && i != j && s <= 28
    ensures Offset(i, s) != Offset(j, s)
  {
    var p := Pow2(s);
    Pow2Le(s, 28);
    Pow2Values();
    MulLe(p, 0x1000_0000, 15);
    MulLe(i, 15, p);
    MulLe(j, 15, p);
    MulInjective(i, j, p);
  }

  /** Register 5 sits at byte 20 with a shift of 2; with a shift of 31 the
      index is cut to its lowest bit. */
  lemma OffsetExamples()
    ensures Offset(5, 2) == 20
    ensures Offset(1, 31) == 0x8000_0000 && Offset(2, 31) == 0 && Offset(3, 31) == 0x8000_0000
  {
    OffsetDropsHighBits(2, 31);
    OffsetDropsHighBits(3, 31);
  }

  /** The load/store primitive used for an access. */
  datatype Width = Byte | Half | Word

  function Bytes(w: Width): nat
  {
    match w
    case Byte => 1
    case Half => 2
    case Word => 4
  }

  /** The configured register width picks the access width: 1 and 2 are
      honoured and every other value falls back to a 4-byte access. */
  function AccessWidth(regWidth: U32): (w: Width)
    ensures Bytes(w) == regWidth <==> regWidth == 1 || regWidth == 2 || regWidth == 4
    ensures regWidth != 1 && regWidth != 2 ==> w == Word
  {
    if regWidth == 1 then Byte
    else if regWidth == 2 then Half
    else Word
  }

  /** One past the largest value an access of width `w` carries. */
  function Limit(w: Width): (r: nat)
    ensures 0x100 <= r <= U32_LIMIT
  {
    match w
    case Byte => 0x100
    case Half => 0x1_0000
    case Word => U32_LIMIT
  }

  /** A `u32` narrowed to the access width: the store keeps the low bytes. */
  function Truncate(val: U32, w: Width): (r: U32)
    ensures r < Limit(w)
    ensures val < Limit(w) ==> r == val
    ensures (val - r) % Limit(w) == 0
  {
    match w
    case Byte => val % 0x100
    case Half => val % 0x1_0000
    case Word => val
  }

  /** One event of a driver run: a register load or store (logical index,
      address on the bus, width, value moved), or the hand-over of the
      device to the console layer. */
  datatype Access =
    | Read(reg: U32, addr: nat, width: Width, value: U32)
    | Write(reg: U32, addr: nat, width: Width, value: U32)
    | RegisterConsole(name: string)

  /** The configuration the access layer reads: the register base (already
      moved by the register-block offset), the shift and the width. */
  datatype Bus = Bus(base: nat, shift: nat, regWidth: U32) {

    predicate Valid()
    {
      shift < 32
    }

    /** The load/store primitive every access of this bus uses. */
    function AccessKind(): Width
    {
      AccessWidth(regWidth)
    }

    function Address(num: U32): nat
      requires Valid()
    {
      base + Offset(num, shift)
    }

    /** The event of a load of register `num` that the device answers with `raw`. */
    function ReadEvent(num: U32, raw: U32): Access
      requires Valid()
    {
      Read(num, Address(num), AccessKind(), Truncate(raw, AccessKind()))
    }

    /** The event of a store of `val` to register `num`. */
    function WriteEvent(num: U32, val: U32): Access
      requires Valid()
    {
      Write(num, Address(num), AccessKind(), Truncate(val, AccessKind()))
    }
  }

  /** A load and a store of the same register go to the same address with the
      same width, and a value that fits the width is stored unchanged. */
  lemma ReadWriteAgree(bus: Bus, num: U32, raw: U32, val: U32)
    requires bus.Valid()
    ensures bus.ReadEvent(num, raw).addr == bus.WriteEvent(num, val).addr
    ensures bus.ReadEvent(num, raw).width == bus.WriteEvent(num, val).width
    ensures bus.ReadEvent(num, raw).addr == bus.base + Offset(num, bus.shift)
    ensures val < 0x100 ==> bus.WriteEvent(num, val).value == val
  {
  }
}
