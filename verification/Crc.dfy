/** Octets as they travel on the bus and lie in memory. */
module Octets {
  type byte = x: int | 0 <= x < 256

  const ESC: byte := 0xA9
  const SYN: byte := 0xAA
  const ACK: byte := 0x00
  const NACK: byte := 0xFF
  const BROADCAST: byte := 0xFE

  datatype Option<+T> = None | Some(value: T)
}

/**
  CRC8 of the bus, polynomial 0x9B, in its three forms: one polynomial division step per bit,
  the 256-entry lookup table, and the running value over a whole wire string.
  */
module Crc {
  import opened Octets

  const POLYNOMIAL: bv8 := 0x9B

  // ---- Bytes as bit vectors ----

  function Num(b: bv8): byte {
    b as int
  }

  function Bits(n: byte): bv8
    decreases n
  {
    if n == 0 then 0 else Bits(n - 1) + 1
  }

  lemma NumNext(b: bv8)
    requires b != 0xFF
    ensures Num(b + 1) == Num(b) + 1
  {
  }

  lemma {:induction false} NumBits(n: byte)
    ensures Num(Bits(n)) == n
    decreases n
  {
    if n > 0 {
      NumBits(n - 1);
      assert Num(0xFF) == 255;
      NumNext(Bits(n - 1));
    }
  }

  lemma NumInjective(a: bv8, b: bv8)
    requires a != b
    ensures Num(a) != Num(b)
  {
  }

  // ---- One symbol ----

  /** Multiplication by x modulo the polynomial. */
  function Shift(c: bv8): bv8 {
    if c & 0x80 != 0 then (c << 1) ^ POLYNOMIAL else c << 1
  }

  function Shift8(c: bv8): bv8 {
    Shift(Shift(Shift(Shift(Shift(Shift(Shift(Shift(c))))))))
  }

  /** One wire symbol advances the running value. */
  function Step(c: byte, symbol: byte): byte {
    Num(Shift8(Bits(c)) ^ Bits(symbol))
  }

  function Run(c: byte, wire: seq<byte>): byte
    decreases wire
  {
    if wire == [] then c else Run(Step(c, wire[0]), wire[1..])
  }

  // The lookup table of internal/crc, sixteen entries a row.

  function Row0(j: bv8): (r: bv8)
    requires j < 16
    ensures r == Shift8(0x00 + j)
  {
    match j
    case 0x0 => 0x00 case 0x1 => 0x9B case 0x2 => 0xAD case 0x3 => 0x36 case 0x4 => 0xC1 case 0x5 => 0x5A case 0x6 => 0x6C case 0x7 => 0xF7
    case 0x8 => 0x19 case 0x9 => 0x82 case 0xA => 0xB4 case 0xB => 0x2F case 0xC => 0xD8 case 0xD => 0x43 case 0xE => 0x75
    case _ => 0xEE
  }

  function Row1(j: bv8): (r: bv8)
    requires j < 16
    ensures r == Shift8(0x10 + j)
  {
    match j
    case 0x0 => 0x32 case 0x1 => 0xA9 case 0x2 => 0x9F case 0x3 => 0x04 case 0x4 => 0xF3 case 0x5 => 0x68 case 0x6 => 0x5E case 0x7 => 0xC5
    case 0x8 => 0x2B case 0x9 => 0xB0 case 0xA => 0x86 case 0xB => 0x1D case 0xC => 0xEA case 0xD => 0x71 case 0xE => 0x47
    case _ => 0xDC
  }

  function Row2(j: bv8): (r: bv8)
    requires j < 16
    ensures r == Shift8(0x20 + j)
  {
    match j
    case 0x0 => 0x64 case 0x1 => 0xFF case 0x2 => 0xC9 case 0x3 => 0x52 case 0x4 => 0xA5 case 0x5 => 0x3E case 0x6 => 0x08 case 0x7 => 0x93
    case 0x8 => 0x7D case 0x9 => 0xE6 case 0xA => 0xD0 case 0xB => 0x4B case 0xC => 0xBC case 0xD => 0x27 case 0xE => 0x11
    case _ => 0x8A
  }

  function Row3(j: bv8): (r: bv8)
    requires j < 16
    ensures r == Shift8(0x30 + j)
  {
    match j
    case 0x0 => 0x56 case 0x1 => 0xCD case 0x2 => 0xFB case 0x3 => 0x60 case 0x4 => 0x97 case 0x5 => 0x0C case 0x6 => 0x3A case 0x7 => 0xA1
    case 0x8 => 0x4F case 0x9 => 0xD4 case 0xA => 0xE2 case 0xB => 0x79 case 0xC => 0x8E case 0xD => 0x15 case 0xE => 0x23
    case _ => 0xB8
  }

  function Row4(j: bv8): (r: bv8)
    requires j < 16
    ensures r == Shift8(0x40 + j)
  {
    match j
    case 0x0 => 0xC8 case 0x1 => 0x53 case 0x2 => 0x65 case 0x3 => 0xFE case 0x4 => 0x09 case 0x5 => 0x92 case 0x6 => 0xA4 case 0x7 => 0x3F
    case 0x8 => 0xD1 case 0x9 => 0x4A case 0xA => 0x7C case 0xB => 0xE7 case 0xC => 0x10 case 0xD => 0x8B case 0xE => 0xBD
    case _ => 0x26
  }

  function Row5(j: bv8): (r: bv8)
    requires j < 16
    ensures r == Shift8(0x50 + j)
  {
    match j
    case 0x0 => 0xFA case 0x1 => 0x61 case 0x2 => 0x57 case 0x3 => 0xCC case 0x4 => 0x3B case 0x5 => 0xA0 case 0x6 => 0x96 case 0x7 => 0x0D
    case 0x8 => 0xE3 case 0x9 => 0x78 case 0xA => 0x4E case 0xB => 0xD5 case 0xC => 0x22 case 0xD => 0xB9 case 0xE => 0x8F
    case _ => 0x14
  }

  function Row6(j: bv8): (r: bv8)
    requires j < 16
    ensures r == Shift8(0x60 + j)
  {
    match j
    case 0x0 => 0xAC case 0x1 => 0x37 case 0x2 => 0x01 case 0x3 => 0x9A case 0x4 => 0x6D case 0x5 => 0xF6 case 0x6 => 0xC0 case 0x7 => 0x5B
    case 0x8 => 0xB5 case 0x9 => 0x2E case 0xA => 0x18 case 0xB => 0x83 case 0xC => 0x74 case 0xD => 0xEF case 0xE => 0xD9
    case _ => 0x42
  }

  function Row7(j: bv8): (r: bv8)
    requires j < 16
    ensures r == Shift8(0x70 + j)
  {
    match j
    case 0x0 => 0x9E case 0x1 => 0x05 case 0x2 => 0x33 case 0x3 => 0xA8 case 0x4 => 0x5F case 0x5 => 0xC4 case 0x6 => 0xF2 case 0x7 => 0x69
    case 0x8 => 0x87 case 0x9 => 0x1C case 0xA => 0x2A case 0xB => 0xB1 case 0xC => 0x46 case 0xD => 0xDD case 0xE => 0xEB
    case _ => 0x70
  }

  function Row8(j: bv8): (r: bv8)
    requires j < 16
    ensures r == Shift8(0x80 + j)
  {
    match j
    case 0x0 => 0x0B case 0x1 => 0x90 case 0x2 => 0xA6 case 0x3 => 0x3D case 0x4 => 0xCA case 0x5 => 0x51 case 0x6 => 0x67 case 0x7 => 0xFC
    case 0x8 => 0x12 case 0x9 => 0x89 case 0xA => 0xBF case 0xB => 0x24 case 0xC => 0xD3 case 0xD => 0x48 case 0xE => 0x7E
    case _ => 0xE5
  }

  function Row9(j: bv8): (r: bv8)
    requires j < 16
    ensures r == Shift8(0x90 + j)
  {
    match j
    case 0x0 => 0x39 case 0x1 => 0xA2 case 0x2 => 0x94 case 0x3 => 0x0F case 0x4 => 0xF8 case 0x5 => 0x63 case 0x6 => 0x55 case 0x7 => 0xCE
    case 0x8 => 0x20 case 0x9 => 0xBB case 0xA => 0x8D case 0xB => 0x16 case 0xC => 0xE1 case 0xD => 0x7A case 0xE => 0x4C
    case _ => 0xD7
  }

  function RowA(j: bv8): (r: bv8)
    requires j < 16
    ensures r == Shift8(0xA0 + j)
  {
    match j
    case 0x0 => 0x6F case 0x1 => 0xF4 case 0x2 => 0xC2 case 0x3 => 0x59 case 0x4 => 0xAE case 0x5 => 0x35 case 0x6 => 0x03 case 0x7 => 0x98
    case 0x8 => 0x76 case 0x9 => 0xED case 0xA => 0xDB case 0xB => 0x40 case 0xC => 0xB7 case 0xD => 0x2C case 0xE => 0x1A
    case _ => 0x81
  }

  function RowB(j: bv8): (r: bv8)
    requires j < 16
    ensures r == Shift8(0xB0 + j)
  {
    match j
    case 0x0 => 0x5D case 0x1 => 0xC6 case 0x2 => 0xF0 case 0x3 => 0x6B case 0x4 => 0x9C case 0x5 => 0x07 case 0x6 => 0x31 case 0x7 => 0xAA
    case 0x8 => 0x44 case 0x9 => 0xDF case 0xA => 0xE9 case 0xB => 0x72 case 0xC => 0x85 case 0xD => 0x1E case 0xE => 0x28
    case _ => 0xB3
  }

  function RowC(j: bv8): (r: bv8)
    requires j < 16
    ensures r == Shift8(0xC0 + j)
  {
    match j
    case 0x0 => 0xC3 case 0x1 => 0x58 case 0x2 => 0x6E case 0x3 => 0xF5 case 0x4 => 0x02 case 0x5 => 0x99 case 0x6 => 0xAF case 0x7 => 0x34
    case 0x8 => 0xDA case 0x9 => 0x41 case 0xA => 0x77 case 0xB => 0xEC case 0xC => 0x1B case 0xD => 0x80 case 0xE => 0xB6
    case _ => 0x2D
  }

  function RowD(j: bv8): (r: bv8)
    requires j < 16
    ensures r == Shift8(0xD0 + j)
  {
    match j
    case 0x0 => 0xF1 case 0x1 => 0x6A case 0x2 => 0x5C case 0x3 => 0xC7 case 0x4 => 0x30 case 0x5 => 0xAB case 0x6 => 0x9D case 0x7 => 0x06
    case 0x8 => 0xE8 case 0x9 => 0x73 case 0xA => 0x45 case 0xB => 0xDE case 0xC => 0x29 case 0xD => 0xB2 case 0xE => 0x84
    case _ => 0x1F
  }

  function RowE(j: bv8): (r: bv8)
    requires j < 16
    ensures r == Shift8(0xE0 + j)
  {
    match j
    case 0x0 => 0xA7 case 0x1 => 0x3C case 0x2 => 0x0A case 0x3 => 0x91 case 0x4 => 0x66 case 0x5 => 0xFD case 0x6 => 0xCB case 0x7 => 0x50
    case 0x8 => 0xBE case 0x9 => 0x25 case 0xA => 0x13 case 0xB => 0x88 case 0xC => 0x7F case 0xD => 0xE4 case 0xE => 0xD2
    case _ => 0x49
  }

  function RowF(j: bv8): (r: bv8)
    requires j < 16
    ensures r == Shift8(0xF0 + j)
  {
    match j
    case 0x0 => 0x95 case 0x1 => 0x0E case 0x2 => 0x38 case 0x3 => 0xA3 case 0x4 => 0x54 case 0x5 => 0xCF case 0x6 => 0xF9 case 0x7 => 0x62
    case 0x8 => 0x8C case 0x9 => 0x17 case 0xA => 0x21 case 0xB => 0xBA case 0xC => 0x4D case 0xD => 0xD6 case 0xE => 0xE0
    case _ => 0x7B
  }

  /** The lookup table as a whole: entry c is the polynomial remainder of c * x^8. */
  function Lookup(c: bv8): (r: bv8)
    ensures r == Shift8(c)
  {
    var j := c & 0x0F;
    match c >> 4
    case 0x0 => Row0(j)
    case 0x1 => Row1(j)
    case 0x2 => Row2(j)
    case 0x3 => Row3(j)
    case 0x4 => Row4(j)
    case 0x5 => Row5(j)
    case 0x6 => Row6(j)
    case 0x7 => Row7(j)
    case 0x8 => Row8(j)
    case 0x9 => Row9(j)
    case 0xA => RowA(j)
    case 0xB => RowB(j)
    case 0xC => RowC(j)
    case 0xD => RowD(j)
    case 0xE => RowE(j)
    case _ => RowF(j)
  }

  /** The table-driven update agrees with eight division steps. */
  function Update(crc: byte, value: byte): (r: byte)
    ensures r == Step(crc, value)
  {
    Num(Lookup(Bits(crc)) ^ Bits(value))
  }

  function Shifted(c: bv8, n: nat): bv8 {
    if n == 0 then c else Shift(Shifted(c, n - 1))
  }

  lemma Shifted8(c: bv8)
    ensures Shifted(c, 8) == Shift8(c)
  {
    hide Shift;
    assert Shifted(c, 8) == Shift(Shift(Shifted(c, 6)));
    assert Shifted(c, 6) == Shift(Shift(Shifted(c, 4)));
    assert Shifted(c, 4) == Shift(Shift(Shifted(c, 2)));
    assert Shifted(c, 2) == Shift(Shift(Shifted(c, 0)));
  }

  /** The bit-serial form: eight conditional shifts, then the symbol. */
  method BitwiseStep(crc: byte, value: byte) returns (r: byte)
    ensures r == Step(crc, value)
  {
    var register := Bits(crc);
    for bit := 0 to 8
      invariant register == Shifted(Bits(crc), bit)
    {
      if register & 0x80 != 0 {
        register := (register << 1) ^ POLYNOMIAL;
      } else {
        register := register << 1;
      }
    }
    Shifted8(Bits(crc));
    r := Num(register ^ Bits(value));
  }

  lemma {:induction false} RunAppend(c: byte, a: seq<byte>, b: seq<byte>)
    ensures Run(c, a + b) == Run(Run(c, a), b)
    decreases a
  {
    hide Step;
    if a == [] {
      assert a + b == b;
    } else {
      assert (a + b)[1..] == a[1..] + b;
      RunAppend(Step(c, a[0]), a[1..], b);
    }
  }

  lemma RunSnoc(c: byte, s: seq<byte>, b: byte)
    ensures Run(c, s + [b]) == Step(Run(c, s), b)
  {
    RunAppend(c, s, [b]);
    assert [b][1..] == [];
    assert Run(Step(Run(c, s), b), []) == Step(Run(c, s), b);
  }

  /** The table-driven sum of a wire string. */
  method Sum(data: seq<byte>) returns (crc: byte)
    ensures crc == Run(0, data)
  {
    hide Step;
    crc := 0;
    for i := 0 to |data|
      invariant crc == Run(0, data[..i])
    {
      assert data[..i + 1] == data[..i] + [data[i]];
      RunAppend(0, data[..i], [data[i]]);
      crc := Update(crc, data[i]);
    }
    assert data[..|data|] == data;
  }

  // ---- What the check detects ----

  lemma Shift8Injective(a: bv8, b: bv8)
    requires a != b
    ensures Shift8(a) != Shift8(b)
  {
  }

  lemma XorInjective(a: bv8, b: bv8, v: bv8)
    requires a != b
    ensures a ^ v != b ^ v && v ^ a != v ^ b
  {
  }

  lemma BitsInjective(a: byte, b: byte)
    requires a != b
    ensures Bits(a) != Bits(b)
  {
    NumBits(a);
    NumBits(b);
  }

  /** A step tells different running values apart ... */
  lemma StepInjective(a: byte, b: byte, symbol: byte)
    requires a != b
    ensures Step(a, symbol) != Step(b, symbol)
  {
    hide Shift8, Bits, Num;
    BitsInjective(a, b);
    Shift8Injective(Bits(a), Bits(b));
    XorInjective(Shift8(Bits(a)), Shift8(Bits(b)), Bits(symbol));
    NumInjective(Shift8(Bits(a)) ^ Bits(symbol), Shift8(Bits(b)) ^ Bits(symbol));
  }

  /** ... and different symbols. */
  lemma StepDistinguishes(c: byte, a: byte, b: byte)
    requires a != b
    ensures Step(c, a) != Step(c, b)
  {
    hide Shift8, Bits, Num;
    BitsInjective(a, b);
    XorInjective(Bits(a), Bits(b), Shift8(Bits(c)));
    NumInjective(Shift8(Bits(c)) ^ Bits(a), Shift8(Bits(c)) ^ Bits(b));
  }

  /** Two different running values stay different over any common suffix. */
  lemma {:induction false} RunInjective(a: byte, b: byte, wire: seq<byte>)
    requires a != b
    ensures Run(a, wire) != Run(b, wire)
    decreases wire
  {
    hide Step;
    if wire != [] {
      StepInjective(a, b, wire[0]);
      RunInjective(Step(a, wire[0]), Step(b, wire[0]), wire[1..]);
    }
  }

  /** Changing one symbol of a wire string of fixed length always changes its CRC. */
  lemma SingleSymbolErrorDetected(c: byte, wire: seq<byte>, i: nat, v: byte)
    requires i < |wire| && v != wire[i]
    ensures Run(c, wire[i := v]) != Run(c, wire)
  {
    hide Step;
    var good, bad, rest := [wire[i]] + wire[i + 1..], [v] + wire[i + 1..], wire[i + 1..];
    assert wire == wire[..i] + good;
    assert wire[i := v] == wire[..i] + bad;
    RunAppend(c, wire[..i], good);
    RunAppend(c, wire[..i], bad);
    var p := Run(c, wire[..i]);
    StepDistinguishes(p, v, wire[i]);
    assert bad[1..] == rest == good[1..];
    RunInjective(Step(p, v), Step(p, wire[i]), rest);
  }
}
