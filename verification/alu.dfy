/**
 * The arithmetic and logic unit (`alu`): each operation takes an operand
 * by reference and the flags byte (the low byte of AF), and gives back the
 * new operand and the new flags.
 *
 * The four flags are bits of the flags byte: Z (zero) is bit 7, N
 * (subtract) bit 6, H (half carry) bit 5 and C (carry) bit 4. Every operation
 * writes them one by one with `set_bit`/`reset_bit`, so bits 0 to 3 of the
 * flags byte always pass through unchanged.
 */
module Alu {
  import opened Bytes

  /** The result of an operation on a byte operand: the operand and the flags. */
  datatype Out8 = Out8(x: byte, flags: byte)

  /** The result of an operation on a word operand: the operand and the flags. */
  datatype Out16 = Out16(x: word, flags: byte)

  /** Bit positions of the flags in the flags byte, as `set_bit` numbers them. */
  const ZERO: nat := 7
  const SUBTRACT: nat := 6
  const HALF_CARRY: nat := 5
  const CARRY: nat := 4

  /** The zero flag, `f >> 7`. */
  predicate Zf(f: byte) { f / 0x80 == 1 }

  /** The subtract flag, `(f >> 6) & 1`. */
  predicate Nf(f: byte) { (f / 0x40) % 2 == 1 }

  /** The half-carry flag, `(f >> 5) & 1`. */
  predicate Hf(f: byte) { (f / 0x20) % 2 == 1 }

  /** The carry flag, `(f >> 4) & 1`. */
  predicate Cf(f: byte) { (f / 0x10) % 2 == 1 }

  /** Bits 0 to 3 of two flags bytes agree: the bits no operation writes. */
  predicate LowBitsKept(f: byte, g: byte)
  {
    f % 0x10 == g % 0x10
  }

  /** Two bytes that agree below bit 7 carry the same N, H and C flags and low bits. */
  lemma SameBelowZero(g: byte, h: byte)
    requires g % 0x80 == h % 0x80
    ensures Nf(h) == Nf(g) && Hf(h) == Hf(g) && Cf(h) == Cf(g)
    ensures LowBitsKept(g, h)
  {
    var m := g % 0x80;
    assert g / 0x40 == 2 * (g / 0x80) + m / 0x40;
    assert h / 0x40 == 2 * (h / 0x80) + m / 0x40;
    Parity(g / 0x80, m / 0x40);
    Parity(h / 0x80, m / 0x40);
    SameLowDigits(g, h);
  }

  /** Two bytes that agree below bit 6 carry the same H and C flags and low bits. */
  lemma SameLowDigits(g: byte, h: byte)
    requires g % 0x80 == h % 0x80
    ensures Hf(h) == Hf(g) && Cf(h) == Cf(g)
    ensures LowBitsKept(g, h)
  {
    var m := g % 0x40;
    assert g % 0x40 == h % 0x40;
    assert g / 0x20 == 2 * (g / 0x40) + m / 0x20;
    assert h / 0x20 == 2 * (h / 0x40) + m / 0x20;
    Parity(g / 0x40, m / 0x20);
    Parity(h / 0x40, m / 0x20);
    SameLowerDigits(g, h);
  }

  /** Two bytes that agree below bit 5 carry the same C flag and low bits. */
  lemma SameLowerDigits(g: byte, h: byte)
    requires g % 0x40 == h % 0x40
    ensures Cf(h) == Cf(g)
    ensures LowBitsKept(g, h)
  {
    CarryDigit(g);
    CarryDigit(h);
  }

  /** The C flag and the low bits of a byte are read from its six low bits. */
  lemma CarryDigit(g: byte)
    ensures Cf(g) <==> (g % 0x40) % 0x20 / 0x10 == 1
    ensures g % 0x10 == (g % 0x40) % 0x10
  {
    var m := g % 0x40;
    assert g == 0x40 * (g / 0x40) + m;
    assert g / 0x10 == 4 * (g / 0x40) + m / 0x10;
    Parity(2 * (g / 0x40), m / 0x10);
    assert m / 0x10 == 2 * (m / 0x20) + m % 0x20 / 0x10;
    Parity(m / 0x20, m % 0x20 / 0x10);
  }

  /** Adding an even number keeps the parity. */
  lemma Parity(a: nat, m: nat)
    ensures (2 * a + m) % 2 == m % 2
  {
  }

  /** The carry flag as the number 0 or 1. */
  function CarryIn(f: byte): int
  {
    if Cf(f) then 1 else 0
  }

  /**
   * `if (on) set_bit(i, f); else reset_bit(i, f);`: the idiom with which
   * every operation writes a flag.
   */
  function Put(f: byte, i: nat, on: bool): (r: byte)
    requires i < 8
    ensures Bit(r, i) == on
    ensures forall j :: 0 <= j < 8 && j != i ==> (Bit(r, j) <==> Bit(f, j))
  {
    if on then SetBit8(i, f) else ResetBit8(i, f)
  }

  /**
   * The flags byte after an operation has written Z, N, H and C and left
   * bits 0 to 3 alone. An operation that does not write some flag passes
   * that flag's old value.
   */
  function WriteFlags(f: byte, z: bool, n: bool, h: bool, c: bool): (r: byte)
    ensures Zf(r) == z && Nf(r) == n && Hf(r) == h && Cf(r) == c
    ensures LowBitsKept(r, f)
  {
    (if z then 0x80 else 0) + (if n then 0x40 else 0) + (if h then 0x20 else 0)
      + (if c then 0x10 else 0) + f % 0x10
  }

  /** The four flag predicates read bits 7, 6, 5 and 4 of the flags byte. */
  lemma FlagsAreBits(f: byte)
    ensures Zf(f) == Bit(f, ZERO) && Nf(f) == Bit(f, SUBTRACT)
    ensures Hf(f) == Bit(f, HALF_CARRY) && Cf(f) == Bit(f, CARRY)
  {
    FlagBits(f);
  }

  /**
   * WriteFlags is what the source's sequence of four `set_bit`/`reset_bit`
   * calls leaves in the flags byte.
   */
  lemma WriteFlagsIsBitWrites(f: byte, z: bool, n: bool, h: bool, c: bool)
    ensures WriteFlags(f, z, n, h, c)
      == Put(Put(Put(Put(f, ZERO, z), SUBTRACT, n), HALF_CARRY, h), CARRY, c)
  {
    var r1 := Put(f, ZERO, z);
    PutIsWriteFlags(f, ZERO, z);
    var r2 := Put(r1, SUBTRACT, n);
    PutIsWriteFlags(r1, SUBTRACT, n);
    var r3 := Put(r2, HALF_CARRY, h);
    PutIsWriteFlags(r2, HALF_CARRY, h);
    PutIsWriteFlags(r3, CARRY, c);
  }

  /** One `set_bit`/`reset_bit` of a flag writes that flag and keeps the rest. */
  lemma PutIsWriteFlags(f: byte, i: nat, on: bool)
    requires 4 <= i < 8
    ensures Put(f, i, on) == WriteFlags(f,
      if i == ZERO then on else Zf(f), if i == SUBTRACT then on else Nf(f),
      if i == HALF_CARRY then on else Hf(f), if i == CARRY then on else Cf(f))
  {
    FlagsAreBits(f);
    var r := Put(f, i, on);
    if i == ZERO {
      SameFlagBits(WriteFlags(f, on, Nf(f), Hf(f), Cf(f)), r, f);
    } else if i == SUBTRACT {
      SameFlagBits(WriteFlags(f, Zf(f), on, Hf(f), Cf(f)), r, f);
    } else if i == HALF_CARRY {
      SameFlagBits(WriteFlags(f, Zf(f), Nf(f), on, Cf(f)), r, f);
    } else {
      SameFlagBits(WriteFlags(f, Zf(f), Nf(f), Hf(f), on), r, f);
    }
  }

  /**
   * A flags byte with given flags and the low bits of f, described once
   * by its bit values and once by its flag predicates, is one byte.
   */
  lemma SameFlagBits(w: byte, r: byte, f: byte)
    requires Bit(r, 7) == Zf(w) && Bit(r, 6) == Nf(w) && Bit(r, 5) == Hf(w) && Bit(r, 4) == Cf(w)
    requires forall j :: 0 <= j < 4 ==> (Bit(r, j) <==> Bit(f, j))
    requires LowBitsKept(w, f)
    ensures w == r
  {
    FlagsAreBits(w);
    LowNibbleBits(w, f);
    Pow2Below(0, 8);
    forall j | 0 <= j < 8
      ensures Bit(w, j) <==> Bit(r, j)
    {
      if j < 4 {
        assert Bit(w, j) == Bit(f, j);
      }
    }
    BitsDetermine(w, r, 8);
  }

  /** Writing a flag with the value it already has changes nothing. */
  lemma PutSame(f: byte, i: nat)
    requires i < 8
    ensures Put(f, i, Bit(f, i)) == f
  {
    Pow2Below(0, 8);
    BitsDetermine(Put(f, i, Bit(f, i)), f, 8);
  }

  /** `add(uint16_t&, uint16_t, flags)`: 16-bit addition, as in ADD HL,rr. */
  function Add16(x: word, y: word, flags: byte): (r: Out16)
    ensures x + y == r.x + (if Cf(r.flags) then 0x1_0000 else 0)
    ensures Zf(r.flags) <==> r.x == 0
    ensures !Nf(r.flags)
    ensures Hf(r.flags) <==> x % 0x1000 + y % 0x1000 >= 0x1000
    ensures LowBitsKept(r.flags, flags)
  {
    var z := x + y;
    var lo := x % 0x1000 + y % 0x1000;
    var nx := z % 0x1_0000;
    Out16(nx, WriteFlags(flags, nx == 0, false, lo / 0x1000 != 0, z / 0x1_0000 != 0))
  }

  /** `add(uint8_t&, uint8_t, flags)`: 8-bit addition. */
  function Add8(x: byte, y: byte, flags: byte): (r: Out8)
    ensures x + y == r.x + (if Cf(r.flags) then 0x100 else 0)
    ensures Zf(r.flags) <==> r.x == 0
    ensures !Nf(r.flags)
    ensures Hf(r.flags) <==> x % 0x10 + y % 0x10 >= 0x10
    ensures LowBitsKept(r.flags, flags)
  {
    var z := x + y;
    var lo := x % 0x10 + y % 0x10;
    var nx := z % 0x100;
    Out8(nx, WriteFlags(flags, nx == 0, false, lo / 0x10 != 0, z / 0x100 != 0))
  }

  /**
   * `add(uint16_t&, uint8_t, flags)`: adds a signed byte offset to a word, as
   * in ADD SP,d and LD HL,SP+d. The half carry and carry come from adding the
   * byte, unsigned, to the low byte of the word; Z is always cleared.
   */
  function AddSigned(x: word, y: byte, flags: byte): (r: Out16)
    ensures r.x == (x + Signed8(y)) % 0x1_0000
    ensures !Zf(r.flags) && !Nf(r.flags)
    ensures Hf(r.flags) <==> x % 0x10 + y % 0x10 >= 0x10
    ensures Cf(r.flags) <==> Lo(x) + y >= 0x100
    ensures LowBitsKept(r.flags, flags)
  {
    var yw := ByteTo16(y);
    var xl := x % 0x100;
    var z := xl + y;
    var lo := (x % 0x10 + y % 0x10) % 0x100;
    var nx := (x + yw) % 0x1_0000;
    // Z and N are reset, which is writing them false
    Out16(nx, WriteFlags(flags, false, false, lo / 0x10 != 0, z / 0x100 != 0))
  }

  /** `adc`: 8-bit addition of the operand and the carry flag. */
  function Adc8(x: byte, y: byte, flags: byte): (r: Out8)
    ensures x + y + CarryIn(flags) == r.x + (if Cf(r.flags) then 0x100 else 0)
    ensures Zf(r.flags) <==> r.x == 0
    ensures !Nf(r.flags)
    ensures Hf(r.flags) <==> x % 0x10 + y % 0x10 + CarryIn(flags) >= 0x10
    ensures LowBitsKept(r.flags, flags)
  {
    var c := CarryIn(flags);
    var z := x + y + c;
    var lo := x % 0x10 + y % 0x10 + c;
    var nx := z % 0x100;
    Out8(nx, WriteFlags(flags, nx == 0, false, lo / 0x10 != 0, z / 0x100 != 0))
  }

  /**
   * `sub`: 8-bit subtraction. The difference is computed in `int` and
   * truncated to 16 bits, so a borrow shows as a nonzero high byte.
   */
  function Sub8(x: byte, y: byte, flags: byte): (r: Out8)
    ensures x - y == r.x - (if Cf(r.flags) then 0x100 else 0)
    ensures Zf(r.flags) <==> r.x == 0
    ensures Nf(r.flags)
    ensures Hf(r.flags) <==> x % 0x10 < y % 0x10
    ensures LowBitsKept(r.flags, flags)
  {
    var z := (x - y) % 0x1_0000;
    var lo := (x % 0x10 - y % 0x10) % 0x100;
    var nx := z % 0x100;
    Out8(nx, WriteFlags(flags, nx == 0, true, lo / 0x10 != 0, z / 0x100 != 0))
  }

  /** `sbc`: 8-bit subtraction of the operand and the carry flag. */
  function Sbc8(x: byte, y: byte, flags: byte): (r: Out8)
    ensures x - y - CarryIn(flags) == r.x - (if Cf(r.flags) then 0x100 else 0)
    ensures Zf(r.flags) <==> r.x == 0
    ensures Nf(r.flags)
    ensures Hf(r.flags) <==> x % 0x10 < y % 0x10 + CarryIn(flags)
    ensures LowBitsKept(r.flags, flags)
  {
    var c := CarryIn(flags);
    var z := (x - y - c) % 0x1_0000;
    var lo := (x % 0x10 - y % 0x10 - c) % 0x100;
    var nx := z % 0x100;
    assert z == if x - y - c < 0 then x - y - c + 0x1_0000 else x - y - c;
    assert lo / 0x10 != 0 <==> x % 0x10 - y % 0x10 - c < 0;
    Out8(nx, WriteFlags(flags, nx == 0, true, lo / 0x10 != 0, z / 0x100 != 0))
  }

  /** `_and`: bitwise and; H is always set and C always cleared. */
  function And8(x: byte, y: byte, flags: byte): (r: Out8)
    ensures forall j :: 0 <= j < 8 ==> (Bit(r.x, j) <==> Bit(x, j) && Bit(y, j))
    ensures Zf(r.flags) <==> forall j :: 0 <= j < 8 ==> !(Bit(x, j) && Bit(y, j))
    ensures !Nf(r.flags) && Hf(r.flags) && !Cf(r.flags)
    ensures LowBitsKept(r.flags, flags)
  {
    Pow2Below(0, 8);
    var nx := BitAnd(x, y, 8);
    ZeroIffNoBits(nx, 8);
    Out8(nx, WriteFlags(flags, nx == 0, false, true, false))
  }

  /** `_or`: bitwise or; H and C are cleared. */
  function Or8(x: byte, y: byte, flags: byte): (r: Out8)
    ensures forall j :: 0 <= j < 8 ==> (Bit(r.x, j) <==> Bit(x, j) || Bit(y, j))
    ensures Zf(r.flags) <==> x == 0 && y == 0
    ensures !Nf(r.flags) && !Hf(r.flags) && !Cf(r.flags)
    ensures LowBitsKept(r.flags, flags)
  {
    Pow2Below(0, 8);
    var nx := BitOr(x, y, 8);
    ZeroIffNoBits(nx, 8);
    ZeroIffNoBits(x, 8);
    ZeroIffNoBits(y, 8);
    Out8(nx, WriteFlags(flags, nx == 0, false, false, false))
  }

  /** `_xor`: bitwise exclusive or; H and C are cleared. */
  function Xor8(x: byte, y: byte, flags: byte): (r: Out8)
    ensures forall j :: 0 <= j < 8 ==> (Bit(r.x, j) <==> Bit(x, j) != Bit(y, j))
    ensures Zf(r.flags) <==> x == y
    ensures !Nf(r.flags) && !Hf(r.flags) && !Cf(r.flags)
    ensures LowBitsKept(r.flags, flags)
  {
    Pow2Below(0, 8);
    var nx := BitXor(x, y, 8);
    ZeroIffNoBits(nx, 8);
    assert nx == 0 ==> x == y by {
      if nx == 0 { BitsDetermine(x, y, 8); }
    }
    Out8(nx, WriteFlags(flags, nx == 0, false, false, false))
  }

  /**
   * `cp`: compares by subtracting without keeping the difference. The
   * operand is passed by reference but never written, so only the flags are
   * a result. Z tests the difference held in 16 bits, which is zero exactly
   * when x == y, as it would be in 8 bits.
   */
  function Cp8(x: byte, y: byte, flags: byte): (r: byte)
    ensures Zf(r) <==> x == y
    ensures Nf(r)
    ensures Hf(r) <==> x % 0x10 < y % 0x10
    ensures Cf(r) <==> x < y
    ensures LowBitsKept(r, flags)
  {
    var z := (x - y) % 0x1_0000;
    var lo := (x % 0x10 - y % 0x10) % 0x100;
    WriteFlags(flags, z == 0, true, lo / 0x10 != 0, z / 0x100 != 0)
  }

  /** `inc(uint16_t&, flags)`: wrapping increment; the flags are not touched. */
  function Inc16(x: word): (r: word)
    ensures x < 0xFFFF ==> r == x + 1
    ensures x == 0xFFFF ==> r == 0
  {
    Next(x)
  }

  /** `dec(uint16_t&, flags)`: wrapping decrement; the flags are not touched. */
  function Dec16(x: word): (r: word)
    ensures x > 0 ==> r == x - 1
    ensures x == 0 ==> r == 0xFFFF
  {
    (x - 1) % 0x1_0000
  }

  /** `inc(uint8_t&, flags)`: wrapping increment; C is left as it was. */
  function Inc8(x: byte, flags: byte): (r: Out8)
    ensures x < 0xFF ==> r.x == x + 1
    ensures x == 0xFF ==> r.x == 0
    ensures Zf(r.flags) <==> x == 0xFF
    ensures !Nf(r.flags)
    ensures Hf(r.flags) <==> x % 0x10 == 0xF
    ensures Cf(r.flags) == Cf(flags)
    ensures LowBitsKept(r.flags, flags)
  {
    var lo := x % 0x10 + 1;
    var nx := (x + 1) % 0x100;
    Out8(nx, WriteFlags(flags, nx == 0, false, lo / 0x10 != 0, Cf(flags)))
  }

  /** `dec(uint8_t&, flags)`: wrapping decrement; C is left as it was. */
  function Dec8(x: byte, flags: byte): (r: Out8)
    ensures x > 0 ==> r.x == x - 1
    ensures x == 0 ==> r.x == 0xFF
    ensures Zf(r.flags) <==> x == 1
    ensures Nf(r.flags)
    ensures Hf(r.flags) <==> x % 0x10 == 0
    ensures Cf(r.flags) == Cf(flags)
    ensures LowBitsKept(r.flags, flags)
  {
    var lo := (x % 0x10 - 1) % 0x100;
    var nx := (x - 1) % 0x100;
    Out8(nx, WriteFlags(flags, nx == 0, true, lo / 0x10 != 0, Cf(flags)))
  }

  /**
   * The flags every rotate and shift leaves: Z from the result, N and H
   * cleared, C the bit shifted out.
   */
  function ShiftFlags(flags: byte, result: byte, out: bool): (r: byte)
    ensures Zf(r) <==> result == 0
    ensures !Nf(r) && !Hf(r)
    ensures Cf(r) == out
    ensures LowBitsKept(r, flags)
  {
    WriteFlags(flags, result == 0, false, false, out)
  }

  /** `rlc`: rotate left; bit 7 goes round to bit 0 and into C. */
  function Rlc(x: byte, flags: byte): (r: Out8)
    ensures 2 * x == r.x + (if Cf(r.flags) then 0xFF else 0)
    ensures Cf(r.flags) <==> x >= 0x80
    ensures Zf(r.flags) <==> x == 0
    ensures !Nf(r.flags) && !Hf(r.flags)
    ensures LowBitsKept(r.flags, flags)
  {
    var msb := x / 0x80 != 0;
    var shifted := (2 * x) % 0x100;
    assert !Bit(shifted, 0);
    var nx := if msb then SetBit8(0, shifted) else shifted;
    assert nx == if msb then shifted + 1 else shifted;
    Out8(nx, ShiftFlags(flags, nx, msb))
  }

  /** `rl`: rotate left through the carry: C goes into bit 0, bit 7 into C. */
  function Rl(x: byte, flags: byte): (r: Out8)
    ensures 2 * x + CarryIn(flags) == r.x + (if Cf(r.flags) then 0x100 else 0)
    ensures Zf(r.flags) <==> r.x == 0
    ensures !Nf(r.flags) && !Hf(r.flags)
    ensures LowBitsKept(r.flags, flags)
  {
    var msb := x / 0x80 != 0;
    var c := CarryIn(flags);
    // `(x << 1) | c`: bit 0 of the shifted byte is clear, so `|` is `+`
    var nx := (2 * x) % 0x100 + c;
    Out8(nx, ShiftFlags(flags, nx, msb))
  }

  /** `rrc`: rotate right; bit 0 goes round to bit 7 and into C. */
  function Rrc(x: byte, flags: byte): (r: Out8)
    ensures x == 2 * r.x - (if Cf(r.flags) then 0xFF else 0)
    ensures Cf(r.flags) <==> x % 2 == 1
    ensures Zf(r.flags) <==> x == 0
    ensures !Nf(r.flags) && !Hf(r.flags)
    ensures LowBitsKept(r.flags, flags)
  {
    var lsb := x % 2 == 1;
    var shifted := x / 2;
    Pow2Below(7, 8);
    BitBeyond(shifted, 7, 7);
    var nx := if lsb then SetBit8(7, shifted) else shifted;
    Out8(nx, ShiftFlags(flags, nx, lsb))
  }

  /** `rr`: rotate right through the carry: C goes into bit 7, bit 0 into C. */
  function Rr(x: byte, flags: byte): (r: Out8)
    ensures x + 0x100 * CarryIn(flags) == 2 * r.x + (if Cf(r.flags) then 1 else 0)
    ensures Zf(r.flags) <==> r.x == 0
    ensures !Nf(r.flags) && !Hf(r.flags)
    ensures LowBitsKept(r.flags, flags)
  {
    var lsb := x % 2 == 1;
    var c := CarryIn(flags);
    // `(x >> 1) | (c << 7)`: bit 7 of the shifted byte is clear, so `|` is `+`
    var nx := x / 2 + 0x80 * c;
    Out8(nx, ShiftFlags(flags, nx, lsb))
  }

  /** `sla`: shift left; bit 7 goes into C and bit 0 becomes 0. */
  function Sla(x: byte, flags: byte): (r: Out8)
    ensures 2 * x == r.x + (if Cf(r.flags) then 0x100 else 0)
    ensures Zf(r.flags) <==> r.x == 0
    ensures !Nf(r.flags) && !Hf(r.flags)
    ensures LowBitsKept(r.flags, flags)
  {
    var msb := x / 0x80 != 0;
    var nx := (2 * x) % 0x100;
    Out8(nx, ShiftFlags(flags, nx, msb))
  }

  /** `sra`: arithmetic shift right; bit 7 is kept, bit 0 goes into C. */
  function Sra(x: byte, flags: byte): (r: Out8)
    ensures Signed8(r.x) == Signed8(x) / 2
    ensures Cf(r.flags) <==> x % 2 == 1
    ensures Zf(r.flags) <==> r.x == 0
    ensures !Nf(r.flags) && !Hf(r.flags)
    ensures LowBitsKept(r.flags, flags)
  {
    var lsb := x % 2 == 1;
    var msb := (x / 0x80) * 0x80;
    // `(x >> 1) | (x & 0x80)`: bit 7 of the shifted byte is clear, so `|` is `+`
    var nx := x / 2 + msb;
    Out8(nx, ShiftFlags(flags, nx, lsb))
  }

  /** `srl`: logical shift right; bit 0 goes into C and bit 7 becomes 0. */
  function Srl(x: byte, flags: byte): (r: Out8)
    ensures x == 2 * r.x + (if Cf(r.flags) then 1 else 0)
    ensures Zf(r.flags) <==> r.x == 0
    ensures !Nf(r.flags) && !Hf(r.flags)
    ensures LowBitsKept(r.flags, flags)
  {
    var lsb := x % 2 == 1;
    var nx := x / 2;
    Out8(nx, ShiftFlags(flags, nx, lsb))
  }

  /** `swap`: exchanges the two nibbles of the operand; C is cleared. */
  function Swap(x: byte, flags: byte): (r: Out8)
    ensures r.x / 0x10 == x % 0x10 && r.x % 0x10 == x / 0x10
    ensures Zf(r.flags) <==> x == 0
    ensures !Nf(r.flags) && !Hf(r.flags) && !Cf(r.flags)
    ensures LowBitsKept(r.flags, flags)
  {
    var lower := x % 0x10;
    // `(x >> 4) | (lower << 4)`: the nibbles do not overlap, so `|` is `+`
    var nx := x / 0x10 + lower * 0x10;
    Out8(nx, ShiftFlags(flags, nx, false))
  }

  /**
   * `bit`: tests bit i of the operand by masking it with `1 << i`. Z is set
   * when the bit is clear; C is untouched. The shift is an `int` shift, so the
   * source only defines it for i below 32.
   */
  function TestBit(i: nat, x: byte, flags: byte): (r: byte)
    requires i < 32
    ensures Zf(r) <==> !Bit(x, i)
    ensures !Nf(r) && Hf(r)
    ensures Cf(r) == Cf(flags)
    ensures LowBitsKept(r, flags)
  {
    Pow2Bits(i);
    Pow2Below(0, 8);
    // x is below 2^8, so the 8 low bits of the mask are the whole of `x & (1 << i)`
    var masked := BitAnd(x, Pow2(i), 8);
    ZeroIffNoBits(masked, 8);
    assert i >= 8 ==> !Bit(x, i) by {
      if i >= 8 { BitBeyond(x, 8, i); }
    }
    var isSet := masked != 0;
    WriteFlags(flags, !isSet, false, true, Cf(flags))
  }

  /**
   * The correction `daa` adds to (or, after a subtraction, takes from) A:
   * 0x06 to fix the low digit, 0x60 to fix the high digit.
   */
  function DaaOffset(a: byte, flags: byte): (offset: byte)
  {
    var low := if (!Nf(flags) && a % 0x10 > 0x09) || Hf(flags) then 0x06 else 0;
    // `offset | 0x60`: the two corrections do not overlap, so `|` is `+`
    var high := if (!Nf(flags) && a > 0x99) || Cf(flags) then 0x60 else 0;
    low + high
  }

  /**
   * `daa`: decimal adjust of A after a BCD addition or subtraction. The carry
   * flag is only ever set, never cleared; H is cleared and N kept.
   */
  function Daa(a: byte, flags: byte): (r: Out8)
    ensures Nf(flags) ==> r.x == (a - DaaOffset(a, flags)) % 0x100
    ensures !Nf(flags) ==> r.x == (a + DaaOffset(a, flags)) % 0x100
    ensures Zf(r.flags) <==> r.x == 0
    ensures Nf(r.flags) == Nf(flags)
    ensures !Hf(r.flags)
    ensures Cf(r.flags) <==> Cf(flags) || (!Nf(flags) && a > 0x99)
    ensures LowBitsKept(r.flags, flags)
  {
    var offset := DaaOffset(a, flags);
    var carry := (!Nf(flags) && a > 0x99) || Cf(flags);
    var na := if !Nf(flags) then (a + offset) % 0x100 else (a - offset) % 0x100;
    Out8(na, WriteFlags(flags, na == 0, Nf(flags), false, carry))
  }

  /** `cpl`: complements every bit of A; N and H are set. */
  function Cpl(x: byte, flags: byte): (r: Out8)
    ensures forall j :: 0 <= j < 8 ==> (Bit(r.x, j) <==> !Bit(x, j))
    ensures x + r.x == 0xFF
    ensures Nf(r.flags) && Hf(r.flags)
    ensures Zf(r.flags) == Zf(flags) && Cf(r.flags) == Cf(flags)
    ensures LowBitsKept(r.flags, flags)
  {
    Out8(Not8(x), WriteFlags(flags, Zf(flags), true, true, Cf(flags)))
  }

  /** `scf`: sets the carry flag and clears N and H. */
  function Scf(flags: byte): (r: byte)
    ensures Cf(r) && !Nf(r) && !Hf(r)
    ensures Zf(r) == Zf(flags)
    ensures LowBitsKept(r, flags)
  {
    // C is set twice, before and after N and H are cleared
    WriteFlags(flags, Zf(flags), false, false, true)
  }

  /** `ccf`: complements the carry flag and clears N and H. */
  function Ccf(flags: byte): (r: byte)
    ensures Cf(r) == !Cf(flags)
    ensures !Nf(r) && !Hf(r)
    ensures Zf(r) == Zf(flags)
    ensures LowBitsKept(r, flags)
  {
    WriteFlags(flags, Zf(flags), false, false, !Cf(flags))
  }
}
