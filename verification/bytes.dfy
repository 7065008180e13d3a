/**
 * Byte and bit helpers of the emulator core (`bytelib`): composing two bytes
 * into a 16-bit word, sign-extending a byte, and setting or clearing a single
 * bit of an 8-bit or 16-bit value.
 *
 * `uint8_t` and `uint16_t` are the bounded integer types `byte` and `word`.
 * C++ evaluates `x + y`, `x << 1` and friends in `int` and truncates on
 * assignment; the model writes that truncation as an explicit `%`. The
 * bitwise operators `&`, `|` and `~` are defined bit by bit below, and their
 * contracts say which bits of the result are set.
 */
module Bytes {

  type byte = b: int | 0 <= b < 0x100
  type word = w: int | 0 <= w < 0x1_0000

  /** 2 to the power n. */
  function Pow2(n: nat): (p: nat)
    ensures p >= 1
  {
    if n == 0 then 1 else 2 * Pow2(n - 1)
  }

  /** 2^i grows with i; 2^8 and 2^16 are the ranges of a byte and a word. */
  lemma {:induction false} Pow2Below(i: nat, n: nat)
    requires i < n
    ensures Pow2(i) < Pow2(n)
    ensures Pow2(8) == 0x100 && Pow2(16) == 0x1_0000
  {
    if i + 1 < n {
      Pow2Below(i, n - 1);
    }
    assert Pow2(8) == 0x100;
    assert Pow2(12) == 0x1000;
    assert Pow2(16) == 0x1_0000;
  }

  /** Bit j of a, counting from the least significant bit 0. */
  predicate Bit(a: nat, j: nat)
  {
    if j == 0 then a % 2 == 1 else Bit(a / 2, j - 1)
  }

  /** The bitwise and `a & b` of the low n bits of a and b. */
  function BitAnd(a: nat, b: nat, n: nat): (r: nat)
    ensures r < Pow2(n)
    ensures forall j :: 0 <= j < n ==> (Bit(r, j) <==> Bit(a, j) && Bit(b, j))
  {
    if n == 0 then 0
    else 2 * BitAnd(a / 2, b / 2, n - 1) + (if a % 2 == 1 && b % 2 == 1 then 1 else 0)
  }

  /** The bitwise or `a | b` of the low n bits of a and b. */
  function BitOr(a: nat, b: nat, n: nat): (r: nat)
    ensures r < Pow2(n)
    ensures forall j :: 0 <= j < n ==> (Bit(r, j) <==> Bit(a, j) || Bit(b, j))
  {
    if n == 0 then 0
    else 2 * BitOr(a / 2, b / 2, n - 1) + (if a % 2 == 1 || b % 2 == 1 then 1 else 0)
  }

  /** The bitwise exclusive or `a ^ b` of the low n bits of a and b. */
  function BitXor(a: nat, b: nat, n: nat): (r: nat)
    ensures r < Pow2(n)
    ensures forall j :: 0 <= j < n ==> (Bit(r, j) <==> Bit(a, j) != Bit(b, j))
  {
    if n == 0 then 0
    else 2 * BitXor(a / 2, b / 2, n - 1) + (if (a % 2 == 1) != (b % 2 == 1) then 1 else 0)
  }

  /** A number below 2^n has no bit at position n or above. */
  lemma {:induction false} BitBeyond(a: nat, n: nat, j: nat)
    requires a < Pow2(n) && n <= j
    ensures !Bit(a, j)
  {
    if j == 0 {
    } else if n == 0 {
      assert a == 0;
      BitBeyond(0, 0, j - 1);
    } else {
      BitBeyond(a / 2, n - 1, j - 1);
    }
  }

  /** Two numbers below 2^n with the same n low bits are equal. */
  lemma {:induction false} BitsDetermine(a: nat, b: nat, n: nat)
    requires a < Pow2(n) && b < Pow2(n)
    requires forall j :: 0 <= j < n ==> (Bit(a, j) <==> Bit(b, j))
    ensures a == b
  {
    if n > 0 {
      assert Bit(a, 0) <==> Bit(b, 0);
      forall j | 0 <= j < n - 1
        ensures Bit(a / 2, j) <==> Bit(b / 2, j)
      {
        assert Bit(a, j + 1) <==> Bit(b, j + 1);
      }
      BitsDetermine(a / 2, b / 2, n - 1);
    }
  }

  /** The only bit of 2^i is bit i. */
  lemma {:induction false} BitOfPow2(i: nat, j: nat)
    ensures Bit(Pow2(i), j) <==> i == j
  {
    if i == 0 {
      if j > 0 {
        BitBeyond(0, 0, j - 1);
      }
    } else if j > 0 {
      BitOfPow2(i - 1, j - 1);
    }
  }

  /** `~a` restricted to n bits flips each of the n low bits. */
  lemma {:induction false} BitOfComplement(a: nat, n: nat, j: nat)
    requires a < Pow2(n) && j < n
    ensures Bit(Pow2(n) - 1 - a, j) <==> !Bit(a, j)
  {
    var h := Pow2(n - 1);
    var c := Pow2(n) - 1 - a;
    assert c == 2 * (h - 1 - a / 2) + (1 - a % 2);
    if j == 0 {
      assert c % 2 == 1 - a % 2;
    } else {
      assert c / 2 == h - 1 - a / 2;
      BitOfComplement(a / 2, n - 1, j - 1);
    }
  }

  /** The byte `~b`, that is `static_cast<uint8_t>(~b)`. */
  function Not8(b: byte): (r: byte)
    ensures forall j :: 0 <= j < 8 ==> (Bit(r, j) <==> !Bit(b, j))
  {
    ComplementBits(b, 8);
    0xFF - b
  }

  /** The word `~w`, that is `static_cast<uint16_t>(~w)`. */
  function Not16(w: word): (r: word)
    ensures forall j :: 0 <= j < 16 ==> (Bit(r, j) <==> !Bit(w, j))
  {
    Pow2Below(0, 16);
    ComplementBits(w, 16);
    Pow2(16) - 1 - w
  }

  /** Every bit of `Pow2(n) - 1 - a` below n is the flipped bit of a. */
  lemma ComplementBits(a: nat, n: nat)
    requires a < Pow2(n)
    ensures forall j :: 0 <= j < n ==> (Bit(Pow2(n) - 1 - a, j) <==> !Bit(a, j))
  {
    forall j | 0 <= j < n
      ensures Bit(Pow2(n) - 1 - a, j) <==> !Bit(a, j)
    {
      BitOfComplement(a, n, j);
    }
  }

  /** Every bit of 2^i other than bit i is clear. */
  lemma Pow2Bits(i: nat)
    ensures Bit(Pow2(i), i)
    ensures forall j :: j != i ==> !Bit(Pow2(i), j)
  {
    BitOfPow2(i, i);
    forall j | j != i
      ensures !Bit(Pow2(i), j)
    {
      BitOfPow2(i, j);
    }
  }

  /** A number below 2^n is zero exactly when none of its n low bits is set. */
  lemma ZeroIffNoBits(a: nat, n: nat)
    requires a < Pow2(n)
    ensures a == 0 <==> forall j :: 0 <= j < n ==> !Bit(a, j)
  {
    if a == 0 {
      forall j | 0 <= j < n
        ensures !Bit(a, j)
      {
        BitBeyond(a, 0, j);
      }
    } else {
      NotAllClear(a, n);
    }
  }

  /** A positive number below 2^n has one of its n low bits set. */
  lemma NotAllClear(a: nat, n: nat)
    requires 0 < a < Pow2(n)
    ensures exists j :: 0 <= j < n && Bit(a, j)
  {
    var z := 0;
    forall j | 0 <= j < n
      ensures !Bit(z, j)
    {
      BitBeyond(z, 0, j);
    }
    if forall j :: 0 <= j < n ==> !Bit(a, j) {
      BitsDetermine(a, z, n);
    }
  }

  /** Or with zero keeps a number below 2^n. */
  lemma {:induction false} OrZero(a: nat, n: nat)
    requires a < Pow2(n)
    ensures BitOr(a, 0, n) == a
  {
    if n > 0 {
      OrZero(a / 2, n - 1);
    }
  }

  /** Setting a bit that is clear adds its weight 2^i. */
  lemma {:induction false} OrPow2(b: nat, i: nat, n: nat)
    requires b < Pow2(n) && i < n && !Bit(b, i)
    ensures BitOr(b, Pow2(i), n) == b + Pow2(i)
  {
    if i == 0 {
      OrZero(b / 2, n - 1);
    } else {
      assert !Bit(b / 2, i - 1);
      OrPow2(b / 2, i - 1, n - 1);
    }
  }

  /** `b | (1 << i)` as arithmetic: adds 2^i unless bit i is already set. */
  lemma SetBitValue(b: nat, i: nat, n: nat)
    requires b < Pow2(n) && i < n
    ensures BitOr(b, Pow2(i), n) == if Bit(b, i) then b else b + Pow2(i)
  {
    if Bit(b, i) {
      Pow2Bits(i);
      BitsDetermine(BitOr(b, Pow2(i), n), b, n);
    } else {
      OrPow2(b, i, n);
    }
  }

  /** `b & ~(1 << i)` as arithmetic: subtracts 2^i if bit i is set. */
  lemma ResetBitValue(b: nat, i: nat, n: nat)
    requires b < Pow2(n) && i < n
    ensures Pow2(i) < Pow2(n)
    ensures BitAnd(b, Pow2(n) - 1 - Pow2(i), n) == if Bit(b, i) then b - Pow2(i) else b
  {
    Pow2Below(i, n);
    if Bit(b, i) {
      ResetWhenSet(b, i, n);
    } else {
      ResetWhenClear(b, i, n);
    }
  }

  /** Clearing a bit that is set subtracts its weight. */
  lemma ResetWhenSet(b: nat, i: nat, n: nat)
    requires b < Pow2(n) && i < n && Bit(b, i)
    ensures Pow2(i) < Pow2(n)
    ensures BitAnd(b, Pow2(n) - 1 - Pow2(i), n) == b - Pow2(i)
  {
    Pow2Below(i, n);
    var c := BitAnd(b, Pow2(n) - 1 - Pow2(i), n);
    ResetKeepsOthers(b, c, i, n);
    ResetSetBit(b, c, i, n);
  }

  /** `c = b & ~(1 << i)` has bit i clear and every other bit of b. */
  lemma ResetKeepsOthers(b: nat, c: nat, i: nat, n: nat)
    requires i < n && Pow2(i) < Pow2(n)
    requires c == BitAnd(b, Pow2(n) - 1 - Pow2(i), n)
    ensures !Bit(c, i)
    ensures forall j :: 0 <= j < n && j != i ==> (Bit(c, j) <==> Bit(b, j))
  {
    forall j | 0 <= j < n
      ensures Bit(c, j) <==> Bit(b, j) && j != i
    {
      BitOfComplement(Pow2(i), n, j);
      BitOfPow2(i, j);
    }
  }

  /** Clearing a bit that is already clear changes nothing. */
  lemma ResetWhenClear(b: nat, i: nat, n: nat)
    requires b < Pow2(n) && i < n && !Bit(b, i)
    ensures Pow2(i) < Pow2(n)
    ensures BitAnd(b, Pow2(n) - 1 - Pow2(i), n) == b
  {
    Pow2Below(i, n);
    var c := BitAnd(b, Pow2(n) - 1 - Pow2(i), n);
    forall j | 0 <= j < n
      ensures Bit(c, j) <==> Bit(b, j)
    {
      BitOfComplement(Pow2(i), n, j);
      BitOfPow2(i, j);
    }
    BitsDetermine(c, b, n);
  }

  /** If c is b with set bit i cleared, then c + 2^i == b. */
  lemma ResetSetBit(b: nat, c: nat, i: nat, n: nat)
    requires b < Pow2(n) && c < Pow2(n) && i < n
    requires Bit(b, i) && !Bit(c, i)
    requires forall j :: 0 <= j < n && j != i ==> (Bit(c, j) <==> Bit(b, j))
    ensures c + Pow2(i) == b
  {
    Pow2Bits(i);
    OrPow2(c, i, n);
    BitsDetermine(BitOr(c, Pow2(i), n), b, n);
  }

  /** Bits 7 and 4 to 6 of a byte, the flag positions, read arithmetically. */
  lemma FlagBits(f: byte)
    ensures Bit(f, 7) <==> f / 0x80 == 1
    ensures Bit(f, 6) <==> (f / 0x40) % 2 == 1
    ensures Bit(f, 5) <==> (f / 0x20) % 2 == 1
    ensures Bit(f, 4) <==> (f / 0x10) % 2 == 1
  {
    var f1 := f / 2;
    var f2 := f1 / 2;
    var f3 := f2 / 2;
    var f4 := f3 / 2;
    var f5 := f4 / 2;
    var f6 := f5 / 2;
    var f7 := f6 / 2;
    assert f4 == f / 0x10 && f5 == f / 0x20 && f6 == f / 0x40 && f7 == f / 0x80;
    assert Bit(f, 4) == Bit(f4, 0) by {
      assert Bit(f, 4) == Bit(f1, 3) == Bit(f2, 2) == Bit(f3, 1) == Bit(f4, 0);
    }
    assert Bit(f, 5) == Bit(f5, 0) by {
      assert Bit(f, 5) == Bit(f1, 4) == Bit(f2, 3) == Bit(f3, 2) == Bit(f4, 1) == Bit(f5, 0);
    }
    assert Bit(f, 6) == Bit(f6, 0) by {
      assert Bit(f, 6) == Bit(f1, 5) == Bit(f2, 4) == Bit(f3, 3) == Bit(f4, 2) == Bit(f5, 1)
        == Bit(f6, 0);
    }
    assert Bit(f, 7) == Bit(f7, 0) by {
      assert Bit(f, 7) == Bit(f1, 6) == Bit(f2, 5) == Bit(f3, 4) == Bit(f4, 3) == Bit(f5, 2)
        == Bit(f6, 1) == Bit(f7, 0);
    }
  }

  /** Bits 0 to 3 of a number are those of its low nibble. */
  lemma NibbleBits(k: nat, m: nat, j: nat)
    requires m < 0x10 && j < 4
    ensures Bit(0x10 * k + m, j) == Bit(m, j)
  {
    assert Pow2(4) == 0x10;
    LowBits(k, m, 4, j);
  }

  /** Below bit w, the bits of 2^w * k + m are those of m. */
  lemma {:induction false} LowBits(k: nat, m: nat, w: nat, j: nat)
    requires m < Pow2(w) && j < w
    ensures Bit(Pow2(w) * k + m, j) == Bit(m, j)
  {
    var t := Pow2(w - 1) * k;
    var a := Pow2(w) * k + m;
    assert a == 2 * t + m;
    if j == 0 {
      assert a % 2 == m % 2;
    } else {
      assert a / 2 == t + m / 2;
      LowBits(k, m / 2, w - 1, j - 1);
    }
  }

  /** Numbers that agree in their low nibble agree in bits 0 to 3. */
  lemma LowNibbleBits(a: nat, b: nat)
    requires a % 0x10 == b % 0x10
    ensures forall j :: 0 <= j < 4 ==> (Bit(a, j) <==> Bit(b, j))
  {
    forall j | 0 <= j < 4
      ensures Bit(a, j) <==> Bit(b, j)
    {
      NibbleBits(a / 0x10, a % 0x10, j);
      NibbleBits(b / 0x10, b % 0x10, j);
    }
  }

  /** The most significant byte of a word: the high half of a register pair. */
  function Hi(w: word): byte
  {
    w / 0x100
  }

  /** The least significant byte of a word: the low half of a register pair. */
  function Lo(w: word): byte
  {
    w % 0x100
  }

  /**
   * `bytes_to_16b(msB, lsB)`: the first argument is the most significant byte,
   * so the word's high half is msb and its low half is lsb.
   */
  function BytesTo16(msb: byte, lsb: byte): (w: word)
    ensures Hi(w) == msb && Lo(w) == lsb
    ensures w == msb * 0x100 + lsb
  {
    // `(msB << 8) | lsB`: the operands share no bit, so `|` is `+`
    msb * 0x100 + lsb
  }

  /** Splitting a word into its halves and composing them gives the word back. */
  lemma SplitCompose(w: word)
    ensures BytesTo16(Hi(w), Lo(w)) == w
  {
  }

  /**
   * The word after `a` on a `uint16_t`, wrapping from 0xFFFF to 0x0000: the
   * address of the byte after `a`, and the 16-bit increment.
   */
  function Next(a: word): (n: word)
    ensures a < 0xFFFF ==> n == a + 1
    ensures a == 0xFFFF ==> n == 0
  {
    (a + 1) % 0x1_0000
  }

  /** The value of a byte read as an 8-bit two's-complement number. */
  function Signed8(b: byte): int
  {
    if b < 0x80 then b else b - 0x100
  }

  /** The value of a word read as a 16-bit two's-complement number. */
  function Signed16(w: word): int
  {
    if w < 0x8000 then w else w - 0x1_0000
  }

  /**
   * `byte_to_16b(b)`: sign extension of an 8-bit two's-complement number to
   * 16 bits. A byte with bit 7 clear is kept, the others get 0xFF as high byte.
   */
  function ByteTo16(b: byte): (w: word)
    ensures Signed16(w) == Signed8(b)
    ensures Lo(w) == b
    ensures Hi(w) == (if b < 0x80 then 0x00 else 0xFF)
  {
    // `b | 0xFF00`: b is below 0x100, so `|` is `+`
    if b / 0x80 != 0 then b + 0xFF00 else b
  }

  /** `set_bit(i, b)` on a byte: an index of 8 or more leaves the byte alone. */
  function SetBit8(i: nat, b: byte): (r: byte)
    ensures i < 8 ==> Bit(r, i)
    ensures forall j :: 0 <= j < 8 && j != i ==> (Bit(r, j) <==> Bit(b, j))
    ensures i < 8 ==> r == if Bit(b, i) then b else b + Pow2(i)
    ensures i >= 8 ==> r == b
  {
    if i < 8 then
      Pow2Bits(i);
      Pow2Below(i, 8);
      SetBitValue(b, i, 8);
      BitOr(b, Pow2(i), 8)
    else b
  }

  /** `set_bit(i, b)` on a word: an index of 16 or more leaves the word alone. */
  function SetBit16(i: nat, b: word): (r: word)
    ensures i < 16 ==> Bit(r, i)
    ensures forall j :: 0 <= j < 16 && j != i ==> (Bit(r, j) <==> Bit(b, j))
    ensures i < 16 ==> r == if Bit(b, i) then b else b + Pow2(i)
    ensures i >= 16 ==> r == b
  {
    if i < 16 then
      Pow2Bits(i);
      Pow2Below(i, 16);
      SetBitValue(b, i, 16);
      BitOr(b, Pow2(i), 16)
    else b
  }

  /** `reset_bit(i, b)` on a byte: an index of 8 or more leaves the byte alone. */
  function ResetBit8(i: nat, b: byte): (r: byte)
    ensures i < 8 ==> !Bit(r, i)
    ensures forall j :: 0 <= j < 8 && j != i ==> (Bit(r, j) <==> Bit(b, j))
    ensures i < 8 ==> r == if Bit(b, i) then b - Pow2(i) else b
    ensures i >= 8 ==> r == b
  {
    if i < 8 then
      Pow2Bits(i);
      Pow2Below(i, 8);
      ResetBitValue(b, i, 8);
      BitAnd(b, Not8(Pow2(i)), 8)
    else b
  }

  /** `reset_bit(i, b)` on a word: an index of 16 or more leaves the word alone. */
  function ResetBit16(i: nat, b: word): (r: word)
    ensures i < 16 ==> !Bit(r, i)
    ensures forall j :: 0 <= j < 16 && j != i ==> (Bit(r, j) <==> Bit(b, j))
    ensures i < 16 ==> r == if Bit(b, i) then b - Pow2(i) else b
    ensures i >= 16 ==> r == b
  {
    if i < 16 then
      Pow2Bits(i);
      Pow2Below(i, 16);
      ResetBitValue(b, i, 16);
      BitAnd(b, Not16(Pow2(i)), 16)
    else b
  }

  /** Setting a bit twice is setting it once, at both widths. */
  lemma SetBitIdempotent(i: nat, b: byte, w: word)
    ensures SetBit8(i, SetBit8(i, b)) == SetBit8(i, b)
    ensures SetBit16(i, SetBit16(i, w)) == SetBit16(i, w)
  {
    BitsDetermine(SetBit8(i, SetBit8(i, b)), SetBit8(i, b), 8);
    BitsDetermine(SetBit16(i, SetBit16(i, w)), SetBit16(i, w), 16);
  }

  /** Clearing a bit twice is clearing it once, at both widths. */
  lemma ResetBitIdempotent(i: nat, b: byte, w: word)
    ensures ResetBit8(i, ResetBit8(i, b)) == ResetBit8(i, b)
    ensures ResetBit16(i, ResetBit16(i, w)) == ResetBit16(i, w)
  {
    BitsDetermine(ResetBit8(i, ResetBit8(i, b)), ResetBit8(i, b), 8);
    BitsDetermine(ResetBit16(i, ResetBit16(i, w)), ResetBit16(i, w), 16);
  }

  /** Clearing a bit just set forgets that it was set, and the converse. */
  lemma ResetAfterSet(i: nat, b: byte, w: word)
    ensures ResetBit8(i, SetBit8(i, b)) == ResetBit8(i, b)
    ensures SetBit8(i, ResetBit8(i, b)) == SetBit8(i, b)
    ensures ResetBit16(i, SetBit16(i, w)) == ResetBit16(i, w)
    ensures SetBit16(i, ResetBit16(i, w)) == SetBit16(i, w)
  {
    BitsDetermine(ResetBit8(i, SetBit8(i, b)), ResetBit8(i, b), 8);
    BitsDetermine(SetBit8(i, ResetBit8(i, b)), SetBit8(i, b), 8);
    BitsDetermine(ResetBit16(i, SetBit16(i, w)), ResetBit16(i, w), 16);
    BitsDetermine(SetBit16(i, ResetBit16(i, w)), SetBit16(i, w), 16);
  }
}
