/**
 * Laws relating the operations of the arithmetic and logic unit to one
 * another: inverses, the carry as a ninth bit, and decimal adjustment as
 * binary-coded-decimal arithmetic.
 */
module AluLaws {
  import opened Bytes
  import opened Alu

  /** Rotating left and then right, without the carry, gives the byte back. */
  lemma RlcRrcInverse(x: byte, f: byte, g: byte)
    ensures Rrc(Rlc(x, f).x, g).x == x
    ensures Rlc(Rrc(x, f).x, g).x == x
  {
  }

  /**
   * Rotating left through the carry and then right through the carry gives
   * back both the byte and the carry flag: together they form one nine-bit
   * rotation.
   */
  lemma RlRrInverse(x: byte, f: byte)
    ensures var r := Rl(x, f); var s := Rr(r.x, r.flags); s.x == x && Cf(s.flags) == Cf(f)
    ensures var r := Rr(x, f); var s := Rl(r.x, r.flags); s.x == x && Cf(s.flags) == Cf(f)
  {
  }

  /** Swapping the nibbles twice gives the byte back. */
  lemma SwapInvolution(x: byte, f: byte, g: byte)
    ensures Swap(Swap(x, f).x, g).x == x
  {
  }

  /** Complementing twice gives the byte back. */
  lemma CplInvolution(x: byte, f: byte, g: byte)
    ensures Cpl(Cpl(x, f).x, g).x == x
  {
  }

  /** Shifting left then logically right clears bit 7 and keeps the rest. */
  lemma SlaSrl(x: byte, f: byte, g: byte)
    ensures Srl(Sla(x, f).x, g).x == x % 0x80
  {
  }

  /** On a byte with bit 7 clear the arithmetic and logical right shifts agree. */
  lemma SraIsSrlOnNonNegative(x: byte, f: byte)
    requires x < 0x80
    ensures Sra(x, f) == Srl(x, f)
  {
  }

  /** Subtraction undoes addition and addition undoes subtraction. */
  lemma SubAddInverse(x: byte, y: byte, f: byte, g: byte)
    ensures Sub8(Add8(x, y, f).x, y, g).x == x
    ensures Add8(Sub8(x, y, f).x, y, g).x == x
  {
  }

  /** With the carry clear, `adc` is `add` and `sbc` is `sub`, flags included. */
  lemma CarryClearIsPlain(x: byte, y: byte, f: byte)
    requires !Cf(f)
    ensures Adc8(x, y, f) == Add8(x, y, f)
    ensures Sbc8(x, y, f) == Sub8(x, y, f)
  {
  }

  /** `cp` sets the flags exactly as `sub` does, and keeps its operand. */
  lemma CpIsSubFlags(x: byte, y: byte, f: byte)
    ensures Cp8(x, y, f) == Sub8(x, y, f).flags
  {
  }

  /** The 16-bit increment and decrement undo each other. */
  lemma Inc16Dec16Inverse(x: word)
    ensures Dec16(Inc16(x)) == x && Inc16(Dec16(x)) == x
  {
  }

  /** The 8-bit increment and decrement undo each other. */
  lemma Inc8Dec8Inverse(x: byte, f: byte, g: byte)
    ensures Dec8(Inc8(x, f).x, g).x == x && Inc8(Dec8(x, f).x, g).x == x
  {
  }

  /**
   * `inc` on a byte is `add` of 1 except that it leaves the carry flag
   * alone.
   */
  lemma Inc8IsAddOne(x: byte, f: byte)
    ensures var i := Inc8(x, f); var a := Add8(x, 1, f);
      i.x == a.x && i.flags == WriteFlags(a.flags, Zf(a.flags), Nf(a.flags), Hf(a.flags), Cf(f))
  {
  }

  /**
   * Adding a signed byte to a word gives the same word as the 16-bit
   * addition of the byte's sign extension.
   */
  lemma AddSignedIsAdd16OfExtension(x: word, y: byte, f: byte)
    ensures AddSigned(x, y, f).x == Add16(x, ByteTo16(y), f).x
  {
  }

  /** `xor` of a byte with itself clears it and sets Z, as in XOR A. */
  lemma XorSelf(x: byte, f: byte)
    ensures Xor8(x, x, f).x == 0 && Zf(Xor8(x, x, f).flags)
  {
    Pow2Below(0, 8);
    ZeroIffNoBits(Xor8(x, x, f).x, 8);
  }

  /** `bit` reports a bit just set by `set_bit` as set, and one cleared as clear. */
  lemma TestBitAfterSetReset(i: nat, x: byte, f: byte)
    requires i < 8
    ensures !Zf(TestBit(i, SetBit8(i, x), f))
    ensures Zf(TestBit(i, ResetBit8(i, x), f))
  {
  }

  /** A byte whose two nibbles are decimal digits: packed binary-coded decimal. */
  predicate IsBcd(b: byte)
  {
    b % 0x10 <= 9 && b / 0x10 <= 9
  }

  /** The number 0 to 99 a packed BCD byte stands for. */
  function FromBcd(b: byte): nat
  {
    10 * (b / 0x10) + b % 0x10
  }

  /** The packed BCD byte of a number 0 to 99. */
  function ToBcd(n: nat): (b: byte)
    requires n < 100
    ensures IsBcd(b) && FromBcd(b) == n
  {
    (n / 10) * 0x10 + n % 10
  }

  /**
   * After `add` of two packed BCD bytes, `daa` yields the BCD byte of the
   * decimal sum modulo 100, with the carry flag set exactly when the sum
   * overflowed 99.
   */
  lemma DaaAfterAdd(x: byte, y: byte, f: byte)
    requires IsBcd(x) && IsBcd(y)
    ensures var s := Add8(x, y, f); var d := Daa(s.x, s.flags);
      d.x == ToBcd((FromBcd(x) + FromBcd(y)) % 100)
      && (Cf(d.flags) <==> FromBcd(x) + FromBcd(y) >= 100)
  {
    var s := Add8(x, y, f);
    DaaAfterBcdAdd(s.x, s.flags, x, y);
  }

  /** DaaAfterAdd, for any A and flags that `add` of two BCD bytes can leave. */
  lemma DaaAfterBcdAdd(a: byte, flags: byte, x: byte, y: byte)
    requires IsBcd(x) && IsBcd(y)
    requires a == (x + y) % 0x100 && !Nf(flags)
    requires Hf(flags) == (x % 0x10 + y % 0x10 >= 0x10) && Cf(flags) == (x + y >= 0x100)
    ensures var d := Daa(a, flags);
      d.x == ToBcd((FromBcd(x) + FromBcd(y)) % 100)
      && (Cf(d.flags) <==> FromBcd(x) + FromBcd(y) >= 100)
  {
    var low := x % 0x10 + y % 0x10;
    var high := x / 0x10 + y / 0x10 + (if low >= 10 then 1 else 0);
    var digit := if low >= 10 then low - 10 else low;
    BcdSum(x, y);
    DaaAddOffset(a, flags, x + y, low, high);
    DaaAddValue(a, x + y, low, high);
    assert Daa(a, flags).x == 0x10 * (high % 10) + digit;
    BcdDigits(FromBcd(x) + FromBcd(y), high, digit);
  }

  /**
   * The binary sum of two BCD bytes in terms of their digit sums: `low` of
   * the units, `high` of the tens with the decimal carry.
   */
  lemma BcdSum(x: byte, y: byte)
    requires IsBcd(x) && IsBcd(y)
    ensures var low := x % 0x10 + y % 0x10;
            var high := x / 0x10 + y / 0x10 + (if low >= 10 then 1 else 0);
            && low <= 18 && high <= 19
            && x + y == 0x10 * (high - (if low >= 10 then 1 else 0)) + low
            && FromBcd(x) + FromBcd(y) == 10 * high + (if low >= 10 then low - 10 else low)
  {
  }

  /** The BCD byte of a number given by its tens (up to 19) and its units. */
  lemma BcdDigits(n: nat, tens: nat, units: nat)
    requires tens <= 19 && units <= 9 && n == 10 * tens + units
    ensures n % 100 < 100 && ToBcd(n % 100) == 0x10 * (tens % 10) + units
    ensures n >= 100 <==> tens >= 10
  {
    var m := n % 100;
    if tens >= 10 {
      assert m == 10 * (tens - 10) + units;
    } else {
      assert m == n;
    }
    assert m / 10 == tens % 10 && m % 10 == units;
  }

  /**
   * The correction `daa` picks after adding two BCD bytes whose units sum to
   * low and whose tens, with the decimal carry, sum to high.
   */
  lemma DaaAddOffset(a: byte, flags: byte, total: nat, low: nat, high: nat)
    requires low <= 18 && high <= 19
    requires total == 0x10 * (high - (if low >= 10 then 1 else 0)) + low
    requires a == total % 0x100 && !Nf(flags)
    requires Hf(flags) <==> low >= 0x10
    requires Cf(flags) <==> total >= 0x100
    ensures DaaOffset(a, flags) == (if low >= 10 then 0x06 else 0) + (if high >= 10 then 0x60 else 0)
    ensures Cf(Daa(a, flags).flags) <==> high >= 10
  {
    assert a % 0x10 == low % 0x10;
    assert (a > 0x99 || total >= 0x100) <==> high >= 10 by {
      if high >= 10 {
        assert total >= 0x9A;
      } else {
        assert total <= 0x99;
      }
    }
  }

  /** The byte that adding the correction of DaaAddOffset leaves in A. */
  lemma DaaAddValue(a: byte, total: nat, low: nat, high: nat)
    requires low <= 18 && high <= 19
    requires total == 0x10 * (high - (if low >= 10 then 1 else 0)) + low
    requires a == total % 0x100
    ensures (a + (if low >= 10 then 0x06 else 0) + (if high >= 10 then 0x60 else 0)) % 0x100
      == 0x10 * (high % 10) + (if low >= 10 then low - 10 else low)
  {
    if high >= 10 {
      assert (a + (if low >= 10 then 0x66 else 0x60)) % 0x100
        == (total + (if low >= 10 then 0x66 else 0x60)) % 0x100;
    } else {
      assert a == total;
    }
  }

  /**
   * After `sub` of two packed BCD bytes, `daa` yields the BCD byte of the
   * decimal difference modulo 100, with the carry flag set exactly when the
   * subtraction borrowed.
   */
  lemma DaaAfterSub(x: byte, y: byte, f: byte)
    requires IsBcd(x) && IsBcd(y)
    ensures var s := Sub8(x, y, f); var d := Daa(s.x, s.flags);
      d.x == ToBcd((FromBcd(x) - FromBcd(y)) % 100)
      && (Cf(d.flags) <==> FromBcd(x) < FromBcd(y))
  {
    var s := Sub8(x, y, f);
    DaaAfterBcdSub(s.x, s.flags, x, y);
  }

  /** DaaAfterSub, for any A and flags that `sub` of two BCD bytes can leave. */
  lemma DaaAfterBcdSub(a: byte, flags: byte, x: byte, y: byte)
    requires IsBcd(x) && IsBcd(y)
    requires a == (x - y) % 0x100 && Nf(flags)
    requires Hf(flags) == (x % 0x10 < y % 0x10) && Cf(flags) == (x < y)
    ensures var d := Daa(a, flags);
      d.x == ToBcd((FromBcd(x) - FromBcd(y)) % 100)
      && (Cf(d.flags) <==> FromBcd(x) < FromBcd(y))
  {
    var borrow, tens, digit := SubDigits(x, y);
    DaaAfterSubtraction(a, flags);
    DaaSubValue(a, x - y, borrow, tens, digit);
    BcdDigitsSigned(FromBcd(x) - FromBcd(y), tens, digit);
  }

  /** The digits of the difference of two BCD bytes, and the unit borrow. */
  lemma SubDigits(x: byte, y: byte) returns (borrow: bool, tens: int, digit: nat)
    requires IsBcd(x) && IsBcd(y)
    ensures borrow == (x % 0x10 < y % 0x10)
    ensures -10 <= tens <= 9 && digit <= 9
    ensures x - y == 0x10 * tens + digit + (if borrow then 6 else 0)
    ensures x < y <==> tens < 0
    ensures FromBcd(x) - FromBcd(y) == 10 * tens + digit
  {
    borrow := x % 0x10 < y % 0x10;
    digit := x % 0x10 - y % 0x10 + (if borrow then 10 else 0);
    tens := x / 0x10 - y / 0x10 - (if borrow then 1 else 0);
  }

  /**
   * After a subtraction `daa` only undoes the digit borrows that H and C
   * record, and keeps C.
   */
  lemma DaaAfterSubtraction(a: byte, flags: byte)
    requires Nf(flags)
    ensures var d := Daa(a, flags);
      d.x == (a - (if Hf(flags) then 0x06 else 0) - (if Cf(flags) then 0x60 else 0)) % 0x100
      && Cf(d.flags) == Cf(flags)
  {
  }

  /** The BCD byte of a number from -100 to 99 given by its tens and units. */
  lemma BcdDigitsSigned(n: int, tens: int, units: nat)
    requires -10 <= tens <= 9 && units <= 9 && n == 10 * tens + units
    ensures ToBcd(n % 100) == 0x10 * (tens % 10) + units
    ensures n < 0 <==> tens < 0
  {
    var m := n % 100;
    if tens < 0 {
      assert m == 10 * (tens + 10) + units;
    } else {
      assert m == n;
    }
    assert m / 10 == tens % 10 && m % 10 == units;
  }

  /**
   * The byte `daa` leaves in A after subtracting two BCD bytes whose units
   * differ by digit (borrowing when borrow) and whose tens differ by tens.
   */
  lemma DaaSubValue(a: byte, diff: int, borrow: bool, tens: int, digit: nat)
    requires -10 <= tens <= 9 && digit <= 9
    requires diff == 0x10 * tens + digit + (if borrow then 6 else 0)
    requires a == diff % 0x100
    ensures (a - (if borrow then 0x06 else 0) - (if tens < 0 then 0x60 else 0)) % 0x100
      == 0x10 * (tens % 10) + digit
  {
    if tens < 0 {
      assert (a - (if borrow then 0x66 else 0x60)) % 0x100 == (0x10 * (tens + 10) + digit - 0x100) % 0x100;
    } else {
      assert a == diff;
    }
  }
}
