/**
 * The flat memory (`Memory`): one array of 65536 bytes, zeroed at start,
 * addressed by a 16-bit word. A 16-bit value occupies two consecutive bytes,
 * the low byte first (little-endian).
 *
 * The C++ reads a word by reinterpreting the byte at `address` as the first
 * byte of a `uint16_t`; at address 0xFFFF the second byte lies past the end
 * of the array. The model makes that address wrap explicitly: the byte after
 * 0xFFFF is the byte at 0x0000.
 */
module Memory {
  import opened Bytes

  /** The whole address space: exactly one byte per 16-bit address. */
  type Mem = m: seq<byte> | |m| == 0x1_0000 witness seq(0x1_0000, _ => 0)

  /** The store as the program starts: `_registers[65536] = {}`. */
  function Zeroed(): (m: Mem)
    ensures forall a: word :: m[a] == 0
  {
    seq(0x1_0000, _ => 0)
  }

  /**
   * `get_8b`: the byte stored at `a`, defined for every 16-bit address. It is
   * the low byte of the word view `get_16b` at the same address.
   */
  function Get8(m: Mem, a: word): (b: byte)
    ensures b == Lo(Get16(m, a))
  {
    m[a]
  }

  /** `get_16b`: the little-endian word whose low byte is at `a`. */
  function Get16(m: Mem, a: word): (w: word)
    ensures Lo(w) == m[a]
    ensures Hi(w) == m[Next(a)]
  {
    BytesTo16(m[Next(a)], m[a])
  }

  /** `write(b, address)`: store one byte; every other address keeps its byte. */
  function Write8(m: Mem, b: byte, a: word): (r: Mem)
    ensures Get8(r, a) == b
    ensures forall x: word :: x != a ==> Get8(r, x) == Get8(m, x)
  {
    m[a := b]
  }

  /**
   * `write(b, address)` for a 16-bit value: the low byte at `a`, the high
   * byte at the next address, nothing else changes.
   */
  function Write16(m: Mem, w: word, a: word): (r: Mem)
    ensures r[a] == Lo(w) && r[Next(a)] == Hi(w)
    ensures forall x: word :: x != a && x != Next(a) ==> r[x] == m[x]
  {
    m[a := Lo(w)][Next(a) := Hi(w)]
  }

  /** `write(msb, lsb, address)`: the two bytes of a word given separately. */
  function WriteBytes(m: Mem, msb: byte, lsb: byte, a: word): (r: Mem)
    ensures r[a] == lsb && r[Next(a)] == msb
    ensures forall x: word :: x != a && x != Next(a) ==> r[x] == m[x]
  {
    m[a := lsb][Next(a) := msb]
  }

  /** Writing a byte and reading it back gives the byte. */
  lemma Get8Write8(m: Mem, b: byte, a: word, x: word)
    ensures Get8(Write8(m, b, a), x) == if x == a then b else Get8(m, x)
  {
  }

  /** Writing a word and reading a word at the same address gives it back. */
  lemma Get16Write16(m: Mem, w: word, a: word)
    ensures Get16(Write16(m, w, a), a) == w
  {
    SplitCompose(w);
  }

  /** Storing a word read from memory back where it came from changes nothing. */
  lemma Write16Get16(m: Mem, a: word)
    ensures Write16(m, Get16(m, a), a) == m
  {
    var r := Write16(m, Get16(m, a), a);
    assert forall x: word :: r[x] == m[x];
  }

  /** The two-byte overload stores the word `BytesTo16(msb, lsb)`. */
  lemma WriteBytesIsWrite16(m: Mem, msb: byte, lsb: byte, a: word)
    ensures WriteBytes(m, msb, lsb, a) == Write16(m, BytesTo16(msb, lsb), a)
  {
  }

  /** A second word written at the same address replaces the first entirely. */
  lemma Write16Twice(m: Mem, v: word, w: word, a: word)
    ensures Write16(Write16(m, v, a), w, a) == Write16(m, w, a)
  {
    var r1 := Write16(Write16(m, v, a), w, a);
    var r2 := Write16(m, w, a);
    assert forall x: word :: r1[x] == r2[x];
  }

  /** A word written elsewhere does not disturb a word read two bytes away. */
  lemma Get16Frame(m: Mem, w: word, a: word, b: word)
    requires b != a && b != Next(a) && Next(b) != a
    ensures Get16(Write16(m, w, a), b) == Get16(m, b)
  {
  }

  /** The zeroed store reads as zero, byte or word, everywhere. */
  lemma ZeroedReadsZero(a: word)
    ensures Get8(Zeroed(), a) == 0 && Get16(Zeroed(), a) == 0
  {
  }
}
