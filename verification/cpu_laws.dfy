/**
 * Properties of whole instructions: what `instruction` does to the machine
 * for families of opcodes, and how pairs of instructions undo each other.
 *
 * A family of opcodes is described by its fields (`IsPush(op, p)`: x = 3,
 * z = 5, q = 0 and the given p), and a separate lemma lists the bytes that
 * have those fields (`PushOpcodes`: exactly 0xC5 + 16p). Every law about
 * `Step` goes through one lemma that sends the first byte to its block
 * (`StepIsX3`) and one that picks the leaf inside the block (`PushBlock`).
 */
module CpuLaws {
  import opened Bytes
  import opened Alu
  import opened Memory
  import opened Registers
  import opened Cpu

  /**
   * The first bytes that `instruction` leaves without any effect: the
   * prefixes DD, ED and FD, HALT (0x76), DI (0xF3), EI (0xFB) and the
   * unused slots D3, DB, E3, EB, E4, EC, F4 and FC.
   */
  const EMPTY: set<byte> := {0x76, 0xD3, 0xDB, 0xDD, 0xE3, 0xE4, 0xEB, 0xEC, 0xED, 0xF3, 0xF4, 0xFB, 0xFC, 0xFD}

  /** The cycle counts an instruction can take. */
  predicate Timed(t: word)
  {
    t % 4 == 0 && 4 <= t <= 24
  }

  /** Reducing modulo 0x10000 before or after an addition gives the same word. */
  lemma Wrap(a: int, b: int)
    ensures (a % 0x1_0000 + b) % 0x1_0000 == (a + b) % 0x1_0000
  {
  }

  // ---------------------------------------------------------------------
  // Families of opcodes
  // ---------------------------------------------------------------------

  /** JR cc,d: x = 0, z = 0, y = 4 + cc. */
  predicate IsJr(op: byte, cc: nat)
  {
    var v := OpcodeValues(op);
    v.x == 0 && v.z == 0 && v.y == 4 + cc
  }

  /** ADD HL,rp[p]: x = 0, z = 1, q = 1. */
  predicate IsAddHl(op: byte, p: nat)
  {
    var v := OpcodeValues(op);
    v.x == 0 && v.z == 1 && v.q == 1 && v.p == p
  }

  /** POP rf[p]: x = 3, z = 1, q = 0. */
  predicate IsPop(op: byte, p: nat)
  {
    var v := OpcodeValues(op);
    v.x == 3 && v.z == 1 && v.q == 0 && v.p == p
  }

  /** PUSH rf[p]: x = 3, z = 5, q = 0. */
  predicate IsPush(op: byte, p: nat)
  {
    var v := OpcodeValues(op);
    v.x == 3 && v.z == 5 && v.q == 0 && v.p == p
  }

  /** RET (p = 0) and RETI (p = 1): x = 3, z = 1, q = 1. */
  predicate IsRet(op: byte, p: nat)
  {
    var v := OpcodeValues(op);
    v.x == 3 && v.z == 1 && v.q == 1 && v.p == p && p < 2
  }

  /** RST y*8: x = 3, z = 7. */
  predicate IsRst(op: byte, y: nat)
  {
    var v := OpcodeValues(op);
    v.x == 3 && v.z == 7 && v.y == y
  }

  /** The JR cc,d opcodes are exactly 0x20, 0x28, 0x30 and 0x38. */
  lemma JrOpcodes(op: byte, cc: nat)
    ensures IsJr(op, cc) <==> cc < 4 && op == 0x20 + 8 * cc
  {
    if cc < 4 && op == 0x20 + 8 * cc {
      if cc == 0 {
      } else if cc == 1 {
      } else if cc == 2 {
      } else {
      }
    }
  }

  /** NOP (k = 0) and STOP (k = 1): x = 0, z = 0, y = 2k. */
  predicate IsNopStop(op: byte, k: nat)
  {
    var v := OpcodeValues(op);
    v.x == 0 && v.z == 0 && v.y == 2 * k && k < 2
  }

  /** NOP and STOP are exactly 0x00 and 0x10. */
  lemma NopStopOpcodes(op: byte, k: nat)
    ensures IsNopStop(op, k) <==> k < 2 && op == 0x10 * k
  {
    var v := OpcodeValues(op);
    if IsNopStop(op, k) {
      assert op == 64 * v.x + 8 * v.y + v.z;
    }
    if k < 2 && op == 0x10 * k {
      if k == 0 {
      } else {
      }
    }
  }

  /** The ADD HL,rp[p] opcodes are exactly 0x09, 0x19, 0x29 and 0x39. */
  lemma AddHlOpcodes(op: byte, p: nat)
    ensures IsAddHl(op, p) <==> p < 4 && op == 0x09 + 0x10 * p
  {
    if p < 4 && op == 0x09 + 0x10 * p {
      if p == 0 {
      } else if p == 1 {
      } else if p == 2 {
      } else {
      }
    }
  }

  /** The POP opcodes are exactly 0xC1, 0xD1, 0xE1 and 0xF1. */
  lemma PopOpcodes(op: byte, p: nat)
    ensures IsPop(op, p) <==> p < 4 && op == 0xC1 + 0x10 * p
  {
    if p < 4 && op == 0xC1 + 0x10 * p {
      if p == 0 {
      } else if p == 1 {
      } else if p == 2 {
      } else {
      }
    }
  }

  /** The PUSH opcodes are exactly 0xC5, 0xD5, 0xE5 and 0xF5. */
  lemma PushOpcodes(op: byte, p: nat)
    ensures IsPush(op, p) <==> p < 4 && op == 0xC5 + 0x10 * p
  {
    if p < 4 && op == 0xC5 + 0x10 * p {
      if p == 0 {
      } else if p == 1 {
      } else if p == 2 {
      } else {
      }
    }
  }

  /** RET is 0xC9 and RETI 0xD9. */
  lemma RetOpcodes(op: byte, p: nat)
    ensures IsRet(op, p) <==> p < 2 && op == 0xC9 + 0x10 * p
  {
    if p < 2 && op == 0xC9 + 0x10 * p {
      if p == 0 {
      } else {
      }
    }
  }

  /** The RST opcodes are exactly 0xC7, 0xCF, ..., 0xFF. */
  lemma RstOpcodes(op: byte, y: nat)
    ensures IsRst(op, y) <==> y < 8 && op == 0xC7 + 8 * y
  {
    if y < 8 && op == 0xC7 + 8 * y {
      if y == 0 {
      } else if y == 1 {
      } else if y == 2 {
      } else if y == 3 {
      } else if y == 4 {
      } else if y == 5 {
      } else if y == 6 {
      } else {
      }
    }
  }

  /**
   * In the x = 3 quarter only CB (z = 3, y = 1) and DD, ED, FD (z = 5,
   * q = 1, p > 0) are taken before the block is reached.
   */
  lemma NotPrefix(op: byte)
    requires OpcodeValues(op).x == 3
    requires !(OpcodeValues(op).z == 3 && OpcodeValues(op).y == 1)
    requires !(OpcodeValues(op).z == 5 && OpcodeValues(op).q == 1 && OpcodeValues(op).p != 0)
    ensures op != 0xCB && op != 0xDD && op != 0xED && op != 0xFD
  {
  }

  /** The fields of a first byte outside `EMPTY` avoid every empty slot. */
  lemma OutsideEmpty(op: byte)
    requires op !in EMPTY && op != 0xCB
    ensures var v := OpcodeValues(op);
            && (v.x == 1 ==> !(v.y == 6 && v.z == 6))
            && (v.x == 3 ==> !(v.z == 3 && v.y != 0))
            && (v.x == 3 ==> !(v.z == 4 && v.y >= 4))
            && (v.x == 3 ==> !(v.z == 5 && v.q == 1 && v.p != 0))
  {
  }

  // ---------------------------------------------------------------------
  // From the first byte to the block
  // ---------------------------------------------------------------------

  /** The first byte 0xCB hands the second byte to the prefixed block. */
  lemma StepIsPrefixed(s: State, b2: byte, b1: byte, b0: byte)
    ensures Step(s, 0xCB, b2, b1, b0) == Prefixed(s, b2)
  {
  }

  /** A first byte with x = 0 goes to the x = 0 block. */
  lemma StepIsX0(s: State, b3: byte, b2: byte, b1: byte, b0: byte)
    requires OpcodeValues(b3).x == 0
    ensures Step(s, b3, b2, b1, b0) == X0(s, OpcodeValues(b3), b2, BytesTo16(b1, b2))
  {
  }

  /** A first byte with x = 1 goes to the LD r,r' block. */
  lemma StepIsX1(s: State, b3: byte, b2: byte, b1: byte, b0: byte)
    requires OpcodeValues(b3).x == 1
    ensures Step(s, b3, b2, b1, b0) == X1(s, OpcodeValues(b3).y, OpcodeValues(b3).z)
  {
  }

  /** A first byte with x = 2 goes to the accumulator block. */
  lemma StepIsX2(s: State, b3: byte, b2: byte, b1: byte, b0: byte)
    requires OpcodeValues(b3).x == 2
    ensures Step(s, b3, b2, b1, b0) == X2(s, OpcodeValues(b3).y, OpcodeValues(b3).z)
  {
  }

  /** A first byte with x = 3 other than the prefixes goes to the x = 3 block. */
  lemma StepIsX3(s: State, b3: byte, b2: byte, b1: byte, b0: byte)
    requires OpcodeValues(b3).x == 3 && b3 != 0xCB && b3 != 0xDD && b3 != 0xED && b3 != 0xFD
    ensures Step(s, b3, b2, b1, b0) == X3(s, OpcodeValues(b3), b2, BytesTo16(b1, b2))
  {
  }

  // ---------------------------------------------------------------------
  // From the block to the leaf
  // ---------------------------------------------------------------------

  /** x = 0, z = 0 is the NOP / LD (nn),SP / STOP / JR leaf. */
  lemma X0Z0Block(s: State, v: Fields, b2: byte, nn: word)
    requires ValidFields(v) && v.x == 0 && v.z == 0
    ensures X0(s, v, b2, nn) == X0Z0(s, v.y, b2, nn)
  {
  }

  /** x = 0, z = 1 is the LD rp[p],nn / ADD HL,rp[p] leaf. */
  lemma X0Z1Block(s: State, v: Fields, b2: byte, nn: word)
    requires ValidFields(v) && v.x == 0 && v.z == 1
    ensures X0(s, v, b2, nn) == X0Z1(s, v.p, v.q, nn)
  {
  }

  /** In the x = 3 block, z = 1 is the POP / RET / JP HL / LD SP,HL leaf. */
  lemma X3Z1Leaf(s: State, v: Fields, b2: byte, nn: word)
    requires ValidFields(v) && v.x == 3 && v.z == 1
    ensures X3(s, v, b2, nn) == X3Z1(s, v.p, v.q)
  {
  }

  /** In the x = 3 block, z = 3 is the JP nn leaf. */
  lemma X3Z3Leaf(s: State, v: Fields, b2: byte, nn: word)
    requires ValidFields(v) && v.x == 3 && v.z == 3
    ensures X3(s, v, b2, nn) == X3Z3(s, v.y, nn)
  {
  }

  /** In the x = 3 block, z = 4 is the CALL cc,nn leaf. */
  lemma X3Z4Leaf(s: State, v: Fields, b2: byte, nn: word)
    requires ValidFields(v) && v.x == 3 && v.z == 4
    ensures X3(s, v, b2, nn) == X3Z4(s, v.y, nn)
  {
  }

  /** In the x = 3 block, z = 5 is the PUSH / CALL nn leaf. */
  lemma X3Z5Leaf(s: State, v: Fields, b2: byte, nn: word)
    requires ValidFields(v) && v.x == 3 && v.z == 5
    ensures X3(s, v, b2, nn) == X3Z5(s, v.p, v.q, nn)
  {
  }

  /** In the x = 3 block, z = 1 with q = 0 is POP rf[p]. */
  lemma PopBlock(s: State, v: Fields, b2: byte, nn: word)
    requires ValidFields(v) && v.x == 3 && v.z == 1 && v.q == 0
    ensures X3(s, v, b2, nn) == PopPair(s, v.p)
  {
  }

  /** The z = 1 leaf with q = 1 and p < 2 is RET or RETI. */
  lemma RetLeaf(s: State, p: nat)
    requires p < 2
    ensures X3Z1(s, p, 1) == Return(s, 16)
  {
  }

  /** In the x = 3 block, z = 1, q = 1, p = 2 is JP HL. */
  lemma JumpHlBlock(s: State, v: Fields, b2: byte, nn: word)
    requires ValidFields(v) && v.x == 3 && v.z == 1 && v.q == 1 && v.p == 2
    ensures X3(s, v, b2, nn) == X3Z1(s, 2, 1)
  {
    X3Z1Leaf(s, v, b2, nn);
  }

  /** In the x = 3 block, z = 3 with y = 0 is JP nn. */
  lemma JumpBlock(s: State, v: Fields, b2: byte, nn: word)
    requires ValidFields(v) && v.x == 3 && v.z == 3 && v.y == 0
    ensures X3(s, v, b2, nn) == Jump(s, nn, 16)
  {
    X3Z3Leaf(s, v, b2, nn);
    assert X3Z3(s, 0, nn) == Jump(s, nn, 16);
  }

  /** In the x = 3 block, z = 3 with y >= 2 is empty: DI, EI and unused slots. */
  lemma EmptyJumpBlock(s: State, v: Fields, b2: byte, nn: word)
    requires ValidFields(v) && v.x == 3 && v.z == 3 && v.y >= 2
    ensures X3(s, v, b2, nn) == s
  {
    X3Z3Leaf(s, v, b2, nn);
  }

  /** In the x = 3 block, z = 4 with y >= 4 is empty. */
  lemma EmptyCallBlock(s: State, v: Fields, b2: byte, nn: word)
    requires ValidFields(v) && v.x == 3 && v.z == 4 && v.y >= 4
    ensures X3(s, v, b2, nn) == s
  {
    X3Z4Leaf(s, v, b2, nn);
  }

  /** In the x = 3 block, z = 5 with q = 0 is PUSH rf[p]. */
  lemma PushBlock(s: State, v: Fields, b2: byte, nn: word)
    requires ValidFields(v) && v.x == 3 && v.z == 5 && v.q == 0
    ensures X3(s, v, b2, nn) == PushPair(s, v.p)
  {
    X3Z5Leaf(s, v, b2, nn);
  }

  /** In the x = 3 block, z = 7 is RST y*8. */
  lemma RstBlock(s: State, v: Fields, b2: byte, nn: word)
    requires ValidFields(v) && v.x == 3 && v.z == 7
    ensures X3(s, v, b2, nn) == Restart(s, v.y)
  {
  }

  // ---------------------------------------------------------------------
  // Opcodes that do nothing
  // ---------------------------------------------------------------------

  /** HALT (0x76) changes nothing, not PC, not `t`. */
  lemma EmptyHalt(s: State, b2: byte, b1: byte, b0: byte)
    ensures Step(s, 0x76, b2, b1, b0) == s
  {
    StepIsX1(s, 0x76, b2, b1, b0);
  }

  /** The prefixes DD, ED and FD change nothing either. */
  lemma EmptyPrefixes(s: State, b3: byte, b2: byte, b1: byte, b0: byte)
    requires b3 == 0xDD || b3 == 0xED || b3 == 0xFD
    ensures Step(s, b3, b2, b1, b0) == s
  {
  }

  /** x = 3, z = 3 with y >= 2: DI, EI and four unused slots. */
  lemma EmptyJumpSlot(s: State, op: byte, b2: byte, b1: byte, b0: byte)
    requires OpcodeValues(op).x == 3 && OpcodeValues(op).z == 3 && OpcodeValues(op).y >= 2
    ensures Step(s, op, b2, b1, b0) == s
  {
    NotPrefix(op);
    StepIsX3(s, op, b2, b1, b0);
    EmptyJumpBlock(s, OpcodeValues(op), b2, BytesTo16(b1, b2));
  }

  /** x = 3, z = 4 with y >= 4: the unused slots after CALL cc. */
  lemma EmptyCallSlot(s: State, op: byte, b2: byte, b1: byte, b0: byte)
    requires OpcodeValues(op).x == 3 && OpcodeValues(op).z == 4 && OpcodeValues(op).y >= 4
    ensures Step(s, op, b2, b1, b0) == s
  {
    NotPrefix(op);
    StepIsX3(s, op, b2, b1, b0);
    EmptyCallBlock(s, OpcodeValues(op), b2, BytesTo16(b1, b2));
  }

  /** Every first byte in `EMPTY` leaves the machine exactly as it was. */
  lemma EmptyOpcodes(s: State, b3: byte, b2: byte, b1: byte, b0: byte)
    requires b3 in EMPTY
    ensures Step(s, b3, b2, b1, b0) == s
  {
    if b3 == 0x76 {
      EmptyHalt(s, b2, b1, b0);
    } else if b3 == 0xDD || b3 == 0xED || b3 == 0xFD {
      EmptyPrefixes(s, b3, b2, b1, b0);
    } else {
      EmptySlotFields(b3);
      if OpcodeValues(b3).z == 3 {
        EmptyJumpSlot(s, b3, b2, b1, b0);
      } else {
        EmptyCallSlot(s, b3, b2, b1, b0);
      }
    }
  }

  /** The unused slots of `EMPTY` lie in the z = 3 and z = 4 columns of x = 3. */
  lemma EmptySlotFields(op: byte)
    requires op in EMPTY - {0x76, 0xDD, 0xED, 0xFD}
    ensures var v := OpcodeValues(op);
            v.x == 3 && ((v.z == 3 && v.y >= 2) || (v.z == 4 && v.y >= 4))
  {
  }

  // ---------------------------------------------------------------------
  // Cycle counts
  // ---------------------------------------------------------------------

  /** Every first byte outside `EMPTY` sets `t` to a multiple of 4 between 4 and 24. */
  lemma CycleCounts(s: State, b3: byte, b2: byte, b1: byte, b0: byte)
    requires b3 !in EMPTY
    ensures Timed(Step(s, b3, b2, b1, b0).t)
  {
    if b3 == 0xCB {
      CyclesPrefixed(s, b2, b1, b0);
    } else {
      OutsideEmpty(b3);
      var x := OpcodeValues(b3).x;
      if x == 0 {
        CyclesX0(s, b3, b2, b1, b0);
      } else if x == 1 {
        CyclesX1(s, b3, b2, b1, b0);
      } else if x == 2 {
        CyclesX2(s, b3, b2, b1, b0);
      } else {
        CyclesX3(s, b3, b2, b1, b0);
      }
    }
  }

  lemma CyclesPrefixed(s: State, b2: byte, b1: byte, b0: byte)
    ensures Timed(Step(s, 0xCB, b2, b1, b0).t)
  {
    StepIsPrefixed(s, b2, b1, b0);
    TimedPrefixed(s, b2);
  }

  lemma CyclesX0(s: State, b3: byte, b2: byte, b1: byte, b0: byte)
    requires OpcodeValues(b3).x == 0
    ensures Timed(Step(s, b3, b2, b1, b0).t)
  {
    StepIsX0(s, b3, b2, b1, b0);
    TimedX0(s, OpcodeValues(b3), b2, BytesTo16(b1, b2));
  }

  lemma CyclesX1(s: State, b3: byte, b2: byte, b1: byte, b0: byte)
    requires OpcodeValues(b3).x == 1 && !(OpcodeValues(b3).y == 6 && OpcodeValues(b3).z == 6)
    ensures Timed(Step(s, b3, b2, b1, b0).t)
  {
    StepIsX1(s, b3, b2, b1, b0);
    TimedX1(s, OpcodeValues(b3).y, OpcodeValues(b3).z);
  }

  lemma CyclesX2(s: State, b3: byte, b2: byte, b1: byte, b0: byte)
    requires OpcodeValues(b3).x == 2
    ensures Timed(Step(s, b3, b2, b1, b0).t)
  {
    StepIsX2(s, b3, b2, b1, b0);
    TimedX2(s, OpcodeValues(b3).y, OpcodeValues(b3).z);
  }

  lemma CyclesX3(s: State, b3: byte, b2: byte, b1: byte, b0: byte)
    requires OpcodeValues(b3).x == 3
    requires !(OpcodeValues(b3).z == 3 && OpcodeValues(b3).y != 0)
    requires !(OpcodeValues(b3).z == 4 && OpcodeValues(b3).y >= 4)
    requires !(OpcodeValues(b3).z == 5 && OpcodeValues(b3).q == 1 && OpcodeValues(b3).p != 0)
    ensures Timed(Step(s, b3, b2, b1, b0).t)
  {
    var v, nn := OpcodeValues(b3), BytesTo16(b1, b2);
    assert Step(s, b3, b2, b1, b0) == X3(s, v, b2, nn) by {
      NotPrefix(b3);
      StepIsX3(s, b3, b2, b1, b0);
    }
    TimedX3(s, v, b2, nn);
  }

  /** The CB-prefixed block always sets a cycle count. */
  lemma TimedPrefixed(s: State, op: byte)
    ensures Timed(Prefixed(s, op).t)
  {
    var t := Prefixed(s, op).t;
    assert t == 8 || t == 16;
  }

  /** The x = 0 block always sets a cycle count. */
  lemma TimedX0(s: State, v: Fields, b2: byte, nn: word)
    requires ValidFields(v) && v.x == 0
    ensures Timed(X0(s, v, b2, nn).t)
  {
    if v.z == 0 {
      X0Z0Block(s, v, b2, nn);
      TimedX0Z0(s, v.y, b2, nn);
    } else if v.z == 1 {
      X0Z1Block(s, v, b2, nn);
      TimedX0Z1(s, v.p, v.q, nn);
    } else {
      var t := X0(s, v, b2, nn).t;
      assert t == 4 || t == 8 || t == 12;
    }
  }

  /** NOP, LD (nn),SP, STOP, JR d and JR cc,d. */
  lemma TimedX0Z0(s: State, y: nat, b2: byte, nn: word)
    requires y < 8
    ensures Timed(X0Z0(s, y, b2, nn).t)
  {
    var t := X0Z0(s, y, b2, nn).t;
    assert t == 4 || t == 8 || t == 12 || t == 20;
  }

  /** LD rp[p],nn and ADD HL,rp[p]. */
  lemma TimedX0Z1(s: State, p: nat, q: nat, nn: word)
    requires p < 4 && q < 2
    ensures Timed(X0Z1(s, p, q, nn).t)
  {
    var t := X0Z1(s, p, q, nn).t;
    assert t == 8 || t == 12;
  }

  /** The LD r,r' block sets a cycle count except at HALT. */
  lemma TimedX1(s: State, y: nat, z: nat)
    requires y < 8 && z < 8 && !(y == 6 && z == 6)
    ensures Timed(X1(s, y, z).t)
  {
    var t := X1(s, y, z).t;
    assert t == 4 || t == 8;
  }

  /** The x = 2 block always sets a cycle count. */
  lemma TimedX2(s: State, y: nat, z: nat)
    requires y < 8 && z < 8
    ensures Timed(X2(s, y, z).t)
  {
    var t := X2(s, y, z).t;
    assert t == 4 || t == 8;
  }

  /**
   * The x = 3 block sets a cycle count except in its empty slots: z = 3
   * other than JP nn, z = 4 with y >= 4, and z = 5 with q = 1 other than
   * CALL nn.
   */
  lemma TimedX3(s: State, v: Fields, b2: byte, nn: word)
    requires ValidFields(v) && v.x == 3
    requires !(v.z == 3 && v.y != 0) && !(v.z == 4 && v.y >= 4) && !(v.z == 5 && v.q == 1 && v.p != 0)
    ensures Timed(X3(s, v, b2, nn).t)
  {
    if v.z < 4 {
      TimedX3Low(s, v, b2, nn);
    } else {
      TimedX3High(s, v, b2, nn);
    }
  }

  lemma TimedX3Low(s: State, v: Fields, b2: byte, nn: word)
    requires ValidFields(v) && v.x == 3 && v.z < 4 && !(v.z == 3 && v.y != 0)
    ensures Timed(X3(s, v, b2, nn).t)
  {
    if v.z == 0 {
      TimedX3Z0(s, v, b2, nn);
    } else if v.z == 1 {
      TimedX3Z1(s, v, b2, nn);
    } else if v.z == 2 {
      TimedX3Z2(s, v, b2, nn);
    } else {
      TimedX3Z3(s, v, b2, nn);
    }
  }

  lemma TimedX3High(s: State, v: Fields, b2: byte, nn: word)
    requires ValidFields(v) && v.x == 3 && v.z >= 4
    requires !(v.z == 4 && v.y >= 4) && !(v.z == 5 && v.q == 1 && v.p != 0)
    ensures Timed(X3(s, v, b2, nn).t)
  {
    if v.z == 4 {
      TimedX3Z4(s, v, b2, nn);
    } else if v.z == 5 {
      TimedX3Z5(s, v, b2, nn);
    } else if v.z == 6 {
      TimedX3Z6(s, v, b2, nn);
    } else {
      TimedX3Z7(s, v, b2, nn);
    }
  }

  /** RET cc, the LDH forms, ADD SP,d and LD HL,SP+d. */
  lemma TimedX3Z0(s: State, v: Fields, b2: byte, nn: word)
    requires ValidFields(v) && v.x == 3 && v.z == 0
    ensures Timed(X3(s, v, b2, nn).t)
  {
    var t := X3Z0(s, v.y, b2).t;
    assert t == 8 || t == 12 || t == 16 || t == 20;
  }

  /** POP, RET, RETI, JP HL and LD SP,HL. */
  lemma TimedX3Z1(s: State, v: Fields, b2: byte, nn: word)
    requires ValidFields(v) && v.x == 3 && v.z == 1
    ensures Timed(X3(s, v, b2, nn).t)
  {
    var t := X3Z1(s, v.p, v.q).t;
    assert t == 4 || t == 8 || t == 12 || t == 16;
  }

  /** JP cc,nn and the loads between A and (FF00+C) or (nn). */
  lemma TimedX3Z2(s: State, v: Fields, b2: byte, nn: word)
    requires ValidFields(v) && v.x == 3 && v.z == 2
    ensures Timed(X3(s, v, b2, nn).t)
  {
    var t := X3Z2(s, v.y, nn).t;
    assert t == 8 || t == 12 || t == 16;
  }

  /** JP nn: 16 cycles. */
  lemma TimedX3Z3(s: State, v: Fields, b2: byte, nn: word)
    requires ValidFields(v) && v.x == 3 && v.z == 3 && v.y == 0
    ensures Timed(X3(s, v, b2, nn).t)
  {
    X3Z3Leaf(s, v, b2, nn);
  }

  /** CALL cc,nn: 24 cycles taken, 12 not. */
  lemma TimedX3Z4(s: State, v: Fields, b2: byte, nn: word)
    requires ValidFields(v) && v.x == 3 && v.z == 4 && v.y < 4
    ensures Timed(X3(s, v, b2, nn).t)
  {
    X3Z4Leaf(s, v, b2, nn);
  }

  /** PUSH rf[p] (16 cycles) and CALL nn (24). */
  lemma TimedX3Z5(s: State, v: Fields, b2: byte, nn: word)
    requires ValidFields(v) && v.x == 3 && v.z == 5 && !(v.q == 1 && v.p != 0)
    ensures Timed(X3(s, v, b2, nn).t)
  {
    X3Z5Leaf(s, v, b2, nn);
  }

  /** al[y] A,n: 8 cycles. */
  lemma TimedX3Z6(s: State, v: Fields, b2: byte, nn: word)
    requires ValidFields(v) && v.x == 3 && v.z == 6
    ensures Timed(X3(s, v, b2, nn).t)
  {
    assert X3(s, v, b2, nn).t == 8;
  }

  /** RST y*8: 16 cycles. */
  lemma TimedX3Z7(s: State, v: Fields, b2: byte, nn: word)
    requires ValidFields(v) && v.x == 3 && v.z == 7
    ensures Timed(X3(s, v, b2, nn).t)
  {
    RstBlock(s, v, b2, nn);
  }

  // ---------------------------------------------------------------------
  // Single instructions
  // ---------------------------------------------------------------------

  /**
   * JR cc,d: taken iff the condition holds; taken it lands at
   * `pc + 2 + d` with d signed and costs 12 cycles, otherwise at `pc + 2`
   * with 8. No register but PC changes.
   */
  lemma JumpRelativeIf(s: State, op: byte, cc: nat, d: byte, b1: byte, b0: byte)
    requires cc < 4 && op == 0x20 + 8 * cc
    ensures var u := Step(s, op, d, b1, b0);
            && (Cond(cc, Flags(s)) ==> u.pc == (s.pc + 2 + Signed8(d)) % 0x1_0000 && u.t == 12)
            && (!Cond(cc, Flags(s)) ==> u.pc == (s.pc + 2) % 0x1_0000 && u.t == 8)
            && u.af == s.af && u.bc == s.bc && u.de == s.de && u.hl == s.hl
            && u.sp == s.sp && u.mem == s.mem
  {
    JrOpcodes(op, cc);
    StepIsX0(s, op, d, b1, b0);
    X0Z0Block(s, OpcodeValues(op), d, BytesTo16(b1, d));
  }

  /**
   * ADD HL,rp[p] keeps the zero flag it found and recomputes N, H and C
   * from the 16-bit sum.
   */
  lemma AddHlKeepsZero(s: State, op: byte, p: nat, b2: byte, b1: byte, b0: byte)
    requires p < 4 && op == 0x09 + 0x10 * p
    ensures var u := Step(s, op, b2, b1, b0);
            var y := GetPair(s, Rp(p));
            && u.hl == (s.hl + y) % 0x1_0000
            && Zf(Flags(u)) == Zf(Flags(s))
            && !Nf(Flags(u))
            && (Hf(Flags(u)) <==> s.hl % 0x1000 + y % 0x1000 >= 0x1000)
            && (Cf(Flags(u)) <==> s.hl + y >= 0x1_0000)
            && u.t == 8 && u.pc == (s.pc + 1) % 0x1_0000
  {
    AddHlOpcodes(op, p);
    StepIsX0(s, op, b2, b1, b0);
    X0Z1Block(s, OpcodeValues(op), b2, BytesTo16(b1, b2));
  }

  /**
   * `LD SP,nn` (0x31), the first instruction of the boot ROM: SP gets the
   * little-endian operand, PC moves past the three bytes, 12 cycles.
   */
  lemma LoadStackPointer(s: State, b2: byte, b1: byte, b0: byte)
    ensures var u := Step(s, 0x31, b2, b1, b0);
            && u.sp == BytesTo16(b1, b2)
            && u.pc == (s.pc + 3) % 0x1_0000 && u.t == 12
            && u.af == s.af && u.bc == s.bc && u.de == s.de && u.hl == s.hl && u.mem == s.mem
  {
    StepIsX0(s, 0x31, b2, b1, b0);
    X0Z1Block(s, OpcodeValues(0x31), b2, BytesTo16(b1, b2));
  }

  /**
   * NOP (0x00) and STOP (0x10) take 4 cycles, move PC past their one byte,
   * and change nothing else.
   */
  lemma NopStopOnlyAdvance(s: State, op: byte, k: nat, b2: byte, b1: byte, b0: byte)
    requires k < 2 && op == 0x10 * k
    ensures var u := Step(s, op, b2, b1, b0);
            && u.t == 4 && u.pc == (s.pc + 1) % 0x1_0000
            && u.af == s.af && u.bc == s.bc && u.de == s.de && u.hl == s.hl
            && u.sp == s.sp && u.mem == s.mem
  {
    NopStopOpcodes(op, k);
    StepIsX0(s, op, b2, b1, b0);
    X0Z0Block(s, OpcodeValues(op), b2, BytesTo16(b1, b2));
  }

  /**
   * JP nn (0xC3) leaves PC one past the target, since the leaf still
   * executes `pc += 1` after `jp`.
   */
  lemma JumpLandsPastTarget(s: State, b2: byte, b1: byte, b0: byte)
    ensures var u := Step(s, 0xC3, b2, b1, b0);
            u.pc == (BytesTo16(b1, b2) + 1) % 0x1_0000 && u.t == 16
  {
    StepIsX3(s, 0xC3, b2, b1, b0);
    JumpBlock(s, OpcodeValues(0xC3), b2, BytesTo16(b1, b2));
  }

  /** JP HL (0xE9) likewise leaves PC one past the address in HL. */
  lemma JumpHlLandsPastTarget(s: State, b2: byte, b1: byte, b0: byte)
    ensures var u := Step(s, 0xE9, b2, b1, b0);
            u.pc == (s.hl + 1) % 0x1_0000 && u.t == 4
  {
    StepIsX3(s, 0xE9, b2, b1, b0);
    JumpHlBlock(s, OpcodeValues(0xE9), b2, BytesTo16(b1, b2));
  }

  /**
   * ADD A,B (0x80) with A = 0x3A and B = 0xC6: the sum wraps to zero with
   * both carries, so A = 0 with Z, H and C set and N clear.
   */
  lemma AddExample(s: State, b2: byte, b1: byte, b0: byte)
    requires Get(s, A) == 0x3A && Get(s, B) == 0xC6
    ensures var u := Step(s, 0x80, b2, b1, b0);
            && Get(u, A) == 0
            && Zf(Flags(u)) && !Nf(Flags(u)) && Hf(Flags(u)) && Cf(Flags(u))
            && u.t == 4 && u.pc == (s.pc + 1) % 0x1_0000
  {
    StepIsX2(s, 0x80, b2, b1, b0);
    AddBlock(s);
  }

  /** The leaf of ADD A,B with A = 0x3A and B = 0xC6. */
  lemma AddBlock(s: State)
    requires Get(s, A) == 0x3A && Get(s, B) == 0xC6
    ensures var u := X2(s, 0, 0);
            && Get(u, A) == 0
            && Zf(Flags(u)) && !Nf(Flags(u)) && Hf(Flags(u)) && Cf(Flags(u))
            && u.t == 4 && u.pc == (s.pc + 1) % 0x1_0000
  {
    AddCarries(Flags(s));
  }

  /** 0x3A + 0xC6 is 0x100: the 8-bit sum is zero and both carries are set. */
  lemma AddCarries(f: byte)
    ensures var r := Add8(0x3A, 0xC6, f);
            r.x == 0 && Zf(r.flags) && !Nf(r.flags) && Hf(r.flags) && Cf(r.flags)
  {
  }

  // ---------------------------------------------------------------------
  // Pairs of instructions
  // ---------------------------------------------------------------------

  /** PUSH rf[p] as a whole instruction. */
  lemma PushDecodes(s: State, op: byte, p: nat, b2: byte, b1: byte, b0: byte)
    requires IsPush(op, p)
    ensures Step(s, op, b2, b1, b0) == PushPair(s, p)
  {
    NotPrefix(op);
    StepIsX3(s, op, b2, b1, b0);
    PushBlock(s, OpcodeValues(op), b2, BytesTo16(b1, b2));
  }

  /** POP rf[p] as a whole instruction. */
  lemma PopDecodes(s: State, op: byte, p: nat, b2: byte, b1: byte, b0: byte)
    requires IsPop(op, p)
    ensures Step(s, op, b2, b1, b0) == PopPair(s, p)
  {
    NotPrefix(op);
    StepIsX3(s, op, b2, b1, b0);
    PopBlock(s, OpcodeValues(op), b2, BytesTo16(b1, b2));
  }

  /** CALL nn (0xCD) as a whole instruction. */
  lemma CallDecodes(s: State, b2: byte, b1: byte, b0: byte)
    ensures Step(s, 0xCD, b2, b1, b0) == CallTo(s, BytesTo16(b1, b2))
  {
    StepIsX3(s, 0xCD, b2, b1, b0);
    X3Z5Leaf(s, OpcodeValues(0xCD), b2, BytesTo16(b1, b2));
  }

  /** RET and RETI as whole instructions: both pop PC and take 16 cycles. */
  lemma RetDecodes(s: State, op: byte, p: nat, b2: byte, b1: byte, b0: byte)
    requires p < 2 && op == 0xC9 + 0x10 * p
    ensures Step(s, op, b2, b1, b0) == Return(s, 16)
  {
    RetOpcodes(op, p);
    NotPrefix(op);
    StepIsX3(s, op, b2, b1, b0);
    X3Z1Leaf(s, OpcodeValues(op), b2, BytesTo16(b1, b2));
    RetLeaf(s, p);
  }

  /** RST y*8 as a whole instruction. */
  lemma RstDecodes(s: State, op: byte, y: nat, b2: byte, b1: byte, b0: byte)
    requires IsRst(op, y)
    ensures Step(s, op, b2, b1, b0) == Restart(s, y)
  {
    NotPrefix(op);
    StepIsX3(s, op, b2, b1, b0);
    RstBlock(s, OpcodeValues(op), b2, BytesTo16(b1, b2));
  }

  /**
   * A POP after a PUSH of the same pair restores the pair and the stack
   * pointer; for AF the low nibble of F comes back cleared.
   */
  lemma PopAfterPushPair(s: State, p: nat)
    requires p < 4
    ensures var u := PopPair(PushPair(s, p), p);
            && u.sp == s.sp
            && (p < 3 ==> GetPair(u, Rf(p)) == GetPair(s, Rf(p)))
            && (p == 3 ==> Get(u, A) == Get(s, A) && Flags(u) == FlagNibble(Flags(s)))
            && (forall r: Pair :: r != Rf(p) && r != SP ==> GetPair(u, r) == GetPair(s, r))
            && u.t == 12 && u.pc == (s.pc + 2) % 0x1_0000
  {
    Wrap(s.sp - 2, 2);
    Wrap(s.pc + 1, 1);
  }

  /**
   * PUSH rf[p] followed by POP rf[p] as whole instructions: the pair and
   * the stack pointer are restored, except F's low nibble for AF.
   */
  lemma PushThenPop(s: State, push: byte, pop: byte, p: nat, b2: byte, b1: byte, b0: byte, c2: byte, c1: byte, c0: byte)
    requires p < 4 && push == 0xC5 + 0x10 * p && pop == 0xC1 + 0x10 * p
    ensures var u := Step(Step(s, push, b2, b1, b0), pop, c2, c1, c0);
            && u.sp == s.sp
            && (p < 3 ==> GetPair(u, Rf(p)) == GetPair(s, Rf(p)))
            && (p == 3 ==> Get(u, A) == Get(s, A) && Flags(u) == FlagNibble(Flags(s)))
            && (forall r: Pair :: r != Rf(p) && r != SP ==> GetPair(u, r) == GetPair(s, r))
            && u.t == 12 && u.pc == (s.pc + 2) % 0x1_0000
  {
    PushOpcodes(push, p);
    PopOpcodes(pop, p);
    PushThenPopFields(s, push, pop, p, b2, b1, b0, c2, c1, c0);
  }

  /** PushThenPop, for opcodes given by their fields. */
  lemma PushThenPopFields(s: State, push: byte, pop: byte, p: nat, b2: byte, b1: byte, b0: byte, c2: byte, c1: byte, c0: byte)
    requires IsPush(push, p) && IsPop(pop, p)
    ensures var u := Step(Step(s, push, b2, b1, b0), pop, c2, c1, c0);
            && u.sp == s.sp
            && (p < 3 ==> GetPair(u, Rf(p)) == GetPair(s, Rf(p)))
            && (p == 3 ==> Get(u, A) == Get(s, A) && Flags(u) == FlagNibble(Flags(s)))
            && (forall r: Pair :: r != Rf(p) && r != SP ==> GetPair(u, r) == GetPair(s, r))
            && u.t == 12 && u.pc == (s.pc + 2) % 0x1_0000
  {
    PushDecodes(s, push, p, b2, b1, b0);
    PopDecodes(PushPair(s, p), pop, p, c2, c1, c0);
    PopAfterPushPair(s, p);
  }

  /** A return after a taken call comes back three bytes after the CALL. */
  lemma ReturnAfterCall(s: State, nn: word)
    ensures var u := Return(CallTo(s, nn), 16);
            && u.pc == (s.pc + 3) % 0x1_0000
            && u.sp == s.sp
            && u.af == s.af && u.bc == s.bc && u.de == s.de && u.hl == s.hl
  {
    Wrap(s.pc + 2, 1);
    Wrap(s.sp - 2, 2);
  }

  /** A return after a restart comes back one byte after the RST. */
  lemma ReturnAfterRestart(s: State, y: nat)
    requires y < 8
    ensures var u := Return(Restart(s, y), 16);
            && u.pc == (s.pc + 1) % 0x1_0000
            && u.sp == s.sp
            && u.af == s.af && u.bc == s.bc && u.de == s.de && u.hl == s.hl
  {
    Wrap(s.sp - 2, 2);
  }

  /**
   * CALL nn (0xCD) followed by RET or RETI comes back to the byte after the
   * three-byte CALL, with the stack pointer restored: the `+2` that `call` pushes and
   * the `+1` that RET adds make up the length of CALL.
   */
  lemma CallThenRet(s: State, ret: byte, p: nat, b2: byte, b1: byte, b0: byte, c2: byte, c1: byte, c0: byte)
    requires p < 2 && ret == 0xC9 + 0x10 * p
    ensures var u := Step(Step(s, 0xCD, b2, b1, b0), ret, c2, c1, c0);
            && u.pc == (s.pc + 3) % 0x1_0000
            && u.sp == s.sp
            && u.af == s.af && u.bc == s.bc && u.de == s.de && u.hl == s.hl
            && u.t == 16
  {
    RetOpcodes(ret, p);
    CallDecodes(s, b2, b1, b0);
    RetDecodes(CallTo(s, BytesTo16(b1, b2)), ret, p, c2, c1, c0);
    ReturnAfterCall(s, BytesTo16(b1, b2));
  }

  /**
   * RST y*8 followed by RET or RETI comes back to the byte after the one-byte RST,
   * with the stack pointer restored.
   */
  lemma RestartThenRet(s: State, op: byte, ret: byte, y: nat, p: nat, b2: byte, b1: byte, b0: byte, c2: byte, c1: byte, c0: byte)
    requires y < 8 && p < 2 && op == 0xC7 + 8 * y && ret == 0xC9 + 0x10 * p
    ensures var u := Step(Step(s, op, b2, b1, b0), ret, c2, c1, c0);
            && u.pc == (s.pc + 1) % 0x1_0000
            && u.sp == s.sp
            && u.af == s.af && u.bc == s.bc && u.de == s.de && u.hl == s.hl
  {
    RstOpcodes(op, y);
    RetOpcodes(ret, p);
    RestartThenRetFields(s, op, ret, y, p, b2, b1, b0, c2, c1, c0);
  }

  /** RestartThenRet, for opcodes given by their fields. */
  lemma RestartThenRetFields(s: State, op: byte, ret: byte, y: nat, p: nat, b2: byte, b1: byte, b0: byte, c2: byte, c1: byte, c0: byte)
    requires IsRst(op, y) && IsRet(ret, p)
    ensures var u := Step(Step(s, op, b2, b1, b0), ret, c2, c1, c0);
            && u.pc == (s.pc + 1) % 0x1_0000
            && u.sp == s.sp
            && u.af == s.af && u.bc == s.bc && u.de == s.de && u.hl == s.hl
  {
    RetOpcodes(ret, p);
    RstDecodes(s, op, y, b2, b1, b0);
    RetDecodes(Restart(s, y), ret, p, c2, c1, c0);
    ReturnAfterRestart(s, y);
  }
}
