/**
 * The decoder `CPU::instruction`: split the first byte of an instruction
 * into the fields x, y, z, p and q, and carry out the one leaf they select.
 * Every leaf sets the cycle count `t` and advances or replaces PC.
 *
 * `Step(s, b3, b2, b1, b0)` is one call of `instruction(b3, b2, b1, b0)`:
 * b3 is the first byte of the instruction, b2 the one-byte immediate, and
 * b1:b2 (b1 high) the two-byte immediate; b0 is never used.
 *
 * The leaves follow the C++ literally, quirks included: a taken absolute
 * jump, call, restart or return ends with PC one past its target, and the
 * opcodes the C++ leaves empty change nothing at all, not even PC or `t`.
 */
module Cpu {
  import opened Bytes
  import opened Alu
  import opened Memory
  import opened Instructions
  import opened Registers

  /** The fields of an opcode, `opcode_values`. */
  datatype Fields = Fields(x: nat, y: nat, z: nat, p: nat, q: nat)

  /** The ranges of the fields and the link between y and p, q. */
  predicate ValidFields(v: Fields)
  {
    v.x < 4 && v.y < 8 && v.z < 8 && v.p < 4 && v.q < 2 && v.y == 2 * v.p + v.q
  }

  /**
   * `get_opcode_values`: x = op >> 6, y = (op >> 3) & 7, z = op & 7,
   * p = (op >> 4) & 3, q = (op >> 3) & 1. The fields are the digits of the
   * opcode in the layout xx yyy zzz, with y split as pp q.
   */
  function OpcodeValues(op: byte): (v: Fields)
    ensures ValidFields(v)
    ensures op == 64 * v.x + 8 * v.y + v.z
  {
    FieldDigits(op);
    Fields(op / 0x40, (op / 8) % 8, op % 8, (op / 0x10) % 4, (op / 8) % 2)
  }

  /** The shifts and masks of `get_opcode_values` take the opcode apart digit by digit. */
  lemma FieldDigits(op: byte)
    ensures op == 64 * (op / 0x40) + 8 * ((op / 8) % 8) + op % 8
    ensures (op / 8) % 8 == 2 * ((op / 0x10) % 4) + (op / 8) % 2
  {
    var a := op / 8;
    var b := a / 2;
    assert op == 8 * a + op % 8;
    assert a == 8 * (a / 8) + a % 8;
    assert op / 0x40 == a / 8;
    assert op / 0x10 == b;
    assert a == 2 * b + a % 2;
    assert b == 4 * (b / 4) + b % 4;
    assert a == 8 * (b / 4) + (2 * (b % 4) + a % 2);
  }

  /** `pc += k` on a `uint16_t`. */
  function Advance(pc: word, k: nat): (r: word)
    ensures r == (pc + k) % 0x1_0000
    ensures pc + k < 0x1_0000 ==> r == pc + k
  {
    (pc + k) % 0x1_0000
  }

  /**
   * The condition codes of the conditional jumps, calls and returns:
   * NZ, Z, NC, C. Z is read as `f >> 7` and C as `(f >> 4) & 1`. The
   * first two test Z and the last two C; an odd code asks for the flag set,
   * an even one for it clear.
   */
  function Cond(cc: nat, f: byte): (b: bool)
    requires cc < 4
    ensures b <==> (if cc < 2 then Zf(f) else Cf(f)) == (cc % 2 == 1)
  {
    match cc
    case 0 => !Zf(f)
    case 1 => Zf(f)
    case 2 => !Cf(f)
    case _ => Cf(f)
  }

  /**
   * The table `al`: the eight accumulator operations ADD, ADC, SUB, SBC,
   * AND, XOR, OR and CP, applied to A and an operand `b`. CP gives back A
   * unchanged.
   */
  function Al(y: nat, a: byte, b: byte, f: byte): (r: Out8)
    requires y < 8
    ensures y == 7 ==> r.x == a
    ensures y != 7 ==> r.x == (match y
                               case 0 => Add8(a, b, f).x
                               case 1 => Adc8(a, b, f).x
                               case 2 => Sub8(a, b, f).x
                               case 3 => Sbc8(a, b, f).x
                               case 4 => And8(a, b, f).x
                               case 5 => Xor8(a, b, f).x
                               case _ => Or8(a, b, f).x)
    ensures Zf(r.flags) <==> (match y
                              case 0 => (a + b) % 0x100 == 0
                              case 1 => (a + b + CarryIn(f)) % 0x100 == 0
                              case 2 => a == b
                              case 3 => (a - b - CarryIn(f)) % 0x100 == 0
                              case 4 => r.x == 0
                              case 5 => a == b
                              case 6 => a == 0 && b == 0
                              case _ => a == b)
    ensures LowBitsKept(f, r.flags)
  {
    match y
    case 0 => Add8(a, b, f)
    case 1 => Adc8(a, b, f)
    case 2 => Sub8(a, b, f)
    case 3 => Sbc8(a, b, f)
    case 4 => And8(a, b, f)
    case 5 => Xor8(a, b, f)
    case 6 => Or8(a, b, f)
    case _ => Out8(a, Cp8(a, b, f))
  }

  /**
   * The table `rot`: RLC, RRC, RL, RR, SLA, SRA, SWAP, SRL. The left moves
   * (even y) shift bit 7 out into C, the right moves (odd y) bit 0; SWAP
   * clears C.
   */
  function Rot(y: nat, x: byte, f: byte): (r: Out8)
    requires y < 8
    ensures Zf(r.flags) <==> r.x == 0
    ensures !Nf(r.flags) && !Hf(r.flags)
    ensures Cf(r.flags) <==> (if y == 6 then false else if y % 2 == 0 then x >= 0x80 else x % 2 == 1)
    ensures LowBitsKept(f, r.flags)
  {
    match y
    case 0 => Rlc(x, f)
    case 1 => Rrc(x, f)
    case 2 => Rl(x, f)
    case 3 => Rr(x, f)
    case 4 => Sla(x, f)
    case 5 => Sra(x, f)
    case 6 => Swap(x, f)
    case _ => Srl(x, f)
  }

  /** Replace the flags byte. */
  function WithFlags(s: State, f: byte): (u: State)
    ensures Flags(u) == f && Get(u, A) == Get(s, A)
    ensures forall q: Reg8 :: q != F ==> Get(u, q) == Get(s, q)
    ensures u.bc == s.bc && u.de == s.de && u.hl == s.hl
    ensures u.sp == s.sp && u.pc == s.pc && u.t == s.t && u.mem == s.mem
  {
    Set(s, F, f)
  }

  /** Set the cycle count and advance PC by the length of the instruction. */
  function Done(s: State, t: word, len: nat): (u: State)
    ensures u.t == t
    ensures u.pc == (s.pc + len) % 0x1_0000
    ensures u.af == s.af && u.bc == s.bc && u.de == s.de && u.hl == s.hl
    ensures u.sp == s.sp && u.mem == s.mem
  {
    s.(t := t, pc := Advance(s.pc, len))
  }

  /** The stack as the primitives see it. */
  function StackOf(s: State): Stack
  {
    Stack(s.mem, s.sp)
  }

  /** `u` and `s` agree on AF, BC, DE, HL, SP and memory: only PC and `t` may differ. */
  predicate OnlyFlow(s: State, u: State)
  {
    u.af == s.af && u.bc == s.bc && u.de == s.de && u.hl == s.hl && u.sp == s.sp && u.mem == s.mem
  }

  // ---------------------------------------------------------------------
  // The CB-prefixed opcodes
  // ---------------------------------------------------------------------

  /**
   * The CB prefix: `op` (the second byte) selects a rotate or shift (x = 0),
   * BIT (x = 1), RES (x = 2) or SET (x = 3) of bit y, on the operand r[z].
   * r[6] is the byte at HL and costs 16 cycles, a register 8. The
   * instruction is two bytes long. A rotate leaves the flags of its `rot`
   * entry and BIT those of `bit`; RES and SET leave the flags alone. Nothing
   * but the operand, F and PC changes.
   */
  function Prefixed(s: State, op: byte): (u: State)
    ensures var v := OpcodeValues(op);
            var before := Load(s, R(v.z));
            var after := Load(u, R(v.z));
            && u.pc == (s.pc + 2) % 0x1_0000
            && u.t == (if v.z == 6 then 16 else 8)
            && u.sp == s.sp
            && (v.x == 0 ==> after == Rot(v.y, before, Flags(s)).x)
            && (v.x == 0 ==> Flags(u) == Rot(v.y, before, Flags(s)).flags)
            && (v.x == 1 ==> after == before)
            && (v.x == 1 ==> Flags(u) == TestBit(v.y, before, Flags(s)))
            && (v.x == 2 ==> !Bit(after, v.y) && Flags(u) == Flags(s))
            && (v.x == 3 ==> Bit(after, v.y) && Flags(u) == Flags(s))
            && (v.x >= 2 ==> forall j :: 0 <= j < 8 && j != v.y ==> (Bit(after, j) <==> Bit(before, j)))
    ensures OthersKept(s, u, R(OpcodeValues(op).z))
  {
    var v := OpcodeValues(op);
    var s' := CbOperation(s, R(v.z), v.x, v.y);
    var u := Done(s', if v.z == 6 then 16 else 8, 2);
    LoadKept(s, s', u, R(v.z));
    u
  }

  /**
   * A state `u` with the registers and memory of `s'` reads the operand and
   * the flags as `s'` does, and keeps whatever `s'` kept of `s`.
   */
  lemma LoadKept(s: State, s': State, u: State, o: Operand)
    requires u.af == s'.af && u.bc == s'.bc && u.de == s'.de && u.hl == s'.hl
    requires u.sp == s'.sp && u.mem == s'.mem
    ensures Load(u, o) == Load(s', o) && Flags(u) == Flags(s')
    ensures OthersKept(s, s', o) ==> OthersKept(s, u, o)
  {
  }

  /** The body of a CB-prefixed instruction on the operand `o`, before `pc += 2`. */
  function CbOperation(s: State, o: Operand, x: nat, y: nat): (u: State)
    requires x < 4 && y < 8 && o != Reg(F)
    ensures var before := Load(s, o);
            var after := Load(u, o);
            && u.sp == s.sp && u.pc == s.pc
            && (x == 0 ==> after == Rot(y, before, Flags(s)).x)
            && (x == 0 ==> Flags(u) == Rot(y, before, Flags(s)).flags)
            && (x == 1 ==> after == before)
            && (x == 1 ==> Flags(u) == TestBit(y, before, Flags(s)))
            && (x == 2 ==> !Bit(after, y) && Flags(u) == Flags(s))
            && (x == 3 ==> Bit(after, y) && Flags(u) == Flags(s))
            && (x >= 2 ==> forall j :: 0 <= j < 8 && j != y ==> (Bit(after, j) <==> Bit(before, j)))
    ensures OthersKept(s, u, o)
  {
    var b := Load(s, o);
    match x
    case 0 => RotateOperand(s, o, y)
    case 1 => WithFlags(s, TestBit(y, b, Flags(s)))
    case 2 => Store(s, o, ResetBit8(y, b))
    case _ => Store(s, o, SetBit8(y, b))
  }

  /** The CB rotates and shifts: `rot[y]` applied to the operand in place. */
  function RotateOperand(s: State, o: Operand, y: nat): (u: State)
    requires y < 8 && o != Reg(F)
    ensures Load(u, o) == Rot(y, Load(s, o), Flags(s)).x
    ensures Flags(u) == Rot(y, Load(s, o), Flags(s)).flags
    ensures OthersKept(s, u, o) && u.pc == s.pc
  {
    var r := Rot(y, Load(s, o), Flags(s));
    WithFlags(Store(s, o, r.x), r.flags)
  }

  // ---------------------------------------------------------------------
  // Unprefixed opcodes, x = 0
  // ---------------------------------------------------------------------

  /** A relative jump: `jr` with the offset `d`, then `pc += 2`. */
  function JumpRelative(s: State, d: byte): (u: State)
    ensures u.pc == (s.pc + 2 + Signed8(d)) % 0x1_0000
    ensures u.t == 12
    ensures u.af == s.af && u.sp == s.sp && u.mem == s.mem
  {
    // The flags `jr` computes go to a scratch byte the C++ leaves
    // uninitialised; the jump does not depend on it (Instructions.JrIgnoresScratch).
    Done(s.(pc := Jr(s.pc, d, 0)), 12, 2)
  }

  /** x = 0, z = 0: NOP, LD (nn),SP, STOP, JR d and JR cc,d. */
  function X0Z0(s: State, y: nat, b2: byte, nn: word): (u: State)
    requires y < 8
    ensures y == 0 || y == 2 ==> u.t == 4 && u.pc == (s.pc + 1) % 0x1_0000 && OnlyFlow(s, u)
    ensures y == 1 ==> u.t == 20 && u.pc == (s.pc + 3) % 0x1_0000
    ensures y == 1 ==> u.af == s.af && u.bc == s.bc && u.de == s.de && u.hl == s.hl && u.sp == s.sp
    ensures y == 1 ==> forall a: word :: a != nn && a != Next(nn) ==> u.mem[a] == s.mem[a]
    ensures y == 3 ==> u.t == 12 && u.pc == (s.pc + 2 + Signed8(b2)) % 0x1_0000
    ensures y >= 4 ==> u.t == (if Cond(y - 4, Flags(s)) then 12 else 8)
    ensures y >= 4 ==> u.pc == (if Cond(y - 4, Flags(s)) then (s.pc + 2 + Signed8(b2)) % 0x1_0000
                                else (s.pc + 2) % 0x1_0000)
    ensures y >= 3 ==> OnlyFlow(s, u)
    ensures y == 1 ==> Get16(u.mem, nn) == s.sp
  {
    match y
    case 0 => Done(s, 4, 1)
    case 1 =>
      Get16Write16(s.mem, s.sp, nn);
      Done(s.(mem := Write16(s.mem, s.sp, nn)), 20, 3)
    case 2 => Done(s, 4, 1)
    case 3 => JumpRelative(s, b2)
    case _ => if Cond(y - 4, Flags(s)) then JumpRelative(s, b2) else Done(s, 8, 2)
  }

  /**
   * ADD HL,rp[p]: the 16-bit `add`, after which the zero flag is put back as
   * it was: `f = (f & 0x7F) | (old & 0x80)`, written with `%` and `/` (the
   * two masks select disjoint bits, so `|` is `+`).
   */
  function AddHl(s: State, p: nat): (u: State)
    requires p < 4
    ensures var y := GetPair(s, Rp(p));
            && u.hl == (s.hl + y) % 0x1_0000
            && Zf(Flags(u)) == Zf(Flags(s))
            && !Nf(Flags(u))
            && (Hf(Flags(u)) <==> s.hl % 0x1000 + y % 0x1000 >= 0x1000)
            && (Cf(Flags(u)) <==> s.hl + y >= 0x1_0000)
            && LowBitsKept(Flags(s), Flags(u))
    ensures Get(u, A) == Get(s, A) && u.bc == s.bc && u.de == s.de && u.sp == s.sp
    ensures u.t == 8 && u.pc == (s.pc + 1) % 0x1_0000 && u.mem == s.mem
  {
    var old_f := Flags(s);
    var r := Add16(s.hl, GetPair(s, Rp(p)), old_f);
    var f := KeepZero(r.flags, old_f);
    Done(WithFlags(SetPair(s, HL, r.x), f), 8, 1)
  }

  /**
   * `(g & 0x7F) | (f & 0x80)`: bit 7 (Z) from `f`, the other bits from `g`.
   * The two masks select disjoint bits, so `|` is `+`.
   */
  function KeepZero(g: byte, f: byte): (h: byte)
    ensures Zf(h) == Zf(f)
    ensures Nf(h) == Nf(g) && Hf(h) == Hf(g) && Cf(h) == Cf(g)
    ensures LowBitsKept(g, h)
  {
    var h := g % 0x80 + (f / 0x80) * 0x80;
    assert h % 0x80 == g % 0x80 && h / 0x80 == f / 0x80;
    SameBelowZero(g, h);
    h
  }

  /** `f & 0x1F`: Z, N and H are cleared, C and bits 0 to 3 kept. */
  function KeepCarry(f: byte): (h: byte)
    ensures !Zf(h) && !Nf(h) && !Hf(h)
    ensures Cf(h) == Cf(f)
    ensures LowBitsKept(f, h)
  {
    var h := f % 0x20;
    assert f == 0x20 * (f / 0x20) + h;
    assert f / 0x10 == 2 * (f / 0x20) + h / 0x10;
    assert h % 0x10 == f % 0x10 by { assert f == 0x10 * (2 * (f / 0x20)) + h; }
    h
  }

  /** `f & 0xF0`: the flag nibble is kept, bits 0 to 3 are cleared. */
  function FlagNibble(f: byte): (h: byte)
    ensures Zf(h) == Zf(f) && Nf(h) == Nf(f) && Hf(h) == Hf(f) && Cf(h) == Cf(f)
    ensures h % 0x10 == 0
  {
    f / 0x10 * 0x10
  }

  /** x = 0, z = 1: LD rp[p],nn and ADD HL,rp[p]. */
  function X0Z1(s: State, p: nat, q: nat, nn: word): (u: State)
    requires p < 4 && q < 2
    ensures q == 0 ==> GetPair(u, Rp(p)) == nn && u.t == 12 && u.pc == (s.pc + 3) % 0x1_0000
    ensures q == 0 ==> forall r: Pair :: r != Rp(p) ==> GetPair(u, r) == GetPair(s, r)
    ensures q == 0 ==> u.mem == s.mem
    ensures q == 1 ==> u == AddHl(s, p)
  {
    if q == 0 then Done(SetPair(s, Rp(p), nn), 12, 3)
    else AddHl(s, p)
  }

  /** The address of the indirect loads and stores of x = 0, z = 2: BC, DE, HL, HL. */
  function IndirectAddress(s: State, p: nat): word
    requires p < 4
  {
    match p
    case 0 => s.bc
    case 1 => s.de
    case _ => s.hl
  }

  /**
   * x = 0, z = 2: LD (BC),A, LD (DE),A, LD (HL+),A, LD (HL-),A (q = 0) and
   * the loads into A the other way round (q = 1). HL+ and HL- step HL with
   * the 16-bit `inc`/`dec` after the access.
   */
  function X0Z2(s: State, p: nat, q: nat): (u: State)
    requires p < 4 && q < 2
    ensures var at := IndirectAddress(s, p);
            && (q == 0 ==> u.mem == Write8(s.mem, Get(s, A), at) && Get(u, A) == Get(s, A))
            && (q == 1 ==> Get(u, A) == s.mem[at] && u.mem == s.mem)
    ensures u.hl == (match p
                     case 2 => (s.hl + 1) % 0x1_0000
                     case 3 => (s.hl - 1) % 0x1_0000
                     case _ => s.hl)
    ensures Flags(u) == Flags(s) && u.bc == s.bc && u.de == s.de && u.sp == s.sp
    ensures u.t == 8 && u.pc == (s.pc + 1) % 0x1_0000
  {
    var at := IndirectAddress(s, p);
    var s1 := if q == 0 then s.(mem := Write8(s.mem, Get(s, A), at)) else Set(s, A, s.mem[at]);
    var s2 := match p
              case 2 => s1.(hl := Inc16(s1.hl))
              case 3 => s1.(hl := Dec16(s1.hl))
              case _ => s1;
    Done(s2, 8, 1)
  }

  /** x = 0, z = 3: INC rp[p] and DEC rp[p]; no flag changes. */
  function X0Z3(s: State, p: nat, q: nat): (u: State)
    requires p < 4 && q < 2
    ensures GetPair(u, Rp(p)) == (if q == 0 then (GetPair(s, Rp(p)) + 1) % 0x1_0000
                                  else (GetPair(s, Rp(p)) - 1) % 0x1_0000)
    ensures forall r: Pair :: r != Rp(p) ==> GetPair(u, r) == GetPair(s, r)
    ensures u.t == 8 && u.pc == (s.pc + 1) % 0x1_0000 && u.mem == s.mem
  {
    var w := GetPair(s, Rp(p));
    Done(SetPair(s, Rp(p), if q == 0 then Inc16(w) else Dec16(w)), 8, 1)
  }

  /** x = 0, z = 4 and 5: INC r[y] and DEC r[y] with the 8-bit flag rules. */
  function IncDec(s: State, y: nat, inc: bool): (u: State)
    requires y < 8
    ensures var before := Load(s, R(y));
            var after := Load(u, R(y));
            && after == (if inc then (before + 1) % 0x100 else (before - 1) % 0x100)
            && (Zf(Flags(u)) <==> after == 0)
            && Nf(Flags(u)) == !inc
            && (Hf(Flags(u)) <==> before % 0x10 == (if inc then 0xF else 0))
            && Cf(Flags(u)) == Cf(Flags(s))
            && LowBitsKept(Flags(s), Flags(u))
    ensures OthersKept(s, u, R(y))
    ensures u.t == (if y == 6 then 12 else 4) && u.pc == (s.pc + 1) % 0x1_0000
  {
    var o := R(y);
    var r := if inc then Inc8(Load(s, o), Flags(s)) else Dec8(Load(s, o), Flags(s));
    Done(WithFlags(Store(s, o, r.x), r.flags), if y == 6 then 12 else 4, 1)
  }

  /** x = 0, z = 6: LD r[y],n. */
  function LoadImmediate(s: State, y: nat, n: byte): (u: State)
    requires y < 8
    ensures Load(u, R(y)) == n
    ensures Flags(u) == Flags(s) && OthersKept(s, u, R(y))
    ensures u.t == (if y == 6 then 12 else 8) && u.pc == (s.pc + 2) % 0x1_0000
  {
    Done(Store(s, R(y), n), if y == 6 then 12 else 8, 2)
  }

  /**
   * x = 0, z = 7: RLCA, RRCA, RLA, RRA, which afterwards keep only bits 0
   * to 4 of the flags (`f & 0x1F`, so Z, N and H are clear), then DAA, CPL,
   * SCF and CCF.
   */
  function X0Z7(s: State, y: nat): (u: State)
    requires y < 8
    ensures Out8(Get(u, A), Flags(u)) == AccumulatorOp(y, Get(s, A), Flags(s))
    ensures u.bc == s.bc && u.de == s.de && u.hl == s.hl && u.sp == s.sp && u.mem == s.mem
    ensures u.t == 4 && u.pc == (s.pc + 1) % 0x1_0000
  {
    var r := AccumulatorOp(y, Get(s, A), Flags(s));
    Done(WithFlags(Set(s, A, r.x), r.flags), 4, 1)
  }

  /**
   * The operations of x = 0, z = 7 on A and the flags: RLCA, RRCA, RLA and
   * RRA are `rot[y]` followed by `f & 0x1F`, then DAA, CPL, SCF and CCF.
   */
  function AccumulatorOp(y: nat, a: byte, f: byte): (r: Out8)
    requires y < 8
    ensures y < 4 ==> r.x == Rot(y, a, f).x
    ensures y < 4 ==> !Zf(r.flags) && !Nf(r.flags) && !Hf(r.flags)
    ensures y < 4 ==> Cf(r.flags) == Cf(Rot(y, a, f).flags)
    ensures y == 4 ==> r == Daa(a, f)
    ensures y == 5 ==> a + r.x == 0xFF
    ensures y == 5 ==> Nf(r.flags) && Hf(r.flags) && Cf(r.flags) == Cf(f)
    ensures y >= 6 ==> r.x == a && !Nf(r.flags) && !Hf(r.flags)
    ensures y >= 5 ==> Zf(r.flags) == Zf(f)
    ensures y == 6 ==> Cf(r.flags)
    ensures y == 7 ==> Cf(r.flags) == !Cf(f)
    ensures LowBitsKept(f, r.flags)
  {
    match y
    case 4 => Daa(a, f)
    case 5 => Cpl(a, f)
    case 6 => Out8(a, Scf(f))
    case 7 => Out8(a, Ccf(f))
    case _ => var o := Rot(y, a, f); Out8(o.x, KeepCarry(o.flags))
  }

  /** The opcodes with x = 0. */
  function X0(s: State, v: Fields, b2: byte, nn: word): State
    requires ValidFields(v) && v.x == 0
  {
    match v.z
    case 0 => X0Z0(s, v.y, b2, nn)
    case 1 => X0Z1(s, v.p, v.q, nn)
    case 2 => X0Z2(s, v.p, v.q)
    case 3 => X0Z3(s, v.p, v.q)
    case 4 => IncDec(s, v.y, true)
    case 5 => IncDec(s, v.y, false)
    case 6 => LoadImmediate(s, v.y, b2)
    case _ => X0Z7(s, v.y)
  }

  // ---------------------------------------------------------------------
  // Unprefixed opcodes, x = 1 and x = 2
  // ---------------------------------------------------------------------

  /**
   * x = 1: LD r[y],r[z], 8 cycles when the byte at HL takes part, 4
   * otherwise. y = z = 6 (HALT) is left empty and changes nothing.
   */
  function X1(s: State, y: nat, z: nat): (u: State)
    requires y < 8 && z < 8
    ensures y == 6 && z == 6 ==> u == s
    ensures !(y == 6 && z == 6) ==> Load(u, R(y)) == Load(s, R(z))
    ensures !(y == 6 && z == 6) ==> u.t == (if y == 6 || z == 6 then 8 else 4)
    ensures !(y == 6 && z == 6) ==> u.pc == (s.pc + 1) % 0x1_0000
    ensures Flags(u) == Flags(s) && OthersKept(s, u, R(y))
  {
    if y == 6 && z == 6 then s
    else Done(Store(s, R(y), Load(s, R(z))), if y == 6 || z == 6 then 8 else 4, 1)
  }

  /** An accumulator operation al[y] with operand `b`: A and the flags change. */
  function Accumulate(s: State, y: nat, b: byte): (u: State)
    requires y < 8
    ensures Out8(Get(u, A), Flags(u)) == Al(y, Get(s, A), b, Flags(s))
    ensures u.bc == s.bc && u.de == s.de && u.hl == s.hl && u.sp == s.sp && u.mem == s.mem
    ensures u.pc == s.pc && u.t == s.t
  {
    var r := Al(y, Get(s, A), b, Flags(s));
    WithFlags(Set(s, A, r.x), r.flags)
  }

  /** x = 2: al[y] A,r[z], 8 cycles for the byte at HL and 4 for a register. */
  function X2(s: State, y: nat, z: nat): (u: State)
    requires y < 8 && z < 8
    ensures Out8(Get(u, A), Flags(u)) == Al(y, Get(s, A), Load(s, R(z)), Flags(s))
    ensures u.bc == s.bc && u.de == s.de && u.hl == s.hl && u.sp == s.sp && u.mem == s.mem
    ensures u.t == (if z == 6 then 8 else 4) && u.pc == (s.pc + 1) % 0x1_0000
  {
    Done(Accumulate(s, y, Load(s, R(z))), if z == 6 then 8 else 4, 1)
  }

  // ---------------------------------------------------------------------
  // Unprefixed opcodes, x = 3
  // ---------------------------------------------------------------------

  /**
   * RET and the taken RET cc: pop PC, then `pc += 1`, so PC ends one past
   * the popped address.
   */
  function Return(s: State, t: word): (u: State)
    ensures u.pc == (Get16(s.mem, s.sp) + 1) % 0x1_0000
    ensures u.sp == (s.sp + 2) % 0x1_0000
    ensures u.t == t
    ensures u.af == s.af && u.bc == s.bc && u.de == s.de && u.hl == s.hl && u.mem == s.mem
  {
    var r := Ret(StackOf(s));
    Done(s.(pc := r.pc, sp := r.stack.sp), t, 1)
  }

  /** The high-page address 0xFF00 + n of LDH. */
  function HighPage(n: byte): (a: word)
    ensures a >= 0xFF00
  {
    0xFF00 + n
  }

  /** x = 3, z = 0: RET cc, LDH (n),A, ADD SP,d, LDH A,(n) and LD HL,SP+d. */
  function X3Z0(s: State, y: nat, n: byte): (u: State)
    requires y < 8
    ensures y < 4 && !Cond(y, Flags(s)) ==> u.t == 8 && u.pc == (s.pc + 1) % 0x1_0000 && OnlyFlow(s, u)
    ensures y < 4 && Cond(y, Flags(s)) ==> u.t == 20 && u.pc == (Get16(s.mem, s.sp) + 1) % 0x1_0000
    ensures y < 4 && Cond(y, Flags(s)) ==> u.sp == (s.sp + 2) % 0x1_0000
    ensures y < 4 ==> u.af == s.af && u.bc == s.bc && u.de == s.de && u.hl == s.hl && u.mem == s.mem
    ensures y == 4 ==> u.t == 12 && u.mem == Write8(s.mem, Get(s, A), HighPage(n))
    ensures y == 4 ==> u.af == s.af && u.sp == s.sp && u.hl == s.hl
    ensures y == 5 || y == 7 ==> var sum := (s.sp + Signed8(n)) % 0x1_0000;
                                 && (if y == 5 then u.sp == sum && u.hl == s.hl else u.hl == sum && u.sp == s.sp)
                                 && !Zf(Flags(u)) && !Nf(Flags(u))
                                 && (Hf(Flags(u)) <==> s.sp % 0x10 + n % 0x10 >= 0x10)
                                 && (Cf(Flags(u)) <==> Lo(s.sp) + n >= 0x100)
                                 && LowBitsKept(Flags(s), Flags(u))
                                 && Get(u, A) == Get(s, A) && u.mem == s.mem
    ensures y == 5 ==> u.t == 16
    ensures y == 6 ==> u.t == 12 && Get(u, A) == s.mem[HighPage(n)] && Flags(u) == Flags(s)
    ensures y == 6 ==> u.sp == s.sp && u.hl == s.hl && u.mem == s.mem
    ensures y == 7 ==> u.t == 12
    ensures y >= 4 ==> u.pc == (s.pc + 2) % 0x1_0000 && u.bc == s.bc && u.de == s.de
  {
    match y
    case 4 => Done(s.(mem := Write8(s.mem, Get(s, A), HighPage(n))), 12, 2)
    case 5 =>
      var r := AddSigned(s.sp, n, Flags(s));
      Done(WithFlags(s.(sp := r.x), r.flags), 16, 2)
    case 6 => Done(Set(s, A, s.mem[HighPage(n)]), 12, 2)
    case 7 =>
      var r := AddSigned(s.sp, n, Flags(s));
      Done(WithFlags(s.(hl := r.x), r.flags), 12, 2)
    case _ => if Cond(y, Flags(s)) then Return(s, 20) else Done(s, 8, 1)
  }

  /**
   * POP rf[p]: the pair gets the word at SP and SP rises by two. Popping into
   * AF then clears the low nibble of F (`f & 0xF0`).
   */
  function PopPair(s: State, p: nat): (u: State)
    requires p < 4
    ensures p < 3 ==> GetPair(u, Rf(p)) == Get16(s.mem, s.sp)
    ensures p == 3 ==> Get(u, A) == Hi(Get16(s.mem, s.sp))
    ensures p == 3 ==> Flags(u) == FlagNibble(Lo(Get16(s.mem, s.sp)))
    ensures u.sp == (s.sp + 2) % 0x1_0000 && u.mem == s.mem
    ensures forall r: Pair :: r != Rf(p) && r != SP ==> GetPair(u, r) == GetPair(s, r)
    ensures u.t == 12 && u.pc == (s.pc + 1) % 0x1_0000
  {
    var r := Pop(StackOf(s));
    var s1 := SetPair(s.(sp := r.stack.sp), Rf(p), r.val);
    var s2 := if p == 3 then WithFlags(s1, FlagNibble(Flags(s1))) else s1;
    Done(s2, 12, 1)
  }

  /** x = 3, z = 1: POP rf[p], RET, RETI, JP HL and LD SP,HL. */
  function X3Z1(s: State, p: nat, q: nat): (u: State)
    requires p < 4 && q < 2
    ensures q == 1 && p < 2 ==> u.pc == (Get16(s.mem, s.sp) + 1) % 0x1_0000 && u.t == 16
    ensures q == 1 && p < 2 ==> u.sp == (s.sp + 2) % 0x1_0000
    ensures q == 1 && p == 2 ==> u.pc == (s.hl + 1) % 0x1_0000 && u.t == 4 && u.sp == s.sp
    ensures q == 1 && p == 3 ==> u.sp == s.hl && u.t == 8 && u.pc == (s.pc + 1) % 0x1_0000
    ensures q == 1 ==> u.af == s.af && u.bc == s.bc && u.de == s.de && u.hl == s.hl && u.mem == s.mem
    ensures q == 0 ==> u == PopPair(s, p)
  {
    if q == 0 then PopPair(s, p)
    else
      match p
      case 0 => Return(s, 16)
      case 1 => Return(s, 16) // RETI: interrupts are not enabled
      case 2 => Done(s.(pc := s.hl), 4, 1)
      case _ => Done(s.(sp := s.hl), 8, 1)
  }

  /** JP to `target`: `jp`, then `pc += 1`. */
  function Jump(s: State, target: word, t: word): (u: State)
    ensures u.pc == (target + 1) % 0x1_0000 && u.t == t
    ensures u.af == s.af && u.bc == s.bc && u.de == s.de && u.hl == s.hl
    ensures u.sp == s.sp && u.mem == s.mem
  {
    Done(s.(pc := target), t, 1)
  }

  /** x = 3, z = 2: JP cc,nn and the loads between A and (FF00+C) or (nn). */
  function X3Z2(s: State, y: nat, nn: word): (u: State)
    requires y < 8
    ensures y < 4 && Cond(y, Flags(s)) ==> u.pc == (nn + 1) % 0x1_0000 && u.t == 16
    ensures y < 4 && !Cond(y, Flags(s)) ==> u.pc == (s.pc + 3) % 0x1_0000 && u.t == 12
    ensures y < 4 ==> OnlyFlow(s, u)
    ensures y == 4 ==> u.mem == Write8(s.mem, Get(s, A), HighPage(Get(s, C)))
    ensures y == 5 ==> u.mem == Write8(s.mem, Get(s, A), nn)
    ensures y == 6 ==> Get(u, A) == s.mem[HighPage(Get(s, C))]
    ensures y == 7 ==> Get(u, A) == s.mem[nn]
    ensures y == 4 || y == 6 ==> u.t == 8 && u.pc == (s.pc + 1) % 0x1_0000
    ensures y == 5 || y == 7 ==> u.t == 16 && u.pc == (s.pc + 3) % 0x1_0000
    ensures y == 4 || y == 5 ==> u.af == s.af
    ensures y >= 6 ==> Flags(u) == Flags(s) && u.mem == s.mem
    ensures y >= 4 ==> u.bc == s.bc && u.de == s.de && u.hl == s.hl && u.sp == s.sp
  {
    match y
    case 4 => Done(s.(mem := Write8(s.mem, Get(s, A), HighPage(Get(s, C)))), 8, 1)
    case 5 => Done(s.(mem := Write8(s.mem, Get(s, A), nn)), 16, 3)
    case 6 => Done(Set(s, A, s.mem[HighPage(Get(s, C))]), 8, 1)
    case 7 => Done(Set(s, A, s.mem[nn]), 16, 3)
    case _ => if Cond(y, Flags(s)) then Jump(s, nn, 16) else Done(s, 12, 3)
  }

  /**
   * A taken CALL: push `pc + 2` and load nn (`call`), then `pc += 1`. Paired
   * with RET, which adds one more, the call returns to `pc + 3`.
   */
  function CallTo(s: State, nn: word): (u: State)
    ensures u.pc == (nn + 1) % 0x1_0000 && u.t == 24
    ensures u.sp == (s.sp - 2) % 0x1_0000
    ensures Get16(u.mem, u.sp) == (s.pc + 2) % 0x1_0000
    ensures forall a: word :: a != u.sp && a != Next(u.sp) ==> u.mem[a] == s.mem[a]
    ensures u.af == s.af && u.bc == s.bc && u.de == s.de && u.hl == s.hl
  {
    var r := Call(s.pc, StackOf(s), nn);
    Done(s.(pc := r.pc, sp := r.stack.sp, mem := r.stack.mem), 24, 1)
  }

  /** PUSH rf[p]: the pair goes to the two bytes below SP, and SP falls by two. */
  function PushPair(s: State, p: nat): (u: State)
    requires p < 4
    ensures u.sp == (s.sp - 2) % 0x1_0000
    ensures Get16(u.mem, u.sp) == GetPair(s, Rf(p))
    ensures forall a: word :: a != u.sp && a != Next(u.sp) ==> u.mem[a] == s.mem[a]
    ensures u.af == s.af && u.bc == s.bc && u.de == s.de && u.hl == s.hl
    ensures u.t == 16 && u.pc == (s.pc + 1) % 0x1_0000
  {
    var r := Push16(StackOf(s), GetPair(s, Rf(p)));
    Get16Write16(s.mem, GetPair(s, Rf(p)), r.sp);
    Done(s.(sp := r.sp, mem := r.mem), 16, 1)
  }

  /** RST y*8: push PC, load the vector (`rst`), then `pc += 1`. */
  function Restart(s: State, y: nat): (u: State)
    requires y < 8
    ensures u.pc == y * 8 + 1 && u.t == 16
    ensures u.sp == (s.sp - 2) % 0x1_0000
    ensures Get16(u.mem, u.sp) == s.pc
    ensures forall a: word :: a != u.sp && a != Next(u.sp) ==> u.mem[a] == s.mem[a]
    ensures u.af == s.af && u.bc == s.bc && u.de == s.de && u.hl == s.hl
  {
    var r := Rst(s.pc, y * 8, StackOf(s));
    Done(s.(pc := r.pc, sp := r.stack.sp, mem := r.stack.mem), 16, 1)
  }

  /**
   * x = 3, z = 3: JP nn. The CB prefix (y = 1) never gets here; DI and EI
   * (y = 6, 7) and the other slots are left empty.
   */
  function X3Z3(s: State, y: nat, nn: word): (u: State)
    requires y < 8
    ensures y == 0 ==> u.pc == (nn + 1) % 0x1_0000 && u.t == 16
    ensures y != 0 ==> u == s
  {
    if y == 0 then Jump(s, nn, 16) else s
  }

  /** x = 3, z = 4: CALL cc,nn; the slots y = 4..7 are left empty. */
  function X3Z4(s: State, y: nat, nn: word): (u: State)
    requires y < 8
    ensures y < 4 && Cond(y, Flags(s)) ==> u == CallTo(s, nn)
    ensures y < 4 && !Cond(y, Flags(s)) ==> u.pc == (s.pc + 3) % 0x1_0000 && u.t == 12 && OnlyFlow(s, u)
    ensures y >= 4 ==> u == s
  {
    if y < 4 then (if Cond(y, Flags(s)) then CallTo(s, nn) else Done(s, 12, 3))
    else s
  }

  /**
   * x = 3, z = 5: PUSH rf[p] and CALL nn. The prefixes DD, ED and FD
   * (q = 1, p > 0) never get here.
   */
  function X3Z5(s: State, p: nat, q: nat, nn: word): (u: State)
    requires p < 4 && q < 2
    ensures q == 0 ==> u == PushPair(s, p)
    ensures q == 1 && p == 0 ==> u == CallTo(s, nn)
    ensures q == 1 && p != 0 ==> u == s
  {
    if q == 0 then PushPair(s, p)
    else if p == 0 then CallTo(s, nn)
    else s
  }

  /** x = 3, z = 6: al[y] A,n on the immediate byte, in 8 cycles and two bytes. */
  function AluImmediate(s: State, y: nat, n: byte): (u: State)
    requires y < 8
    ensures Out8(Get(u, A), Flags(u)) == Al(y, Get(s, A), n, Flags(s))
    ensures u.bc == s.bc && u.de == s.de && u.hl == s.hl && u.sp == s.sp && u.mem == s.mem
    ensures u.t == 8 && u.pc == (s.pc + 2) % 0x1_0000
  {
    Done(Accumulate(s, y, n), 8, 2)
  }

  /** The opcodes with x = 3. */
  function X3(s: State, v: Fields, b2: byte, nn: word): State
    requires ValidFields(v) && v.x == 3
  {
    match v.z
    case 0 => X3Z0(s, v.y, b2)
    case 1 => X3Z1(s, v.p, v.q)
    case 2 => X3Z2(s, v.y, nn)
    case 3 => X3Z3(s, v.y, nn)
    case 4 => X3Z4(s, v.y, nn)
    case 5 => X3Z5(s, v.p, v.q, nn)
    case 6 => AluImmediate(s, v.y, b2)
    case _ => Restart(s, v.y)
  }

  // ---------------------------------------------------------------------
  // The whole instruction
  // ---------------------------------------------------------------------

  /**
   * `CPU::instruction(b3, b2, b1, b0)`. The prefixes DD, ED and FD change
   * nothing; every CB instruction is two bytes long and keeps SP; the loads
   * LD r,r' (x = 1) never touch the flags or SP; and the accumulator
   * operations al[y] A,r (x = 2) are one byte long and change only A and F.
   */
  function Step(s: State, b3: byte, b2: byte, b1: byte, b0: byte): (u: State)
    ensures b3 == 0xDD || b3 == 0xED || b3 == 0xFD ==> u == s
    ensures b3 == 0xCB ==> u.pc == (s.pc + 2) % 0x1_0000 && u.sp == s.sp
    ensures OpcodeValues(b3).x == 1 ==> Flags(u) == Flags(s) && u.sp == s.sp
    ensures OpcodeValues(b3).x == 2 ==> u.pc == (s.pc + 1) % 0x1_0000 && u.bc == s.bc && u.de == s.de
                                         && u.hl == s.hl && u.sp == s.sp && u.mem == s.mem
  {
    if b3 == 0xCB then Prefixed(s, b2)
    else if b3 == 0xDD || b3 == 0xED || b3 == 0xFD then s
    else
      var v := OpcodeValues(b3);
      var nn := BytesTo16(b1, b2);
      match v.x
      case 0 => X0(s, v, b2, nn)
      case 1 => X1(s, v.y, v.z)
      case 2 => X2(s, v.y, v.z)
      case _ => X3(s, v, b2, nn)
  }
}
