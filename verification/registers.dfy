/**
 * The register file of `CPU` and the tables `r`, `rp` and `rf` through which
 * the decoder names registers.
 *
 * The C++ keeps six `uint16_t` registers (AF, BC, DE, HL, SP, PC) and reaches
 * the 8-bit halves through pointers into them. On the little-endian host this
 * makes A, B, D and H the high bytes of AF, BC, DE and HL, and F, C, E and L
 * the low bytes. The model names the halves and reads and writes them with
 * `Hi`, `Lo` and `BytesTo16` instead of pointer aliasing.
 */
module Registers {
  import opened Bytes
  import opened Memory

  /** The machine: the six registers, the cycle count `t` and the memory. */
  datatype State = State(af: word, bc: word, de: word, hl: word, sp: word, pc: word, t: word, mem: Mem)

  /**
   * The static initialisers of `CPU` and `Memory`: every register and the
   * cycle count zero except SP, which starts at 0xFFFF, and memory zeroed.
   */
  function Initial(): (u: State)
    ensures forall r: Reg8 :: Get(u, r) == 0
    ensures u.sp == 0xFFFF && u.pc == 0 && u.t == 0
    ensures forall a: word :: u.mem[a] == 0
  {
    State(0, 0, 0, 0, 0xFFFF, 0, 0, Zeroed())
  }

  /** The eight 8-bit registers. F holds the flags. */
  datatype Reg8 = A | F | B | C | D | E | H | L

  /** The five 16-bit registers the instructions name as pairs. */
  datatype Pair = AF | BC | DE | HL | SP

  /** The 8-bit register `r` as the getters `get_a` ... `get_l` read it. */
  function Get(s: State, r: Reg8): byte
  {
    match r
    case A => Hi(s.af)
    case F => Lo(s.af)
    case B => Hi(s.bc)
    case C => Lo(s.bc)
    case D => Hi(s.de)
    case E => Lo(s.de)
    case H => Hi(s.hl)
    case L => Lo(s.hl)
  }

  /**
   * The setters `set_a` ... `set_l`: write one 8-bit register. The other half
   * of its pair, every other register, `t` and the memory are unchanged.
   */
  function Set(s: State, r: Reg8, v: byte): (u: State)
    ensures Get(u, r) == v
    ensures forall q: Reg8 :: q != r ==> Get(u, q) == Get(s, q)
    ensures u.sp == s.sp && u.pc == s.pc && u.t == s.t && u.mem == s.mem
  {
    SplitCompose(s.af);
    SplitCompose(s.bc);
    SplitCompose(s.de);
    SplitCompose(s.hl);
    match r
    case A => s.(af := BytesTo16(v, Lo(s.af)))
    case F => s.(af := BytesTo16(Hi(s.af), v))
    case B => s.(bc := BytesTo16(v, Lo(s.bc)))
    case C => s.(bc := BytesTo16(Hi(s.bc), v))
    case D => s.(de := BytesTo16(v, Lo(s.de)))
    case E => s.(de := BytesTo16(Hi(s.de), v))
    case H => s.(hl := BytesTo16(v, Lo(s.hl)))
    case L => s.(hl := BytesTo16(Hi(s.hl), v))
  }

  /** The flags byte: AF holds A in its high byte and this byte in its low one. */
  function Flags(s: State): (f: byte)
    ensures BytesTo16(Get(s, A), f) == s.af
  {
    Get(s, F)
  }

  /** A 16-bit register, as `rp`, `rf` and `get_sp` reach it. */
  function GetPair(s: State, p: Pair): word
  {
    match p
    case AF => s.af
    case BC => s.bc
    case DE => s.de
    case HL => s.hl
    case SP => s.sp
  }

  /** Write a 16-bit register; every other register, `t` and the memory are unchanged. */
  function SetPair(s: State, p: Pair, w: word): (u: State)
    ensures GetPair(u, p) == w
    ensures forall q: Pair :: q != p ==> GetPair(u, q) == GetPair(s, q)
    ensures u.pc == s.pc && u.t == s.t && u.mem == s.mem
  {
    match p
    case AF => s.(af := w)
    case BC => s.(bc := w)
    case DE => s.(de := w)
    case HL => s.(hl := w)
    case SP => s.(sp := w)
  }

  /** An 8-bit operand: a register, or the byte at the address in HL. */
  datatype Operand = Reg(r: Reg8) | AtHl

  /**
   * The table `r`: B, C, D, E, H, L, -, A. Entry 6 is a null pointer in the
   * C++, and every use of it goes to the byte at HL instead; the model puts
   * `AtHl` there.
   */
  function R(i: nat): (o: Operand)
    requires i < 8
    ensures o == AtHl <==> i == 6
    ensures o != Reg(F)
  {
    match i
    case 0 => Reg(B)
    case 1 => Reg(C)
    case 2 => Reg(D)
    case 3 => Reg(E)
    case 4 => Reg(H)
    case 5 => Reg(L)
    case 6 => AtHl
    case _ => Reg(A)
  }

  /** The table `rp`: BC, DE, HL, SP. */
  function Rp(p: nat): (q: Pair)
    requires p < 4
    ensures q != AF
    ensures q == SP <==> p == 3
  {
    match p
    case 0 => BC
    case 1 => DE
    case 2 => HL
    case _ => SP
  }

  /** The table `rf`: BC, DE, HL, AF. */
  function Rf(p: nat): (q: Pair)
    requires p < 4
    ensures q != SP
    ensures q == AF <==> p == 3
    ensures p < 3 ==> q == Rp(p)
  {
    match p
    case 0 => BC
    case 1 => DE
    case 2 => HL
    case _ => AF
  }

  /** Read an operand. */
  function Load(s: State, o: Operand): byte
  {
    match o
    case Reg(r) => Get(s, r)
    case AtHl => s.mem[s.hl]
  }

  /**
   * `u` agrees with `s` everywhere an instruction on the operand `o` must not
   * reach: every 8-bit register other than F and `o`, SP, and every byte of
   * memory other than the one `o` names.
   */
  predicate OthersKept(s: State, u: State, o: Operand)
  {
    && (forall q: Reg8 :: q != F && Reg(q) != o ==> Get(u, q) == Get(s, q))
    && u.sp == s.sp
    && (o.Reg? ==> u.mem == s.mem)
    && (o == AtHl ==> forall a: word :: a != s.hl ==> u.mem[a] == s.mem[a])
  }

  /**
   * Write an operand: a register, or the byte at HL. Nothing but that byte
   * changes, and SP, PC and `t` never do.
   */
  function Store(s: State, o: Operand, v: byte): (u: State)
    ensures Load(u, o) == v
    ensures u.sp == s.sp && u.pc == s.pc && u.t == s.t
    ensures o == AtHl ==> u.af == s.af && u.bc == s.bc && u.de == s.de && u.hl == s.hl
    ensures o == AtHl ==> forall a: word :: a != s.hl ==> u.mem[a] == s.mem[a]
    ensures o.Reg? ==> u.mem == s.mem && forall q: Reg8 :: q != o.r ==> Get(u, q) == Get(s, q)
    ensures OthersKept(s, u, o)
  {
    match o
    case Reg(r) => Set(s, r, v)
    case AtHl => s.(mem := Write8(s.mem, v, s.hl))
  }

  /**
   * The getters and the pairs agree on the little-endian layout: A, B, D and
   * H are the high bytes of AF, BC, DE and HL, and F, C, E and L the low
   * bytes; the flags byte is F.
   */
  lemma PairHalves(s: State)
    ensures GetPair(s, AF) == BytesTo16(Get(s, A), Get(s, F))
    ensures GetPair(s, BC) == BytesTo16(Get(s, B), Get(s, C))
    ensures GetPair(s, DE) == BytesTo16(Get(s, D), Get(s, E))
    ensures GetPair(s, HL) == BytesTo16(Get(s, H), Get(s, L))
    ensures Flags(s) == Get(s, F)
  {
    SplitCompose(s.af);
    SplitCompose(s.bc);
    SplitCompose(s.de);
    SplitCompose(s.hl);
  }

  /** Writing back the value a register already holds changes nothing. */
  lemma SetGet(s: State, r: Reg8)
    ensures Set(s, r, Get(s, r)) == s
  {
    SplitCompose(s.af);
    SplitCompose(s.bc);
    SplitCompose(s.de);
    SplitCompose(s.hl);
  }

  /** Writes to two different 8-bit registers commute. */
  lemma SetCommutes(s: State, r: Reg8, q: Reg8, v: byte, w: byte)
    requires r != q
    ensures Set(Set(s, r, v), q, w) == Set(Set(s, q, w), r, v)
  {
    var u1 := Set(Set(s, r, v), q, w);
    var u2 := Set(Set(s, q, w), r, v);
    PairHalves(u1);
    PairHalves(u2);
  }

  /** The eight entries of the table `r` are pairwise different places. */
  lemma RInjective(i: nat, j: nat)
    requires i < 8 && j < 8 && R(i) == R(j)
    ensures i == j
  {
  }
}
