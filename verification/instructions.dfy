/**
 * The instruction primitives (`instructions`): relative jumps and the stack
 * operations that the decoder combines into JR, PUSH, POP, CALL, RET and RST.
 *
 * The stack grows downwards from `sp`: a push first stores below `sp` and
 * then lowers it, a pop reads at `sp` and then raises it. Stack-pointer
 * arithmetic is on `uint16_t` and therefore wraps modulo 0x10000.
 */
module Instructions {
  import opened Bytes
  import opened Alu
  import opened Memory

  /** The part of the machine the stack primitives touch. */
  datatype Stack = Stack(mem: Mem, sp: word)

  /** The word a pop produces and the stack it leaves. */
  datatype Popped = Popped(val: word, stack: Stack)

  /** The program counter and stack after a call or a restart. */
  datatype Flow = Flow(pc: word, stack: Stack)

  /** `sp -= k` on a `uint16_t`. */
  function Below(sp: word, k: nat): (r: word)
    requires k <= 2
    ensures r == if sp >= k then sp - k else sp - k + 0x1_0000
  {
    (sp - k) % 0x1_0000
  }

  /** `sp += k` on a `uint16_t`. */
  function Above(sp: word, k: nat): (r: word)
    requires k <= 2
    ensures r == if sp + k < 0x1_0000 then sp + k else sp + k - 0x1_0000
  {
    (sp + k) % 0x1_0000
  }

  /**
   * `jr`: add the sign-extended offset to the program counter with the
   * 16-bit `add`, whose flags go to a scratch byte and are thrown away. The
   * scratch byte is uninitialised in the C++; `scratch` stands for whatever
   * it holds, and the result does not depend on it.
   */
  function Jr(pc: word, offset: byte, scratch: byte): (r: word)
    ensures r == (pc + Signed8(offset)) % 0x1_0000
    ensures Signed8(offset) >= 0 ==> r == (pc + offset) % 0x1_0000
    ensures Signed8(offset) < 0 ==> r == (pc + offset - 0x100) % 0x1_0000
  {
    Add16(pc, ByteTo16(offset), scratch).x
  }

  /** `pop`: the word at the top of the stack; `sp` rises by two. */
  function Pop(s: Stack): (r: Popped)
    ensures Lo(r.val) == s.mem[s.sp] && Hi(r.val) == s.mem[Next(s.sp)]
    ensures r.stack.mem == s.mem
    ensures r.stack.sp == (s.sp + 2) % 0x1_0000
  {
    Popped(Get16(s.mem, s.sp), Stack(s.mem, Above(s.sp, 2)))
  }

  /** `ret`: the popped word becomes the program counter. */
  function Ret(s: Stack): (r: Flow)
    ensures Lo(r.pc) == s.mem[s.sp] && Hi(r.pc) == s.mem[Next(s.sp)]
    ensures r.stack == Stack(s.mem, (s.sp + 2) % 0x1_0000)
  {
    var p := Pop(s);
    Flow(p.val, p.stack)
  }

  /** The 8-bit `push`: the byte goes just below `sp`; `sp` falls by one. */
  function Push8(s: Stack, val: byte): (r: Stack)
    ensures r.sp == (s.sp - 1) % 0x1_0000
    ensures r.mem[r.sp] == val
    ensures forall a: word :: a != r.sp ==> r.mem[a] == s.mem[a]
  {
    var sp := Below(s.sp, 1);
    Stack(Write8(s.mem, val, sp), sp)
  }

  /**
   * The 16-bit `push`: the word goes into the two bytes below `sp`, low byte
   * first; `sp` falls by two and points at the low byte.
   */
  function Push16(s: Stack, val: word): (r: Stack)
    ensures r.sp == (s.sp - 2) % 0x1_0000
    ensures r.mem[r.sp] == Lo(val) && r.mem[Next(r.sp)] == Hi(val)
    ensures forall a: word :: a != r.sp && a != Next(r.sp) ==> r.mem[a] == s.mem[a]
  {
    var sp := Below(s.sp, 2);
    Stack(Write16(s.mem, val, sp), sp)
  }

  /**
   * `call`: push `pc + 2` (a `uint16_t` sum) and load `val` into the program
   * counter.
   */
  function Call(pc: word, s: Stack, val: word): (r: Flow)
    ensures r.pc == val
    ensures r.stack.sp == (s.sp - 2) % 0x1_0000
    ensures Get16(r.stack.mem, r.stack.sp) == (pc + 2) % 0x1_0000
    ensures forall a: word :: a != r.stack.sp && a != Next(r.stack.sp) ==> r.stack.mem[a] == s.mem[a]
  {
    Get16Write16(s.mem, (pc + 2) % 0x1_0000, Below(s.sp, 2));
    Flow(val, Push16(s, (pc + 2) % 0x1_0000))
  }

  /** `rst`: push the program counter unchanged and load the vector `val`. */
  function Rst(pc: word, val: byte, s: Stack): (r: Flow)
    ensures r.pc == val
    ensures r.stack.sp == (s.sp - 2) % 0x1_0000
    ensures Get16(r.stack.mem, r.stack.sp) == pc
    ensures forall a: word :: a != r.stack.sp && a != Next(r.stack.sp) ==> r.stack.mem[a] == s.mem[a]
  {
    Get16Write16(s.mem, pc, Below(s.sp, 2));
    Flow(val, Push16(s, pc))
  }

  /** Whatever the scratch flags byte holds, `jr` lands at the same place. */
  lemma JrIgnoresScratch(pc: word, offset: byte, f: byte, g: byte)
    ensures Jr(pc, offset, f) == Jr(pc, offset, g)
  {
  }

  /**
   * A pop undoes a 16-bit push: it returns the pushed word and restores the
   * stack pointer; the memory keeps the pushed bytes.
   */
  lemma PopAfterPush16(s: Stack, val: word)
    ensures Pop(Push16(s, val)) == Popped(val, Stack(Push16(s, val).mem, s.sp))
  {
    var pushed := Push16(s, val);
    Get16Write16(s.mem, val, pushed.sp);
  }

  /** Pushing back what was just popped leaves the stack as it was. */
  lemma Push16AfterPop(s: Stack)
    ensures Push16(Pop(s).stack, Pop(s).val) == s
  {
    var p := Pop(s);
    assert Below(p.stack.sp, 2) == s.sp;
    Write16Get16(s.mem, s.sp);
  }

  /** A `ret` after a `call` comes back at `pc + 2` with the old stack pointer. */
  lemma RetAfterCall(pc: word, s: Stack, val: word)
    ensures Ret(Call(pc, s, val).stack).pc == (pc + 2) % 0x1_0000
    ensures Ret(Call(pc, s, val).stack).stack.sp == s.sp
  {
    PopAfterPush16(s, (pc + 2) % 0x1_0000);
  }

  /** A `ret` after an `rst` comes back at the `pc` the `rst` saw. */
  lemma RetAfterRst(pc: word, val: byte, s: Stack)
    ensures Ret(Rst(pc, val, s).stack).pc == pc
    ensures Ret(Rst(pc, val, s).stack).stack.sp == s.sp
  {
    PopAfterPush16(s, pc);
  }

  /** `ret` is `pop` with the program counter as the destination. */
  lemma RetIsPop(s: Stack)
    ensures Ret(s).pc == Pop(s).val && Ret(s).stack == Pop(s).stack
  {
  }
}
