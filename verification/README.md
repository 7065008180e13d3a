# A verified model of a Game Boy CPU core

This project models the processor core of a small Game Boy (Sharp LR35902)
emulator written in C++, and proves properties of the model in Dafny. The
core has these parts:

- the byte library `bytelib`: composing two bytes into a word, sign
  extension, and setting and clearing single bits;
- the arithmetic and logic unit `alu`: 8- and 16-bit addition and
  subtraction, the logical operations, increment and decrement, rotates and
  shifts, BIT, DAA, CPL, SCF and CCF. Each operation updates the flags byte
  Z/N/H/C;
- the flat 64 KiB `Memory`, with byte and little-endian word access;
- the instruction primitives `jr`, `pop`, `ret`, `push`, `call` and `rst`;
- `CPU::instruction`. It is the decoder that splits an opcode into its x, y,
  z, p, q fields and runs the selected leaf. A leaf changes registers, flags
  and memory, sets the cycle count `t` and moves PC.

Modules, one per file:

| file | module | models |
|---|---|---|
| bytes.dfy | `Bytes` | `bytelib`, plus a bit library (`Bit`, `BitAnd`, `BitOr`, `BitXor`) that gives the C++ bitwise operators a meaning on integers |
| alu.dfy | `Alu` | every `alu` operation as a pure function of operand(s) and flags |
| alu_laws.dfy | `AluLaws` | inverses between ALU operations, and DAA as decimal arithmetic |
| memory.dfy | `Memory` | the 65536-byte store and its accessors |
| registers.dfy | `Registers` | the register file, the tables `r`/`rp`/`rf`, and the setters and getters |
| instructions.dfy | `Instructions` | the stack and jump primitives |
| cpu.dfy | `Cpu` | `get_opcode_values`, the tables `al`/`rot`, and every leaf of `CPU::instruction` as `Step` |
| cpu_laws.dfy | `CpuLaws` | properties of whole instructions and of instruction pairs |

`uint8_t` and `uint16_t` become the integer subtypes `byte` and `word`.
Wherever the C++ truncates on assignment, the model writes the truncation
as an explicit `% 0x100` or `% 0x1_0000`. A bitwise operator on a value
becomes a statement about the value's bits, through the predicate
`Bit(a, j)`.

The model follows the code literally, including its quirks:

- A taken JP, JP HL, CALL, RST or RET runs the jump primitive and then the
  leaf's `pc += 1`. PC therefore ends one past the target.
  - `call` pushes `pc + 2` so that the RET that follows, adding one, lands
    after the three-byte CALL.
  - `rst` pushes `pc`.
- The prefixes DD, ED and FD, HALT, DI, EI and the unused slots of the
  x = 3 block change nothing: not PC, and not `t`. `CpuLaws.EMPTY` lists
  them.
- ALU operations write only flag bits 7 to 4, and bits 3 to 0 of F pass
  through. On the LR35902 the low nibble of F always reads 0; this code
  clears it only in POP AF.
- As on the LR35902, the signed add (ADD SP,d and LD HL,SP+d) takes H and
  C from the unsigned add of the byte to the low byte of SP, and DAA never
  clears C. These are modelled as written, and the model agrees with the
  hardware here.

## Model

| member | source | states |
|---|---|---|
| Bytes.BytesTo16 | src/core/bytelib.cpp:8-11 | the first argument becomes the high byte and the second the low byte of the word |
| Bytes.SplitCompose | src/core/bytelib.cpp:8-11 | splitting a word into its halves and composing them gives the word back |
| Bytes.ByteTo16 | src/core/bytelib.cpp:13-20 | sign extension: the word read as two's complement equals the byte read as two's complement; the low byte is kept and the high byte is 0x00 or 0xFF by bit 7 |
| Bytes.SetBit8 | src/core/bytelib.cpp:22-29 | bit i is set and every other bit kept; arithmetically, 2^i is added unless the bit was already set; an index of 8 or more changes nothing |
| Bytes.SetBit16 | src/core/bytelib.cpp:31-38 | the same as SetBit8 on a word, with the cut-off at 16 |
| Bytes.ResetBit8 | src/core/bytelib.cpp:40-48 | bit i is cleared and every other bit kept; 2^i is subtracted if the bit was set; an index of 8 or more changes nothing |
| Bytes.ResetBit16 | src/core/bytelib.cpp:50-58 | the same as ResetBit8 on a word |
| Bytes.SetBitIdempotent | src/core/bytelib.cpp:22-38 | setting the same bit twice is setting it once, at both widths |
| Bytes.ResetBitIdempotent | src/core/bytelib.cpp:40-58 | clearing the same bit twice is clearing it once, at both widths |
| Bytes.ResetAfterSet | src/core/bytelib.cpp:22-58 | a reset after a set of the same bit equals a plain reset, and a set after a reset equals a plain set |
| Bytes.SetBitValue | src/core/bytelib.cpp:22-29 | `b \| (1 << i)` as a number: b itself when bit i is set, b + 2^i otherwise |
| Bytes.ResetBitValue | src/core/bytelib.cpp:40-48 | `b & ~(1 << i)` as a number: b - 2^i when bit i is set, b otherwise |
| Bytes.Not8 | src/core/bytelib.cpp:45 | the 8-bit complement flips each of the eight bits |
| Bytes.BitOfComplement | src/core/bytelib.cpp:45 | 2^n - 1 - a has exactly the flipped low n bits of a |
| Bytes.BitsDetermine | src/core/bytelib.cpp:22-58 | two numbers below 2^n with equal low n bits are equal; this lets every bitwise contract pin down a value |
| Alu.Put | src/core/alu.cpp:15-18 | the set-or-reset idiom writes flag bit i to the given truth value and keeps the other seven bits |
| Alu.WriteFlags | src/core/alu.cpp:28-31 | the flags byte carries exactly the given Z, N, H, C, and bits 3 to 0 of the old flags |
| Alu.WriteFlagsIsBitWrites | src/core/alu.cpp:28-31 | WriteFlags is the outcome of the four single-bit writes in the order the operations perform them |
| Alu.FlagsAreBits | src/core/alu.cpp:15-18 | the flag predicates Z, N, H, C read bits 7, 6, 5, 4 |
| Alu.Add16 | src/core/alu.cpp:8-19 | the true sum equals the truncated result plus 0x10000 exactly when C is set; Z iff the result is zero; N clear; H iff the low 12 bits overflow; bits 3-0 kept |
| Alu.Add8 | src/core/alu.cpp:21-32 | the true sum equals the result plus 0x100 exactly when C is set; Z iff zero; N clear; H iff the low nibbles overflow |
| Alu.AddSigned | src/core/alu.cpp:34-48 | the word moves by the signed value of the byte, modulo 0x10000; Z and N clear; H and C come from the unsigned add of the byte to the low byte |
| Alu.Adc8 | src/core/alu.cpp:50-62 | as Add8 with the old carry flag added in, in both the sum and the half carry |
| Alu.Sub8 | src/core/alu.cpp:64-75 | x - y equals the result minus 0x100 exactly when C (borrow) is set; Z iff zero; N set; H iff the low nibble borrows |
| Alu.Sbc8 | src/core/alu.cpp:77-89 | as Sub8 with the old carry also subtracted |
| Alu.And8 | src/core/alu.cpp:91-99 | each result bit is the and of the operand bits; Z iff no bit is common; H set, N and C clear |
| Alu.Or8 | src/core/alu.cpp:101-109 | each result bit is the or of the operand bits; Z iff both operands are zero; N, H, C clear |
| Alu.Xor8 | src/core/alu.cpp:111-119 | each result bit is the exclusive or; Z iff the operands are equal; N, H, C clear |
| Alu.Cp8 | src/core/alu.cpp:121-130 | only flags result: Z iff x == y, N set, H iff the low nibble borrows, C iff x < y |
| Alu.Inc16 | src/core/alu.cpp:132-135 | wrapping increment: x + 1, or 0 after 0xFFFF |
| Alu.Dec16 | src/core/alu.cpp:147-150 | wrapping decrement: x - 1, or 0xFFFF after 0 |
| Alu.Inc8 | src/core/alu.cpp:137-145 | wrapping increment; Z iff x was 0xFF; N clear; H iff the low nibble was 0xF; C untouched |
| Alu.Dec8 | src/core/alu.cpp:152-160 | wrapping decrement; Z iff x was 1; N set; H iff the low nibble was 0; C untouched |
| Alu.Rlc | src/core/alu.cpp:162-176 | the result is 2x with bit 7 moved round to bit 0; C iff bit 7 was set; Z iff x was zero; N, H clear |
| Alu.Rl | src/core/alu.cpp:178-189 | 2x plus the old carry equals the result plus 0x100 exactly when the new C is set: a nine-bit rotation |
| Alu.Rrc | src/core/alu.cpp:191-204 | the result is x/2 with bit 0 moved round to bit 7; C iff bit 0 was set |
| Alu.Rr | src/core/alu.cpp:206-217 | x plus 0x100 times the old carry equals 2 * result plus the new carry: a nine-bit rotation right |
| Alu.Sla | src/core/alu.cpp:219-228 | 2x equals the result plus 0x100 exactly when C is set |
| Alu.Sra | src/core/alu.cpp:230-241 | read as signed, the result is x divided by 2 rounded down; C is bit 0 of x |
| Alu.Srl | src/core/alu.cpp:243-252 | x equals 2 * result plus C |
| Alu.Swap | src/core/alu.cpp:254-263 | the high nibble of the result is the low nibble of x and vice versa; Z iff x is zero; N, H, C clear |
| Alu.TestBit | src/core/alu.cpp:265-272 | Z iff bit i of x is clear; N clear, H set, C untouched |
| Alu.Daa | src/core/alu.cpp:275-304 | A moves by the DAA correction, added after an addition and subtracted after a subtraction; C set iff it was set or an addition left A above 0x99; H clear; N kept |
| Alu.Cpl | src/core/alu.cpp:306-312 | every bit is flipped (x + result = 0xFF); N and H set; Z and C kept |
| Alu.Scf | src/core/alu.cpp:314-321 | C set, N and H clear, Z kept |
| Alu.Ccf | src/core/alu.cpp:323-330 | C complemented, N and H clear, Z kept |
| AluLaws.RlcRrcInverse | src/core/alu.cpp:162-204 | RRC undoes RLC and RLC undoes RRC, whatever the flags |
| AluLaws.RlRrInverse | src/core/alu.cpp:178-217 | RR undoes RL and RL undoes RR, byte and carry flag together |
| AluLaws.SwapInvolution | src/core/alu.cpp:254-263 | swapping twice gives the byte back |
| AluLaws.CplInvolution | src/core/alu.cpp:306-312 | complementing twice gives the byte back |
| AluLaws.SlaSrl | src/core/alu.cpp:219-252 | a logical shift right after a shift left clears bit 7 and keeps the rest |
| AluLaws.SraIsSrlOnNonNegative | src/core/alu.cpp:230-252 | with bit 7 clear the two right shifts agree, flags included |
| AluLaws.SubAddInverse | src/core/alu.cpp:21-75 | subtracting y undoes adding y, and adding undoes subtracting, modulo 256 |
| AluLaws.CarryClearIsPlain | src/core/alu.cpp:50-89 | with C clear, ADC is ADD and SBC is SUB, flags included |
| AluLaws.CpIsSubFlags | src/core/alu.cpp:64-130 | CP leaves exactly the flags SUB leaves |
| AluLaws.Inc16Dec16Inverse | src/core/alu.cpp:132-150 | the 16-bit increment and decrement undo each other |
| AluLaws.Inc8Dec8Inverse | src/core/alu.cpp:137-160 | the 8-bit increment and decrement undo each other |
| AluLaws.Inc8IsAddOne | src/core/alu.cpp:21-32 | the 8-bit INC is ADD of 1, except that C keeps its old value |
| AluLaws.AddSignedIsAdd16OfExtension | src/core/alu.cpp:34-48 | the signed add moves the word exactly as the 16-bit add of the sign-extended byte |
| AluLaws.XorSelf | src/core/alu.cpp:111-119 | XOR of a byte with itself gives 0 with Z set |
| AluLaws.TestBitAfterSetReset | src/core/alu.cpp:265-272 | BIT reports a bit just set as set and a bit just cleared as clear |
| AluLaws.ToBcd | src/core/alu.cpp:275-304 | every number below 100 has a packed-BCD byte that reads back as that number |
| AluLaws.DaaAfterAdd | src/core/alu.cpp:275-304 | after ADD of two BCD bytes, DAA gives the BCD byte of the decimal sum modulo 100, and C is set exactly when the decimal sum exceeds 99 |
| AluLaws.DaaAfterSub | src/core/alu.cpp:275-304 | after SUB of two BCD bytes, DAA gives the BCD byte of the decimal difference modulo 100, and C is set exactly when the subtraction borrowed |
| AluLaws.DaaAfterSubtraction | src/core/alu.cpp:275-304 | after a subtraction DAA only removes the corrections H and C call for, and keeps C |
| Memory.Zeroed | src/core/memory.cpp:6 | the initial store holds zero at every address |
| Memory.ZeroedReadsZero | src/core/memory.cpp:6-16 | in the initial store every byte read and every word read gives zero |
| Memory.Get16 | src/core/memory.cpp:13-16 | a word read has its low byte at the address and its high byte at the next address |
| Memory.Get8 | src/core/memory.cpp:8-11 | `get_8b` is defined at every 16-bit address and reads the low byte of the word `get_16b` reads there |
| Memory.Write8 | src/core/memory.cpp:20-23 | the byte is stored at the address and every other address keeps its byte |
| Memory.Write16 | src/core/memory.cpp:25-31 | the low byte goes to the address and the high byte to the next one; nothing else changes |
| Memory.WriteBytes | src/core/memory.cpp:33-37 | the second byte goes to the address and the first to the next; nothing else changes |
| Memory.Get8Write8 | src/core/memory.cpp:8-23 | a byte read after a byte write returns the written byte at that address and the old byte elsewhere |
| Memory.Get16Write16 | src/core/memory.cpp:13-31 | a word read after a word write at the same address returns the written word |
| Memory.Write16Get16 | src/core/memory.cpp:13-31 | writing back the word just read changes nothing |
| Memory.WriteBytesIsWrite16 | src/core/memory.cpp:25-37 | the two-byte overload stores the word composed of its two bytes |
| Memory.Write16Twice | src/core/memory.cpp:25-31 | a second word write to the same address replaces the first |
| Memory.Get16Frame | src/core/memory.cpp:13-31 | a word write does not disturb a word read at a non-overlapping address |
| Registers.Set | src/core/cpu.cpp:1027-1073 | the 8-bit setters: the named register gets the value; every other 8-bit register, SP, PC, `t` and memory are unchanged |
| Registers.Initial | src/core/cpu.cpp:9-14 | at start every 8-bit register, PC and `t` are zero, SP is 0xFFFF, and every memory byte is zero |
| Registers.SetPair | src/core/cpu.cpp:1075-1083 | a 16-bit register gets the value and every other register stays |
| Registers.PairHalves | src/core/cpu.cpp:1085-1131 | the getters `get_a` ... `get_l` (`Get`) and the pairs (`GetPair`) agree on the little-endian layout: A, B, D, H are the high bytes and F, C, E, L the low bytes of AF, BC, DE, HL; the flags byte is F |
| Registers.SetGet | src/core/cpu.cpp:1027-1131 | writing a register with the value a getter reads changes nothing |
| Registers.SetCommutes | src/core/cpu.cpp:1027-1073 | writes to two different 8-bit registers commute, also within one pair |
| Registers.R | src/core/cpu.cpp:16-21 | the table `r` names the byte at HL exactly at index 6 and never F |
| Registers.RInjective | src/core/cpu.cpp:16-21 | the eight entries of `r` are pairwise different places |
| Registers.Rf | src/core/cpu.cpp:27-29 | the table `rf` never names SP and agrees with `rp` on indices 0 to 2 |
| Registers.Rp | src/core/cpu.cpp:23-25 | the table `rp` never names AF and names SP exactly at index 3 |
| Registers.Flags | include/gameboy-emulator/core/cpu.hpp:22 | AF is A in its high byte and the flags byte in its low byte |
| Registers.Store | src/core/cpu.cpp:520-540 | writing an operand changes only that register, or only the byte at HL; SP, PC and `t` stay |
| Instructions.Jr | src/core/instructions.cpp:32-37 | the new PC is PC plus the signed offset, modulo 0x10000, whatever the scratch flags byte holds |
| Instructions.JrIgnoresScratch | src/core/instructions.cpp:32-37 | the landing address does not depend on the scratch flags byte |
| Instructions.Pop | src/core/instructions.cpp:44-48 | the popped word is the little-endian word at SP; SP rises by 2 modulo 0x10000; memory unchanged |
| Instructions.Ret | src/core/instructions.cpp:39-42 | PC becomes the word at the top of the stack and SP rises by 2 |
| Instructions.RetIsPop | src/core/instructions.cpp:39-48 | RET is POP with PC as the destination |
| Instructions.Push8 | src/core/instructions.cpp:50-54 | SP falls by 1 and the byte lands at the new SP; no other address changes |
| Instructions.Push16 | src/core/instructions.cpp:56-60 | SP falls by 2; the low byte lands at the new SP and the high byte above it; no other address changes |
| Instructions.PopAfterPush16 | src/core/instructions.cpp:44-60 | a pop after a push returns the pushed word and restores SP |
| Instructions.Push16AfterPop | src/core/instructions.cpp:44-60 | pushing back what was popped restores the stack exactly |
| Instructions.Call | src/core/instructions.cpp:62-66 | PC becomes the target; SP falls by 2; the word at the new SP is PC + 2; no other byte of memory changes |
| Instructions.Rst | src/core/instructions.cpp:68-72 | PC becomes the vector; SP falls by 2; the word at the new SP is the old PC; no other byte of memory changes |
| Instructions.RetAfterCall | src/core/instructions.cpp:39-66 | a RET after a CALL lands at PC + 2 with SP restored |
| Instructions.RetAfterRst | src/core/instructions.cpp:39-72 | a RET after an RST lands at the old PC with SP restored |
| Cpu.OpcodeValues | src/core/cpu.cpp:48-57 | the fields are in range and are the digits of the opcode: op = 64x + 8y + z, with y = 2p + q |
| Cpu.Al | src/core/cpu.cpp:31-46 | the table `al`: entry y is ADD, ADC, SUB, SBC, AND, XOR, OR or CP applied to A; CP leaves A alone |
| Cpu.Cond | src/core/cpu.cpp:173-236 | the condition codes NZ, Z, NC, C: codes 0 and 1 test Z, codes 2 and 3 test C; an odd code holds when the flag is set, an even one when it is clear |
| Cpu.Rot | src/core/cpu.cpp:35-37 | the table `rot`: every entry sets Z from its result, clears N and H, and keeps bits 3-0; C is bit 7 of the operand for the left moves, bit 0 for the right moves, and clear for SWAP |
| Cpu.Prefixed | src/core/cpu.cpp:90-126 | CB prefix on r[z] or the byte at HL: a rotate leaves exactly the result and flags of its `rot` entry; BIT leaves the operand and sets exactly the flags of `bit` (Z from the bit, N clear, H set, C kept); RES and SET change only bit y and leave the flags; no other register, SP or other memory byte changes; 16 or 8 cycles; PC + 2 |
| Cpu.X0Z0 | src/core/cpu.cpp:140-240 | NOP and STOP: 4 cycles, PC + 1, nothing else changes; LD (nn),SP stores SP at nn and nn + 1 only, 20 cycles, PC + 3; JR d lands at PC + 2 + d in 12 cycles; JR cc is taken iff its condition holds, with 12 cycles and PC + 2 + d, otherwise 8 cycles and PC + 2; the jumps change only PC and `t` |
| Cpu.JumpRelative | src/core/cpu.cpp:165-172 | the taken JR lands at PC + 2 + signed d and costs 12 cycles |
| Cpu.X0Z1 | src/core/cpu.cpp:241-266 | LD rp[p],nn loads that pair only, leaves memory, in 12 cycles and 3 bytes; q = 1 is ADD HL,rp[p] as AddHl states it |
| Cpu.AddHl | src/core/cpu.cpp:253-262 | ADD HL,rp[p]: HL gets the 16-bit sum, Z keeps its old value, N/H/C come from the 16-bit add |
| Cpu.KeepZero | src/core/cpu.cpp:258 | the merged flags byte has its Z from the old byte and every other bit from the new one |
| Cpu.KeepCarry | src/core/cpu.cpp:454 | `f & 0x1F` clears Z, N and H and keeps C and bits 3-0 |
| Cpu.X0Z2 | src/core/cpu.cpp:267-366 | the indirect loads between A and (BC), (DE), (HL+), (HL-): the byte moves the right way and HL steps by +1 or -1 after the access |
| Cpu.X0Z3 | src/core/cpu.cpp:367-391 | INC/DEC rp[p] changes that pair by one, modulo 0x10000, and no other pair |
| Cpu.IncDec | src/core/cpu.cpp:392-427 | INC/DEC r[y] with the 8-bit increment and decrement flags, bits 3-0 of F kept; no other register, SP or other memory byte changes; 12 cycles on (HL), 4 on a register; PC + 1 |
| Cpu.LoadImmediate | src/core/cpu.cpp:428-445 | LD r[y],n: the operand holds n afterwards; flags, the other registers, SP and the other memory bytes unchanged; 12 or 8 cycles; PC + 2 |
| Cpu.AccumulatorOp | src/core/cpu.cpp:446-507 | RLCA/RRCA/RLA/RRA rotate like `rot` but then clear Z, N, H and keep C from the rotate; DAA; CPL complements A, sets N and H and keeps Z and C; SCF sets C and CCF complements it, both clearing N and H and keeping Z and A |
| Cpu.X0Z7 | src/core/cpu.cpp:446-507 | the z = 7 leaf changes only A and F, as AccumulatorOp, in 4 cycles |
| Cpu.X1 | src/core/cpu.cpp:512-552 | LD r[y],r[z]: the target reads what the source read; flags, the other registers, SP and the other memory bytes unchanged; 8 cycles when (HL) takes part, else 4; HALT changes nothing |
| Cpu.Accumulate | src/core/cpu.cpp:39-46 | an `al` entry changes only A and F |
| Cpu.X2 | src/core/cpu.cpp:553-572 | al[y] A,r[z]: A and F become `al` applied to A and the operand; 8 or 4 cycles |
| Cpu.Return | src/core/cpu.cpp:701-722 | RET ends with PC one past the popped word and SP raised by 2; registers and memory unchanged |
| Cpu.X3Z0 | src/core/cpu.cpp:576-686 | RET cc pops iff its condition holds (20 cycles, PC one past the popped word, SP + 2) and otherwise changes only PC and `t` (8 cycles); LDH (n),A stores A at 0xFF00 + n keeping AF, HL and SP, and LDH A,(n) loads it, 12 cycles; ADD SP,d (16 cycles) and LD HL,SP+d (12) add the signed byte, clear Z and N and take H and C from the unsigned low-byte add, keeping bits 3-0 of F; all y >= 4 move PC by 2 and keep BC and DE |
| Cpu.PopPair | src/core/cpu.cpp:690-700 | POP rf[p]: the pair gets the word at SP; for AF the low nibble of F is cleared; SP + 2; other pairs unchanged |
| Cpu.FlagNibble | src/core/cpu.cpp:698 | the masked F keeps its four flags and has bits 3-0 clear |
| Cpu.X3Z1 | src/core/cpu.cpp:687-742 | q = 0 is POP rf[p] as PopPair states it; RET/RETI pop PC (one past), JP HL lands one past HL, LD SP,HL copies HL into SP; the q = 1 forms change no register other than PC and SP, and no memory |
| Cpu.Jump | src/core/cpu.cpp:868-876 | JP ends with PC one past the target and changes nothing else |
| Cpu.X3Z2 | src/core/cpu.cpp:743-864 | JP cc,nn is taken iff its condition holds (16 cycles, PC one past nn; else 12 and PC + 3) and changes only PC and `t`; LD (0xFF00+C),A and LD A,(0xFF00+C): 8 cycles, PC + 1; LD (nn),A and LD A,(nn): 16 cycles, PC + 3; the stores keep every register, the loads keep F, BC, DE, HL, SP and memory |
| Cpu.X3Z3 | src/core/cpu.cpp:865-886 | JP nn lands one past nn; DI, EI and the other slots change nothing |
| Cpu.CallTo | src/core/cpu.cpp:978-988 | CALL nn: PC one past nn, 24 cycles, PC + 2 pushed below the old SP; no other memory byte and no other register changes |
| Cpu.X3Z4 | src/core/cpu.cpp:887-965 | CALL cc,nn calls iff its condition holds; otherwise 12 cycles, PC + 3 and nothing else changes; the slots y >= 4 change nothing |
| Cpu.PushPair | src/core/cpu.cpp:969-977 | PUSH rf[p]: the pair is stored below SP, SP falls by 2, only those two bytes change, 16 cycles |
| Cpu.X3Z5 | src/core/cpu.cpp:966-992 | q = 0 is PUSH, q = 1 with p = 0 is CALL nn, and the other slots change nothing |
| Cpu.AluImmediate | src/core/cpu.cpp:993-1001 | al[y] A,n: A and F become `al` applied to A and the immediate byte; no other register and no memory changes; 8 cycles; PC + 2 |
| Cpu.Step | src/core/cpu.cpp:85-1019 | `CPU::instruction` as a whole: DD, ED, FD change nothing; every CB instruction moves PC by 2 and keeps SP; LD r,r' never touches the flags or SP; al[y] A,r moves PC by 1 and changes only A and F |
| Cpu.Restart | src/core/cpu.cpp:1002-1010 | RST y*8: PC ends at y*8 + 1, the old PC is pushed, 16 cycles; no other memory byte and no other register changes |
| CpuLaws.NopStopOpcodes | src/core/cpu.cpp:140-164 | the NOP and STOP fields occur exactly at 0x00 and 0x10 |
| CpuLaws.JrOpcodes | src/core/cpu.cpp:173-236 | the JR cc fields occur exactly at 0x20, 0x28, 0x30, 0x38 |
| CpuLaws.AddHlOpcodes | src/core/cpu.cpp:253-262 | the ADD HL,rp fields occur exactly at 0x09, 0x19, 0x29, 0x39 |
| CpuLaws.PopOpcodes | src/core/cpu.cpp:690-700 | the POP fields occur exactly at 0xC1 + 16p |
| CpuLaws.PushOpcodes | src/core/cpu.cpp:969-977 | the PUSH fields occur exactly at 0xC5 + 16p |
| CpuLaws.RetOpcodes | src/core/cpu.cpp:704-722 | RET and RETI are exactly 0xC9 and 0xD9 |
| CpuLaws.RstOpcodes | src/core/cpu.cpp:1002-1010 | the RST fields occur exactly at 0xC7 + 8y |
| CpuLaws.StepIsPrefixed | src/core/cpu.cpp:90-126 | the first byte 0xCB runs the prefixed block on the second byte |
| CpuLaws.StepIsX0 | src/core/cpu.cpp:134-511 | a first byte with x = 0 runs the x = 0 block with nn = b1:b2 |
| CpuLaws.StepIsX1 | src/core/cpu.cpp:512-552 | a first byte with x = 1 runs LD r[y],r[z] |
| CpuLaws.StepIsX2 | src/core/cpu.cpp:553-572 | a first byte with x = 2 runs al[y] A,r[z] |
| CpuLaws.StepIsX3 | src/core/cpu.cpp:573-1013 | a first byte with x = 3 other than a prefix runs the x = 3 block |
| CpuLaws.TimedX0 | src/core/cpu.cpp:134-511 | every opcode of the x = 0 block sets `t` to a multiple of 4 from 4 to 24 |
| CpuLaws.TimedX3 | src/core/cpu.cpp:573-1013 | every opcode of the x = 3 block outside its empty slots sets `t` to a multiple of 4 from 4 to 24 |
| CpuLaws.EmptyOpcodes | src/core/cpu.cpp:127-130 | every byte in `EMPTY` (DD, ED, FD, HALT, DI, EI and eight unused slots) leaves the machine exactly as it was |
| CpuLaws.EmptyHalt | src/core/cpu.cpp:513-516 | HALT (0x76) leaves the machine as it was, PC and `t` included |
| CpuLaws.EmptyPrefixes | src/core/cpu.cpp:127-130 | the prefixes DD, ED, FD change nothing |
| CpuLaws.CycleCounts | src/core/cpu.cpp:85-1019 | every first byte outside `EMPTY` sets `t` to a multiple of 4 from 4 to 24 |
| CpuLaws.JumpRelativeIf | src/core/cpu.cpp:173-236 | JR cc,d (0x20 + 8cc) as a whole instruction: taken iff the condition holds, landing at PC + 2 + d in 12 cycles, else PC + 2 in 8; only PC changes |
| CpuLaws.AddHlKeepsZero | src/core/cpu.cpp:253-262 | ADD HL,rp[p] (0x09 + 16p) as a whole instruction keeps Z and sets HL, N, H and C as the 16-bit add does |
| CpuLaws.NopStopOnlyAdvance | src/core/cpu.cpp:140-164 | NOP (0x00) and STOP (0x10) as whole instructions: 4 cycles, PC + 1, no register or memory byte changes |
| CpuLaws.LoadStackPointer | src/core/cpu.cpp:244-252 | LD SP,nn (0x31) loads the little-endian operand into SP in 12 cycles and moves PC by 3 |
| CpuLaws.JumpLandsPastTarget | src/core/cpu.cpp:868-876 | JP nn (0xC3) ends with PC one past nn |
| CpuLaws.JumpHlLandsPastTarget | src/core/cpu.cpp:723-728 | JP HL (0xE9) ends with PC one past HL |
| CpuLaws.AddExample | src/core/cpu.cpp:553-572 | ADD A,B with A = 0x3A and B = 0xC6 gives A = 0 with Z, H and C set and N clear |
| CpuLaws.PushDecodes | src/core/cpu.cpp:969-977 | every PUSH opcode performs PushPair on its pair |
| CpuLaws.PopDecodes | src/core/cpu.cpp:690-700 | every POP opcode performs PopPair on its pair |
| CpuLaws.CallDecodes | src/core/cpu.cpp:978-988 | CALL nn (0xCD) performs CallTo with nn = b1:b2 |
| CpuLaws.RetDecodes | src/core/cpu.cpp:704-722 | RET (0xC9) and RETI (0xD9) both perform Return in 16 cycles |
| CpuLaws.RstDecodes | src/core/cpu.cpp:1002-1010 | every RST opcode performs Restart with its vector |
| CpuLaws.PopAfterPushPair | src/core/cpu.cpp:690-700 | a POP after a PUSH of the same pair restores the pair and SP, with F's low nibble cleared for AF |
| CpuLaws.PushThenPop | src/core/cpu.cpp:966-977 | PUSH rf[p] (0xC5 + 16p) then POP rf[p] (0xC1 + 16p) as whole instructions restore the pair and SP, with F's low nibble cleared for AF |
| CpuLaws.ReturnAfterCall | src/core/instructions.cpp:62-66 | a return after a taken call lands three bytes after the CALL with SP restored |
| CpuLaws.ReturnAfterRestart | src/core/instructions.cpp:68-72 | a return after a restart lands one byte after the RST with SP restored |
| CpuLaws.CallThenRet | src/core/instructions.cpp:62-66 | CALL nn (0xCD) followed by RET or RETI as whole instructions comes back to the byte after the CALL, with SP restored and every other register unchanged |
| CpuLaws.RestartThenRet | src/core/instructions.cpp:68-72 | RST y*8 (0xC7 + 8y) followed by RET or RETI comes back to the byte after the RST, with SP restored |

## Left out

- Address wrap: `get_16b` at 0xFFFF, the 16-bit `write` at 0xFFFF, and a push with SP below 2 reach past the end of the array in the C++, which is undefined behaviour. The model wraps the address to 0x0000.
- Bit index: `set_bit` and `reset_bit` take an `int`, and a negative index would be an undefined shift. The model takes a natural number.
- Alu.TestBit: requires i < 32, because `1 << i` on an `int` is only defined up to there. The decoder only passes i < 8.
- Aliasing: the C++ hands out pointers into memory and into the registers. The model reads and writes values instead. `get_8b` is plain indexing, `Get8`.
- Registers.Set and Registers.SetPair: stand for the setters `set_a` to `set_sp`. The getters are `Get` and `GetPair`, plain projections whose layout `PairHalves` states. The C++ defines them only in test builds.
- `nop`, `stop`, `ld` and `jp`: these are an empty body or a single assignment. The leaves that use them are modelled as the assignment itself.
- STOP, HALT, DI, EI and RETI model only what the code does: STOP takes 4 cycles and moves PC by 1, HALT, DI and EI do nothing at all, and RETI acts as RET. Interrupts, the halted state and the timer are not part of this core.
- `check_bit`: declared in `bytelib.hpp` but never defined, so it is not modelled.
- Instructions.Jr: the C++ passes an uninitialised scratch flags byte to `add`. The model takes it as a parameter, and `JrIgnoresScratch` shows that the result does not depend on it. The decoder passes 0.
- Instructions.Push8: the 8-bit `push` is modelled but no opcode uses it.
- CpuLaws.CallDecodes, CpuLaws.LoadStackPointer, CpuLaws.JumpLandsPastTarget, CpuLaws.JumpHlLandsPastTarget, CpuLaws.AddExample: each is stated for its single literal opcode rather than for a family. Each of these families has one member (AddExample is one concrete sum).
- CpuLaws.CycleCounts: states that the count is one of the legal values, not which one. The exact count of every opcode is in the contract of the leaf that runs it.
- The third instruction byte `b0` is never read by the decoder. `Step` takes it and ignores it.
- The instruction fetch loop, the motherboard, the GPU, the window and the command-line front end are outside this core.
- PC ending one past the target of a taken JP, JP HL, CALL, RST or RET is modelled as the code does it; the hardware lands on the target.
