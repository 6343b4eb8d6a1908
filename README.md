# nesizm 6502 core in Dafny

This project models the CPU core of the nesizm NES emulator and proves
properties of the model. The core is the 6502 instruction interpreter
(`cpu6502_Step` with its addressing-mode table and write-back) and the two
interrupt entry points in `src/6502.cpp`. It also covers the NES memory glue in
`src/nes_cpu.cpp`:

- the special-write router `writeSpecial` and the post-read router `latchedSpecial`;
- the default page table `mapDefaults`;
- the reset sequence `reset`;
- the IRQ poll `cpu6502_IRQ`.

The project has two layers.

**The specification layer** is pure functions on a `State` value: the registers,
`P`, `PC`, `clocks` and the 2 KB RAM. It has these modules:

- `Bytes`: byte and word helpers.
- `Alu`: the flag formulas and keep masks.
- `NesBus`: the page table and the write/read routing.
- `CpuState`: memory reads, the stack and the interrupt entries.
- `Interpreter`: the mode table, the opcode switch, write-back and `Step`.
- `NesSystem`: reset and the IRQ poll.

`Families` and `Steps` prove the listed behaviours about these functions.

**The imperative layer** is the module `Machine` and its class `NesCpu`. The class
holds the fields of `mainCPU`: the registers, a `RAM` array, the page-table
array `pageMap`, `ppuNMI`/`ppuClocks`, and a log `calls` of the hook calls made.
Each of its methods updates those fields in place, as the C++ does. Each method
is proved to leave the class in the state the matching specification function
computes. Non-RAM pages read from an abstract `bus` image. The hooks into the
PPU, the controllers and the cartridge are logged `Hook` events.

The model follows the code as written. Some of the arithmetic and flag rules
the code implements are these:

- SBC computes A - m - C, so it subtracts the Carry bit as a borrow, and its new Carry is that borrow (src/6502.cpp:316).
- CMP, CPX and CPY set Carry when the operand is greater than the register (src/6502.cpp:577, also lines 590 and 603).
- LDA keeps I, D, B and V and clears Carry (src/6502.cpp:181).
- LDX, LDY, TAX, TAY, TXA, TYA, TSX, TXS, PLA and INC keep the old Negative bit and OR bit 7 of the new value into it (src/6502.cpp:194, also lines 207, 247, 259, 273 and 340). After TXA or TYA, N is bit 7 of A ORed with the old N (src/6502.cpp:245-249).
- TSX copies SP into X and then runs the TXS case, which sets Zero and Negative from X (src/6502.cpp:252-261).
- Opcodes 0x96, 0xB6 and 0xBE use the table's X-indexed modes, because the mode comes from the low five bits alone (src/6502.cpp:98).
- writeSpecial sends 0x2000-0x3FFF to the PPU registers and 0x4000-0x401F to the APU/IO switch (src/nes_cpu.cpp:21-41).
- Reset fills RAM with the repeating bytes 0, 0, 0, 0, FF, FF, FF, FF. The reset interrupt then overwrites 0x1FA-0x1FC (src/nes_cpu.cpp:71-97).

## Model

| member | source | states |
|---|---|---|
| Interpreter.ModeOfTable | src/6502.cpp:39-75 | the mode of an opcode is the table entry for its low five bits |
| Families.ModeByLowBits | src/6502.cpp:98 | opcodes with equal low five bits have the same mode and the same instruction length |
| Interpreter.ModeLength | src/6502.cpp:98-143 | absolute and absolute-indexed modes are 3 bytes, zero-page and indirect modes 2, no mode 1 |
| Interpreter.EffectiveAddress | src/6502.cpp:98-143 | the effective address of every mode: zero page X and both indirect pointers wrap in page 0, absolute indexing does not wrap, and the address stays below 0x100FF |
| Families.ZeroPageWraps | src/6502.cpp:114-136 | zero page X wraps within page 0, and the indirect pointer fetch at 0xFF reads 0xFF and then 0x00 |
| Interpreter.OperandOf | src/6502.cpp:98-143 | immediate cases take the byte after the opcode; accumulator shifts take A; zero-page modes address RAM directly; other modes go through the page table |
| Interpreter.Advance | src/6502.cpp:95-143 | clocks grow by the table cost, and PC grows by the mode length plus one for immediate cases, mod 0x10000 |
| Steps.PerformAdvancesPc | src/6502.cpp:95-675 | every opcode that does not jump leaves PC at the next instruction and clocks at the base cost |
| Steps.StepAdvancesPc | src/6502.cpp:77-143 | the same for one whole step from any state |
| Interpreter.FetchReads | src/6502.cpp:84-86 | the opcode and data bytes come from RAM below 0x2000, from the bus at 0x2000-0xFFFF, and past 0xFFFF from the start of RAM |
| Interpreter.DecodeForms | src/6502.cpp:169-663 | exactly 0x09/0x29/0x49/0x69/0xA0/0xA2/0xA9/0xC0/0xC9/0xE0/0xE9 take an immediate operand; exactly 0x0A/0x2A/0x4A/0x6A work on A |
| Interpreter.DecodeBranches | src/6502.cpp:492-530 | the opcodes the switch decodes as branches are exactly those whose low five bits are 0x10 |
| Interpreter.Perform | src/6502.cpp:95-675 | an executed opcode adds at least its base cost to clocks |
| Interpreter.Step | src/6502.cpp:77-675 | a step aborts exactly on an unhandled opcode or JMP indirect with data1 == 0xFF; otherwise clocks grow by at least the base cost |
| Interpreter.Execute | src/6502.cpp:169-663 | exactly the read-modify-write opcodes and stores produce a value to write back; only jumps change PC; only branches and BRK add clocks |
| Interpreter.SectionOf | src/6502.cpp:169-663 | the control-flow section of the switch is exactly the opcodes that assign PC |
| Interpreter.LoadStore | src/6502.cpp:173-262 | loads, stores and transfers touch neither RAM, PC nor clocks, and produce a value to write back exactly for stores |
| Interpreter.StackOp | src/6502.cpp:264-287 | PHA/PLA/PHP/PLP leave PC and clocks alone |
| Interpreter.Arithmetic | src/6502.cpp:292-605 | ADC/SBC/INC/DEC/counters/compares keep RAM, PC and clocks, and write back exactly for INC and DEC |
| Interpreter.Bitwise | src/6502.cpp:387-487 | logic, shifts and BIT change only A and P, and write back exactly for the memory shifts |
| Interpreter.Status | src/6502.cpp:610-645 | flag set/clear opcodes change only P |
| Interpreter.Control | src/6502.cpp:492-564 | control flow adds clocks only for branches and BRK |
| Interpreter.FinishBranch | src/6502.cpp:522-528 | a branch changes only PC and clocks |
| Alu.ZeroNegative | src/6502.cpp:179-250 | Z and N come from the value, ORed with the kept old Z/N bits; the other bits are the old P under the keep mask |
| Alu.KeepMasks | src/6502.cpp:181-484 | each keep mask is the listed set of flags |
| Families.AccumulatorZeroNegative | src/6502.cpp:387-423 | after LDA/ORA/AND/EOR, Z iff A == 0 and N iff bit 7 of A; LDA clears C and the logic ops keep it; only A and P change |
| Families.TransferStickyNegative | src/6502.cpp:234-250 | TXA/TYA copy the register; Z iff A == 0; N iff bit 7 of A or N was already set; C and U cleared, I, D, B, V kept; only A and P change |
| Families.LoadsStickyNegative | src/6502.cpp:186-261 | LDX/LDY load the operand, TAX/TAY copy A and TSX copies SP into X or Y; Z iff the value is 0; N iff bit 7 of the value or N was already set; C and U cleared, I, D, B, V kept; nothing stored and nothing else changes |
| Families.TxsSetsFlags | src/6502.cpp:255-261 | TXS copies X into SP; Z iff X is 0; N iff bit 7 of X or N was already set; C and U cleared, I, D, B, V kept; only SP and P change |
| Families.IncDecStores | src/6502.cpp:326-344 | INC and DEC store the operand plus or minus one mod 256 with Z iff that value is 0; INC ORs bit 7 into the kept N and clears C; DEC takes N from bit 7 and keeps C, V, I, D and B; no register changes |
| Families.CountersWrap | src/6502.cpp:344-382 | DEX/INX/DEY/INY move the register by one mod 256, set Z and N from it, keep C, V, I, D and B, and touch nothing else |
| Alu.Adc | src/6502.cpp:292-306 | the result plus 0x100 times the new carry is A + m + C; Z, N from the result; V iff the signed sum overflows; I, D, B kept |
| Families.AdcExamples | src/6502.cpp:299-306 | 0x50 + 0x50 gives 0xA0 with V, N set and C clear; 0xFF + 0x01 gives 0x00 with C, Z set and V clear |
| Alu.Sbc | src/6502.cpp:309-323 | the result minus 0x100 times the new carry is A - m - C; C iff A < m + C (a borrow); V iff the signed difference overflows |
| Families.SbcBorrowExample | src/6502.cpp:313-323 | 0x00 - 0x01 with C set gives 0xFE with C and N set |
| Steps.AdcImmediateStep | src/6502.cpp:292-306 | a step at 0x69 computes Adc of A, data1 and P into A and P and moves PC by 2 |
| Steps.SbcImmediateStep | src/6502.cpp:309-323 | a step at 0xE9 computes Sbc likewise |
| Steps.ImmediateArithmetic | src/6502.cpp:292-323 | both immediate arithmetic opcodes, stated for any state |
| Alu.Compare | src/6502.cpp:569-605 | C iff the operand is greater than the register, Z iff equal, N from the 8-bit difference |
| Families.CompareKeepsRegisters | src/6502.cpp:569-605 | CMP/CPX/CPY change only P, with Z iff equal and C iff operand > register |
| Alu.Asl | src/6502.cpp:426-438 | twice the operand is the result plus 0x100 times the new carry |
| Alu.Lsr | src/6502.cpp:440-452 | the operand is twice the result plus the new carry; N is cleared |
| Alu.Rol | src/6502.cpp:454-466 | twice the operand plus the old carry is the result plus 0x100 times the new carry |
| Alu.Ror | src/6502.cpp:468-479 | the operand plus 0x100 times the old carry is twice the result plus the new carry; N is the old carry |
| Alu.BitTest | src/6502.cpp:481-487 | Z iff operand AND A is 0; N and V are bits 7 and 6 of the operand; C, I, D, B kept |
| Families.ShiftExecute | src/6502.cpp:426-479 | each shift sets P to the flags of its ALU function and writes its result back |
| Families.ShiftOpcodes | src/6502.cpp:426-471 | the accumulator forms 0x0A/0x4A/0x2A/0x6A have no mode and take A; 0x06/0x46/0x26/0x66 are zero page |
| Steps.ShiftSteps | src/6502.cpp:426-479 | an accumulator shift updates A and leaves RAM alone; a zero-page shift leaves A alone and writes the result to RAM[data1] |
| Steps.IndexedByX | src/6502.cpp:190-222 | 0xB6 loads RAM[(data1 + X) mod 256] into X, 0x96 stores X there, and 0xBE loads from data1 + (data2 << 8) + X |
| Steps.BranchStep | src/6502.cpp:492-530 | a branch goes to p + 2, or p + 2 plus the signed data1 if its test holds, with 1 clock more when taken and 1 more on a page crossing; nothing else changes |
| Steps.StoreRouting | src/nes_cpu.cpp:20-47 | STA absolute writes RAM below 0x2000 and otherwise never RAM, calling writeReg(addr & 7), oamDMA(v << 8), writeStrobe, nothing, or the cartridge |
| Steps.StoreWrapsToZeroPage | src/nes_cpu.cpp:42-46 | an absolute X store past 0xFFFF is rewritten to addr & 0xFFFF, a zero-page RAM cell |
| Steps.SpecialReadNotifies | src/6502.cpp:665-675 | LDA absolute from a PPU or APU/IO page reads the bus and calls postSpecialRead; other pages make no call |
| Interpreter.WriteBack | src/6502.cpp:665-675 | a write at 0x2000 or above goes through writeSpecial, which may call a hook, and RAM changes only if the address is rewritten |
| NesBus.WriteSpecial | src/nes_cpu.cpp:20-47 | 0x2000-0x3FFF calls writeReg(addr & 7, v); 0x4014 calls oamDMA(v << 8); 0x4016 calls writeStrobe(v); other APU/IO offsets do nothing; 0x4020-0xFFFF calls the cartridge; addresses past 0xFFFF are written at addr & 0xFFFF |
| NesBus.LatchedSpecial | src/nes_cpu.cpp:10-18 | 0x4016 reads controller 1, 0x4017 reads controller 2, every other address does nothing |
| NesBus.DefaultPage | src/nes_cpu.cpp:49-63 | pages 0x00-0x1F are RAM page m & 7, 0x20-0x3F the PPU map, 0x40-0x5F special memory, 0x100 aliases page 0, the rest unmapped |
| NesBus.DefaultRamAliases | src/nes_cpu.cpp:52-57 | a and a + 0x800k below 0x2000 share one RAM cell |
| CpuState.Read | src/6502.cpp:84-86 | mainCPU.read through the default table: below 0x2000 and past 0xFFFF it returns RAM[addr mod 0x800]; at 0x2000-0xFFFF it returns the bus byte |
| CpuState.IsSpecial | src/nes_cpu.cpp:49-63 | under the assumed getByte rule (special iff the page is the PPU map or special memory), a read is special exactly for 0x2000-0x5FFF |
| Machine.NesCpu.MapDefaults | src/nes_cpu.cpp:49-63 | the table array ends equal to the default table at every entry |
| Machine.NesCpu.ReadByte | src/nes_cpu.cpp:49-63 | a read through the page-table array returns the value of the default-table read |
| CpuState.Push | src/6502.cpp:264-266 | a push moves SP down one mod 256, writes the slot it now points at, and changes nothing else |
| CpuState.Pop | src/6502.cpp:269-271 | a pop reads the slot SP points at and moves SP up one mod 256 |
| CpuState.PopAfterPush | src/6502.cpp:264-271 | a pop after a push returns the pushed byte and restores SP |
| Interpreter.PushStatus | src/6502.cpp:278-281 | PHP pushes P with B and U set |
| Alu.Pulled | src/6502.cpp:283-287 | PLP and RTI keep the current B and U bits and take every other bit from the popped byte |
| Alu.PulledPushed | src/6502.cpp:278-287 | pulling a pushed status gives back P when B and U agree |
| Families.PullAccumulator | src/6502.cpp:269-276 | PLA loads A from the slot SP points at, moves SP up one, ORs bit 7 into the kept N with Z iff A is 0, and changes nothing else |
| Families.PhaThenPla | src/6502.cpp:264-276 | PHA then PLA restore A and SP, leave the pushed byte in RAM, and update P by the sticky Negative rule for A |
| Families.PhpThenPlp | src/6502.cpp:278-287 | PHP then PLP restores P and SP |
| Steps.PhpPlpSteps | src/6502.cpp:278-287 | a PHP step then a PLP step restore P and SP and move PC by 2 |
| Interpreter.CallSubroutine | src/6502.cpp:543-550 | JSR pushes the high then the low byte of p + 2 and jumps |
| Interpreter.ReturnFromSubroutine | src/6502.cpp:560-564 | RTS pops the low then the high byte and continues after that address |
| Interpreter.ReturnFromInterrupt | src/6502.cpp:552-558 | RTI pulls P, then the low and high bytes of PC |
| Families.JsrThenRts | src/6502.cpp:543-564 | RTS right after JSR continues two bytes past the PC that JSR saw, the byte after its operand, with SP, A, X, Y, P and clocks restored |
| Steps.JsrRtsSteps | src/6502.cpp:543-564 | a JSR step at p then an RTS step return to p + 3 with SP, A, X, Y, P restored and both base costs added |
| CpuState.PushThree | src/6502.cpp:696-700 | three pushes write the three slots below SP and change nothing else |
| CpuState.InterruptEntry | src/6502.cpp:678-708 | an interrupt pushes PCH, PCL and the status, loads PC from the little-endian vector, sets I and adds 7 clocks |
| CpuState.SoftwareInterrupt | src/6502.cpp:696-708 | the pushed status has B set |
| CpuState.DeviceInterrupt | src/6502.cpp:678-694 | a masked request with I set changes nothing; otherwise the pushed status has B clear |
| Alu.PushedBits | src/6502.cpp:698-700 | the software-interrupt status is P with B and U set |
| Alu.PushedByDeviceBits | src/6502.cpp:681-683 | the device-interrupt status is P with B clear and U set |
| Families.BrkFrame | src/6502.cpp:650-654 | BRK at p pushes p + 2 and P with B and U set, and keeps B and U of P |
| Families.RtiRestores | src/6502.cpp:552-558 | RTI from such a frame restores P, PC and SP |
| Families.BrkThenRti | src/6502.cpp:552-558 | BRK then RTI restore PC, P and SP; the handler runs with I set |
| Steps.BrkRtiSteps | src/6502.cpp:552-558 | a BRK step at p then an RTI step return to p + 2 with P and SP restored |
| NesSystem.Irq | src/nes_cpu.cpp:100-107 | nothing changes unless the cartridge IRQ is reached and I is clear; then a software interrupt through 0xFFFE, with B pushed set |
| NesSystem.ResetFill | src/nes_cpu.cpp:71-80 | after n / 8 rounds of the fill loop the first n RAM bytes are 0 where i mod 8 < 4 and 0xFF otherwise |
| NesSystem.ResetState | src/nes_cpu.cpp:66-98 | after reset A = X = Y = 0, SP = 0xFA, P = I only, clocks = 7, PC is the vector at 0xFFFC |
| NesSystem.ResetRam | src/nes_cpu.cpp:70-80 | after reset RAM is 0 where i mod 8 < 4 and 0xFF otherwise, except the three pushed bytes |
| Machine.Calls | src/6502.cpp:665-675 | a step logs one hook call or none |
| Machine.NesCpu.Push | src/6502.cpp:264-266 | the in-place push leaves the specification push's state |
| Machine.NesCpu.Pop | src/6502.cpp:269-271 | the in-place pop returns the specification's value and state |
| Machine.NesCpu.EnterInterrupt | src/6502.cpp:678-708 | the in-place frame push and vector load leave InterruptEntry's state |
| Machine.NesCpu.SoftwareInterrupt | src/6502.cpp:696-708 | the in-place software interrupt leaves SoftwareInterrupt's state |
| Machine.NesCpu.DeviceInterrupt | src/6502.cpp:678-694 | the in-place device interrupt leaves DeviceInterrupt's state |
| Machine.NesCpu.Irq | src/nes_cpu.cpp:100-107 | the in-place IRQ poll leaves Irq's state |
| Machine.NesCpu.Reset | src/nes_cpu.cpp:66-98 | the RAM loop, register assignments and reset interrupt leave ResetState, with ppuNMI false and ppuClocks 2510 |
| Machine.NesCpu.Deref | src/6502.cpp:98-143 | reading through the operand gives OperandValue |
| Machine.NesCpu.LoadStore | src/6502.cpp:173-262 | in-place loads, stores and transfers match LoadStore |
| Machine.NesCpu.StackOp | src/6502.cpp:264-287 | in-place PHA/PLA/PHP/PLP match StackOp |
| Machine.NesCpu.Arithmetic | src/6502.cpp:292-605 | in-place arithmetic matches Arithmetic |
| Machine.NesCpu.Bitwise | src/6502.cpp:387-487 | in-place logic and shifts match Bitwise |
| Machine.NesCpu.Status | src/6502.cpp:610-645 | in-place flag opcodes match Status |
| Machine.NesCpu.FinishBranch | src/6502.cpp:522-528 | the in-place branch tail matches FinishBranch |
| Machine.NesCpu.CallSubroutine | src/6502.cpp:543-550 | the in-place JSR matches CallSubroutine |
| Machine.NesCpu.ReturnFromInterrupt | src/6502.cpp:552-558 | the in-place RTI matches ReturnFromInterrupt |
| Machine.NesCpu.ReturnFromSubroutine | src/6502.cpp:560-564 | the in-place RTS matches ReturnFromSubroutine |
| Machine.NesCpu.JumpIndirect | src/6502.cpp:537-541 | JMP indirect loads PC from the two bytes at the effective address |
| Machine.NesCpu.Break | src/6502.cpp:650-654 | BRK steps PC once more and enters the software interrupt through 0xFFFE |
| Machine.NesCpu.Control | src/6502.cpp:492-564 | in-place control flow matches Control |
| Machine.NesCpu.Execute | src/6502.cpp:169-663 | the in-place switch matches Execute |
| Machine.NesCpu.WriteBack | src/6502.cpp:665-675 | the in-place write-back matches WriteBack and logs its hook call |
| Machine.NesCpu.Fetch | src/6502.cpp:84-86 | the three fetches read PC, PC + 1 and PC + 2 |
| Machine.NesCpu.Advance | src/6502.cpp:95-143 | the in-place advance matches Advance |
| Machine.NesCpu.Perform | src/6502.cpp:95-675 | an executed step matches Perform and logs its hook call |
| Machine.NesCpu.Step | src/6502.cpp:77-675 | an aborted step changes nothing and returns the fault; an executed step leaves Step's state and logs its hook call |

## Left out

- The hook callees are not modelled. These are the PPU `writeReg`/`oamDMA`, `input_writeStrobe`, `input_readController*`, `nesCart.writeSpecial`, `postSpecialRead` and `IRQReached`. Each call is a logged `Hook` event. The IRQ poll takes `IRQReached()` as a parameter.
- `getByte`, `read`, `write`, `push`, `pop` and the `6502.h` header are not part of this model. Their behaviour here is assumed:
  - Reads go through the default page table. Non-RAM pages read an abstract 64 KB bus image.
  - Push decrements SP and then writes; pop reads and then increments SP.
  - PC is 16 bits wide.
- The clock table comes from `6502_opcodes.inl`, which is not part of this model. It is a parameter.
- `pop() | (pop() << 8)` in RTI and RTS has an unspecified evaluation order. The model fixes it low byte first, then high byte.
- The two `DebugAssert` aborts are a `Fault` result that leaves the state unchanged. These are the unhandled opcode and JMP indirect with data1 == 0xFF. The `DebugAssert(addr >= 0x2000)` in `writeSpecial` is a precondition. Every caller meets it.
- The trace history, breakpoints and `cpu_instr_history::output` are debug logging only.
- Mapper-installed pages 0x60-0xFF are modelled as never RAM; their contents are part of the bus image.
- `ppuNMI` and `ppuClocks` exist only on the class. Only `Reset` sets them.
- Alu.ZeroNegative: the source ORs the new Z bit into the kept bits, and no keep mask contains Z. The contract states the Z rule with the kept bits included rather than assuming that mask property at every call.
- CpuState.IsSpecial: the isSpecial result of `getByte` is assumed to be set exactly for the PPU and special-memory pages, because `getByte` is not part of this model.
- CpuState.IsSpecial and CpuState.Read: the bus image is a flat 64 KB array. The source points all 32 PPU pages at one `nesPPU.memoryMap` and pages 0x40-0x5F at one `specialMemory` (src/nes_cpu.cpp:55-56), so 0x2000 and 0x2100 are the same byte there. The model does not capture that page sharing.
- Interpreter.FinishBranch: `(char)(data1)` (src/6502.cpp:527) is signed only where plain `char` is signed, which is implementation-defined. The model always treats it as signed (`Bytes.Signed`).
- NesBus.LatchedSpecial stands alone: it is meant to be called from `postSpecialRead`, whose body is not part of this model.
- Machine.NesCpu.ReadByte: the contract covers reads through the default table only, because mapper bank switching is outside this model.
