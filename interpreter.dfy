/**
 * cpu6502_Step (src/6502.cpp) as a two-stage interpreter: the opcode is
 * decoded into an instruction family and an operand source, the family's
 * effect is computed on the state, and a store is written back either into
 * RAM or the accumulator or through writeSpecial.
 */
module Interpreter {
  import opened Bytes
  import opened Alu
  import opened NesBus
  import opened CpuState

  /** The addressing modes of modeTable. */
  datatype Mode =
    | NoMode      // implied, immediate, accumulator and relative forms
    | ZeroPage
    | ZeroPageX
    | Absolute
    | AbsoluteX
    | AbsoluteY
    | IndirectX
    | IndirectY

  /** modeTable: one entry per value of the low five bits of the opcode. */
  const ModeTable: seq<Mode> := [
    NoMode, IndirectX, NoMode, NoMode, ZeroPage, ZeroPage, ZeroPage, NoMode,
    NoMode, NoMode, NoMode, NoMode, Absolute, Absolute, Absolute, NoMode,
    NoMode, IndirectY, NoMode, NoMode, ZeroPageX, ZeroPageX, ZeroPageX, NoMode,
    NoMode, AbsoluteY, NoMode, NoMode, AbsoluteX, AbsoluteX, AbsoluteX, NoMode
  ]

  /**
   * The mode of an opcode, read off `instr & 0x1F` alone: bits 3-4 pick one of
   * the four table rows and bits 0-2 the column within the row.
   */
  function ModeOf(op: Byte): (m: Mode)
  {
    ModeCell(op % 32 / 8, op % 8)
  }

  function ModeCell(row: nat, column: nat): Mode
  {
    if 4 <= column <= 6 then
      (match row
      case 0 => ZeroPage
      case 1 => Absolute
      case 2 => ZeroPageX
      case _ => AbsoluteX)
    else if column == 1 then
      (match row
      case 0 => IndirectX
      case 1 => NoMode
      case 2 => IndirectY
      case _ => AbsoluteY)
    else
      NoMode
  }

  /** ModeOf agrees with modeTable on every opcode. */
  lemma ModeOfTable(op: Byte)
    ensures ModeOf(op) == ModeTable[op % 32]
  {
    var i := op % 32;
    assert op % 8 == i % 8;
    if i < 8 { ModeRow0(); }
    else if i < 16 { ModeRow1(); }
    else if i < 24 { ModeRow2(); }
    else { ModeRow3(); }
  }

  lemma ModeRow0() ensures forall i | 0 <= i < 8 :: ModeCell(0, i % 8) == ModeTable[i] {}
  lemma ModeRow1() ensures forall i | 8 <= i < 16 :: ModeCell(1, i % 8) == ModeTable[i] {}
  lemma ModeRow2() ensures forall i | 16 <= i < 24 :: ModeCell(2, i % 8) == ModeTable[i] {}
  lemma ModeRow3() ensures forall i | 24 <= i < 32 :: ModeCell(3, i % 8) == ModeTable[i] {}

  /** How far the mode switch advances PC. */
  function ModeLength(m: Mode): (n: nat)
    ensures 1 <= n <= 3
    ensures n == 3 <==> m.Absolute? || m.AbsoluteX? || m.AbsoluteY?
    ensures n == 1 <==> m.NoMode?
  {
    match m
    case Absolute | AbsoluteX | AbsoluteY => 3
    case ZeroPage | ZeroPageX | IndirectX | IndirectY => 2
    case NoMode => 1
  }

  /**
   * effAddr of the mode switch. The zero-page index and the two pointer fetches
   * wrap within page 0; the absolute and indirect-indexed sums do not wrap.
   */
  function EffectiveAddress(s: State, m: Mode, d1: Byte, d2: Byte): (ea: Address)
    ensures m.NoMode? ==> ea == 0
    ensures m.ZeroPage? ==> ea == d1
    ensures m.ZeroPageX? ==> ea == (d1 + s.X) % 0x100
    ensures m.Absolute? ==> ea == WordOf(d1, d2)
    ensures m.AbsoluteX? ==> ea == WordOf(d1, d2) + s.X
    ensures m.AbsoluteY? ==> ea == WordOf(d1, d2) + s.Y
    ensures m.IndirectX? ==>
      var t := (d1 + s.X) % 0x100; ea == WordOf(s.ram[t], s.ram[(t + 1) % 0x100])
    ensures m.IndirectY? ==> ea == WordOf(s.ram[d1], s.ram[(d1 + 1) % 0x100]) + s.Y
    ensures ea < 0x100FF
  {
    match m
    case NoMode => 0
    case ZeroPage => d1
    case ZeroPageX => Mod256(d1 + s.X)
    case Absolute => WordOf(d1, d2)
    case AbsoluteX => WordOf(d1, d2) + s.X
    case AbsoluteY => WordOf(d1, d2) + s.Y
    case IndirectX =>
      var target := Mod256(d1 + s.X);
      WordOf(s.ram[target], s.ram[Mod256(target + 1)])
    case IndirectY =>
      WordOf(s.ram[d1], s.ram[Mod256(d1 + 1)]) + s.Y
  }

  /** `x & 0xFF` for the sums of two bytes that the mode switch masks. */
  function Mod256(x: nat): (r: Byte)
    requires x < 0x200
    ensures r == x % 0x100
  {
    if x < 0x100 then x else x - 0x100
  }

  /** The families of the opcode switch. */
  datatype Op =
    | LDA | LDX | LDY | STA | STX | STY
    | TAX | TXA | TAY | TYA | TSX | TXS
    | PHA | PLA | PHP | PLP
    | ADC | SBC | DEC | INC | DEX | INX | DEY | INY
    | ORA | AND | EOR | ASL | LSR | ROL | ROR | BIT
    | Branch(flag: bv8, whenSet: bool)   // BPL BMI BVC BVS BCC BCS BNE BEQ
    | JMP | JMPIndirect | JSR | RTI | RTS
    | CMP | CPX | CPY
    | ClearFlag(mask: bv8)                // CLC CLI CLV CLD
    | SetFlag(mask: bv8)                  // SEC SEI SED
    | BRK | NOP
  {
    /** The cases that set isWrite. */
    predicate Stores() {
      this in {STA, STX, STY, DEC, INC, ASL, LSR, ROL, ROR}
    }

    /** The cases that assign PC themselves. */
    predicate Jumps() {
      Branch? || this in {JMP, JMPIndirect, JSR, RTI, RTS, BRK}
    }
  }

  /**
   * Where an opcode takes its operand: through the addressing mode, from the
   * byte after the opcode (the `PTR_TO_BYTE(data1)` cases, which also step PC
   * once more), or from the accumulator (`PTR_TO_BYTE(mainCPU.A)`).
   */
  datatype Form = Addressed | ImmediateForm | AccumulatorForm

  datatype Instruction = Instruction(op: Op, form: Form)

  function I(op: Op): Instruction { Instruction(op, Addressed) }

  /**
   * The case labels of the opcode switch, laid out as the usual 16 x 16
   * opcode matrix (high nibble, then low nibble); None is the `default:` case.
   */
  function Decode(opcode: Byte): Option<Instruction>
  {
    DecodeCell(opcode / 16, opcode % 16)
  }

  function DecodeCell(hi: nat, lo: nat): Option<Instruction>
  {
    match hi
    case 0x0 =>
      (match lo
      case 0x0 => Some(I(BRK))
      case 0x1 => Some(I(ORA))
      case 0x5 => Some(I(ORA))
      case 0x6 => Some(I(ASL))
      case 0x8 => Some(I(PHP))
      case 0x9 => Some(Instruction(ORA, ImmediateForm))
      case 0xA => Some(Instruction(ASL, AccumulatorForm))
      case 0xD => Some(I(ORA))
      case 0xE => Some(I(ASL))
      case _ => None)
    case 0x1 =>
      (match lo
      case 0x0 => Some(I(Branch(FlagN, false)))
      case 0x1 => Some(I(ORA))
      case 0x5 => Some(I(ORA))
      case 0x6 => Some(I(ASL))
      case 0x8 => Some(I(ClearFlag(FlagC)))
      case 0x9 => Some(I(ORA))
      case 0xD => Some(I(ORA))
      case 0xE => Some(I(ASL))
      case _ => None)
    case 0x2 =>
      (match lo
      case 0x0 => Some(I(JSR))
      case 0x1 => Some(I(AND))
      case 0x4 => Some(I(BIT))
      case 0x5 => Some(I(AND))
      case 0x6 => Some(I(ROL))
      case 0x8 => Some(I(PLP))
      case 0x9 => Some(Instruction(AND, ImmediateForm))
      case 0xA => Some(Instruction(ROL, AccumulatorForm))
      case 0xC => Some(I(BIT))
      case 0xD => Some(I(AND))
      case 0xE => Some(I(ROL))
      case _ => None)
    case 0x3 =>
      (match lo
      case 0x0 => Some(I(Branch(FlagN, true)))
      case 0x1 => Some(I(AND))
      case 0x5 => Some(I(AND))
      case 0x6 => Some(I(ROL))
      case 0x8 => Some(I(SetFlag(FlagC)))
      case 0x9 => Some(I(AND))
      case 0xD => Some(I(AND))
      case 0xE => Some(I(ROL))
      case _ => None)
    case 0x4 =>
      (match lo
      case 0x0 => Some(I(RTI))
      case 0x1 => Some(I(EOR))
      case 0x5 => Some(I(EOR))
      case 0x6 => Some(I(LSR))
      case 0x8 => Some(I(PHA))
      case 0x9 => Some(Instruction(EOR, ImmediateForm))
      case 0xA => Some(Instruction(LSR, AccumulatorForm))
      case 0xC => Some(I(JMP))
      case 0xD => Some(I(EOR))
      case 0xE => Some(I(LSR))
      case _ => None)
    case 0x5 =>
      (match lo
      case 0x0 => Some(I(Branch(FlagV, false)))
      case 0x1 => Some(I(EOR))
      case 0x5 => Some(I(EOR))
      case 0x6 => Some(I(LSR))
      case 0x8 => Some(I(ClearFlag(FlagI)))
      case 0x9 => Some(I(EOR))
      case 0xD => Some(I(EOR))
      case 0xE => Some(I(LSR))
      case _ => None)
    case 0x6 =>
      (match lo
      case 0x0 => Some(I(RTS))
      case 0x1 => Some(I(ADC))
      case 0x5 => Some(I(ADC))
      case 0x6 => Some(I(ROR))
      case 0x8 => Some(I(PLA))
      case 0x9 => Some(Instruction(ADC, ImmediateForm))
      case 0xA => Some(Instruction(ROR, AccumulatorForm))
      case 0xC => Some(I(JMPIndirect))
      case 0xD => Some(I(ADC))
      case 0xE => Some(I(ROR))
      case _ => None)
    case 0x7 =>
      (match lo
      case 0x0 => Some(I(Branch(FlagV, true)))
      case 0x1 => Some(I(ADC))
      case 0x5 => Some(I(ADC))
      case 0x6 => Some(I(ROR))
      case 0x8 => Some(I(SetFlag(FlagI)))
      case 0x9 => Some(I(ADC))
      case 0xD => Some(I(ADC))
      case 0xE => Some(I(ROR))
      case _ => None)
    case 0x8 =>
      (match lo
      case 0x1 => Some(I(STA))
      case 0x4 => Some(I(STY))
      case 0x5 => Some(I(STA))
      case 0x6 => Some(I(STX))
      case 0x8 => Some(I(DEY))
      case 0xA => Some(I(TXA))
      case 0xC => Some(I(STY))
      case 0xD => Some(I(STA))
      case 0xE => Some(I(STX))
      case _ => None)
    case 0x9 =>
      (match lo
      case 0x0 => Some(I(Branch(FlagC, false)))
      case 0x1 => Some(I(STA))
      case 0x4 => Some(I(STY))
      case 0x5 => Some(I(STA))
      case 0x6 => Some(I(STX))
      case 0x8 => Some(I(TYA))
      case 0x9 => Some(I(STA))
      case 0xA => Some(I(TXS))
      case 0xD => Some(I(STA))
      case _ => None)
    case 0xA =>
      (match lo
      case 0x0 => Some(Instruction(LDY, ImmediateForm))
      case 0x1 => Some(I(LDA))
      case 0x2 => Some(Instruction(LDX, ImmediateForm))
      case 0x4 => Some(I(LDY))
      case 0x5 => Some(I(LDA))
      case 0x6 => Some(I(LDX))
      case 0x8 => Some(I(TAY))
      case 0x9 => Some(Instruction(LDA, ImmediateForm))
      case 0xA => Some(I(TAX))
      case 0xC => Some(I(LDY))
      case 0xD => Some(I(LDA))
      case 0xE => Some(I(LDX))
      case _ => None)
    case 0xB =>
      (match lo
      case 0x0 => Some(I(Branch(FlagC, true)))
      case 0x1 => Some(I(LDA))
      case 0x4 => Some(I(LDY))
      case 0x5 => Some(I(LDA))
      case 0x6 => Some(I(LDX))
      case 0x8 => Some(I(ClearFlag(FlagV)))
      case 0x9 => Some(I(LDA))
      case 0xA => Some(I(TSX))
      case 0xC => Some(I(LDY))
      case 0xD => Some(I(LDA))
      case 0xE => Some(I(LDX))
      case _ => None)
    case 0xC =>
      (match lo
      case 0x0 => Some(Instruction(CPY, ImmediateForm))
      case 0x1 => Some(I(CMP))
      case 0x4 => Some(I(CPY))
      case 0x5 => Some(I(CMP))
      case 0x6 => Some(I(DEC))
      case 0x8 => Some(I(INY))
      case 0x9 => Some(Instruction(CMP, ImmediateForm))
      case 0xA => Some(I(DEX))
      case 0xC => Some(I(CPY))
      case 0xD => Some(I(CMP))
      case 0xE => Some(I(DEC))
      case _ => None)
    case 0xD =>
      (match lo
      case 0x0 => Some(I(Branch(FlagZ, false)))
      case 0x1 => Some(I(CMP))
      case 0x5 => Some(I(CMP))
      case 0x6 => Some(I(DEC))
      case 0x8 => Some(I(ClearFlag(FlagD)))
      case 0x9 => Some(I(CMP))
      case 0xD => Some(I(CMP))
      case 0xE => Some(I(DEC))
      case _ => None)
    case 0xE =>
      (match lo
      case 0x0 => Some(Instruction(CPX, ImmediateForm))
      case 0x1 => Some(I(SBC))
      case 0x4 => Some(I(CPX))
      case 0x5 => Some(I(SBC))
      case 0x6 => Some(I(INC))
      case 0x8 => Some(I(INX))
      case 0x9 => Some(Instruction(SBC, ImmediateForm))
      case 0xA => Some(I(NOP))
      case 0xC => Some(I(CPX))
      case 0xD => Some(I(SBC))
      case 0xE => Some(I(INC))
      case _ => None)
    case _ =>
      (match lo
      case 0x0 => Some(I(Branch(FlagZ, true)))
      case 0x1 => Some(I(SBC))
      case 0x5 => Some(I(SBC))
      case 0x6 => Some(I(INC))
      case 0x8 => Some(I(SetFlag(FlagD)))
      case 0x9 => Some(I(SBC))
      case 0xD => Some(I(SBC))
      case 0xE => Some(I(INC))
      case _ => None)
  }

  /**
   * The operand forms of the opcode switch: exactly eleven opcodes take the
   * byte after the opcode as an immediate operand and exactly four work on
   * the accumulator.
   */
  lemma DecodeForms(opcode: Byte)
    ensures Decode(opcode).Some? && Decode(opcode).value.form.ImmediateForm? <==> opcode in ImmediateOpcodes
    ensures Decode(opcode).Some? && Decode(opcode).value.form.AccumulatorForm? <==> opcode in AccumulatorOpcodes
  {
    var hi, lo := opcode / 16, opcode % 16;
    assert opcode == hi * 16 + lo;
    DecodeCellForms(hi, lo);
  }

  /** The branches are exactly the opcodes whose low five bits are 0x10. */
  lemma DecodeBranches(opcode: Byte)
    ensures Decode(opcode).Some? && Decode(opcode).value.op.Branch? <==> opcode % 32 == 0x10
  {
    var hi, lo := opcode / 16, opcode % 16;
    assert opcode == hi * 16 + lo;
    assert opcode % 32 == hi % 2 * 16 + lo;
    DecodeCellForms(hi, lo);
  }

  const ImmediateOpcodes: set<Byte> := {0x09, 0x29, 0x49, 0x69, 0xA0, 0xA2, 0xA9, 0xC0, 0xC9, 0xE0, 0xE9}
  const AccumulatorOpcodes: set<Byte> := {0x0A, 0x2A, 0x4A, 0x6A}

  /** The DecodeForms facts for one cell of the opcode matrix. */
  ghost predicate CellForms(hi: nat, lo: nat)
  {
    var d := DecodeCell(hi, lo);
    && (d.Some? && d.value.form.ImmediateForm? <==> hi * 16 + lo in ImmediateOpcodes)
    && (d.Some? && d.value.form.AccumulatorForm? <==> hi * 16 + lo in AccumulatorOpcodes)
    && (d.Some? && d.value.op.Branch? <==> hi % 2 == 1 && lo == 0)
  }

  lemma DecodeCellForms(hi: nat, lo: nat)
    requires hi < 16 && lo < 16
    ensures CellForms(hi, lo)
  {
    if hi < 4 {
      CellFormsRows0(hi, lo);
    } else if hi < 8 {
      CellFormsRows4(hi, lo);
    } else if hi < 12 {
      CellFormsRows8(hi, lo);
    } else {
      CellFormsRowsC(hi, lo);
    }
  }

  lemma CellFormsRows0(hi: nat, lo: nat)
    requires hi < 4 && lo < 16
    ensures CellForms(hi, lo)
  {
    if hi == 0x0 {
      assert CellForms(0x0, lo);
    } else if hi == 0x1 {
      assert CellForms(0x1, lo);
    } else if hi == 0x2 {
      assert CellForms(0x2, lo);
    } else {
      assert CellForms(0x3, lo);
    }
  }

  lemma CellFormsRows4(hi: nat, lo: nat)
    requires 4 <= hi < 8 && lo < 16
    ensures CellForms(hi, lo)
  {
    if hi == 0x4 {
      assert CellForms(0x4, lo);
    } else if hi == 0x5 {
      assert CellForms(0x5, lo);
    } else if hi == 0x6 {
      assert CellForms(0x6, lo);
    } else {
      assert CellForms(0x7, lo);
    }
  }

  lemma CellFormsRows8(hi: nat, lo: nat)
    requires 8 <= hi < 12 && lo < 16
    ensures CellForms(hi, lo)
  {
    if hi == 0x8 {
      assert CellForms(0x8, lo);
    } else if hi == 0x9 {
      assert CellForms(0x9, lo);
    } else if hi == 0xA {
      assert CellForms(0xA, lo);
    } else {
      assert CellForms(0xB, lo);
    }
  }

  lemma CellFormsRowsC(hi: nat, lo: nat)
    requires 12 <= hi < 16 && lo < 16
    ensures CellForms(hi, lo)
  {
    if hi == 0xC {
      assert CellForms(0xC, lo);
    } else if hi == 0xD {
      assert CellForms(0xD, lo);
    } else if hi == 0xE {
      assert CellForms(0xE, lo);
    } else {
      assert CellForms(0xF, lo);
    }
  }

  /** What `operand` points at once the instruction has been decoded. */
  datatype Operand =
    | NoOperand                     // implied forms: the pointer is never read
    | Accumulator                   // &mainCPU.A
    | Immediate(value: Byte)        // a local copy of data1
    | ZeroPageCell(cell: Byte)      // &mainCPU.RAM[effAddr]
    | Memory(addr: Address)         // getByte(effAddr)

  function OperandOf(form: Form, m: Mode, ea: Address, d1: Byte): (o: Operand)
    ensures form.ImmediateForm? ==> o == Immediate(d1)
    ensures form.AccumulatorForm? ==> o == Accumulator
    ensures form.Addressed? && m.NoMode? ==> o == NoOperand
    ensures form.Addressed? && (m.ZeroPage? || m.ZeroPageX?) && ea < 0x100 ==> o == ZeroPageCell(ea)
    ensures form.Addressed? && !m.NoMode? && !m.ZeroPage? && !m.ZeroPageX? ==> o == Memory(ea)
  {
    match form
    case ImmediateForm => Immediate(d1)
    case AccumulatorForm => Accumulator
    case Addressed =>
      match m
      case NoMode => NoOperand
      case ZeroPage | ZeroPageX => if ea < 0x100 then ZeroPageCell(ea) else Memory(ea)
      case _ => Memory(ea)
  }

  /** `*operand`. The implied forms never read it; they see 0 here. */
  function OperandValue(s: State, bus: Memory, o: Operand): Byte
  {
    match o
    case NoOperand => 0
    case Accumulator => s.A
    case Immediate(v) => v
    case ZeroPageCell(a) => s.ram[a]
    case Memory(a) => Read(s.ram, bus, a)
  }

  /** The state after an opcode case, and the `result` it stores when isWrite is set. */
  datatype Effect = Effect(state: State, store: Option<Byte>)

  function Done(s: State): Effect { Effect(s, None) }

  /** The flag test of a branch: `P & flag` or `~P & flag`. */
  predicate Taken(p: bv8, flag: bv8, whenSet: bool) {
    IsSet(p, flag) == whenSet
  }

  /** `PC += (char) data1` on the 16-bit program counter. */
  function Relative(pc: Word, d1: Byte): Word
  {
    (pc + Signed(d1)) % 0x10000
  }

  /**
   * The opcode switch. `s` is the state after the mode switch (base clocks
   * charged, PC advanced by the mode and the immediate step). Each section of
   * the switch is a function of its own.
   */
  function Execute(op: Op, s: State, bus: Memory, o: Operand, ea: Address, d1: Byte, d2: Byte): (e: Effect)
    requires ea < 0x100FF
    ensures e.store.Some? <==> op.Stores()
    ensures !op.Jumps() ==> e.state.PC == s.PC
    ensures !op.Branch? && !op.BRK? ==> e.state.clocks == s.clocks
    ensures e.state.clocks >= s.clocks
  {
    var m := OperandValue(s, bus, o);
    match SectionOf(op)
    case LoadStoreOps => LoadStore(op, s, m)
    case StackOps => Done(StackOp(op, s))
    case ArithmeticOps => Arithmetic(op, s, m)
    case BitwiseOps => Bitwise(op, s, m)
    case ControlOps => Done(Control(op, s, bus, ea, d1, d2))
    case StatusOps => Done(Status(op, s, m))
  }

  /** The sections of the opcode switch (the comment headings of 6502.cpp). */
  datatype Section = LoadStoreOps | StackOps | ArithmeticOps | BitwiseOps | ControlOps | StatusOps

  function SectionOf(op: Op): (c: Section)
    ensures c == ControlOps <==> op.Jumps()
  {
    match op
    case LDA | LDX | LDY | STA | STX | STY | TAX | TXA | TAY | TYA | TSX | TXS => LoadStoreOps
    case PHA | PLA | PHP | PLP => StackOps
    case ADC | SBC | DEC | INC | DEX | INX | DEY | INY => ArithmeticOps
    case ORA | AND | EOR | ASL | LSR | ROL | ROR | BIT => BitwiseOps
    case Branch(_, _) | JMP | JMPIndirect | JSR | RTI | RTS | BRK => ControlOps
    case CMP | CPX | CPY | ClearFlag(_) | SetFlag(_) | NOP => StatusOps
  }

  /** STORE / LOAD and the transfers. */
  function LoadStore(op: Op, s: State, m: Byte): (e: Effect)
    requires SectionOf(op) == LoadStoreOps
    ensures e.store.Some? <==> op.Stores()
    ensures e.state.PC == s.PC && e.state.clocks == s.clocks && e.state.ram == s.ram
  {
    match op
    case LDA => Done(s.(A := m, P := ZeroNegative(s.P, KeepLoadA, m)))
    case LDX => Done(s.(X := m, P := ZeroNegative(s.P, KeepSticky, m)))
    case LDY => Done(s.(Y := m, P := ZeroNegative(s.P, KeepSticky, m)))
    case STA => Effect(s, Some(s.A))
    case STX => Effect(s, Some(s.X))
    case STY => Effect(s, Some(s.Y))
    case TAX => Done(s.(X := s.A, P := ZeroNegative(s.P, KeepSticky, s.A)))
    case TXA => Done(s.(A := s.X, P := ZeroNegative(s.P, KeepSticky, s.X)))
    case TAY => Done(s.(Y := s.A, P := ZeroNegative(s.P, KeepSticky, s.A)))
    case TYA => Done(s.(A := s.Y, P := ZeroNegative(s.P, KeepSticky, s.Y)))
    // TSX falls through into TXS, which copies X (now SP) back into SP
    case TSX => Done(s.(X := s.SP, P := ZeroNegative(s.P, KeepSticky, s.SP)))
    case TXS => Done(s.(SP := s.X, P := ZeroNegative(s.P, KeepSticky, s.X)))
    case _ => assert false; Done(s)
  }

  /** PHA, PLA, PHP and PLP. */
  function StackOp(op: Op, s: State): (r: State)
    requires SectionOf(op) == StackOps
    ensures r.PC == s.PC && r.clocks == s.clocks
  {
    match op
    case PHA => Push(s, s.A)
    case PLA =>
      var r := Pop(s);
      r.state.(A := r.value, P := ZeroNegative(s.P, KeepSticky, r.value))
    case PHP => PushStatus(s)
    case PLP => PullStatus(s)
    case _ => assert false; s
  }

  /** ADC, SBC and the increments and decrements. */
  function Arithmetic(op: Op, s: State, m: Byte): (e: Effect)
    requires SectionOf(op) == ArithmeticOps
    ensures e.store.Some? <==> op.Stores()
    ensures e.state.PC == s.PC && e.state.clocks == s.clocks && e.state.ram == s.ram
  {
    match op
    case ADC =>
      var r := Adc(s.A, m, s.P);
      Done(s.(A := r.value, P := r.flags))
    case SBC =>
      var r := Sbc(s.A, m, s.P);
      Done(s.(A := r.value, P := r.flags))
    case DEC =>
      var v := (m - 1) % 0x100;
      Effect(s.(P := ZeroNegative(s.P, KeepCount, v)), Some(v))
    case INC =>
      var v := (m + 1) % 0x100;
      Effect(s.(P := ZeroNegative(s.P, KeepSticky, v)), Some(v))
    case DEX =>
      var x := (s.X - 1) % 0x100;
      Done(s.(X := x, P := ZeroNegative(s.P, KeepCount, x)))
    case INX =>
      var x := (s.X + 1) % 0x100;
      Done(s.(X := x, P := ZeroNegative(s.P, KeepCount, x)))
    case DEY =>
      var y := (s.Y - 1) % 0x100;
      Done(s.(Y := y, P := ZeroNegative(s.P, KeepCount, y)))
    case INY =>
      var y := (s.Y + 1) % 0x100;
      Done(s.(Y := y, P := ZeroNegative(s.P, KeepCount, y)))
    case _ => assert false; Done(s)
  }

  /** ORA, AND, EOR, the shifts and rotates, and BIT. */
  function Bitwise(op: Op, s: State, m: Byte): (e: Effect)
    requires SectionOf(op) == BitwiseOps
    ensures e.store.Some? <==> op.Stores()
    ensures e.state.(P := s.P, A := s.A) == s
  {
    match op
    case ORA =>
      var a := Or(s.A, m);
      Done(s.(A := a, P := ZeroNegative(s.P, KeepLogic, a)))
    case AND =>
      var a := And(s.A, m);
      Done(s.(A := a, P := ZeroNegative(s.P, KeepLogic, a)))
    case EOR =>
      var a := Xor(s.A, m);
      Done(s.(A := a, P := ZeroNegative(s.P, KeepLogic, a)))
    case ASL => var r := Asl(m, s.P); Effect(s.(P := r.flags), Some(r.value))
    case LSR => var r := Lsr(m, s.P); Effect(s.(P := r.flags), Some(r.value))
    case ROL => var r := Rol(m, s.P); Effect(s.(P := r.flags), Some(r.value))
    case ROR => var r := Ror(m, s.P); Effect(s.(P := r.flags), Some(r.value))
    case BIT => Done(s.(P := BitTest(s.A, m, s.P)))
    case _ => assert false; Done(s)
  }

  /** BRANCH / JUMP, and BRK. */
  function Control(op: Op, s: State, bus: Memory, ea: Address, d1: Byte, d2: Byte): (r: State)
    requires SectionOf(op) == ControlOps
    requires ea < 0x100FF
    ensures !op.Branch? && !op.BRK? ==> r.clocks == s.clocks
    ensures r.clocks >= s.clocks
  {
    match op
    case Branch(flag, whenSet) => FinishBranch(s, flag, whenSet, d1)
    case JMP => s.(PC := WordOf(d1, d2))
    case JMPIndirect =>
      // operand[0] and operand[1]: the two bytes at effAddr (data1 != 0xFF keeps them in one page)
      s.(PC := WordOf(Read(s.ram, bus, ea), Read(s.ram, bus, ea + 1)))
    case JSR => CallSubroutine(s, WordOf(d1, d2))
    case RTI => ReturnFromInterrupt(s)
    case RTS => ReturnFromSubroutine(s)
    case BRK => SoftwareInterrupt(s.(PC := Successor(s.PC)), bus, 0xFFFE)
    case _ => assert false; s
  }

  /**
   * finishBranch: PC steps past the offset byte; a taken branch then adds the
   * signed offset and costs one clock more, two when it lands in another page.
   */
  function FinishBranch(s: State, flag: bv8, whenSet: bool, d1: Byte): (r: State)
    ensures r.(PC := s.PC, clocks := s.clocks) == s
  {
    var pc := Successor(s.PC);
    if Taken(s.P, flag, whenSet) then
      var target := Relative(pc, d1);
      s.(PC := target, clocks := s.clocks + 1 + (if pc / 0x100 != target / 0x100 then 1 else 0))
    else
      s.(PC := pc)
  }

  /** The slot k bytes above the slot SP points at (k = 0 is the next pop). */
  function Above(sp: Byte, k: nat): (i: nat)
    ensures 0x100 <= i < 0x200
  {
    StackCell((sp + k) % 0x100)
  }

  /** PHP: the status with Break and Unused set goes onto the stack. */
  function PushStatus(s: State): (r: State)
    ensures r.SP == (s.SP + 0xFF) % 0x100
    ensures r.ram[StackCell(r.SP)] == Pushed(s.P)
    ensures forall i | 0 <= i < 0x800 && i != StackCell(r.SP) :: r.ram[i] == s.ram[i]
    ensures r.(SP := s.SP, ram := s.ram) == s
  {
    Push(s, Pushed(s.P))
  }

  /** PLP: the popped byte replaces every bit of P except Break and Unused. */
  function PullStatus(s: State): (r: State)
    ensures r == s.(P := Pulled(s.P, s.ram[Above(s.SP, 0)]), SP := (s.SP + 1) % 0x100)
  {
    var popped := Pop(s);
    popped.state.(P := Pulled(s.P, popped.value))
  }

  /**
   * JSR: PC (one past the opcode) is stepped once more onto the last operand
   * byte, that address is pushed high byte first, and PC becomes the target.
   */
  function CallSubroutine(s: State, target: Word): (r: State)
    ensures r.PC == target
    ensures r.SP == (s.SP + 0x100 - 2) % 0x100
    ensures r.ram[Below(s.SP, 1)] == High(Successor(s.PC))
    ensures r.ram[Below(s.SP, 2)] == Low(Successor(s.PC))
    ensures forall i | 0 <= i < 0x800 && i != Below(s.SP, 1) && i != Below(s.SP, 2) :: r.ram[i] == s.ram[i]
    ensures r.(PC := s.PC, SP := s.SP, ram := s.ram) == s
  {
    var pc := Successor(s.PC);
    var s1 := Push(s.(PC := pc), High(pc));
    assert StackCell(s1.SP) == Below(s.SP, 1);
    var s2 := Push(s1, Low(pc));
    assert StackCell(s2.SP) == Below(s.SP, 2);
    s2.(PC := target)
  }

  /** Two pops: the byte SP points at, then the byte above it. */
  function PopTwo(s: State): (r: (Byte, Byte, State))
    ensures r.0 == s.ram[Above(s.SP, 0)] && r.1 == s.ram[Above(s.SP, 1)]
    ensures r.2 == s.(SP := (s.SP + 2) % 0x100)
  {
    var lo := Pop(s);
    var hi := Pop(lo.state);
    (lo.value, hi.value, hi.state)
  }

  /** RTS: two pops, low byte first, and PC continues one past the popped address. */
  function ReturnFromSubroutine(s: State): (r: State)
    ensures r == s.(PC := Successor(WordOf(s.ram[Above(s.SP, 0)], s.ram[Above(s.SP, 1)])),
                    SP := (s.SP + 2) % 0x100)
  {
    var popped := PopTwo(s);
    popped.2.(PC := Successor(WordOf(popped.0, popped.1)))
  }

  /**
   * RTI: the status is pulled as PLP does (Break and Unused kept), then PC is
   * popped low byte first.
   */
  function ReturnFromInterrupt(s: State): (r: State)
    ensures r == s.(P := Pulled(s.P, s.ram[Above(s.SP, 0)]),
                    PC := WordOf(s.ram[Above(s.SP, 1)], s.ram[Above(s.SP, 2)]),
                    SP := (s.SP + 3) % 0x100)
  {
    var pulled := PullStatus(s);
    assert Above(pulled.SP, 0) == Above(s.SP, 1) && Above(pulled.SP, 1) == Above(s.SP, 2);
    var popped := PopTwo(pulled);
    popped.2.(PC := WordOf(popped.0, popped.1))
  }

  /** COMPARE / TEST, STATUS FLAGS and NOP: only P changes. */
  function Status(op: Op, s: State, m: Byte): (r: State)
    requires SectionOf(op) == StatusOps
    ensures r.(P := s.P) == s
  {
    match op
    case CMP => s.(P := Compare(s.A, m, s.P))
    case CPX => s.(P := Compare(s.X, m, s.P))
    case CPY => s.(P := Compare(s.Y, m, s.P))
    case ClearFlag(mask) => s.(P := ClearBits(s.P, mask))
    case SetFlag(mask) => s.(P := SetBits(s.P, mask))
    case NOP => s
    case _ => assert false; s
  }

  /** The outcome of one step, together with the collaborator it called, if any. */
  datatype Outcome = Outcome(state: State, hook: Option<Hook>)

  /**
   * The isWrite branch: from effAddr 0x2000 up the store goes to writeSpecial,
   * below it through the operand pointer into RAM or the accumulator. A store
   * through an immediate operand lands in a local copy and changes nothing.
   */
  function WriteBack(s: State, o: Operand, ea: Address, v: Byte): (r: Outcome)
    ensures r.state.(ram := s.ram, A := s.A) == s
    ensures ea >= 0x2000 ==> r.state.A == s.A && (r.hook.Some? <==> WriteSpecial(ea, v).Call?)
    ensures ea >= 0x2000 && !WriteSpecial(ea, v).Rewrite? ==> r.state.ram == s.ram
    ensures ea >= 0x2000 && r.hook.Some? ==> r.hook == Some(WriteSpecial(ea, v).hook)
  {
    if ea >= 0x2000 then
      match WriteSpecial(ea, v)
      case Call(h) => Outcome(s, Some(h))
      case Ignored => Outcome(s, None)
      case Rewrite(a, w) => Outcome(s.(ram := s.ram[a := w]), None)
    else
      match o
      case Accumulator => Outcome(s.(A := v), None)
      case ZeroPageCell(a) => Outcome(s.(ram := s.ram[a := v]), None)
      case Memory(a) => Outcome(s.(ram := s.ram[a % 0x800 := v]), None)
      case _ => Outcome(s, None)
  }

  /** The DebugAsserts of cpu6502_Step. */
  datatype Fault =
    | UnhandledOpcode(opcode: Byte)
    | IndirectJumpAtPageEnd(pc: Word)

  datatype StepResult = Executed(outcome: Outcome) | Aborted(fault: Fault)

  /** The base clocks of each opcode (clockTable, filled from the opcode list). */
  type ClockTable = t: seq<nat> | |t| == 0x100 witness seq(0x100, i => 0)

  /** The three bytes at PC. */
  datatype Fetched = Fetched(opcode: Byte, d1: Byte, d2: Byte)

  function Fetch(s: State, bus: Memory): Fetched
  {
    Fetched(Read(s.ram, bus, s.PC), Read(s.ram, bus, s.PC + 1), Read(s.ram, bus, s.PC + 2))
  }

  /**
   * The three fetched bytes come from RAM when the instruction lies below
   * 0x2000 and from the bus when it lies in 0x2000-0xFFFF; an instruction at
   * the top of the address space reads its operand bytes from the overhang
   * page, that is from the start of RAM. Below 0x2000 the bytes are those of
   * the RAM mirror the address falls in.
   */
  lemma FetchReads(s: State, bus: Memory)
    ensures var f := Fetch(s, bus);
      && (s.PC + 2 < 0x2000 ==> f == Fetched(s.ram[s.PC % 0x800], s.ram[(s.PC + 1) % 0x800], s.ram[(s.PC + 2) % 0x800]))
      && (0x2000 <= s.PC && s.PC + 2 < 0x10000 ==> f == Fetched(bus[s.PC], bus[s.PC + 1], bus[s.PC + 2]))
      && (s.PC == 0xFFFF ==> f == Fetched(bus[0xFFFF], s.ram[0], s.ram[1]))
  {
  }

  /** What the mode switch leaves behind: base clocks charged, PC past the operand bytes. */
  function Advance(s: State, op: Byte, form: Form, clockTable: ClockTable): (r: State)
    ensures r.clocks == s.clocks + clockTable[op]
    ensures r.PC == (s.PC + ModeLength(ModeOf(op)) + (if form.ImmediateForm? then 1 else 0)) % 0x10000
    ensures r.(PC := s.PC, clocks := s.clocks) == s
  {
    var pc := (s.PC + ModeLength(ModeOf(op))) % 0x10000;
    s.(clocks := s.clocks + clockTable[op],
       PC := if form.ImmediateForm? then (pc + 1) % 0x10000 else pc)
  }

  /** One call of cpu6502_Step. */
  function Step(s: State, bus: Memory, clockTable: ClockTable): (r: StepResult)
    ensures r.Aborted? <==>
      var f := Fetch(s, bus);
      Decode(f.opcode).None? || (Decode(f.opcode).value.op.JMPIndirect? && f.d1 == 0xFF)
    ensures r.Executed? ==> r.outcome.state.clocks >= s.clocks + clockTable[Fetch(s, bus).opcode]
  {
    var f := Fetch(s, bus);
    match Decode(f.opcode)
    case None => Aborted(UnhandledOpcode(f.opcode))
    case Some(instr) =>
      if instr.op.JMPIndirect? && f.d1 == 0xFF then
        Aborted(IndirectJumpAtPageEnd(s.PC))
      else
        Executed(Perform(s, bus, clockTable, f.opcode, f.d1, f.d2, instr))
  }

  /** The body of cpu6502_Step once the opcode has passed both DebugAsserts. */
  function Perform(s: State, bus: Memory, clockTable: ClockTable, opcode: Byte, d1: Byte, d2: Byte,
                   instr: Instruction): (r: Outcome)
    requires Decode(opcode) == Some(instr)
    requires !(instr.op.JMPIndirect? && d1 == 0xFF)
    ensures r.state.clocks >= s.clocks + clockTable[opcode]
  {
    var mode := ModeOf(opcode);
    var ea := EffectiveAddress(s, mode, d1, d2);
    var operand := OperandOf(instr.form, mode, ea, d1);
    var e := Execute(instr.op, Advance(s, opcode, instr.form, clockTable), bus, operand, ea, d1, d2);
    match e.store
    case Some(v) => WriteBack(e.state, operand, ea, v)
    case None => Outcome(e.state, if operand.Memory? && IsSpecial(ea) then Some(PostSpecialRead(ea)) else None)
  }

  /** A decodable opcode that is not a page-end indirect jump executes the body. */
  lemma StepExecutes(s: State, bus: Memory, clockTable: ClockTable, instr: Instruction)
    requires Decode(Fetch(s, bus).opcode) == Some(instr)
    requires !(instr.op.JMPIndirect? && Fetch(s, bus).d1 == 0xFF)
    ensures var f := Fetch(s, bus);
      Step(s, bus, clockTable) == Executed(Perform(s, bus, clockTable, f.opcode, f.d1, f.d2, instr))
  {
  }
}
