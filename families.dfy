/**
 * Properties of the opcode families of cpu6502_Step (src/6502.cpp), stated on
 * the family functions after the mode switch: flags, registers and what is
 * left alone.
 */
module Families {
  import opened Bytes
  import opened Alu
  import opened NesBus
  import opened CpuState
  import opened Interpreter

  /** Only A, P, PC and clocks differ between s and t. */
  predicate OnlyAccumulatorFlags(s: State, t: State) {
    t.(A := s.A, P := s.P, PC := s.PC, clocks := s.clocks) == s
  }

  /** Only P, PC and clocks differ between s and t. */
  predicate OnlyFlags(s: State, t: State) {
    t.(P := s.P, PC := s.PC, clocks := s.clocks) == s
  }

  // ---------------------------------------------------------------------------
  // Addressing

  /** Opcodes whose low five bits agree share an addressing mode and length. */
  lemma ModeByLowBits(a: Byte, b: Byte)
    requires a % 32 == b % 32
    ensures ModeOf(a) == ModeOf(b) && ModeLength(ModeOf(a)) == ModeLength(ModeOf(b))
  {
    assert a % 8 == (a % 32) % 8 && b % 8 == (b % 32) % 8;
    assert a % 32 / 8 == b % 32 / 8;
  }

  /**
   * The zero-page index and both pointer fetches of (zp,X) and (zp),Y stay in
   * page 0: an index past 0xFF comes back to the start of the page, and a
   * pointer at 0xFF takes its high byte from cell 0.
   */
  lemma ZeroPageWraps(s: State, d1: Byte, d2: Byte)
    ensures EffectiveAddress(s, ZeroPageX, d1, d2) < 0x100
    ensures d1 + s.X >= 0x100 ==> EffectiveAddress(s, ZeroPageX, d1, d2) == d1 + s.X - 0x100
    ensures d1 + s.X == 0x1FF || d1 + s.X == 0xFF ==>
      EffectiveAddress(s, IndirectX, d1, d2) == WordOf(s.ram[0xFF], s.ram[0])
    ensures d1 == 0xFF ==> EffectiveAddress(s, IndirectY, d1, d2) == WordOf(s.ram[0xFF], s.ram[0]) + s.Y
  {
  }

  // ---------------------------------------------------------------------------
  // Zero and Negative

  /**
   * After LDA, ORA, AND and EOR, Zero is set iff A is 0 and Negative equals
   * bit 7 of A; LDA clears Carry, the logic opcodes keep it.
   */
  lemma AccumulatorZeroNegative(op: Op, s: State, bus: Memory, o: Operand, ea: Address, d1: Byte, d2: Byte)
    requires ea < 0x100FF
    requires op in {LDA, ORA, AND, EOR}
    ensures var t := Execute(op, s, bus, o, ea, d1, d2).state;
      && (IsSet(t.P, FlagZ) <==> t.A == 0)
      && (IsSet(t.P, FlagN) <==> Bit7(t.A))
      && (IsSet(t.P, FlagC) <==> !op.LDA? && IsSet(s.P, FlagC))
      && OnlyAccumulatorFlags(s, t)
  {
    var m := OperandValue(s, bus, o);
    if op.LDA? {
      assert Execute(op, s, bus, o, ea, d1, d2) == LoadStore(op, s, m);
    } else {
      assert Execute(op, s, bus, o, ea, d1, d2) == Bitwise(op, s, m);
    }
  }

  /**
   * The status update of the opcodes that OR bit 7 into the kept Negative
   * bit (mask 0xDC): Zero iff v is 0, Negative iff bit 7 of v or Negative was
   * set, Carry and the Unused bit cleared, I, D, B and V kept.
   */
  predicate StickyFlags(p: bv8, q: bv8, v: Byte) {
    && (IsSet(q, FlagZ) <==> v == 0)
    && (IsSet(q, FlagN) <==> Bit7(v) || IsSet(p, FlagN))
    && !IsSet(q, FlagC)
    && q & !(FlagZ | FlagN) == p & KeepSticky & !(FlagZ | FlagN)
  }

  /** The value a sticky load or transfer writes into its register. */
  function Loaded(op: Op, s: State, m: Byte): Byte
    requires op in {LDX, LDY, TAX, TAY, TSX}
  {
    if op in {LDX, LDY} then m else if op.TSX? then s.SP else s.A
  }

  /** The register a sticky load or transfer writes. */
  function LoadTarget(op: Op, t: State): Byte
    requires op in {LDX, LDY, TAX, TAY, TSX}
  {
    if op in {LDX, TAX, TSX} then t.X else t.Y
  }

  /**
   * TXA and TYA keep the old Negative bit: Negative afterwards is bit 7 of A
   * or the Negative bit before, so a set N survives a transfer of 0x01; only
   * A and P change.
   */
  lemma TransferStickyNegative(op: Op, s: State, bus: Memory, o: Operand, ea: Address, d1: Byte, d2: Byte)
    requires ea < 0x100FF
    requires op in {TXA, TYA}
    ensures var t := Execute(op, s, bus, o, ea, d1, d2).state;
      && t.A == (if op.TXA? then s.X else s.Y)
      && StickyFlags(s.P, t.P, t.A)
      && OnlyAccumulatorFlags(s, t)
  {
    assert Execute(op, s, bus, o, ea, d1, d2) == LoadStore(op, s, OperandValue(s, bus, o));
  }

  /**
   * LDX, LDY, TAX, TAY and TSX write the operand, A or SP into X or Y and
   * update P with the sticky Negative rule; nothing else changes and nothing
   * is stored.
   */
  lemma LoadsStickyNegative(op: Op, s: State, bus: Memory, o: Operand, ea: Address, d1: Byte, d2: Byte)
    requires ea < 0x100FF
    requires op in {LDX, LDY, TAX, TAY, TSX}
    ensures var e := Execute(op, s, bus, o, ea, d1, d2);
      var v := Loaded(op, s, OperandValue(s, bus, o));
      && e.store.None?
      && LoadTarget(op, e.state) == v
      && StickyFlags(s.P, e.state.P, v)
      && e.state.(X := s.X, Y := s.Y, P := s.P) == s
      && (op in {LDX, TAX, TSX} ==> e.state.Y == s.Y)
      && (op in {LDY, TAY} ==> e.state.X == s.X)
  {
    assert Execute(op, s, bus, o, ea, d1, d2) == LoadStore(op, s, OperandValue(s, bus, o));
  }

  /**
   * TXS copies X into SP and, as written, updates P from X with the sticky
   * Negative rule; only SP and P change.
   */
  lemma TxsSetsFlags(s: State, bus: Memory, o: Operand, ea: Address, d1: Byte, d2: Byte)
    requires ea < 0x100FF
    ensures var t := Execute(TXS, s, bus, o, ea, d1, d2).state;
      && t.SP == s.X
      && StickyFlags(s.P, t.P, s.X)
      && t.(SP := s.SP, P := s.P) == s
  {
    assert Execute(TXS, s, bus, o, ea, d1, d2) == LoadStore(TXS, s, OperandValue(s, bus, o));
  }

  /** The register an index opcode counts and the direction it counts in. */
  function CounterOf(op: Op, s: State): Byte
    requires op in {DEX, INX, DEY, INY}
  {
    if op.DEX? || op.INX? then s.X else s.Y
  }

  /**
   * DEX, INX, DEY and INY count mod 256 and keep Carry, Overflow, I, D and B;
   * Zero and Negative come from the new register.
   */
  lemma CountersWrap(op: Op, s: State, bus: Memory, o: Operand, ea: Address, d1: Byte, d2: Byte)
    requires ea < 0x100FF
    requires op in {DEX, INX, DEY, INY}
    ensures var t := Execute(op, s, bus, o, ea, d1, d2).state;
      var step := if op.DEX? || op.DEY? then -1 else 1;
      && CounterOf(op, t) == (CounterOf(op, s) + step) % 0x100
      && (IsSet(t.P, FlagZ) <==> CounterOf(op, t) == 0)
      && (IsSet(t.P, FlagN) <==> Bit7(CounterOf(op, t)))
      && t.P & KeepCount == s.P & KeepCount
      && t.(X := s.X, Y := s.Y, P := s.P) == s
      && (op.DEX? || op.INX? ==> t.Y == s.Y)
      && (op.DEY? || op.INY? ==> t.X == s.X)
  {
    assert Execute(op, s, bus, o, ea, d1, d2) == Arithmetic(op, s, OperandValue(s, bus, o));
  }

  /**
   * INC and DEC store the operand plus or minus one mod 256. INC updates P
   * with the sticky Negative rule, so it drops Carry; DEC takes Negative from
   * the new value and keeps Carry, Overflow, I, D and B. Registers are left
   * alone.
   */
  lemma IncDecStores(op: Op, s: State, bus: Memory, o: Operand, ea: Address, d1: Byte, d2: Byte)
    requires ea < 0x100FF
    requires op in {INC, DEC}
    ensures var e := Execute(op, s, bus, o, ea, d1, d2);
      var m := OperandValue(s, bus, o);
      var v := if op.INC? then (m + 1) % 0x100 else (m - 1) % 0x100;
      && e.store == Some(v)
      && (op.INC? ==> StickyFlags(s.P, e.state.P, v))
      && (op.DEC? ==> (IsSet(e.state.P, FlagZ) <==> v == 0) && (IsSet(e.state.P, FlagN) <==> Bit7(v)))
      && (op.DEC? ==> e.state.P & KeepCount == s.P & KeepCount)
      && e.state.(P := s.P) == s
  {
    assert Execute(op, s, bus, o, ea, d1, d2) == Arithmetic(op, s, OperandValue(s, bus, o));
  }

  // ---------------------------------------------------------------------------
  // ADC and the borrow convention

  /** The two ADC vectors: 0x50 + 0x50 overflows into the sign; 0xFF + 0x01 carries out. */
  lemma AdcExamples(p: bv8)
    requires !IsSet(p, FlagC)
    ensures var r := Adc(0x50, 0x50, p);
      r.value == 0xA0 && IsSet(r.flags, FlagV) && !IsSet(r.flags, FlagC)
      && IsSet(r.flags, FlagN) && !IsSet(r.flags, FlagZ)
    ensures var r := Adc(0xFF, 0x01, p);
      r.value == 0x00 && IsSet(r.flags, FlagC) && IsSet(r.flags, FlagZ)
      && !IsSet(r.flags, FlagV) && !IsSet(r.flags, FlagN)
  {
    var r := Adc(0x50, 0x50, p);
    assert r.value == 0xA0;
    var q := Adc(0xFF, 0x01, p);
    assert q.value == 0x00;
  }

  /** With the carry set, 0x00 - 0x01 gives 0xFE with Carry (borrow) set. */
  lemma SbcBorrowExample(p: bv8)
    requires IsSet(p, FlagC)
    ensures var r := Sbc(0x00, 0x01, p);
      r.value == 0xFE && IsSet(r.flags, FlagC) && IsSet(r.flags, FlagN) && !IsSet(r.flags, FlagZ)
  {
    var r := Sbc(0x00, 0x01, p);
    assert r.value == 0xFE;
  }

  /** The register a compare opcode tests. */
  function ComparedRegister(op: Op, s: State): Byte
    requires op in {CMP, CPX, CPY}
  {
    if op.CMP? then s.A else if op.CPX? then s.X else s.Y
  }

  /**
   * CMP, CPX and CPY change only P: Zero iff operand == register, Carry iff
   * operand > register.
   */
  lemma CompareKeepsRegisters(op: Op, s: State, bus: Memory, o: Operand, ea: Address, d1: Byte, d2: Byte)
    requires ea < 0x100FF
    requires op in {CMP, CPX, CPY}
    ensures var t := Execute(op, s, bus, o, ea, d1, d2).state;
      var m := OperandValue(s, bus, o);
      && OnlyFlags(s, t) && t.PC == s.PC && t.clocks == s.clocks
      && (IsSet(t.P, FlagZ) <==> m == ComparedRegister(op, s))
      && (IsSet(t.P, FlagC) <==> m > ComparedRegister(op, s))
  {
    assert Execute(op, s, bus, o, ea, d1, d2) == Done(Status(op, s, OperandValue(s, bus, o)));
  }

  // ---------------------------------------------------------------------------
  // Shifts and rotates

  datatype Shift = ShiftLeft | ShiftRight | RotateLeft | RotateRight

  /** The opcode family of each shift. */
  function ShiftOp(k: Shift): (op: Op)
    ensures op.Stores()
  {
    match k
    case ShiftLeft => ASL
    case ShiftRight => LSR
    case RotateLeft => ROL
    case RotateRight => ROR
  }

  /** The accumulator opcode of each shift. */
  function AccumulatorOpcode(k: Shift): Byte
  {
    match k
    case ShiftLeft => 0x0A
    case ShiftRight => 0x4A
    case RotateLeft => 0x2A
    case RotateRight => 0x6A
  }

  /** The zero-page opcode of each shift. */
  function ZeroPageOpcode(k: Shift): Byte
  {
    match k
    case ShiftLeft => 0x06
    case ShiftRight => 0x46
    case RotateLeft => 0x26
    case RotateRight => 0x66
  }

  /** The ALU formula behind each shift. */
  function ShiftResult(k: Shift, m: Byte, p: bv8): AluResult
  {
    match k
    case ShiftLeft => Asl(m, p)
    case ShiftRight => Lsr(m, p)
    case RotateLeft => Rol(m, p)
    case RotateRight => Ror(m, p)
  }

  /**
   * The accumulator opcodes decode to the accumulator form of their shift and
   * have no addressing mode; the zero-page opcodes use the zero-page mode.
   */
  lemma ShiftOpcodes(k: Shift)
    ensures Decode(AccumulatorOpcode(k)) == Some(Instruction(ShiftOp(k), AccumulatorForm))
    ensures ModeOf(AccumulatorOpcode(k)) == NoMode
    ensures Decode(ZeroPageOpcode(k)) == Some(I(ShiftOp(k)))
    ensures ModeOf(ZeroPageOpcode(k)) == ZeroPage
  {
    match k
    case ShiftLeft => AslOpcodes();
    case ShiftRight => LsrOpcodes();
    case RotateLeft => RolOpcodes();
    case RotateRight => RorOpcodes();
  }

  lemma AslOpcodes()
    ensures Decode(0x0A) == Some(Instruction(ASL, AccumulatorForm)) && ModeOf(0x0A) == NoMode
    ensures Decode(0x06) == Some(I(ASL)) && ModeOf(0x06) == ZeroPage
  {
  }

  lemma LsrOpcodes()
    ensures Decode(0x4A) == Some(Instruction(LSR, AccumulatorForm)) && ModeOf(0x4A) == NoMode
    ensures Decode(0x46) == Some(I(LSR)) && ModeOf(0x46) == ZeroPage
  {
  }

  lemma RolOpcodes()
    ensures Decode(0x2A) == Some(Instruction(ROL, AccumulatorForm)) && ModeOf(0x2A) == NoMode
    ensures Decode(0x26) == Some(I(ROL)) && ModeOf(0x26) == ZeroPage
  {
  }

  lemma RorOpcodes()
    ensures Decode(0x6A) == Some(Instruction(ROR, AccumulatorForm)) && ModeOf(0x6A) == NoMode
    ensures Decode(0x66) == Some(I(ROR)) && ModeOf(0x66) == ZeroPage
  {
  }

  /**
   * A shift or rotate sets P from the ALU formula and hands the shifted byte
   * to the write-back; nothing else changes.
   */
  lemma ShiftExecute(k: Shift, s: State, bus: Memory, o: Operand, ea: Address, d1: Byte, d2: Byte)
    requires ea < 0x100FF
    ensures var r := ShiftResult(k, OperandValue(s, bus, o), s.P);
      Execute(ShiftOp(k), s, bus, o, ea, d1, d2) == Effect(s.(P := r.flags), Some(r.value))
  {
    var m := OperandValue(s, bus, o);
    assert SectionOf(ShiftOp(k)) == BitwiseOps;
    assert Execute(ShiftOp(k), s, bus, o, ea, d1, d2) == Bitwise(ShiftOp(k), s, m);
    match k
    case ShiftLeft =>
    case ShiftRight =>
    case RotateLeft =>
    case RotateRight =>
  }

  // ---------------------------------------------------------------------------
  // Stack round trips

  /**
   * PHP pushes P with Break and Unused set; a PLP right after it restores P
   * (Break and Unused are kept from the current status) and SP.
   */
  lemma PhpThenPlp(s: State)
    ensures var pushed := PushStatus(s);
      && pushed.ram[StackCell(pushed.SP)] == Pushed(s.P)
      && PullStatus(pushed) == pushed.(SP := s.SP)
      && PullStatus(pushed).P == s.P
  {
    var pushed := PushStatus(s);
    assert Above(pushed.SP, 0) == StackCell(pushed.SP);
    PulledPushed(s.P, s.P);
    StackPointerRestored(s.SP, 1);
    var pulled := PullStatus(pushed);
    assert pulled.P == s.P;
    assert pulled.SP == s.SP;
  }

  /**
   * PHA pushes A; a PLA right after it pulls the same byte back into A,
   * restores SP and updates P with the sticky Negative rule. RAM keeps the
   * pushed byte.
   */
  lemma PhaThenPla(s: State)
    ensures var pushed := StackOp(PHA, s);
      var pulled := StackOp(PLA, pushed);
      && pushed.ram[StackCell(pushed.SP)] == s.A
      && pulled.A == s.A && pulled.SP == s.SP
      && StickyFlags(s.P, pulled.P, s.A)
      && pulled.(A := s.A, P := s.P) == pushed.(SP := s.SP)
  {
    PopAfterPush(s, s.A);
  }

  /**
   * PLA pulls the byte SP points at into A, steps SP up and updates P with the
   * sticky Negative rule; nothing else changes.
   */
  lemma PullAccumulator(s: State)
    ensures var t := StackOp(PLA, s);
      && t.A == s.ram[StackCell(s.SP)]
      && t.SP == (s.SP + 1) % 0x100
      && StickyFlags(s.P, t.P, t.A)
      && t.(A := s.A, SP := s.SP, P := s.P) == s
  {
  }

  /** After k pushes the slot j above SP holds the (k - j)-th push. */
  lemma AboveBelow(sp: Byte, k: nat, j: nat)
    requires 0 <= j < k <= 3
    ensures Above((sp + 0x100 - k) % 0x100, j) == Below(sp, k - j)
  {
  }

  /** k pushes followed by k pops leave SP where it was. */
  lemma StackPointerRestored(sp: Byte, k: nat)
    requires k <= 3
    ensures ((sp + 0x100 - k) % 0x100 + k) % 0x100 == sp
  {
  }

  /**
   * JSR pushes the address of its last operand byte and jumps; an RTS right
   * after it continues one past that address, with SP restored.
   */
  lemma JsrThenRts(s: State, target: Word)
    ensures var returned := ReturnFromSubroutine(CallSubroutine(s, target));
      && returned.PC == Successor(Successor(s.PC))
      && returned.SP == s.SP
      && returned.A == s.A && returned.X == s.X && returned.Y == s.Y
      && returned.P == s.P && returned.clocks == s.clocks
  {
    var pc := Successor(s.PC);
    var called := CallSubroutine(s, target);
    AboveBelow(s.SP, 2, 0);
    AboveBelow(s.SP, 2, 1);
    var lo, hi := called.ram[Above(called.SP, 0)], called.ram[Above(called.SP, 1)];
    assert lo == Low(pc) && hi == High(pc);
    WordOfLowHigh(pc);
    assert WordOf(lo, hi) == pc;
    StackPointerRestored(s.SP, 2);
    var returned := ReturnFromSubroutine(called);
    assert returned.PC == Successor(pc);
    assert returned.SP == s.SP;
    assert called.A == s.A && called.X == s.X && called.Y == s.Y && called.P == s.P && called.clocks == s.clocks;
  }

  /** The frame BRK leaves on the stack: status, then PC + 1 low and high, above SP. */
  lemma BrkFrame(s: State, bus: Memory)
    ensures var pc := Successor(s.PC);
      var entered := SoftwareInterrupt(s.(PC := pc), bus, 0xFFFE);
      && entered.SP == (s.SP + 0x100 - 3) % 0x100
      && entered.ram[Above(entered.SP, 0)] == Pushed(s.P)
      && entered.ram[Above(entered.SP, 1)] == Low(pc)
      && entered.ram[Above(entered.SP, 2)] == High(pc)
      && entered.P & (FlagB | FlagU) == s.P & (FlagB | FlagU)
  {
    var pc := Successor(s.PC);
    var t := s.(PC := pc);
    var entered := SoftwareInterrupt(t, bus, 0xFFFE);
    var pushed := PushThree(t, High(pc), Low(pc), Pushed(s.P));
    assert entered.ram == pushed.ram;
    AboveBelow(s.SP, 3, 0);
    AboveBelow(s.SP, 3, 1);
    AboveBelow(s.SP, 3, 2);
    SetInterruptKeepsBreak(s.P);
  }

  /** RTI over such a frame restores the status, PC and SP it was built from. */
  lemma RtiRestores(e: State, sp: Byte, p: bv8, pc: Word)
    requires e.SP == (sp + 0x100 - 3) % 0x100
    requires e.ram[Above(e.SP, 0)] == Pushed(p)
    requires e.ram[Above(e.SP, 1)] == Low(pc) && e.ram[Above(e.SP, 2)] == High(pc)
    requires e.P & (FlagB | FlagU) == p & (FlagB | FlagU)
    ensures var r := ReturnFromInterrupt(e); r.P == p && r.PC == pc && r.SP == sp
  {
    WordOfLowHigh(pc);
    PulledPushed(e.P, p);
    StackPointerRestored(sp, 3);
  }

  /**
   * BRK enters the interrupt through 0xFFFE with PC + 1 on the stack; an RTI
   * right after it restores P, SP and that PC.
   */
  lemma BrkThenRti(s: State, bus: Memory)
    ensures var entered := SoftwareInterrupt(s.(PC := Successor(s.PC)), bus, 0xFFFE);
      var returned := ReturnFromInterrupt(entered);
      && IsSet(entered.P, FlagI)
      && entered.clocks == s.clocks + 7
      && returned.PC == Successor(s.PC)
      && returned.SP == s.SP
      && returned.P == s.P
  {
    var pc := Successor(s.PC);
    BrkFrame(s, bus);
    RtiRestores(SoftwareInterrupt(s.(PC := pc), bus, 0xFFFE), s.SP, s.P, pc);
  }
}
