/**
 * Whole-instruction properties of cpu6502_Step: what one call does for a given
 * opcode, from the fetch through the write-back. Each property is proved on
 * Perform (the body once the opcode has decoded) and carried to Step.
 */
module Steps {
  import opened Bytes
  import opened Alu
  import opened NesBus
  import opened CpuState
  import opened Interpreter
  import opened Families

  // ---------------------------------------------------------------------------
  // PC advance

  /** The PC the mode switch leaves: past the opcode, the mode's operand bytes and an immediate byte. */
  function NextPc(pc: Word, opcode: Byte, form: Form): Word
  {
    (pc + ModeLength(ModeOf(opcode)) + (if form.ImmediateForm? then 1 else 0)) % 0x10000
  }

  lemma PerformAdvancesPc(s: State, bus: Memory, ct: ClockTable, opcode: Byte, d1: Byte, d2: Byte, instr: Instruction)
    requires Decode(opcode) == Some(instr)
    requires !instr.op.Jumps()
    ensures var t := Perform(s, bus, ct, opcode, d1, d2, instr).state;
      t.PC == NextPc(s.PC, opcode, instr.form) && t.clocks == s.clocks + ct[opcode]
  {
    var mode := ModeOf(opcode);
    var ea := EffectiveAddress(s, mode, d1, d2);
    var operand := OperandOf(instr.form, mode, ea, d1);
    var adv := Advance(s, opcode, instr.form, ct);
    assert adv.PC == NextPc(s.PC, opcode, instr.form) && adv.clocks == s.clocks + ct[opcode];
    var e := Execute(instr.op, adv, bus, operand, ea, d1, d2);
    assert !instr.op.Branch? && !instr.op.BRK?;
    assert e.state.PC == adv.PC && e.state.clocks == adv.clocks;
    match e.store
    case Some(v) =>
      var w := WriteBack(e.state, operand, ea, v);
      assert w.state.PC == e.state.PC && w.state.clocks == e.state.clocks;
      assert Perform(s, bus, ct, opcode, d1, d2, instr) == w;
    case None =>
  }

  /**
   * An opcode that does not jump ends with PC just past its operand bytes
   * (3 for the absolute modes, 2 for the zero-page and indirect modes, 1
   * otherwise, one more for an immediate operand) and charges exactly the
   * base clocks of the table.
   */
  lemma StepAdvancesPc(s: State, bus: Memory, ct: ClockTable)
    requires Decode(Fetch(s, bus).opcode).Some?
    requires !Decode(Fetch(s, bus).opcode).value.op.Jumps()
    ensures var f := Fetch(s, bus);
      var r := Step(s, bus, ct);
      && r.Executed?
      && r.outcome.state.PC == NextPc(s.PC, f.opcode, Decode(f.opcode).value.form)
      && r.outcome.state.clocks == s.clocks + ct[f.opcode]
  {
    var f := Fetch(s, bus);
    var instr := Decode(f.opcode).value;
    StepExecutes(s, bus, ct, instr);
    PerformAdvancesPc(s, bus, ct, f.opcode, f.d1, f.d2, instr);
  }

  // ---------------------------------------------------------------------------
  // X indexing where a 6502 indexes by Y

  lemma LdxZeroPageOpcode()
    ensures Decode(0xB6) == Some(I(LDX)) && ModeOf(0xB6) == ZeroPageX
  {
  }

  lemma StxZeroPageOpcode()
    ensures Decode(0x96) == Some(I(STX)) && ModeOf(0x96) == ZeroPageX
  {
  }

  lemma LdxAbsoluteOpcode()
    ensures Decode(0xBE) == Some(I(LDX)) && ModeOf(0xBE) == AbsoluteX
  {
  }

  lemma PerformLdxZeroPage(s: State, bus: Memory, ct: ClockTable, d1: Byte, d2: Byte)
    requires Decode(0xB6) == Some(I(LDX)) && ModeOf(0xB6) == ZeroPageX
    ensures Perform(s, bus, ct, 0xB6, d1, d2, I(LDX)).state.X == s.ram[(d1 + s.X) % 0x100]
  {
    var adv := Advance(s, 0xB6, Addressed, ct);
    var ea := EffectiveAddress(s, ZeroPageX, d1, d2);
    assert ea == (d1 + s.X) % 0x100;
    assert OperandOf(Addressed, ZeroPageX, ea, d1) == ZeroPageCell(ea);
    assert OperandValue(adv, bus, ZeroPageCell(ea)) == s.ram[ea];
    assert Execute(LDX, adv, bus, ZeroPageCell(ea), ea, d1, d2) == LoadStore(LDX, adv, s.ram[ea]);
  }

  lemma PerformStxZeroPage(s: State, bus: Memory, ct: ClockTable, d1: Byte, d2: Byte)
    requires Decode(0x96) == Some(I(STX)) && ModeOf(0x96) == ZeroPageX
    ensures Perform(s, bus, ct, 0x96, d1, d2, I(STX)).state.ram == s.ram[(d1 + s.X) % 0x100 := s.X]
  {
    var adv := Advance(s, 0x96, Addressed, ct);
    var ea := EffectiveAddress(s, ZeroPageX, d1, d2);
    assert ea == (d1 + s.X) % 0x100;
    assert OperandOf(Addressed, ZeroPageX, ea, d1) == ZeroPageCell(ea);
    var m := OperandValue(adv, bus, ZeroPageCell(ea));
    assert Execute(STX, adv, bus, ZeroPageCell(ea), ea, d1, d2) == Effect(adv, Some(s.X));
    assert WriteBack(adv, ZeroPageCell(ea), ea, s.X).state.ram == s.ram[ea := s.X];
  }

  lemma PerformLdxAbsolute(s: State, bus: Memory, ct: ClockTable, d1: Byte, d2: Byte)
    requires Decode(0xBE) == Some(I(LDX)) && ModeOf(0xBE) == AbsoluteX
    ensures Perform(s, bus, ct, 0xBE, d1, d2, I(LDX)).state.X == Read(s.ram, bus, WordOf(d1, d2) + s.X)
  {
    var adv := Advance(s, 0xBE, Addressed, ct);
    var ea := EffectiveAddress(s, AbsoluteX, d1, d2);
    assert ea == WordOf(d1, d2) + s.X;
    assert OperandOf(Addressed, AbsoluteX, ea, d1) == Memory(ea);
    var m := OperandValue(adv, bus, Memory(ea));
    assert m == Read(s.ram, bus, ea);
    assert Execute(LDX, adv, bus, Memory(ea), ea, d1, d2) == LoadStore(LDX, adv, m);
  }

  lemma LdxZeroPageStep(s: State, bus: Memory, ct: ClockTable)
    requires Fetch(s, bus).opcode == 0xB6
    ensures var r := Step(s, bus, ct);
      r.Executed? && r.outcome.state.X == s.ram[(Fetch(s, bus).d1 + s.X) % 0x100]
  {
    var f := Fetch(s, bus);
    LdxZeroPageOpcode();
    StepExecutes(s, bus, ct, I(LDX));
    PerformLdxZeroPage(s, bus, ct, f.d1, f.d2);
  }

  lemma StxZeroPageStep(s: State, bus: Memory, ct: ClockTable)
    requires Fetch(s, bus).opcode == 0x96
    ensures var r := Step(s, bus, ct);
      r.Executed? && r.outcome.state.ram == s.ram[(Fetch(s, bus).d1 + s.X) % 0x100 := s.X]
  {
    var f := Fetch(s, bus);
    StxZeroPageOpcode();
    StepExecutes(s, bus, ct, I(STX));
    PerformStxZeroPage(s, bus, ct, f.d1, f.d2);
  }

  lemma LdxAbsoluteStep(s: State, bus: Memory, ct: ClockTable)
    requires Fetch(s, bus).opcode == 0xBE
    ensures var f := Fetch(s, bus); var r := Step(s, bus, ct);
      r.Executed? && r.outcome.state.X == Read(s.ram, bus, WordOf(f.d1, f.d2) + s.X)
  {
    var f := Fetch(s, bus);
    LdxAbsoluteOpcode();
    StepExecutes(s, bus, ct, I(LDX));
    PerformLdxAbsolute(s, bus, ct, f.d1, f.d2);
  }

  /**
   * Opcodes 0xB6, 0x96 and 0xBE (LDX zp,Y, STX zp,Y and LDX abs,Y on a 6502)
   * take the mode of their table slot, so they index by X.
   */
  lemma IndexedByX(s: State, bus: Memory, ct: ClockTable)
    ensures var f := Fetch(s, bus); var r := Step(s, bus, ct);
      f.opcode == 0xB6 ==> r.Executed? && r.outcome.state.X == s.ram[(f.d1 + s.X) % 0x100]
    ensures var f := Fetch(s, bus); var r := Step(s, bus, ct);
      f.opcode == 0x96 ==> r.Executed? && r.outcome.state.ram == s.ram[(f.d1 + s.X) % 0x100 := s.X]
    ensures var f := Fetch(s, bus); var r := Step(s, bus, ct);
      f.opcode == 0xBE ==> r.Executed? && r.outcome.state.X == Read(s.ram, bus, WordOf(f.d1, f.d2) + s.X)
  {
    var f := Fetch(s, bus);
    if f.opcode == 0xB6 {
      LdxZeroPageStep(s, bus, ct);
    } else if f.opcode == 0x96 {
      StxZeroPageStep(s, bus, ct);
    } else if f.opcode == 0xBE {
      LdxAbsoluteStep(s, bus, ct);
    }
  }

  // ---------------------------------------------------------------------------
  // Immediate arithmetic

  lemma AdcImmediateOpcode()
    ensures Decode(0x69) == Some(Instruction(ADC, ImmediateForm)) && ModeOf(0x69) == NoMode
  {
  }

  lemma SbcImmediateOpcode()
    ensures Decode(0xE9) == Some(Instruction(SBC, ImmediateForm)) && ModeOf(0xE9) == NoMode
  {
  }

  lemma PerformAdcImmediate(s: State, bus: Memory, ct: ClockTable, d1: Byte, d2: Byte)
    requires Decode(0x69) == Some(Instruction(ADC, ImmediateForm)) && ModeOf(0x69) == NoMode
    ensures var t := Perform(s, bus, ct, 0x69, d1, d2, Instruction(ADC, ImmediateForm)).state;
      var r := Adc(s.A, d1, s.P);
      t.A == r.value && t.P == r.flags && t.ram == s.ram
  {
    var adv := Advance(s, 0x69, ImmediateForm, ct);
    var ea := EffectiveAddress(s, NoMode, d1, d2);
    assert OperandOf(ImmediateForm, NoMode, ea, d1) == Immediate(d1);
    assert OperandValue(adv, bus, Immediate(d1)) == d1;
    assert Execute(ADC, adv, bus, Immediate(d1), ea, d1, d2) == Arithmetic(ADC, adv, d1);
  }

  lemma PerformSbcImmediate(s: State, bus: Memory, ct: ClockTable, d1: Byte, d2: Byte)
    requires Decode(0xE9) == Some(Instruction(SBC, ImmediateForm)) && ModeOf(0xE9) == NoMode
    ensures var t := Perform(s, bus, ct, 0xE9, d1, d2, Instruction(SBC, ImmediateForm)).state;
      var r := Sbc(s.A, d1, s.P);
      t.A == r.value && t.P == r.flags && t.ram == s.ram
  {
    var adv := Advance(s, 0xE9, ImmediateForm, ct);
    var ea := EffectiveAddress(s, NoMode, d1, d2);
    assert OperandOf(ImmediateForm, NoMode, ea, d1) == Immediate(d1);
    assert OperandValue(adv, bus, Immediate(d1)) == d1;
    assert Execute(SBC, adv, bus, Immediate(d1), ea, d1, d2) == Arithmetic(SBC, adv, d1);
  }

  lemma AdcImmediateStep(s: State, bus: Memory, ct: ClockTable)
    requires Fetch(s, bus).opcode == 0x69
    ensures var f := Fetch(s, bus); var r := Step(s, bus, ct);
      && r.Executed?
      && r.outcome.state.A == Adc(s.A, f.d1, s.P).value
      && r.outcome.state.P == Adc(s.A, f.d1, s.P).flags
      && r.outcome.state.PC == (s.PC + 2) % 0x10000
  {
    var f := Fetch(s, bus);
    AdcImmediateOpcode();
    StepExecutes(s, bus, ct, Instruction(ADC, ImmediateForm));
    PerformAdcImmediate(s, bus, ct, f.d1, f.d2);
    PerformAdvancesPc(s, bus, ct, f.opcode, f.d1, f.d2, Instruction(ADC, ImmediateForm));
  }

  lemma SbcImmediateStep(s: State, bus: Memory, ct: ClockTable)
    requires Fetch(s, bus).opcode == 0xE9
    ensures var f := Fetch(s, bus); var r := Step(s, bus, ct);
      && r.Executed?
      && r.outcome.state.A == Sbc(s.A, f.d1, s.P).value
      && r.outcome.state.P == Sbc(s.A, f.d1, s.P).flags
      && r.outcome.state.PC == (s.PC + 2) % 0x10000
  {
    var f := Fetch(s, bus);
    SbcImmediateOpcode();
    StepExecutes(s, bus, ct, Instruction(SBC, ImmediateForm));
    PerformSbcImmediate(s, bus, ct, f.d1, f.d2);
    PerformAdvancesPc(s, bus, ct, f.opcode, f.d1, f.d2, Instruction(SBC, ImmediateForm));
  }

  /**
   * ADC #imm and SBC #imm take the byte after the opcode as the operand and
   * leave the ALU result in A and P; PC moves past both bytes.
   */
  lemma ImmediateArithmetic(s: State, bus: Memory, ct: ClockTable)
    ensures var f := Fetch(s, bus); var r := Step(s, bus, ct);
      f.opcode == 0x69 ==>
        && r.Executed?
        && r.outcome.state.A == Adc(s.A, f.d1, s.P).value
        && r.outcome.state.P == Adc(s.A, f.d1, s.P).flags
        && r.outcome.state.PC == (s.PC + 2) % 0x10000
    ensures var f := Fetch(s, bus); var r := Step(s, bus, ct);
      f.opcode == 0xE9 ==>
        && r.Executed?
        && r.outcome.state.A == Sbc(s.A, f.d1, s.P).value
        && r.outcome.state.P == Sbc(s.A, f.d1, s.P).flags
        && r.outcome.state.PC == (s.PC + 2) % 0x10000
  {
    var f := Fetch(s, bus);
    if f.opcode == 0x69 {
      AdcImmediateStep(s, bus, ct);
    } else if f.opcode == 0xE9 {
      SbcImmediateStep(s, bus, ct);
    }
  }

  // ---------------------------------------------------------------------------
  // Shifts and rotates

  lemma PerformShiftAccumulator(k: Shift, s: State, bus: Memory, ct: ClockTable, d1: Byte, d2: Byte)
    requires Decode(AccumulatorOpcode(k)) == Some(Instruction(ShiftOp(k), AccumulatorForm))
    requires ModeOf(AccumulatorOpcode(k)) == NoMode
    ensures var t := Perform(s, bus, ct, AccumulatorOpcode(k), d1, d2, Instruction(ShiftOp(k), AccumulatorForm)).state;
      var r := ShiftResult(k, s.A, s.P);
      t.A == r.value && t.P == r.flags && t.ram == s.ram
  {
    var adv := Advance(s, AccumulatorOpcode(k), AccumulatorForm, ct);
    ShiftExecute(k, adv, bus, Accumulator, 0, d1, d2);
  }

  lemma PerformShiftZeroPage(k: Shift, s: State, bus: Memory, ct: ClockTable, d1: Byte, d2: Byte)
    requires Decode(ZeroPageOpcode(k)) == Some(I(ShiftOp(k)))
    requires ModeOf(ZeroPageOpcode(k)) == ZeroPage
    ensures var t := Perform(s, bus, ct, ZeroPageOpcode(k), d1, d2, I(ShiftOp(k))).state;
      var r := ShiftResult(k, s.ram[d1], s.P);
      t.A == s.A && t.P == r.flags && t.ram == s.ram[d1 := r.value]
  {
    var adv := Advance(s, ZeroPageOpcode(k), Addressed, ct);
    ShiftExecute(k, adv, bus, ZeroPageCell(d1), d1, d1, d2);
  }

  /**
   * The accumulator forms (0x0A, 0x4A, 0x2A, 0x6A) shift A in place; the
   * zero-page forms (0x06, 0x46, 0x26, 0x66) write the shifted byte back to the
   * cell and leave A alone. P takes the flags of the ALU formula.
   */
  lemma ShiftSteps(k: Shift, s: State, bus: Memory, ct: ClockTable)
    ensures var f := Fetch(s, bus); var r := Step(s, bus, ct);
      f.opcode == AccumulatorOpcode(k) ==>
        && r.Executed?
        && r.outcome.state.A == ShiftResult(k, s.A, s.P).value
        && r.outcome.state.P == ShiftResult(k, s.A, s.P).flags
        && r.outcome.state.ram == s.ram
    ensures var f := Fetch(s, bus); var r := Step(s, bus, ct);
      f.opcode == ZeroPageOpcode(k) ==>
        && r.Executed?
        && r.outcome.state.A == s.A
        && r.outcome.state.P == ShiftResult(k, s.ram[f.d1], s.P).flags
        && r.outcome.state.ram == s.ram[f.d1 := ShiftResult(k, s.ram[f.d1], s.P).value]
  {
    var f := Fetch(s, bus);
    ShiftOpcodes(k);
    if f.opcode == AccumulatorOpcode(k) {
      StepExecutes(s, bus, ct, Instruction(ShiftOp(k), AccumulatorForm));
      PerformShiftAccumulator(k, s, bus, ct, f.d1, f.d2);
    } else if f.opcode == ZeroPageOpcode(k) {
      StepExecutes(s, bus, ct, I(ShiftOp(k)));
      PerformShiftZeroPage(k, s, bus, ct, f.d1, f.d2);
    }
  }

  // ---------------------------------------------------------------------------
  // Implied-mode opcodes

  /** The state the mode switch hands to an implied-mode opcode: PC past the opcode, base clocks charged. */
  function Implied(s: State, ct: ClockTable, opcode: Byte): State
  {
    s.(PC := Successor(s.PC), clocks := s.clocks + ct[opcode])
  }

  /** For an implied-mode opcode the mode switch only steps PC past the opcode and charges the clocks. */
  lemma AdvanceImplied(s: State, ct: ClockTable, opcode: Byte)
    requires ModeOf(opcode) == NoMode
    ensures Advance(s, opcode, Addressed, ct) == Implied(s, ct, opcode)
  {
  }

  // ---------------------------------------------------------------------------
  // Branches

  /** The flag a branch opcode tests: bits 7-6 of the opcode pick N, V, C or Z. */
  function BranchFlag(opcode: Byte): (flag: bv8)
    ensures flag in {FlagN, FlagV, FlagC, FlagZ}
  {
    match opcode / 64
    case 0 => FlagN
    case 1 => FlagV
    case 2 => FlagC
    case _ => FlagZ
  }

  /**
   * The eight branch opcodes are exactly those whose low five bits are 0x10;
   * bit 5 says whether the branch is taken on a set or a clear flag. None of
   * them has an addressing mode.
   */
  lemma BranchOpcodes(opcode: Byte)
    requires opcode % 32 == 0x10
    ensures Decode(opcode) == Some(I(Branch(BranchFlag(opcode), opcode / 32 % 2 == 1)))
    ensures ModeOf(opcode) == NoMode
  {
    assert opcode in {0x10, 0x30, 0x50, 0x70, 0x90, 0xB0, 0xD0, 0xF0};
    assert opcode % 32 / 8 == 2 && opcode % 8 == 0;
  }

  lemma PerformBranch(s: State, bus: Memory, ct: ClockTable, opcode: Byte, d1: Byte, d2: Byte,
                      flag: bv8, whenSet: bool)
    requires Decode(opcode) == Some(I(Branch(flag, whenSet))) && ModeOf(opcode) == NoMode
    ensures var r := Perform(s, bus, ct, opcode, d1, d2, I(Branch(flag, whenSet)));
      var next := Successor(Successor(s.PC));
      var target := Relative(next, d1);
      var cross := if next / 0x100 != target / 0x100 then 1 else 0;
      && r.hook.None?
      && r.state.(PC := s.PC, clocks := s.clocks) == s
      && (Taken(s.P, flag, whenSet) ==> r.state.PC == target && r.state.clocks == s.clocks + ct[opcode] + 1 + cross)
      && (!Taken(s.P, flag, whenSet) ==> r.state.PC == next && r.state.clocks == s.clocks + ct[opcode])
  {
    var op := Branch(flag, whenSet);
    AdvanceImplied(s, ct, opcode);
    var t := Implied(s, ct, opcode);
    assert EffectiveAddress(s, NoMode, d1, d2) == 0;
    assert OperandOf(Addressed, NoMode, 0, d1) == NoOperand;
    assert Execute(op, t, bus, NoOperand, 0, d1, d2) == Done(Control(op, t, bus, 0, d1, d2));
  }

  /**
   * A branch at p continues at p + 2, or at p + 2 plus the signed offset when
   * its flag test holds. A taken branch costs one clock more, two when the
   * target is on another page than p + 2; nothing else changes.
   */
  lemma BranchStep(s: State, bus: Memory, ct: ClockTable)
    requires Fetch(s, bus).opcode % 32 == 0x10
    ensures var f := Fetch(s, bus);
      var r := Step(s, bus, ct);
      var next := (s.PC + 2) % 0x10000;
      var target := Relative(next, f.d1);
      var cross := if next / 0x100 != target / 0x100 then 1 else 0;
      && r.Executed?
      && r.outcome.hook.None?
      && r.outcome.state.(PC := s.PC, clocks := s.clocks) == s
      && (Taken(s.P, BranchFlag(f.opcode), f.opcode / 32 % 2 == 1) ==>
            r.outcome.state.PC == target && r.outcome.state.clocks == s.clocks + ct[f.opcode] + 1 + cross)
      && (!Taken(s.P, BranchFlag(f.opcode), f.opcode / 32 % 2 == 1) ==>
            r.outcome.state.PC == next && r.outcome.state.clocks == s.clocks + ct[f.opcode])
  {
    var f := Fetch(s, bus);
    var instr := I(Branch(BranchFlag(f.opcode), f.opcode / 32 % 2 == 1));
    BranchOpcodes(f.opcode);
    SuccessorTwice(s.PC);
    StepExecutes(s, bus, ct, instr);
    PerformBranch(s, bus, ct, f.opcode, f.d1, f.d2, instr.op.flag, instr.op.whenSet);
  }

  // ---------------------------------------------------------------------------
  // Stores and special reads

  lemma StaAbsoluteOpcode()
    ensures Decode(0x8D) == Some(I(STA)) && ModeOf(0x8D) == Absolute
  {
  }

  lemma StaAbsoluteXOpcode()
    ensures Decode(0x9D) == Some(I(STA)) && ModeOf(0x9D) == AbsoluteX
  {
  }

  lemma LdaAbsoluteOpcode()
    ensures Decode(0xAD) == Some(I(LDA)) && ModeOf(0xAD) == Absolute
  {
  }

  lemma PerformStaAbsolute(s: State, bus: Memory, ct: ClockTable, d1: Byte, d2: Byte)
    requires Decode(0x8D) == Some(I(STA)) && ModeOf(0x8D) == Absolute
    ensures var r := Perform(s, bus, ct, 0x8D, d1, d2, I(STA));
      var ea := WordOf(d1, d2);
      && (ea < 0x2000 ==> r.state.ram == s.ram[ea % 0x800 := s.A] && r.hook.None?)
      && (ea >= 0x2000 ==>
            && r.state.ram == s.ram
            && (r.hook.Some? <==> WriteSpecial(ea, s.A).Call?)
            && (r.hook.Some? ==> r.hook.value == WriteSpecial(ea, s.A).hook))
  {
  }

  /**
   * STA abs: below 0x2000 the accumulator lands in RAM at the address mod
   * 0x800; from 0x2000 up RAM is untouched and writeSpecial decides: PPU
   * register addr & 7 up to 0x3FFF, one OAM DMA from page A for 0x4014, the
   * input strobe for 0x4016, nothing for the other APU/IO registers, and the
   * cartridge from 0x4020 up.
   */
  lemma StoreRouting(s: State, bus: Memory, ct: ClockTable)
    requires Fetch(s, bus).opcode == 0x8D
    ensures var f := Fetch(s, bus);
      var r := Step(s, bus, ct);
      var ea := WordOf(f.d1, f.d2);
      && r.Executed?
      && (ea < 0x2000 ==> r.outcome.state.ram == s.ram[ea % 0x800 := s.A] && r.outcome.hook.None?)
      && (ea >= 0x2000 ==> r.outcome.state.ram == s.ram)
      && (0x2000 <= ea < 0x4000 ==> r.outcome.hook == Some(PpuWriteReg(ea % 8, s.A)))
      && (ea == 0x4014 ==> r.outcome.hook == Some(OamDma(s.A * 0x100)))
      && (ea == 0x4016 ==> r.outcome.hook == Some(InputWriteStrobe(s.A)))
      && (0x4000 <= ea < 0x4020 && ea != 0x4014 && ea != 0x4016 ==> r.outcome.hook.None?)
      && (0x4020 <= ea ==> r.outcome.hook == Some(CartWriteSpecial(ea, s.A)))
  {
    var f := Fetch(s, bus);
    StaAbsoluteOpcode();
    StepExecutes(s, bus, ct, I(STA));
    PerformStaAbsolute(s, bus, ct, f.d1, f.d2);
  }

  lemma PerformStaAbsoluteX(s: State, bus: Memory, ct: ClockTable, d1: Byte, d2: Byte)
    requires Decode(0x9D) == Some(I(STA)) && ModeOf(0x9D) == AbsoluteX
    requires WordOf(d1, d2) + s.X >= 0x10000
    ensures var r := Perform(s, bus, ct, 0x9D, d1, d2, I(STA));
      r.state.ram == s.ram[WordOf(d1, d2) + s.X - 0x10000 := s.A] && r.hook.None?
  {
  }

  /**
   * STA abs,X whose sum passes 0xFFFF goes through writeSpecial, which
   * writes to the sum & 0xFFFF: a zero-page cell.
   */
  lemma StoreWrapsToZeroPage(s: State, bus: Memory, ct: ClockTable)
    requires Fetch(s, bus).opcode == 0x9D
    requires WordOf(Fetch(s, bus).d1, Fetch(s, bus).d2) + s.X >= 0x10000
    ensures var f := Fetch(s, bus);
      var r := Step(s, bus, ct);
      var cell := WordOf(f.d1, f.d2) + s.X - 0x10000;
      && cell < 0x100
      && r.Executed?
      && r.outcome.state.ram == s.ram[cell := s.A]
      && r.outcome.hook.None?
  {
    var f := Fetch(s, bus);
    StaAbsoluteXOpcode();
    StepExecutes(s, bus, ct, I(STA));
    PerformStaAbsoluteX(s, bus, ct, f.d1, f.d2);
  }

  lemma PerformLdaAbsolute(s: State, bus: Memory, ct: ClockTable, d1: Byte, d2: Byte)
    requires Decode(0xAD) == Some(I(LDA)) && ModeOf(0xAD) == Absolute
    ensures var r := Perform(s, bus, ct, 0xAD, d1, d2, I(LDA));
      var ea := WordOf(d1, d2);
      && r.state.A == Read(s.ram, bus, ea)
      && r.state.ram == s.ram
      && (r.hook.Some? <==> 0x2000 <= ea < 0x6000)
      && (r.hook.Some? ==> r.hook == Some(PostSpecialRead(ea)))
  {
  }

  /**
   * LDA abs from the PPU register block or the APU/IO block reads the bus and
   * is followed by postSpecialRead of the address; other reads call nothing.
   */
  lemma SpecialReadNotifies(s: State, bus: Memory, ct: ClockTable)
    requires Fetch(s, bus).opcode == 0xAD
    ensures var f := Fetch(s, bus);
      var r := Step(s, bus, ct);
      var ea := WordOf(f.d1, f.d2);
      && r.Executed?
      && (0x2000 <= ea < 0x6000 ==> r.outcome.state.A == bus[ea] && r.outcome.hook == Some(PostSpecialRead(ea)))
      && (ea < 0x2000 ==> r.outcome.state.A == s.ram[ea % 0x800] && r.outcome.hook.None?)
      && (0x6000 <= ea ==> r.outcome.state.A == bus[ea] && r.outcome.hook.None?)
  {
    var f := Fetch(s, bus);
    var ea := WordOf(f.d1, f.d2);
    LdaAbsoluteOpcode();
    StepExecutes(s, bus, ct, I(LDA));
    PerformLdaAbsolute(s, bus, ct, f.d1, f.d2);
  }

  // ---------------------------------------------------------------------------
  // Subroutines, interrupts and the status on the stack

  lemma JsrOpcode() ensures Decode(0x20) == Some(I(JSR)) && ModeOf(0x20) == NoMode {}
  lemma RtsOpcode() ensures Decode(0x60) == Some(I(RTS)) && ModeOf(0x60) == NoMode {}
  lemma BrkOpcode() ensures Decode(0x00) == Some(I(BRK)) && ModeOf(0x00) == NoMode {}
  lemma RtiOpcode() ensures Decode(0x40) == Some(I(RTI)) && ModeOf(0x40) == NoMode {}
  lemma PhpOpcode() ensures Decode(0x08) == Some(I(PHP)) && ModeOf(0x08) == NoMode {}
  lemma PlpOpcode() ensures Decode(0x28) == Some(I(PLP)) && ModeOf(0x28) == NoMode {}

  /** An implied-mode control opcode runs its Control case on the advanced state. */
  lemma PerformControl(s: State, bus: Memory, ct: ClockTable, opcode: Byte, d1: Byte, d2: Byte, op: Op)
    requires Decode(opcode) == Some(I(op)) && ModeOf(opcode) == NoMode
    requires op in {JSR, RTS, BRK, RTI}
    ensures Perform(s, bus, ct, opcode, d1, d2, I(op)) == Outcome(Control(op, Implied(s, ct, opcode), bus, 0, d1, d2), None)
  {
    AdvanceImplied(s, ct, opcode);
    var t := Implied(s, ct, opcode);
    assert EffectiveAddress(s, NoMode, d1, d2) == 0;
    assert OperandOf(Addressed, NoMode, 0, d1) == NoOperand;
    assert Execute(op, t, bus, NoOperand, 0, d1, d2) == Done(Control(op, t, bus, 0, d1, d2));
  }

  /** An implied-mode stack opcode runs its StackOp case on the advanced state. */
  lemma PerformStack(s: State, bus: Memory, ct: ClockTable, opcode: Byte, d1: Byte, d2: Byte, op: Op)
    requires Decode(opcode) == Some(I(op)) && ModeOf(opcode) == NoMode
    requires op in {PHP, PLP}
    ensures Perform(s, bus, ct, opcode, d1, d2, I(op)) == Outcome(StackOp(op, Implied(s, ct, opcode)), None)
  {
    AdvanceImplied(s, ct, opcode);
    var t := Implied(s, ct, opcode);
    assert EffectiveAddress(s, NoMode, d1, d2) == 0;
    assert OperandOf(Addressed, NoMode, 0, d1) == NoOperand;
    assert Execute(op, t, bus, NoOperand, 0, d1, d2) == Done(StackOp(op, t));
  }

  /** JSR: the return address goes onto the stack and PC becomes the operand; no collaborator is called. */
  lemma JsrStep(s: State, bus: Memory, ct: ClockTable)
    requires Fetch(s, bus).opcode == 0x20
    ensures var f := Fetch(s, bus);
      Step(s, bus, ct) == Executed(Outcome(CallSubroutine(Implied(s, ct, 0x20), WordOf(f.d1, f.d2)), None))
  {
    var f := Fetch(s, bus);
    JsrOpcode();
    StepExecutes(s, bus, ct, I(JSR));
    PerformControl(s, bus, ct, 0x20, f.d1, f.d2, JSR);
  }

  /** RTS: PC comes back from the stack, plus one. */
  lemma RtsStep(s: State, bus: Memory, ct: ClockTable)
    requires Fetch(s, bus).opcode == 0x60
    ensures Step(s, bus, ct) == Executed(Outcome(ReturnFromSubroutine(Implied(s, ct, 0x60)), None))
  {
    var f := Fetch(s, bus);
    RtsOpcode();
    StepExecutes(s, bus, ct, I(RTS));
    PerformControl(s, bus, ct, 0x60, f.d1, f.d2, RTS);
  }

  /** BRK: the software interrupt through 0xFFFE, with PC stepped over the padding byte. */
  lemma BrkStep(s: State, bus: Memory, ct: ClockTable)
    requires Fetch(s, bus).opcode == 0x00
    ensures var t := Implied(s, ct, 0x00);
      Step(s, bus, ct) == Executed(Outcome(SoftwareInterrupt(t.(PC := Successor(t.PC)), bus, 0xFFFE), None))
  {
    var f := Fetch(s, bus);
    BrkOpcode();
    StepExecutes(s, bus, ct, I(BRK));
    PerformControl(s, bus, ct, 0x00, f.d1, f.d2, BRK);
  }

  /** RTI: status, then PC, come back from the stack. */
  lemma RtiStep(s: State, bus: Memory, ct: ClockTable)
    requires Fetch(s, bus).opcode == 0x40
    ensures Step(s, bus, ct) == Executed(Outcome(ReturnFromInterrupt(Implied(s, ct, 0x40)), None))
  {
    var f := Fetch(s, bus);
    RtiOpcode();
    StepExecutes(s, bus, ct, I(RTI));
    PerformControl(s, bus, ct, 0x40, f.d1, f.d2, RTI);
  }

  /** PHP: the status with Break and Unused set goes onto the stack. */
  lemma PhpStep(s: State, bus: Memory, ct: ClockTable)
    requires Fetch(s, bus).opcode == 0x08
    ensures Step(s, bus, ct) == Executed(Outcome(PushStatus(Implied(s, ct, 0x08)), None))
  {
    var f := Fetch(s, bus);
    PhpOpcode();
    StepExecutes(s, bus, ct, I(PHP));
    PerformStack(s, bus, ct, 0x08, f.d1, f.d2, PHP);
  }

  /** PLP: the status comes back from the stack, Break and Unused kept. */
  lemma PlpStep(s: State, bus: Memory, ct: ClockTable)
    requires Fetch(s, bus).opcode == 0x28
    ensures Step(s, bus, ct) == Executed(Outcome(PullStatus(Implied(s, ct, 0x28)), None))
  {
    var f := Fetch(s, bus);
    PlpOpcode();
    StepExecutes(s, bus, ct, I(PLP));
    PerformStack(s, bus, ct, 0x28, f.d1, f.d2, PLP);
  }

  /** What RTS restores depends only on SP and the stack page; the rest passes through. */
  lemma ReturnFromSubroutineReads(a: State, b: State)
    requires a.ram == b.ram && a.SP == b.SP
    ensures ReturnFromSubroutine(a).PC == ReturnFromSubroutine(b).PC
    ensures ReturnFromSubroutine(a).SP == ReturnFromSubroutine(b).SP
    ensures var r := ReturnFromSubroutine(a);
      r.A == a.A && r.X == a.X && r.Y == a.Y && r.P == a.P && r.clocks == a.clocks
  {
  }

  /** What RTI restores depends only on SP, P and the stack page. */
  lemma ReturnFromInterruptReads(a: State, b: State)
    requires a.ram == b.ram && a.SP == b.SP && a.P == b.P
    ensures ReturnFromInterrupt(a).PC == ReturnFromInterrupt(b).PC
    ensures ReturnFromInterrupt(a).SP == ReturnFromInterrupt(b).SP
    ensures ReturnFromInterrupt(a).P == ReturnFromInterrupt(b).P
  {
  }

  /** The state arithmetic behind JsrRtsSteps, free of the step function. */
  lemma JsrRtsStates(s: State, ct: ClockTable, target: Word, called: State, returned: State)
    requires called == CallSubroutine(Implied(s, ct, 0x20), target)
    requires returned == ReturnFromSubroutine(Implied(called, ct, 0x60))
    ensures returned.PC == (s.PC + 3) % 0x10000
    ensures returned.SP == s.SP
    ensures returned.clocks == s.clocks + ct[0x20] + ct[0x60]
    ensures returned.A == s.A && returned.X == s.X && returned.Y == s.Y && returned.P == s.P
  {
    var t := Implied(s, ct, 0x20);
    JsrThenRts(t, target);
    var direct := ReturnFromSubroutine(called);
    var i := Implied(called, ct, 0x60);
    ReturnFromSubroutineReads(i, called);
    assert direct.PC == Successor(Successor(t.PC)) && direct.SP == t.SP;
    assert t.PC == Successor(s.PC) && t.SP == s.SP && t.clocks == s.clocks + ct[0x20];
    SuccessorTwice(s.PC);
    assert called.A == t.A && called.X == t.X && called.Y == t.Y && called.P == t.P && called.clocks == t.clocks;
  }

  /**
   * JSR at p followed by the RTS it reaches returns to p + 3 with SP
   * restored and A, X, Y and P untouched; both base clock counts are charged.
   */
  lemma JsrRtsSteps(s: State, bus: Memory, ct: ClockTable)
    requires Fetch(s, bus).opcode == 0x20
    requires Step(s, bus, ct).Executed? && Fetch(Step(s, bus, ct).outcome.state, bus).opcode == 0x60
    ensures var called := Step(s, bus, ct).outcome.state;
      var returned := Step(called, bus, ct);
      && returned.Executed?
      && returned.outcome.state.PC == (s.PC + 3) % 0x10000
      && returned.outcome.state.SP == s.SP
      && returned.outcome.state.clocks == s.clocks + ct[0x20] + ct[0x60]
      && returned.outcome.state.A == s.A && returned.outcome.state.X == s.X
      && returned.outcome.state.Y == s.Y && returned.outcome.state.P == s.P
  {
    var f := Fetch(s, bus);
    JsrStep(s, bus, ct);
    var called := Step(s, bus, ct).outcome.state;
    RtsStep(called, bus, ct);
    JsrRtsStates(s, ct, WordOf(f.d1, f.d2), called, Step(called, bus, ct).outcome.state);
  }

  /** The state arithmetic behind BrkRtiSteps, free of the step function. */
  lemma BrkRtiStates(s: State, bus: Memory, ct: ClockTable, entered: State, returned: State)
    requires var t := Implied(s, ct, 0x00); entered == SoftwareInterrupt(t.(PC := Successor(t.PC)), bus, 0xFFFE)
    requires returned == ReturnFromInterrupt(Implied(entered, ct, 0x40))
    ensures IsSet(entered.P, FlagI)
    ensures returned.PC == (s.PC + 2) % 0x10000 && returned.SP == s.SP && returned.P == s.P
  {
    var t := Implied(s, ct, 0x00);
    assert entered == SoftwareInterrupt(t.(PC := Successor(t.PC)), bus, 0xFFFE);
    BrkThenRti(t, bus);
    var direct := ReturnFromInterrupt(entered);
    assert direct.SP == t.SP && direct.P == t.P && direct.PC == Successor(t.PC);
    assert t.SP == s.SP && t.P == s.P && t.PC == Successor(s.PC);
    ReturnFromInterruptReads(Implied(entered, ct, 0x40), entered);
    SuccessorTwice(s.PC);
    assert direct.PC == Successor(Successor(s.PC));
  }

  /**
   * BRK at p followed by an RTI as the first instruction of the handler
   * resumes at p + 2 with P and SP restored.
   */
  lemma BrkRtiSteps(s: State, bus: Memory, ct: ClockTable)
    requires Fetch(s, bus).opcode == 0x00
    requires Step(s, bus, ct).Executed? && Fetch(Step(s, bus, ct).outcome.state, bus).opcode == 0x40
    ensures var entered := Step(s, bus, ct).outcome.state;
      var returned := Step(entered, bus, ct);
      && IsSet(entered.P, FlagI)
      && returned.Executed?
      && returned.outcome.state.PC == (s.PC + 2) % 0x10000
      && returned.outcome.state.SP == s.SP
      && returned.outcome.state.P == s.P
  {
    BrkStep(s, bus, ct);
    var entered := Step(s, bus, ct).outcome.state;
    RtiStep(entered, bus, ct);
    BrkRtiStates(s, bus, ct, entered, Step(entered, bus, ct).outcome.state);
  }

  /** The state arithmetic behind PhpPlpSteps, free of the step function. */
  lemma PhpPlpStates(s: State, ct: ClockTable, pushed: State, pulled: State)
    requires pushed == PushStatus(Implied(s, ct, 0x08))
    requires pulled == PullStatus(Implied(pushed, ct, 0x28))
    ensures pulled.P == s.P && pulled.SP == s.SP && pulled.PC == (s.PC + 2) % 0x10000
  {
    var t := Implied(s, ct, 0x08);
    PhpThenPlp(t);
    var direct := PullStatus(pushed);
    var i := Implied(pushed, ct, 0x28);
    assert i.ram == pushed.ram && i.SP == pushed.SP && i.P == pushed.P;
    assert pulled.P == direct.P && pulled.SP == direct.SP;
    assert pulled.PC == Successor(pushed.PC) && pushed.PC == Successor(s.PC);
    SuccessorTwice(s.PC);
  }

  /** PHP followed by PLP leaves P and SP as they were. */
  lemma PhpPlpSteps(s: State, bus: Memory, ct: ClockTable)
    requires Fetch(s, bus).opcode == 0x08
    requires Step(s, bus, ct).Executed? && Fetch(Step(s, bus, ct).outcome.state, bus).opcode == 0x28
    ensures var pushed := Step(s, bus, ct).outcome.state;
      var pulled := Step(pushed, bus, ct);
      && pulled.Executed?
      && pulled.outcome.state.P == s.P
      && pulled.outcome.state.SP == s.SP
      && pulled.outcome.state.PC == (s.PC + 2) % 0x10000
  {
    PhpStep(s, bus, ct);
    var pushed := Step(s, bus, ct).outcome.state;
    PlpStep(pushed, bus, ct);
    PhpPlpStates(s, ct, pushed, Step(pushed, bus, ct).outcome.state);
  }
}
