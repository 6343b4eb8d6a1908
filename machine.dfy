/**
 * mainCPU as the object src/6502.cpp and src/nes_cpu.cpp update in place: the
 * registers, the 2 KB RAM array, the page table and a log of the calls made
 * into the PPU, the controllers and the cartridge. Every method is proved to
 * leave exactly the state the functions of CpuState, Interpreter and
 * NesSystem describe.
 */
module Machine {
  import opened Bytes
  import opened Alu
  import opened NesBus
  import opened CpuState
  import opened Interpreter
  import NesSystem

  /** The log entries for the collaborator a step called, if any. */
  function Calls(hook: Option<Hook>): (log: seq<Hook>)
    ensures log == [] <==> hook.None?
    ensures hook.Some? ==> log == [hook.value]
  {
    match hook
    case Some(h) => [h]
    case None => []
  }

  class NesCpu {
    var A: Byte
    var X: Byte
    var Y: Byte
    var SP: Byte
    var P: bv8
    var PC: Word
    var clocks: nat
    var ppuNMI: bool
    var ppuClocks: int
    const RAM: array<Byte>
    const pageMap: array<Page>
    /** The calls into collaborators, oldest first. */
    var calls: seq<Hook>

    ghost predicate Valid()
      reads this
    {
      RAM.Length == 0x800 && pageMap.Length == PageCount
    }

    /**
     * The page table shows RAM, the PPU registers and the APU/IO block where
     * mapDefaults put them; the pages from 0x60 to 0xFF belong to the mapper
     * and never point into RAM.
     */
    ghost predicate Mapped()
      requires Valid()
      reads this, pageMap
    {
      forall m | 0 <= m < PageCount ::
        && (m < 0x60 || m == 0x100 ==> pageMap[m] == DefaultPage(m))
        && (0x60 <= m < 0x100 ==> !pageMap[m].RamPage?)
    }

    /** The registers and RAM as the interpreter functions see them. */
    function View(): State
      requires Valid()
      reads this, RAM
    {
      State(A, X, Y, SP, P, PC, clocks, RAM[..])
    }

    constructor ()
      ensures Valid() && fresh(RAM) && fresh(pageMap)
      ensures calls == []
    {
      A, X, Y, SP, P, PC, clocks := 0, 0, 0, 0, 0, 0, 0;
      ppuNMI, ppuClocks := false, 0;
      RAM := new Byte[0x800](i => 0);
      pageMap := new Page[PageCount](i => Unmapped);
      calls := [];
    }

    /** nes_cpu::mapDefaults: clear the table, then install RAM and its mirrors, the PPU and the IO block. */
    method MapDefaults()
      requires Valid()
      modifies pageMap
      ensures forall m | 0 <= m < PageCount :: pageMap[m] == DefaultPage(m)
      ensures Mapped()
    {
      var i := 0;
      while i < PageCount
        invariant 0 <= i <= PageCount
        invariant forall k | 0 <= k < i :: pageMap[k] == Unmapped
      {
        pageMap[i] := Unmapped;
        i := i + 1;
      }
      var m := 0;
      while m < 0x20
        invariant 0 <= m <= 0x20
        invariant forall k | 0 <= k < m :: pageMap[k] == RamPage(k % 8)
        invariant forall k | 0x20 <= k < 0x20 + m :: pageMap[k] == PpuRegisters
        invariant forall k | 0x40 <= k < 0x40 + m :: pageMap[k] == SpecialMemory
        invariant forall k | m <= k < 0x20 || 0x20 + m <= k < 0x40 || 0x40 + m <= k < PageCount :: pageMap[k] == Unmapped
      {
        pageMap[m] := RamPage(m % 8);
        pageMap[m + 0x20] := PpuRegisters;
        pageMap[m + 0x40] := SpecialMemory;
        m := m + 1;
      }
      // wrap around
      pageMap[0x100] := pageMap[0];
    }

    /** mainCPU.read through the page table. */
    method ReadByte(bus: Memory, addr: Address) returns (b: Byte)
      requires Valid() && Mapped()
      ensures b == Read(RAM[..], bus, addr)
    {
      var m := addr / 0x100;
      assert (m < 0x60 || m == 0x100 ==> pageMap[m] == DefaultPage(m)) && (0x60 <= m < 0x100 ==> !pageMap[m].RamPage?);
      match pageMap[m]
      case RamPage(bank) => b := RAM[RamCell(bank, addr)];
      case _ => b := bus[addr % 0x10000];
    }

    /** push: SP moves down, then the byte is stored in page 1. */
    method Push(v: Byte)
      requires Valid()
      modifies this`SP, RAM
      ensures View() == CpuState.Push(old(View()), v)
    {
      SP := (SP - 1) % 0x100;
      RAM[StackCell(SP)] := v;
    }

    /** pop: the byte at SP is read, then SP moves up. */
    method Pop() returns (v: Byte)
      requires Valid()
      modifies this`SP
      ensures v == CpuState.Pop(old(View())).value
      ensures View() == CpuState.Pop(old(View())).state
    {
      v := RAM[StackCell(SP)];
      SP := (SP + 1) % 0x100;
    }

    /**
     * The entry sequence both interrupt entry points share: PC high byte, PC
     * low byte and `status` are pushed, PC is loaded from the vector, I is set
     * and seven clocks are charged.
     */
    method EnterInterrupt(bus: Memory, vector: Word, status: Byte)
      requires Valid() && Mapped()
      modifies this`SP, this`PC, this`P, this`clocks, RAM
      ensures View() == InterruptEntry(old(View()), bus, vector, status)
    {
      ghost var s := View();
      Push(High(PC));
      Push(Low(PC));
      Push(status);
      ghost var pushed := View();
      assert pushed == PushThree(s, High(s.PC), Low(s.PC), status);
      var lo := ReadByte(bus, vector);
      var hi := ReadByte(bus, vector + 1);
      PC := WordOf(lo, hi);
      P := SetBits(P, FlagI);
      clocks := clocks + 7;
      assert View() == pushed.(PC := WordOf(lo, hi), P := SetBits(pushed.P, FlagI), clocks := pushed.clocks + 7);
    }

    /** cpu6502_SoftwareInterrupt: the pushed status has Break and Unused set. */
    method SoftwareInterrupt(bus: Memory, vector: Word)
      requires Valid() && Mapped()
      modifies this`SP, this`PC, this`P, this`clocks, RAM
      ensures View() == CpuState.SoftwareInterrupt(old(View()), bus, vector)
    {
      EnterInterrupt(bus, vector, Pushed(P));
    }

    /** cpu6502_DeviceInterrupt: a masked request is dropped while I is set. */
    method DeviceInterrupt(bus: Memory, vector: Word, masked: bool)
      requires Valid() && Mapped()
      modifies this`SP, this`PC, this`P, this`clocks, RAM
      ensures View() == CpuState.DeviceInterrupt(old(View()), bus, vector, masked)
    {
      if !masked || !IsSet(P, FlagI) {
        EnterInterrupt(bus, vector, PushedByDevice(P));
      }
    }

    /** cpu6502_IRQ; `irqReached` is the answer of nesCart.IRQReached(). */
    method Irq(bus: Memory, irqReached: bool)
      requires Valid() && Mapped()
      modifies this`SP, this`PC, this`P, this`clocks, RAM
      ensures View() == NesSystem.Irq(old(View()), bus, irqReached)
    {
      if !irqReached {
        return;
      }
      if !IsSet(P, FlagI) {
        SoftwareInterrupt(bus, 0xFFFE);
      }
    }

    /** nes_cpu::reset: the RAM fill pattern, the register values, then the reset interrupt. */
    method Reset(bus: Memory)
      requires Valid() && Mapped()
      modifies this`A, this`X, this`Y, this`SP, this`P, this`PC, this`clocks, this`ppuNMI, this`ppuClocks, RAM
      ensures View() == NesSystem.ResetState(bus)
      ensures !ppuNMI && ppuClocks == 2510
    {
      ppuNMI := false;
      var i := 0;
      while i < 0x800
        modifies RAM
        invariant 0 <= i <= 0x800 && i % 8 == 0
        invariant forall k | 0 <= k < i :: RAM[k] == NesSystem.ResetPattern(k)
      {
        RAM[i + 0] := 0;
        RAM[i + 1] := 0;
        RAM[i + 2] := 0;
        RAM[i + 3] := 0;
        RAM[i + 4] := 255;
        RAM[i + 5] := 255;
        RAM[i + 6] := 255;
        RAM[i + 7] := 255;
        i := i + 8;
      }
      A, X, Y, P := 0, 0, 0, 0;
      PC := 0x0002;
      SP := 0xFD;
      clocks := 0;
      ppuClocks := 2510;
      assert RAM[..] == NesSystem.ResetFill(0x800);
      assert View() == NesSystem.PreResetState();
      SoftwareInterrupt(bus, 0xFFFC);
    }

    /** `*operand`. */
    method Deref(bus: Memory, o: Operand) returns (m: Byte)
      requires Valid() && Mapped()
      ensures m == OperandValue(View(), bus, o)
    {
      match o
      case NoOperand => m := 0;
      case Accumulator => m := A;
      case Immediate(v) => m := v;
      case ZeroPageCell(a) => m := RAM[a];
      case Memory(a) => m := ReadByte(bus, a);
    }

    /** The STORE / LOAD section of the opcode switch. */
    method LoadStore(op: Op, m: Byte) returns (store: Option<Byte>)
      requires Valid()
      requires SectionOf(op) == LoadStoreOps
      modifies this`A, this`X, this`Y, this`SP, this`P
      ensures View() == Interpreter.LoadStore(op, old(View()), m).state
      ensures store == Interpreter.LoadStore(op, old(View()), m).store
    {
      store := None;
      match op {
        case LDA => A := m; P := ZeroNegative(P, KeepLoadA, A);
        case LDX => X := m; P := ZeroNegative(P, KeepSticky, X);
        case LDY => Y := m; P := ZeroNegative(P, KeepSticky, Y);
        case STA => store := Some(A);
        case STX => store := Some(X);
        case STY => store := Some(Y);
        case TAX => X := A; P := ZeroNegative(P, KeepSticky, A);
        case TXA => A := X; P := ZeroNegative(P, KeepSticky, A);
        case TAY => Y := A; P := ZeroNegative(P, KeepSticky, A);
        case TYA => A := Y; P := ZeroNegative(P, KeepSticky, A);
        case TSX => X := SP; SP := X; P := ZeroNegative(P, KeepSticky, X);
        case TXS => SP := X; P := ZeroNegative(P, KeepSticky, X);
        case _ => assert false;
      }
    }

    /** PHA, PLA, PHP and PLP. */
    method StackOp(op: Op)
      requires Valid()
      requires SectionOf(op) == StackOps
      modifies this`A, this`SP, this`P, RAM
      ensures View() == Interpreter.StackOp(op, old(View()))
    {
      match op {
        case PHA => Push(A);
        case PLA =>
          var v := Pop();
          A := v;
          P := ZeroNegative(P, KeepSticky, A);
        case PHP => Push(Pushed(P));
        case PLP =>
          var v := Pop();
          P := Pulled(P, v);
        case _ => assert false;
      }
    }

    /** The ALU section: ADC, SBC and the increments and decrements. */
    method Arithmetic(op: Op, m: Byte) returns (store: Option<Byte>)
      requires Valid()
      requires SectionOf(op) == ArithmeticOps
      modifies this`A, this`X, this`Y, this`P
      ensures View() == Interpreter.Arithmetic(op, old(View()), m).state
      ensures store == Interpreter.Arithmetic(op, old(View()), m).store
    {
      store := None;
      match op {
        case ADC => var r := Adc(A, m, P); P := r.flags; A := r.value;
        case SBC => var r := Sbc(A, m, P); P := r.flags; A := r.value;
        case DEC =>
          var v := (m - 1) % 0x100;
          P := ZeroNegative(P, KeepCount, v);
          store := Some(v);
        case INC =>
          var v := (m + 1) % 0x100;
          P := ZeroNegative(P, KeepSticky, v);
          store := Some(v);
        case DEX => X := (X - 1) % 0x100; P := ZeroNegative(P, KeepCount, X);
        case INX => X := (X + 1) % 0x100; P := ZeroNegative(P, KeepCount, X);
        case DEY => Y := (Y - 1) % 0x100; P := ZeroNegative(P, KeepCount, Y);
        case INY => Y := (Y + 1) % 0x100; P := ZeroNegative(P, KeepCount, Y);
        case _ => assert false;
      }
    }

    /** The BITWISE section: ORA, AND, EOR, the shifts and rotates, and BIT. */
    method Bitwise(op: Op, m: Byte) returns (store: Option<Byte>)
      requires Valid()
      requires SectionOf(op) == BitwiseOps
      modifies this`A, this`P
      ensures View() == Interpreter.Bitwise(op, old(View()), m).state
      ensures store == Interpreter.Bitwise(op, old(View()), m).store
    {
      store := None;
      match op {
        case ORA => A := Or(A, m); P := ZeroNegative(P, KeepLogic, A);
        case AND => A := And(A, m); P := ZeroNegative(P, KeepLogic, A);
        case EOR => A := Xor(A, m); P := ZeroNegative(P, KeepLogic, A);
        case ASL => var r := Asl(m, P); P := r.flags; store := Some(r.value);
        case LSR => var r := Lsr(m, P); P := r.flags; store := Some(r.value);
        case ROL => var r := Rol(m, P); P := r.flags; store := Some(r.value);
        case ROR => var r := Ror(m, P); P := r.flags; store := Some(r.value);
        case BIT => P := BitTest(A, m, P);
        case _ => assert false;
      }
    }

    /** COMPARE / TEST, STATUS FLAGS and NOP. */
    method Status(op: Op, m: Byte)
      requires Valid()
      requires SectionOf(op) == StatusOps
      modifies this`P
      ensures View() == Interpreter.Status(op, old(View()), m)
    {
      match op {
        case CMP => P := Compare(A, m, P);
        case CPX => P := Compare(X, m, P);
        case CPY => P := Compare(Y, m, P);
        case ClearFlag(mask) => P := ClearBits(P, mask);
        case SetFlag(mask) => P := SetBits(P, mask);
        case NOP =>
        case _ => assert false;
      }
    }

    /** finishBranch: PC steps past the offset byte, and a taken branch adds it and the extra clocks. */
    method FinishBranch(flag: bv8, whenSet: bool, d1: Byte)
      requires Valid()
      modifies this`PC, this`clocks
      ensures View() == Interpreter.FinishBranch(old(View()), flag, whenSet, d1)
    {
      PC := Successor(PC);
      if Taken(P, flag, whenSet) {
        var oldPC := PC;
        PC := Relative(PC, d1);
        clocks := clocks + 1 + (if oldPC / 0x100 != PC / 0x100 then 1 else 0);
      }
    }

    /** JSR: the address of the last operand byte goes onto the stack, high byte first. */
    method CallSubroutine(target: Word)
      requires Valid()
      modifies this`SP, this`PC, RAM
      ensures View() == Interpreter.CallSubroutine(old(View()), target)
    {
      ghost var s := View();
      PC := Successor(PC);
      Push(High(PC));
      Push(Low(PC));
      PC := target;
      assert View() == CpuState.Push(CpuState.Push(s.(PC := Successor(s.PC)), High(Successor(s.PC))), Low(Successor(s.PC))).(PC := target);
    }

    /** RTI: the status is pulled as PLP pulls it, then PC low byte and high byte. */
    method ReturnFromInterrupt()
      requires Valid()
      modifies this`SP, this`PC, this`P
      ensures View() == Interpreter.ReturnFromInterrupt(old(View()))
    {
      ghost var s := View();
      var status := Pop();
      P := Pulled(P, status);
      ghost var pulled := View();
      assert pulled == PullStatus(s);
      var lo := Pop();
      var hi := Pop();
      PC := WordOf(lo, hi);
      assert (lo, hi, View().(PC := pulled.PC)) == PopTwo(pulled);
    }

    /** RTS: PC low byte and high byte, then one step forward. */
    method ReturnFromSubroutine()
      requires Valid()
      modifies this`SP, this`PC
      ensures View() == Interpreter.ReturnFromSubroutine(old(View()))
    {
      ghost var s := View();
      var lo := Pop();
      var hi := Pop();
      PC := WordOf(lo, hi);
      PC := Successor(PC);
      assert lo == s.ram[Above(s.SP, 0)] && hi == s.ram[Above(s.SP, 1)];
    }

    /** JMP indirect: PC is loaded from the two bytes at effAddr. */
    method JumpIndirect(bus: Memory, ea: Address)
      requires Valid() && Mapped()
      requires ea < 0x100FF
      modifies this`PC
      ensures View() == old(View()).(PC := WordOf(Read(RAM[..], bus, ea), Read(RAM[..], bus, ea + 1)))
    {
      var lo := ReadByte(bus, ea);
      var hi := ReadByte(bus, ea + 1);
      PC := WordOf(lo, hi);
    }

    /** BRK: PC steps over the padding byte, then the software interrupt through 0xFFFE. */
    method Break(bus: Memory)
      requires Valid() && Mapped()
      modifies this`SP, this`PC, this`P, this`clocks, RAM
      ensures View() == CpuState.SoftwareInterrupt(old(View()).(PC := Successor(old(PC))), bus, 0xFFFE)
    {
      PC := Successor(PC);
      SoftwareInterrupt(bus, 0xFFFE);
    }

    /** BRANCH / JUMP and BRK. */
    method Control(op: Op, bus: Memory, ea: Address, d1: Byte, d2: Byte)
      requires Valid() && Mapped()
      requires SectionOf(op) == ControlOps
      requires ea < 0x100FF
      modifies this`SP, this`PC, this`P, this`clocks, RAM
      ensures View() == Interpreter.Control(op, old(View()), bus, ea, d1, d2)
    {
      match op {
        case Branch(flag, whenSet) => FinishBranch(flag, whenSet, d1);
        case JMP => PC := WordOf(d1, d2);
        case JMPIndirect => JumpIndirect(bus, ea);
        case JSR => CallSubroutine(WordOf(d1, d2));
        case RTI => ReturnFromInterrupt();
        case RTS => ReturnFromSubroutine();
        case BRK => Break(bus);
        case _ => assert false;
      }
    }

    /** The opcode switch, one section at a time; `store` is `result` when isWrite is set. */
    method Execute(op: Op, bus: Memory, o: Operand, ea: Address, d1: Byte, d2: Byte) returns (store: Option<Byte>)
      requires Valid() && Mapped()
      requires ea < 0x100FF
      modifies this`A, this`X, this`Y, this`SP, this`P, this`PC, this`clocks, RAM
      ensures View() == Interpreter.Execute(op, old(View()), bus, o, ea, d1, d2).state
      ensures store == Interpreter.Execute(op, old(View()), bus, o, ea, d1, d2).store
    {
      var m := Deref(bus, o);
      store := None;
      match SectionOf(op) {
        case LoadStoreOps => store := LoadStore(op, m);
        case StackOps => StackOp(op);
        case ArithmeticOps => store := Arithmetic(op, m);
        case BitwiseOps => store := Bitwise(op, m);
        case ControlOps => Control(op, bus, ea, d1, d2);
        case StatusOps => Status(op, m);
      }
    }

    /** The isWrite branch: writeSpecial from 0x2000 up, otherwise through the operand pointer. */
    method WriteBack(o: Operand, ea: Address, v: Byte)
      requires Valid()
      modifies this`A, this`calls, RAM
      ensures View() == Interpreter.WriteBack(old(View()), o, ea, v).state
      ensures calls == old(calls) + Calls(Interpreter.WriteBack(old(View()), o, ea, v).hook)
    {
      if ea >= 0x2000 {
        match WriteSpecial(ea, v) {
          case Call(h) => calls := calls + [h];
          case Ignored =>
          case Rewrite(a, w) =>
            assert a < 0x800;
            RAM[a] := w;
        }
      } else {
        match o {
          case Accumulator => A := v;
          case ZeroPageCell(a) => RAM[a] := v;
          case Memory(a) => RAM[a % 0x800] := v;
          case _ =>
        }
      }
    }

    /** The three bytes at PC: the opcode and the two bytes after it. */
    method Fetch(bus: Memory) returns (f: Fetched)
      requires Valid() && Mapped()
      ensures f == Interpreter.Fetch(View(), bus)
    {
      var opcode := ReadByte(bus, PC);
      var d1 := ReadByte(bus, PC + 1);
      var d2 := ReadByte(bus, PC + 2);
      f := Fetched(opcode, d1, d2);
    }

    /** The mode switch: the base clocks are charged and PC passes the operand bytes. */
    method Advance(opcode: Byte, form: Form, clockTable: ClockTable)
      requires Valid()
      modifies this`PC, this`clocks
      ensures View() == Interpreter.Advance(old(View()), opcode, form, clockTable)
    {
      clocks := clocks + clockTable[opcode];
      PC := (PC + ModeLength(ModeOf(opcode))) % 0x10000;
      if form.ImmediateForm? {
        PC := (PC + 1) % 0x10000;
      }
    }

    /** Everything cpu6502_Step does once the opcode has passed both DebugAsserts. */
    method Perform(bus: Memory, clockTable: ClockTable, opcode: Byte, d1: Byte, d2: Byte, instr: Instruction)
      requires Valid() && Mapped()
      requires Decode(opcode) == Some(instr)
      requires !(instr.op.JMPIndirect? && d1 == 0xFF)
      modifies this`A, this`X, this`Y, this`SP, this`P, this`PC, this`clocks, this`calls, RAM
      ensures View() == Interpreter.Perform(old(View()), bus, clockTable, opcode, d1, d2, instr).state
      ensures calls == old(calls) + Calls(Interpreter.Perform(old(View()), bus, clockTable, opcode, d1, d2, instr).hook)
    {
      var s := View();
      var mode := ModeOf(opcode);
      var ea := EffectiveAddress(s, mode, d1, d2);
      var operand := OperandOf(instr.form, mode, ea, d1);
      Advance(opcode, instr.form, clockTable);
      ghost var advanced := View();
      var store := Execute(instr.op, bus, operand, ea, d1, d2);
      ghost var e := Interpreter.Execute(instr.op, advanced, bus, operand, ea, d1, d2);
      assert View() == e.state && store == e.store;
      match store {
        case Some(v) => WriteBack(operand, ea, v);
        case None =>
          if operand.Memory? && IsSpecial(ea) {
            calls := calls + [PostSpecialRead(ea)];
          }
      }
    }

    /**
     * cpu6502_Step. The two DebugAsserts (an opcode without a case, JMP
     * indirect through the last byte of a page) come back as a fault with the
     * state untouched.
     */
    method Step(bus: Memory, clockTable: ClockTable) returns (fault: Option<Fault>)
      requires Valid() && Mapped()
      modifies this`A, this`X, this`Y, this`SP, this`P, this`PC, this`clocks, this`calls, RAM
      ensures var r := Interpreter.Step(old(View()), bus, clockTable);
        && (r.Aborted? ==> fault == Some(r.fault) && View() == old(View()) && calls == old(calls))
        && (r.Executed? ==> fault.None? && View() == r.outcome.state && calls == old(calls) + Calls(r.outcome.hook))
    {
      ghost var s := View();
      var f := Fetch(bus);
      var decoded := Decode(f.opcode);
      if decoded.None? {
        return Some(UnhandledOpcode(f.opcode));
      }
      var instr := decoded.value;
      if instr.op.JMPIndirect? && f.d1 == 0xFF {
        return Some(IndirectJumpAtPageEnd(PC));
      }
      StepExecutes(s, bus, clockTable, instr);
      Perform(bus, clockTable, f.opcode, f.d1, f.d2, instr);
      fault := None;
    }
  }
}
