/**
 * The register file and memory of the interpreter (the mainCPU fields used by
 * src/6502.cpp), the page-table read, the stack, and the two interrupt entry
 * points cpu6502_SoftwareInterrupt and cpu6502_DeviceInterrupt.
 */
module CpuState {
  import opened Bytes
  import opened Alu
  import opened NesBus

  /** The 2 KB internal RAM. */
  type Ram = r: seq<Byte> | |r| == 0x800 witness seq(0x800, i => 0)

  /**
   * The bytes the non-RAM pages currently show: the PPU register block, the
   * APU/IO block and the cartridge banks the mapper has installed.
   */
  type Memory = m: seq<Byte> | |m| == 0x10000 witness seq(0x10000, i => 0)

  /**
   * An address as the interpreter forms it. Indexed modes add X or Y to a
   * 16-bit base without wrapping, so an address can pass 0xFFFF by up to 0xFE;
   * the sentinel page 0x100 of the page table covers that overhang.
   */
  type Address = a: int | 0 <= a < 0x10100

  datatype State = State(
    A: Byte, X: Byte, Y: Byte, SP: Byte,
    P: bv8,
    PC: Word,
    clocks: nat,
    ram: Ram)

  /**
   * mainCPU.read: one byte through the default page table. RAM and its
   * mirrors, and the overhang past 0xFFFF, read the cell addr mod 0x800; every
   * other address reads the bus.
   */
  function Read(ram: Ram, bus: Memory, addr: Address): (b: Byte)
    ensures addr < 0x2000 || 0x10000 <= addr ==> b == ram[addr % 0x800]
    ensures 0x2000 <= addr < 0x10000 ==> b == bus[addr]
  {
    match DefaultPage(addr / 0x100)
    case RamPage(bank) =>
      assert addr < 0x2000 || 0x10000 <= addr ==> RamCell(bank, addr) == addr % 0x800 by {
        if addr < 0x2000 || 0x10000 <= addr {
          DefaultRamMirror(addr);
        }
      }
      ram[RamCell(bank, addr)]
    case _ => bus[addr % 0x10000]
  }

  /**
   * The isSpecial result of getByte: the page is the PPU register block or the
   * APU/IO block, whose reads are followed by postSpecialRead.
   */
  predicate IsSpecial(addr: Address)
    ensures IsSpecial(addr) <==> 0x2000 <= addr < 0x6000
  {
    var page := DefaultPage(addr / 0x100);
    page.PpuRegisters? || page.SpecialMemory?
  }

  /** The address of the stack slot SP points at. */
  function StackCell(sp: Byte): (i: nat)
    ensures 0x100 <= i < 0x200
  {
    0x100 + sp
  }

  /** push: SP moves down one (mod 256) and the byte goes to the slot it now points at. */
  function Push(s: State, v: Byte): (r: State)
    ensures r.SP == (s.SP + 0xFF) % 0x100
    ensures r.ram[StackCell(r.SP)] == v
    ensures forall i | 0 <= i < 0x800 && i != StackCell(r.SP) :: r.ram[i] == s.ram[i]
    ensures r.A == s.A && r.X == s.X && r.Y == s.Y && r.P == s.P && r.PC == s.PC && r.clocks == s.clocks
  {
    var sp := (s.SP - 1) % 0x100;
    s.(SP := sp, ram := s.ram[StackCell(sp) := v])
  }

  datatype Popped = Popped(value: Byte, state: State)

  /** pop: the byte SP points at is read and SP moves up one (mod 256). */
  function Pop(s: State): (r: Popped)
    ensures r.value == s.ram[StackCell(s.SP)]
    ensures r.state.SP == (s.SP + 1) % 0x100
    ensures r.state.(SP := s.SP) == s
  {
    Popped(s.ram[StackCell(s.SP)], s.(SP := (s.SP + 1) % 0x100))
  }

  /** A pop right after a push returns the pushed byte and restores SP. */
  lemma PopAfterPush(s: State, v: Byte)
    ensures Pop(Push(s, v)).value == v
    ensures Pop(Push(s, v)).state == Push(s, v).(SP := s.SP)
  {
  }

  /** The slot k bytes below the slot SP points at (k = 1 is the next push). */
  function Below(sp: Byte, k: nat): (i: nat)
    requires k <= 0x100
    ensures 0x100 <= i < 0x200
  {
    StackCell((sp + 0x100 - k) % 0x100)
  }

  /** Three pushes in a row: the bytes land in the three slots below SP. */
  function PushThree(s: State, first: Byte, second: Byte, third: Byte): (r: State)
    ensures r.SP == (s.SP + 0x100 - 3) % 0x100
    ensures r.ram[Below(s.SP, 1)] == first
    ensures r.ram[Below(s.SP, 2)] == second
    ensures r.ram[Below(s.SP, 3)] == third
    ensures forall i | 0 <= i < 0x800 && i != Below(s.SP, 1) && i != Below(s.SP, 2) && i != Below(s.SP, 3) ::
              r.ram[i] == s.ram[i]
    ensures r.(SP := s.SP, ram := s.ram) == s
  {
    var s1 := Push(s, first);
    assert StackCell(s1.SP) == Below(s.SP, 1);
    var s2 := Push(s1, second);
    assert StackCell(s2.SP) == Below(s.SP, 2);
    var s3 := Push(s2, third);
    assert StackCell(s3.SP) == Below(s.SP, 3);
    s3
  }

  // The frame an interrupt pushes: PC high byte, PC low byte, status byte,
  // followed by the vector fetch and the I flag. Shared by both entry points.
  function InterruptEntry(s: State, bus: Memory, vector: Word, status: Byte): (r: State)
    ensures r.SP == (s.SP + 0x100 - 3) % 0x100
    ensures r.ram == PushThree(s, High(s.PC), Low(s.PC), status).ram
    ensures r.PC == WordOf(Read(r.ram, bus, vector), Read(r.ram, bus, vector + 1))
    ensures r.P == SetBits(s.P, FlagI) && IsSet(r.P, FlagI)
    ensures r.clocks == s.clocks + 7
    ensures r.A == s.A && r.X == s.X && r.Y == s.Y
  {
    var pushed := PushThree(s, High(s.PC), Low(s.PC), status);
    pushed.(PC := WordOf(Read(pushed.ram, bus, vector), Read(pushed.ram, bus, vector + 1)),
            P := SetBits(pushed.P, FlagI),
            clocks := pushed.clocks + 7)
  }

  /**
   * cpu6502_SoftwareInterrupt (BRK, reset, and an accepted IRQ): the pushed
   * status has Break and Unused set.
   */
  function SoftwareInterrupt(s: State, bus: Memory, vector: Word): (r: State)
    ensures r == InterruptEntry(s, bus, vector, Pushed(s.P))
    ensures IsSet(r.ram[Below(s.SP, 3)] as bv8, FlagB)
  {
    PushedBits(s.P);
    InterruptEntry(s, bus, vector, Pushed(s.P))
  }

  /**
   * cpu6502_DeviceInterrupt: a masked request while I is set is dropped;
   * otherwise the interrupt is taken with Break cleared in the pushed status.
   */
  function DeviceInterrupt(s: State, bus: Memory, vector: Word, masked: bool): (r: State)
    ensures masked && IsSet(s.P, FlagI) ==> r == s
    ensures !(masked && IsSet(s.P, FlagI)) ==> r == InterruptEntry(s, bus, vector, PushedByDevice(s.P))
    ensures !(masked && IsSet(s.P, FlagI)) ==> !IsSet(r.ram[Below(s.SP, 3)] as bv8, FlagB)
  {
    PushedByDeviceBits(s.P);
    if !masked || !IsSet(s.P, FlagI) then
      InterruptEntry(s, bus, vector, PushedByDevice(s.P))
    else
      s
  }
}
