/**
 * The NES-specific entry points of src/nes_cpu.cpp that act on the CPU state:
 * the IRQ poll and the deterministic reset sequence.
 */
module NesSystem {
  import opened Bytes
  import opened Alu
  import opened NesBus
  import opened CpuState

  /**
   * cpu6502_IRQ: nothing happens unless the cartridge reports an IRQ and
   * interrupts are enabled; then a software interrupt through 0xFFFE is taken,
   * so the pushed status has Break set.
   */
  function Irq(s: State, bus: Memory, irqReached: bool): (r: State)
    ensures !irqReached || IsSet(s.P, FlagI) ==> r == s
    ensures irqReached && !IsSet(s.P, FlagI) ==>
      r == SoftwareInterrupt(s, bus, 0xFFFE) && IsSet(r.ram[Below(s.SP, 3)] as bv8, FlagB)
  {
    if !irqReached then s
    else if !IsSet(s.P, FlagI) then SoftwareInterrupt(s, bus, 0xFFFE)
    else s
  }

  /** The byte the reset loop stores at RAM[i]: four zeros, then four 0xFF, repeated. */
  function ResetPattern(i: nat): (b: Byte)
  {
    if i % 8 < 4 then 0 else 255
  }

  /**
   * The first n bytes of RAM after n / 8 rounds of the reset loop, each of
   * which stores 0, 0, 0, 0, 255, 255, 255, 255.
   */
  function ResetFill(n: nat): (r: seq<Byte>)
    requires n % 8 == 0
    ensures |r| == n
    ensures forall i | 0 <= i < n :: r[i] == ResetPattern(i)
  {
    if n == 0 then [] else ResetFill(n - 8) + [0, 0, 0, 0, 255, 255, 255, 255]
  }

  /** The state reset builds just before it triggers the reset interrupt. */
  function PreResetState(): State
  {
    State(0, 0, 0, 0xFD, 0, 0x0002, 0, ResetFill(0x800))
  }

  /**
   * nes_cpu::reset on the CPU registers and RAM. Afterwards A, X and Y are 0,
   * three bytes have been pushed from SP = 0xFD, only I is set, the
   * interrupt's 7 clocks are counted and PC is the reset vector at
   * 0xFFFC/0xFFFD.
   */
  function ResetState(bus: Memory): (r: State)
    ensures r.A == 0 && r.X == 0 && r.Y == 0
    ensures r.SP == 0xFA
    ensures r.P == FlagI
    ensures r.clocks == 7
    ensures r.PC == WordOf(bus[0xFFFC], bus[0xFFFD])
  {
    SoftwareInterrupt(PreResetState(), bus, 0xFFFC)
  }

  /**
   * After reset RAM holds the fill pattern, except for the three stack bytes
   * of the reset interrupt: PC high (0x00) at 0x1FC, PC low (0x02) at 0x1FB
   * and the status 0x30 (Break and Unused) at 0x1FA.
   */
  lemma ResetRam(bus: Memory)
    ensures var r := ResetState(bus);
      && (forall i | 0 <= i < 0x800 && i != 0x1FA && i != 0x1FB && i != 0x1FC :: r.ram[i] == ResetPattern(i))
      && r.ram[0x1FC] == 0x00 && r.ram[0x1FB] == 0x02 && r.ram[0x1FA] == 0x30
  {
    var s := PreResetState();
    var r := ResetState(bus);
    assert Below(s.SP, 1) == 0x1FC && Below(s.SP, 2) == 0x1FB && Below(s.SP, 3) == 0x1FA;
    assert Pushed(0) == 0x30;
  }
}
