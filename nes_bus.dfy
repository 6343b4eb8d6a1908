/**
 * The NES side of the CPU's memory (src/nes_cpu.cpp): the default page table,
 * the routing of special writes to the PPU, the APU/IO block and the cartridge,
 * and the routing of completed special reads to the controllers.
 *
 * The collaborators (PPU, controllers, cartridge mapper) are outside this model;
 * a call into one of them is a Hook value that the machine appends to its log.
 */
module NesBus {
  import opened Bytes

  /** The page table has one entry per 256-byte page plus one sentinel entry. */
  const PageCount: nat := 0x101

  /** One of the eight 256-byte pages of the 2 KB internal RAM. */
  type RamBank = k: int | 0 <= k < 8

  /** What a page-table entry points at. */
  datatype Page =
    | Unmapped               // a null entry, left for the cartridge mapper to fill
    | RamPage(bank: RamBank) // &RAM[bank * 0x100]
    | PpuRegisters           // nesPPU.memoryMap
    | SpecialMemory          // specialMemory (APU and IO registers)
    | Cartridge              // a bank installed by the mapper

  /** The entry that mapDefaults installs for page m (0 <= m <= 0x100). */
  function DefaultPage(m: nat): (pg: Page)
    requires m < PageCount
    ensures m < 0x20 ==> pg == RamPage(m % 8)
    ensures 0x20 <= m < 0x40 ==> pg == PpuRegisters
    ensures 0x40 <= m < 0x60 ==> pg == SpecialMemory
    ensures m == 0x100 ==> pg == RamPage(0)
    ensures 0x60 <= m < 0x100 ==> pg == Unmapped
  {
    if m < 0x20 then RamPage(m % 8)
    else if m < 0x40 then PpuRegisters
    else if m < 0x60 then SpecialMemory
    else if m == 0x100 then RamPage(0)
    else Unmapped
  }

  /** The RAM cell a page entry and an address within that page designate. */
  function RamCell(bank: RamBank, addr: nat): (i: nat)
    ensures i < 0x800
    ensures i % 0x100 == addr % 0x100 && i / 0x100 == bank
  {
    bank * 0x100 + addr % 0x100
  }

  /**
   * Under the default table every address below 0x2000, and every address the
   * sentinel page 0x100 covers, reaches RAM cell addr mod 0x800; so a and
   * a + 0x800 * k share one byte.
   */
  lemma {:induction false} DefaultRamMirror(addr: nat)
    requires addr < 0x2000 || 0x10000 <= addr < 0x10100
    ensures DefaultPage(addr / 0x100).RamPage?
    ensures RamCell(DefaultPage(addr / 0x100).bank, addr) == addr % 0x800
  {
    var m := addr / 0x100;
    if addr < 0x2000 {
      assert addr == m * 0x100 + addr % 0x100;
      assert m == (m / 8) * 8 + m % 8;
      assert addr == (m / 8) * 0x800 + (m % 8) * 0x100 + addr % 0x100;
      LowBitsOfSum((m / 8), (m % 8) * 0x100 + addr % 0x100);
    } else {
      assert m == 0x100;
    }
  }

  lemma LowBitsOfSum(q: nat, r: nat)
    requires r < 0x800
    ensures (q * 0x800 + r) % 0x800 == r
  {
  }

  /** Mirrored RAM addresses below 0x2000 reach the same cell. */
  lemma DefaultRamAliases(a: nat, k: nat)
    requires a + 0x800 * k < 0x2000
    ensures RamCell(DefaultPage((a + 0x800 * k) / 0x100).bank, a + 0x800 * k)
         == RamCell(DefaultPage(a / 0x100).bank, a)
  {
    DefaultRamMirror(a);
    DefaultRamMirror(a + 0x800 * k);
    LowBitsOfSum(k, a % 0x800);
    assert a == (a / 0x800) * 0x800 + a % 0x800;
    assert a + 0x800 * k == (a / 0x800 + k) * 0x800 + a % 0x800;
    LowBitsOfSum(a / 0x800 + k, a % 0x800);
  }

  /** Calls into code outside the CPU core. */
  datatype Hook =
    | PpuWriteReg(reg: int, value: Byte)       // nesPPU.writeReg
    | OamDma(source: int)                      // nesPPU.oamDMA
    | InputWriteStrobe(value: Byte)            // input_writeStrobe
    | CartWriteSpecial(addr: int, value: Byte) // nesCart.writeSpecial
    | InputReadController1                     // input_readController1
    | InputReadController2                     // input_readController2
    | PostSpecialRead(addr: int)               // postSpecialRead

  /** Where writeSpecial sends a store. */
  datatype WriteRoute =
    | Call(hook: Hook)                  // one call into a collaborator
    | Ignored                           // an unmapped APU/IO register
    | Rewrite(addr: Word, value: Byte)  // write(addr & 0xFFFF, value)

  /**
   * nes_cpu::writeSpecial. Its callers only pass addresses from 0x2000 up
   * (the source asserts this for the PPU branch).
   */
  function WriteSpecial(addr: nat, value: Byte): (r: WriteRoute)
    requires addr >= 0x2000
    ensures addr < 0x4000 <==> r.Call? && r.hook.PpuWriteReg?
    ensures addr < 0x4000 ==> r.hook == PpuWriteReg(addr % 8, value) && r.hook.reg < 8
    ensures r == Call(OamDma(value * 0x100)) <==> addr == 0x4014
    ensures r.Call? && r.hook.InputWriteStrobe? <==> addr == 0x4016
    ensures r.Ignored? <==> 0x4000 <= addr < 0x4020 && addr != 0x4014 && addr != 0x4016
    ensures r.Call? && r.hook.CartWriteSpecial? <==> 0x4020 <= addr < 0x10000
    ensures r.Call? && r.hook.CartWriteSpecial? ==> r.hook == CartWriteSpecial(addr, value)
    ensures r.Rewrite? <==> addr >= 0x10000
    ensures r.Rewrite? ==> r.addr == addr % 0x10000 && r.value == value
    ensures r.Rewrite? && addr < 0x10100 ==> r.addr < 0x100
  {
    if addr < 0x4000 then
      Call(PpuWriteReg(addr % 8, value))
    else if addr < 0x4020 then
      var offset := addr - 0x4000;
      if offset == 0x14 then Call(OamDma(value * 0x100))
      else if offset == 0x16 then Call(InputWriteStrobe(value))
      else Ignored
    else if addr < 0x10000 then
      Call(CartWriteSpecial(addr, value))
    else
      Rewrite(addr % 0x10000, value)
  }

  /** nes_cpu::latchedSpecial: the controller ports sample on read, nothing else does. */
  function LatchedSpecial(addr: nat): (r: Option<Hook>)
    ensures r == Some(InputReadController1) <==> addr == 0x4016
    ensures r == Some(InputReadController2) <==> addr == 0x4017
    ensures r.None? <==> addr != 0x4016 && addr != 0x4017
  {
    if addr == 0x4016 then Some(InputReadController1)
    else if addr == 0x4017 then Some(InputReadController2)
    else None
  }
}
