/**
 * The status byte P and the flag formulas of the interpreter's opcode cases
 * (src/6502.cpp). Each formula is written the way the source computes it; its
 * ensures clauses say what the resulting flags mean.
 */
module Alu {
  import opened Bytes

  // Bit layout of the status byte.
  const FlagC: bv8 := 0x01  // carry
  const FlagZ: bv8 := 0x02  // zero
  const FlagI: bv8 := 0x04  // interrupt disable
  const FlagD: bv8 := 0x08  // decimal (stored, never interpreted)
  const FlagB: bv8 := 0x10  // break
  const FlagU: bv8 := 0x20  // unused
  const FlagV: bv8 := 0x40  // overflow
  const FlagN: bv8 := 0x80  // negative

  // The "keep flags" masks of the opcode cases. Bits outside a mask are cleared
  // before the computed flags are or-ed in, so a mask without C drops the carry
  // and a mask with N lets an old Negative bit survive.
  const KeepLoadA: bv8 := 0x5C   // I D B V: LDA
  const KeepSticky: bv8 := 0xDC  // I D B V N: LDX, LDY, transfers, PLA, INC
  const KeepCount: bv8 := 0x5D   // I D B V C: DEC, DEX, INX, DEY, INY
  const KeepLogic: bv8 := 0x5D   // C I D B V: ORA, AND, EOR
  const KeepShift: bv8 := 0x5C   // I D B V: ASL, LSR, ROL, ROR, compares
  const KeepArith: bv8 := 0x1C   // I B D: ADC, SBC
  const KeepBit: bv8 := 0x1D     // I D B C: BIT

  /** Each mask is the set of flags its comment names. */
  lemma KeepMasks()
    ensures KeepLoadA == FlagI | FlagD | FlagB | FlagV
    ensures KeepSticky == FlagI | FlagD | FlagB | FlagV | FlagN
    ensures KeepCount == FlagI | FlagD | FlagB | FlagV | FlagC
    ensures KeepLogic == FlagC | FlagI | FlagD | FlagB | FlagV
    ensures KeepShift == FlagI | FlagD | FlagB | FlagV
    ensures KeepArith == FlagI | FlagB | FlagD
    ensures KeepBit == FlagI | FlagD | FlagB | FlagC
  {
  }

  predicate IsSet(p: bv8, flag: bv8) { p & flag != 0 }

  /** `P |= mask` */
  function SetBits(p: bv8, mask: bv8): bv8 { p | mask }

  /** `P &= ~mask` */
  function ClearBits(p: bv8, mask: bv8): bv8 { p & !mask }

  /** `P & ST_CRY`, the carry as the number 0 or 1. */
  function Carry(p: bv8): (c: Byte)
    ensures c <= 1
    ensures c == 1 <==> IsSet(p, FlagC)
  {
    if IsSet(p, FlagC) then 1 else 0
  }

  /** `cond ? flag : 0` */
  function Flag(cond: bool, flag: bv8): bv8 { if cond then flag else 0 }

  /** A computed byte together with the new status byte. */
  datatype AluResult = AluResult(value: Byte, flags: bv8)

  /** `kept | (c ? C : 0) | (z ? Z : 0) | (v ? V : 0) | (n ? N : 0)` */
  function FlagsCZVN(kept: bv8, c: bool, z: bool, v: bool, n: bool): (r: bv8)
    requires kept & (FlagC | FlagZ | FlagV | FlagN) == 0
    ensures IsSet(r, FlagC) <==> c
    ensures IsSet(r, FlagZ) <==> z
    ensures IsSet(r, FlagV) <==> v
    ensures IsSet(r, FlagN) <==> n
    ensures r & !(FlagC | FlagZ | FlagV | FlagN) == kept
  {
    kept | Flag(c, FlagC) | Flag(z, FlagZ) | Flag(v, FlagV) | Flag(n, FlagN)
  }

  /** `kept | (c ? C : 0) | (z ? Z : 0) | (n ? N : 0)` */
  function FlagsCZN(kept: bv8, c: bool, z: bool, n: bool): (r: bv8)
    requires kept & (FlagC | FlagZ | FlagN) == 0
    ensures IsSet(r, FlagC) <==> c
    ensures IsSet(r, FlagZ) <==> z
    ensures IsSet(r, FlagN) <==> n
    ensures r & !(FlagC | FlagZ | FlagN) == kept
  {
    kept | Flag(c, FlagC) | Flag(z, FlagZ) | Flag(n, FlagN)
  }

  /**
   * The update shared by loads, transfers, PLA, increments, decrements and the
   * logic opcodes: the kept bits of p, the sign of v, and Zero iff v is 0.
   */
  function ZeroNegative(p: bv8, keep: bv8, v: Byte): (r: bv8)
    ensures IsSet(r, FlagZ) <==> v == 0 || IsSet(p & keep, FlagZ)
    ensures IsSet(r, FlagN) <==> Bit7(v) || IsSet(p & keep, FlagN)
    ensures r & !(FlagZ | FlagN) == p & keep & !(FlagZ | FlagN)
  {
    (p & keep) | Flag(Bit7(v), FlagN) | Flag(v == 0, FlagZ)
  }

  /**
   * ADC: the nine-bit sum A + m + C; its low byte is the new A, its bit 8 the
   * carry, and Overflow is bit 7 of (A ^ r) & (m ^ r).
   */
  function Adc(a: Byte, m: Byte, p: bv8): (r: AluResult)
    ensures r.value + (if IsSet(r.flags, FlagC) then 0x100 else 0) == a + m + Carry(p)
    ensures IsSet(r.flags, FlagZ) <==> r.value == 0
    ensures IsSet(r.flags, FlagN) <==> Bit7(r.value)
    ensures IsSet(r.flags, FlagV) <==> !(-0x80 <= Signed(a) + Signed(m) + Carry(p) < 0x80)
    ensures r.flags & !(FlagC | FlagZ | FlagV | FlagN) == p & KeepArith
  {
    var result := a + m + Carry(p);
    var low := result % 0x100;
    AluResult(low, FlagsCZVN(p & KeepArith,
      result / 0x100 == 1,
      low == 0,
      Bit7(a) != Bit7(low) && Bit7(m) != Bit7(low),
      Bit7(low)))
  }

  /**
   * SBC as written: A - m - C computed in 32-bit unsigned arithmetic, so the
   * carry bit is subtracted and the new Carry (bit 8 of the difference) is set
   * exactly when a borrow occurred.
   */
  function Sbc(a: Byte, m: Byte, p: bv8): (r: AluResult)
    ensures r.value - (if IsSet(r.flags, FlagC) then 0x100 else 0) == a - m - Carry(p)
    ensures IsSet(r.flags, FlagC) <==> a < m + Carry(p)
    ensures IsSet(r.flags, FlagZ) <==> r.value == 0
    ensures IsSet(r.flags, FlagN) <==> Bit7(r.value)
    ensures IsSet(r.flags, FlagV) <==> !(-0x80 <= Signed(a) - Signed(m) - Carry(p) < 0x80)
    ensures r.flags & !(FlagC | FlagZ | FlagV | FlagN) == p & KeepArith
  {
    var difference := a - m - Carry(p);
    var result := difference % 0x1_0000_0000;
    assert result == if difference < 0 then difference + 0x1_0000_0000 else difference;
    var low := result % 0x100;
    assert low == difference % 0x100;
    AluResult(low, FlagsCZVN(p & KeepArith,
      (result / 0x100) % 2 == 1,
      low == 0,
      Bit7(a) != Bit7(low) && !Bit7(m) != Bit7(low),
      Bit7(low)))
  }

  /**
   * CMP, CPX and CPY as written: Carry is set when the operand is greater than
   * the register, Zero when they are equal, Negative from bit 7 of reg - m.
   */
  function Compare(reg: Byte, m: Byte, p: bv8): (r: bv8)
    ensures IsSet(r, FlagC) <==> m > reg
    ensures IsSet(r, FlagZ) <==> m == reg
    ensures IsSet(r, FlagN) <==> 0x80 <= reg - m || -0x80 <= reg - m < 0
    ensures r & !(FlagC | FlagZ | FlagN) == p & KeepShift
  {
    FlagsCZN(p & KeepShift, m > reg, m == reg, Bit7((reg - m) % 0x100))
  }

  /** ASL: Carry and the flags are taken from the operand before the shift. */
  function Asl(m: Byte, p: bv8): (r: AluResult)
    ensures 2 * m == r.value + (if IsSet(r.flags, FlagC) then 0x100 else 0)
    ensures IsSet(r.flags, FlagZ) <==> r.value == 0
    ensures IsSet(r.flags, FlagN) <==> Bit7(r.value)
    ensures r.flags & !(FlagC | FlagZ | FlagN) == p & KeepShift
  {
    AluResult((m * 2) % 0x100,
      FlagsCZN(p & KeepShift, Bit7(m), m % 0x80 == 0, (m / 0x40) % 2 == 1))
  }

  /** LSR: bit 0 goes to Carry and Negative is always cleared. */
  function Lsr(m: Byte, p: bv8): (r: AluResult)
    ensures m == 2 * r.value + (if IsSet(r.flags, FlagC) then 1 else 0)
    ensures IsSet(r.flags, FlagZ) <==> r.value == 0
    ensures !IsSet(r.flags, FlagN) && !Bit7(r.value)
    ensures r.flags & !(FlagC | FlagZ | FlagN) == p & KeepShift
  {
    AluResult(m / 2, FlagsCZN(p & KeepShift, m % 2 == 1, m / 2 == 0, false))
  }

  /** ROL: a nine-bit rotate through the carry; the value written back is the low byte. */
  function Rol(m: Byte, p: bv8): (r: AluResult)
    ensures 2 * m + Carry(p) == r.value + (if IsSet(r.flags, FlagC) then 0x100 else 0)
    ensures IsSet(r.flags, FlagZ) <==> r.value == 0
    ensures IsSet(r.flags, FlagN) <==> Bit7(r.value)
    ensures r.flags & !(FlagC | FlagZ | FlagN) == p & KeepShift
  {
    var result := m * 2 + Carry(p);
    AluResult(result % 0x100,
      FlagsCZN(p & KeepShift, result / 0x100 == 1, result % 0x100 == 0, Bit7(result % 0x100)))
  }

  /** ROR: the old carry enters at bit 7 and bit 0 leaves into Carry. */
  function Ror(m: Byte, p: bv8): (r: AluResult)
    ensures m + 0x100 * Carry(p) == 2 * r.value + (if IsSet(r.flags, FlagC) then 1 else 0)
    ensures IsSet(r.flags, FlagZ) <==> r.value == 0
    ensures IsSet(r.flags, FlagN) <==> IsSet(p, FlagC)
    ensures r.flags & !(FlagC | FlagZ | FlagN) == p & KeepShift
  {
    var result := m / 2 + Carry(p) * 0x80;
    AluResult(result, FlagsCZN(p & KeepShift, m % 2 == 1, result == 0, Bit7(result)))
  }

  /** BIT: Zero from m & A; Overflow and Negative copied from bits 6 and 7 of m. */
  function BitTest(a: Byte, m: Byte, p: bv8): (r: bv8)
    ensures IsSet(r, FlagZ) <==> And(m, a) == 0
    ensures IsSet(r, FlagN) <==> Bit7(m)
    ensures IsSet(r, FlagV) <==> (m / 0x40) % 2 == 1
    ensures r & !(FlagZ | FlagV | FlagN) == p & KeepBit
  {
    // `*operand & 0xC0`: bits 6 and 7 of m land on V and N
    (p & KeepBit)
    | Flag(And(m, a) == 0, FlagZ)
    | Flag((m / 0x40) % 2 == 1, FlagV)
    | Flag(Bit7(m), FlagN)
  }

  /** The byte PHP and the software interrupt push: P with Break and Unused set. */
  function Pushed(p: bv8): Byte
  {
    (p | FlagB | FlagU) as int
  }

  /** The byte a device interrupt pushes: P with Break cleared and Unused set. */
  function PushedByDevice(p: bv8): Byte
  {
    ((p & !FlagB) | FlagU) as int
  }

  /** Read back as a status byte, Pushed(p) is p with Break and Unused set. */
  lemma PushedBits(p: bv8)
    ensures (Pushed(p) as bv8) & !(FlagB | FlagU) == p & !(FlagB | FlagU)
    ensures IsSet(Pushed(p) as bv8, FlagB) && IsSet(Pushed(p) as bv8, FlagU)
  {
    var q := p | FlagB | FlagU;
    BytesOfBits(q);
    assert Pushed(p) as bv8 == q;
    assert q & !(FlagB | FlagU) == p & !(FlagB | FlagU);
  }

  /** Read back as a status byte, PushedByDevice(p) is p with Break cleared and Unused set. */
  lemma PushedByDeviceBits(p: bv8)
    ensures (PushedByDevice(p) as bv8) & !(FlagB | FlagU) == p & !(FlagB | FlagU)
    ensures !IsSet(PushedByDevice(p) as bv8, FlagB) && IsSet(PushedByDevice(p) as bv8, FlagU)
  {
    var q := (p & !FlagB) | FlagU;
    BytesOfBits(q);
    assert PushedByDevice(p) as bv8 == q;
    assert q & !(FlagB | FlagU) == p & !(FlagB | FlagU);
    assert q & FlagB == 0;
  }

  /**
   * PLP and RTI: Break and Unused stay as they are in the current status,
   * every other bit comes from the popped byte.
   */
  function Pulled(current: bv8, popped: Byte): (r: bv8)
    ensures r & (FlagB | FlagU) == current & (FlagB | FlagU)
    ensures r & !(FlagB | FlagU) == (popped as bv8) & !(FlagB | FlagU)
  {
    (current & (FlagB | FlagU)) | ((popped as bv8) & !(FlagB | FlagU))
  }

  /**
   * Pulling a pushed status gives it back, provided the current status agrees
   * with it on Break and Unused (which a pull never changes).
   */
  lemma PulledPushed(current: bv8, p: bv8)
    requires current & (FlagB | FlagU) == p & (FlagB | FlagU)
    ensures Pulled(current, Pushed(p)) == p
  {
    PushedBits(p);
    var r := Pulled(current, Pushed(p));
    assert r & (FlagB | FlagU) == p & (FlagB | FlagU);
    assert r & !(FlagB | FlagU) == p & !(FlagB | FlagU);
  }

  /** Setting I leaves Break and Unused alone. */
  lemma SetInterruptKeepsBreak(p: bv8)
    ensures SetBits(p, FlagI) & (FlagB | FlagU) == p & (FlagB | FlagU)
  {
  }
}
