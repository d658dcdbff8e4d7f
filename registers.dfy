/** The wire-level register map of the AD5253/AD5254: the device address,
    the instruction bytes that select a register, and the two device
    variants. */
module Registers {
  import opened Optional

  /** Fixed part of the 7-bit device address; the two selector pins fill the low bits. */
  const BaseAddress: bv8 := 0x2C
  /** Largest two-bit selector `AD1<<1 | AD0`. */
  const MaxSelector: bv8 := 3
  /** Four wiper (RDAC) registers, indices 0-3. */
  const MaxRdac: bv8 := 3
  /** Sixteen non-volatile (EEMEM) registers, indices 0-15. */
  const MaxEemem: bv8 := 15

  /** Class bits of the instruction byte. */
  const RdacBase: bv8 := 0x00
  const EememBase: bv8 := 0x20
  const ToleranceBase: bv8 := 0x38
  /** Low bit of a tolerance instruction: integer or fractional byte. */
  const TolInt: bv8 := 0x00
  const TolDec: bv8 := 0x01

  /** The bus address of the device whose selector pins read `sel`. */
  function DeviceAddress(sel: bv8): (a: bv8)
    requires sel <= MaxSelector
    ensures IsDeviceAddress(a)
    ensures a & 3 == sel
  {
    BaseAddress | sel
  }

  /** The four addresses a device of this family can answer on. */
  predicate IsDeviceAddress(a: bv8) {
    BaseAddress <= a <= BaseAddress + 3
  }

  /** Since the base has its two low bits clear, the selector is recovered
      from the address and distinct selectors give distinct addresses. */
  lemma {:induction false} DeviceAddressRoundTrip(a: bv8)
    requires IsDeviceAddress(a)
    ensures a & 3 <= MaxSelector && DeviceAddress(a & 3) == a
  {
  }

  /** The device variants: the undifferentiated base and the two chips,
      which differ only in their largest wiper value. */
  datatype Variant = Base | AD5253 | AD5254

  /** The largest wiper value of a variant; the base provides none. */
  function WiperLimit(v: Variant): (m: Option<bv8>)
    ensures m.None? <==> v == Base
    ensures m.Some? ==> m.value != 0 && (m.value as int + 1) in {64, 256}
    ensures m == Some(63) <==> v == AD5253
    ensures m == Some(255) <==> v == AD5254
  {
    match v
    case Base => None
    case AD5253 => Some(63)
    case AD5254 => Some(255)
  }

  /** Which byte of a factory tolerance a tolerance instruction selects. */
  datatype TolerancePart = IntegerPart | FractionPart

  /** A register reference: its class and index. */
  datatype Register =
    | Rdac(index: bv8)
    | Eemem(index: bv8)
    | Tolerance(index: bv8, part: TolerancePart)
  {
    /** The index fits the register class. */
    predicate WellFormed() {
      match this
      case Rdac(i) => i <= MaxRdac
      case Eemem(i) => i <= MaxEemem
      case Tolerance(i, _) => i <= MaxRdac
    }
  }

  /** The instruction byte that selects register `r`: the class bits OR-ed
      with the index (shifted past the part bit for tolerances). */
  function Instruction(r: Register): (b: bv8)
    requires r.WellFormed()
    ensures r.Rdac? ==> b <= 0x03
    ensures r.Eemem? ==> 0x20 <= b <= 0x2F
    ensures r.Tolerance? ==> 0x38 <= b <= 0x3F && (b & 1 == 0 <==> r.part == IntegerPart)
  {
    match r
    case Rdac(i) => RdacBase | i
    case Eemem(i) => EememBase | i
    case Tolerance(i, part) => ToleranceBase | (i << 1) | (if part == IntegerPart then TolInt else TolDec)
  }

  /** Reads an instruction byte back as a register reference. */
  function DecodeInstruction(b: bv8): Option<Register> {
    if b <= 0x03 then Some(Rdac(b))
    else if 0x20 <= b <= 0x2F then Some(Eemem(b & 0x0F))
    else if 0x38 <= b <= 0x3F then
      Some(Tolerance((b >> 1) & 3, if b & 1 == TolInt then IntegerPart else FractionPart))
    else None
  }

  /** Decoding an instruction gives back the register it selects, so the
      encoding is injective over well-formed references and the three
      register classes never share a byte. */
  lemma {:induction false} InstructionRoundTrip(r: Register)
    requires r.WellFormed()
    ensures DecodeInstruction(Instruction(r)) == Some(r)
  {
    match r
    case Rdac(i) =>
    case Eemem(i) =>
    case Tolerance(i, part) =>
  }

  /** Every byte that decodes is the instruction of what it decodes to. */
  lemma {:induction false} DecodeInstructionSound(b: bv8)
    ensures DecodeInstruction(b).Some? ==>
      DecodeInstruction(b).value.WellFormed() && Instruction(DecodeInstruction(b).value) == b
  {
  }

  /** Two well-formed references with the same instruction byte are the same. */
  lemma {:induction false} InstructionInjective(r1: Register, r2: Register)
    requires r1.WellFormed() && r2.WellFormed()
    ensures Instruction(r1) == Instruction(r2) ==> r1 == r2
  {
    InstructionRoundTrip(r1);
    InstructionRoundTrip(r2);
  }
}
