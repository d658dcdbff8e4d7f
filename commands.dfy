/** The device commands: single-byte instructions whose high five bits are an
    opcode and whose low two bits carry the wiper index where one applies. */
module Commands {
  import opened Optional
  import opened Registers

  datatype Command =
    | Nop                  // return the device to idle (reset_device)
    | Restore(rdac: bv8)   // copy one wiper from its EEMEM backup
    | Store(rdac: bv8)     // copy one wiper into its EEMEM backup
    | Dec6dB(rdac: bv8)    // halve one wiper
    | Dec6dBAll            // halve every wiper
    | DecStep(rdac: bv8)   // decrement one wiper by one
    | DecStepAll           // decrement every wiper by one
    | RestoreAll           // restore every wiper from EEMEM
    | Inc6dB(rdac: bv8)    // double one wiper
    | Inc6dBAll            // double every wiper
    | IncStep(rdac: bv8)   // increment one wiper by one
    | IncStepAll           // increment every wiper by one
  {
    /** The command addresses a single wiper. */
    predicate PerWiper() {
      Restore? || Store? || Dec6dB? || DecStep? || Inc6dB? || IncStep?
    }

    /** A per-wiper command names one of the four wipers. */
    predicate WellFormed() {
      PerWiper() ==> rdac <= MaxRdac
    }

    /** The wiper index folded into the command byte; 0 for the all-wiper commands. */
    function Index(): bv8 {
      if PerWiper() then rdac else 0
    }
  }

  /** The opcode table of the command register. */
  function Opcode(c: Command): (op: bv8)
    ensures op >= 0x80 && op & 0x07 == 0
  {
    match c
    case Nop => 0x80
    case Restore(_) => 0x88
    case Store(_) => 0x90
    case Dec6dB(_) => 0x98
    case Dec6dBAll => 0xa0
    case DecStep(_) => 0xa8
    case DecStepAll => 0xb0
    case RestoreAll => 0xb8
    case Inc6dB(_) => 0xc0
    case Inc6dBAll => 0xc8
    case IncStep(_) => 0xd0
    case IncStepAll => 0xd8
  }

  /** The byte sent for a command: the opcode OR-ed with the wiper index. */
  function CommandByte(c: Command): (b: bv8)
    requires c.WellFormed()
    ensures b & 0xF8 == Opcode(c) && b & 0x07 == c.Index()
    ensures b >= 0x80
  {
    Opcode(c) | c.Index()
  }

  /** Reads a command byte back: the opcode from `& 0xF8`, the index from `& 0x03`. */
  function DecodeCommand(b: bv8): Option<Command> {
    var op, i := b & 0xF8, b & 0x03;
    if b & 0x04 != 0 then None
    else if op == 0x80 then (if i == 0 then Some(Nop) else None)
    else if op == 0x88 then Some(Restore(i))
    else if op == 0x90 then Some(Store(i))
    else if op == 0x98 then Some(Dec6dB(i))
    else if op == 0xa0 then (if i == 0 then Some(Dec6dBAll) else None)
    else if op == 0xa8 then Some(DecStep(i))
    else if op == 0xb0 then (if i == 0 then Some(DecStepAll) else None)
    else if op == 0xb8 then (if i == 0 then Some(RestoreAll) else None)
    else if op == 0xc0 then Some(Inc6dB(i))
    else if op == 0xc8 then (if i == 0 then Some(Inc6dBAll) else None)
    else if op == 0xd0 then Some(IncStep(i))
    else if op == 0xd8 then (if i == 0 then Some(IncStepAll) else None)
    else None
  }

  /** Decoding a command byte gives back the command: the encoding is
      injective over (command, wiper index). */
  lemma {:induction false} CommandRoundTrip(c: Command)
    requires c.WellFormed()
    ensures DecodeCommand(CommandByte(c)) == Some(c)
  {
    match c
    case Nop =>
    case Restore(i) =>
    case Store(i) =>
    case Dec6dB(i) =>
    case Dec6dBAll =>
    case DecStep(i) =>
    case DecStepAll =>
    case RestoreAll =>
    case Inc6dB(i) =>
    case Inc6dBAll =>
    case IncStep(i) =>
    case IncStepAll =>
  }

  /** Every byte that decodes is the command byte of what it decodes to. */
  lemma {:induction false} DecodeCommandSound(b: bv8)
    ensures DecodeCommand(b).Some? ==>
      DecodeCommand(b).value.WellFormed() && CommandByte(DecodeCommand(b).value) == b
  {
  }

  /** Two well-formed commands with the same byte are the same command. */
  lemma {:induction false} CommandByteInjective(c1: Command, c2: Command)
    requires c1.WellFormed() && c2.WellFormed()
    ensures CommandByte(c1) == CommandByte(c2) ==> c1 == c2
  {
    CommandRoundTrip(c1);
    CommandRoundTrip(c2);
  }

  /** A command byte is never a register instruction. */
  lemma {:induction false} CommandsApartFromRegisters(c: Command, r: Register)
    requires c.WellFormed() && r.WellFormed()
    ensures CommandByte(c) != Instruction(r)
    ensures DecodeInstruction(CommandByte(c)) == None
  {
  }
}
