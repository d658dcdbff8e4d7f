/** The device handle of the AD5253/AD5254 driver: one object per chip on the
    bus, initialised with the chip's selector pins, that validates each
    request, encodes it as instruction bytes, runs one or two bus exchanges
    and records the outcome in its error code. */
module Driver {
  import opened Optional
  import opened Errors
  import opened Registers
  import opened Commands
  import opened Wire
  import opened Transactions
  import opened Tolerance

  /** The first check write_RDAC fails, in the order it makes them; None
      when it goes on to write. */
  function WriteRdacFault(initialized: bool, v: Variant, rdac: bv8, value: bv8): (f: Option<Error>)
    ensures f.None? <==> initialized && rdac <= MaxRdac && v != Base && value <= WiperLimit(v).value
    ensures !initialized ==> f == Some(NotInitialized)
    ensures f == Some(BadRegister) <==> initialized && rdac > MaxRdac
    ensures f == Some(NotImplemented) <==> initialized && rdac <= MaxRdac && v == Base
    ensures f == Some(BadWiperSetting) <==>
      initialized && rdac <= MaxRdac && v != Base && value > WiperLimit(v).value
  {
    if !initialized then Some(NotInitialized)
    else if rdac > MaxRdac then Some(BadRegister)
    else match WiperLimit(v)
      case None => Some(NotImplemented)
      case Some(m) => if value > m then Some(BadWiperSetting) else None
  }

  /** The first check write_EEMEM fails. The wiper limit is looked up before
      the register is checked, and for the four wiper backups a value BELOW
      the limit is rejected while the limit itself and above pass. */
  function WriteEememFault(initialized: bool, v: Variant, reg: bv8, value: bv8): (f: Option<Error>)
    ensures f.None? <==>
      initialized && v != Base && reg <= MaxEemem && (reg <= MaxRdac ==> value >= WiperLimit(v).value)
    ensures !initialized ==> f == Some(NotInitialized)
    ensures f == Some(NotImplemented) <==> initialized && v == Base
    ensures f == Some(BadWiperSetting) <==> initialized && v != Base && reg <= MaxRdac && value < WiperLimit(v).value
    ensures f == Some(BadRegister) <==> initialized && v != Base && reg > MaxEemem
  {
    if !initialized then Some(NotInitialized)
    else match WiperLimit(v)
      case None => Some(NotImplemented)
      case Some(m) =>
        if reg <= MaxRdac && value < m then Some(BadWiperSetting)
        else if reg > MaxEemem then Some(BadRegister)
        else None
  }

  /** The first check a register read (RDAC, EEMEM or tolerance) fails. */
  function ReadFault(initialized: bool, index: bv8, limit: bv8): (f: Option<Error>)
    ensures f.None? <==> initialized && index <= limit
    ensures !initialized ==> f == Some(NotInitialized)
    ensures f.Some? && initialized ==> f == Some(BadRegister)
  {
    if !initialized then Some(NotInitialized)
    else if index > limit then Some(BadRegister)
    else None
  }

  /** The first check a command method fails; only per-wiper commands check an index. */
  function CommandFault(initialized: bool, c: Command): (f: Option<Error>)
    ensures f.None? <==> initialized && c.WellFormed()
    ensures !initialized ==> f == Some(NotInitialized)
    ensures f == Some(BadRegister) <==> initialized && !c.WellFormed()
    ensures !c.WellFormed() ==> c.PerWiper() && c.rdac > MaxRdac
  {
    if !initialized then Some(NotInitialized)
    else if !c.WellFormed() then Some(BadRegister)
    else None
  }

  /** Which wiper values write_RDAC and write_EEMEM both let through for a
      wiper and its backup: only the limit itself. */
  lemma {:induction false} WiperAndBackupAgreeOnlyAtLimit(v: Variant, i: bv8, value: bv8)
    requires v != Base && i <= MaxRdac
    ensures WriteRdacFault(true, v, i, value).None? && WriteEememFault(true, v, i, value).None?
      <==> value == WiperLimit(v).value
  {
  }

  class AD525x {
    /** Which chip this handle drives; supplies get_max_val. */
    const variant: Variant
    /** The two-wire bus the chip sits on. */
    const bus: Bus
    var initialized: bool
    /** Full seven-bit bus address, meaningful once initialised. */
    var devAddr: bv8
    /** Outcome of the last operation; 0 means no error. */
    var errCode: bv8

    /** The error code is one of the driver's codes, and an initialised
        handle talks to an address of this device family. */
    predicate Valid()
      reads this
    {
      errCode <= 10 && (initialized ==> IsDeviceAddress(devAddr))
    }

    /** A fresh handle is not initialised and carries no error. */
    constructor(variant: Variant, bus: Bus)
      ensures Valid()
      ensures this.variant == variant && this.bus == bus
      ensures !initialized && errCode == 0
    {
      this.variant := variant;
      this.bus := bus;
      initialized := false;
      devAddr := BaseAddress;
      errCode := 0;
    }

    /** get_err_code: the outcome of the last operation. */
    function ErrCode(): (c: bv8)
      reads this
      requires Valid()
      ensures FromCode(c).Some?
    {
      errCode
    }

    /** initialize: a selector wider than two bits leaves the handle
        uninitialised with EC_BAD_DEVICE_ADDR; otherwise the handle takes the
        address `0x2C | sel` and joins the bus, leaving the error code as it was. */
    method Initialize(sel: bv8) returns (rc: bv8)
      requires Valid()
      modifies this`initialized, this`devAddr, this`errCode, bus`started
      ensures Valid()
      ensures sel > MaxSelector ==>
        !initialized && errCode == BadDeviceAddress.Code() && rc == errCode && devAddr == old(devAddr) &&
        bus.started == old(bus.started)
      ensures sel <= MaxSelector ==>
        initialized && devAddr == DeviceAddress(sel) && rc == 0 && errCode == old(errCode) && bus.started
      ensures bus.log == old(bus.log)
    {
      if sel > MaxSelector {
        initialized := false;
        errCode := BadDeviceAddress.Code();
        return errCode;
      }
      devAddr := BaseAddress | sel;
      bus.Begin();
      initialized := true;
      return 0;
    }

    /** get_max_val: the variant's wiper limit; the undifferentiated base
        reports EC_NOT_IMPLEMENTED and answers 0. */
    method MaxVal() returns (m: bv8)
      requires Valid()
      modifies this`errCode
      ensures Valid()
      ensures variant == Base ==> m == 0 && errCode == NotImplemented.Code()
      ensures variant != Base ==> m == WiperLimit(variant).value && errCode == old(errCode)
    {
      match variant
      case Base =>
        errCode := NotImplemented.Code();
        return 0;
      case AD5253 =>
        return 63;
      case AD5254 =>
        return 255;
    }

    /** write_RDAC: after the checks of WriteRdacFault, sends exactly
        [0x00 | rdac, value] and keeps the bus status as the error code. */
    method WriteRdac(rdac: bv8, value: bv8) returns (rc: bv8)
      requires Valid()
      modifies this`errCode, bus`txAddr, bus`txData, bus`rx, bus`log
      ensures Valid() && rc == errCode
      ensures match WriteRdacFault(initialized, variant, rdac, value)
        case Some(e) => rc == e.Code() && bus.log == old(bus.log)
        case None => rc <= 4 && bus.log == old(bus.log) + [Transmit(devAddr, [Instruction(Rdac(rdac)), value], rc)]
    {
      if !initialized {
        errCode := NotInitialized.Code();
        return errCode;
      }
      if rdac > MaxRdac {
        errCode := BadRegister.Code();
        return errCode;
      }
      var maxValue := MaxVal();
      if maxValue == 0 {
        return errCode;
      } else if value > maxValue {
        errCode := BadWiperSetting.Code();
        return errCode;
      }
      var instr := RdacBase | rdac;
      errCode := WriteData(instr, value);
      return errCode;
    }

    /** read_RDAC: after the checks of ReadFault, one one-byte read of
        register 0x00 | rdac; the byte on success, 0 on any error. */
    method ReadRdac(rdac: bv8) returns (v: bv8)
      requires Valid()
      modifies this`errCode, bus`txAddr, bus`txData, bus`rx, bus`log
      ensures Valid()
      ensures match ReadFault(initialized, rdac, MaxRdac)
        case Some(e) => errCode == e.Code() && v == 0 && bus.log == old(bus.log)
        case None =>
          Extends(old(bus.log), bus.log) &&
          ByteOutcome(bus.log[|old(bus.log)|..], devAddr, Instruction(Rdac(rdac))) == Some((errCode, v))
    {
      if !initialized {
        errCode := NotInitialized.Code();
        return 0;
      }
      if rdac > MaxRdac {
        errCode := BadRegister.Code();
        return 0;
      }
      var instr := RdacBase | rdac;
      var rv := ReadDataByte(instr);
      if errCode != 0 {
        return 0;
      }
      return rv;
    }

    /** write_EEMEM: after the checks of WriteEememFault, sends exactly
        [0x20 | reg, value] and keeps the bus status as the error code. */
    method WriteEemem(reg: bv8, value: bv8) returns (rc: bv8)
      requires Valid()
      modifies this`errCode, bus`txAddr, bus`txData, bus`rx, bus`log
      ensures Valid() && rc == errCode
      ensures match WriteEememFault(initialized, variant, reg, value)
        case Some(e) => rc == e.Code() && bus.log == old(bus.log)
        case None => rc <= 4 && bus.log == old(bus.log) + [Transmit(devAddr, [Instruction(Eemem(reg)), value], rc)]
    {
      if !initialized {
        errCode := NotInitialized.Code();
        return errCode;
      }
      var maxValue := MaxVal();
      if maxValue == 0 {
        return errCode;
      } else if reg <= MaxRdac && value < maxValue {
        errCode := BadWiperSetting.Code();
        return errCode;
      }
      if reg > MaxEemem {
        errCode := BadRegister.Code();
        return errCode;
      }
      var instr := EememBase | reg;
      errCode := WriteData(instr, value);
      return errCode;
    }

    /** read_EEMEM: after the checks of ReadFault, one one-byte read of
        register 0x20 | reg; the byte on success, 0 on any error. */
    method ReadEemem(reg: bv8) returns (v: bv8)
      requires Valid()
      modifies this`errCode, bus`txAddr, bus`txData, bus`rx, bus`log
      ensures Valid()
      ensures match ReadFault(initialized, reg, MaxEemem)
        case Some(e) => errCode == e.Code() && v == 0 && bus.log == old(bus.log)
        case None =>
          Extends(old(bus.log), bus.log) &&
          ByteOutcome(bus.log[|old(bus.log)|..], devAddr, Instruction(Eemem(reg))) == Some((errCode, v))
    {
      if !initialized {
        errCode := NotInitialized.Code();
        return 0;
      }
      if reg > MaxEemem {
        errCode := BadRegister.Code();
        return 0;
      }
      var instr := EememBase | reg;
      var rv := ReadDataByte(instr);
      if errCode != 0 {
        return 0;
      }
      return rv;
    }

    /** read_tolerance: after the checks of ReadFault, reads the integer and
        then the fraction byte of the factory tolerance of wiper `rdac`,
        stopping at the first failure, and decodes them. */
    method ReadTolerance(rdac: bv8) returns (t: real)
      requires Valid()
      modifies this`errCode, bus`txAddr, bus`txData, bus`rx, bus`log
      ensures Valid()
      ensures match ReadFault(initialized, rdac, MaxRdac)
        case Some(e) => errCode == e.Code() && t == 0.0 && bus.log == old(bus.log)
        case None =>
          Extends(old(bus.log), bus.log) &&
          ToleranceOutcome(bus.log[|old(bus.log)|..], devAddr, rdac) == Some((errCode, t))
    {
      if !initialized {
        errCode := NotInitialized.Code();
        return 0.0;
      }
      if rdac > MaxRdac {
        errCode := BadRegister.Code();
        return 0.0;
      }
      ghost var before := bus.log;
      var instr := ToleranceBase | (rdac << 1);
      var instrInt := instr | TolInt;
      var instrDec := instr | TolDec;
      assert instrInt == Instruction(Tolerance(rdac, IntegerPart));
      assert instrDec == Instruction(Tolerance(rdac, FractionPart));
      var tolInt := ReadDataByte(instrInt);
      if errCode != 0 {
        ToleranceFirstFails(bus.log[|before|..], devAddr, rdac, errCode, tolInt);
        return 0.0;
      }
      ghost var middle := bus.log;
      var tolDec := ReadDataByte(instrDec);
      ExtendsTwice(before, middle, bus.log);
      ToleranceSecondRead(middle[|before|..], bus.log[|middle|..], devAddr, rdac, tolInt, errCode, tolDec);
      if errCode != 0 {
        return 0.0;
      }
      t := DecodeTolerance(tolInt, tolDec);
    }

    /** The outcome of command `c` as its method reports it: a failed check
        sends nothing; otherwise exactly the command byte goes out and the
        bus status becomes the error code. */
    ghost predicate CommandDone(c: Command, rc: bv8, before: seq<Event>)
      reads this, bus
    {
      rc == errCode &&
      match CommandFault(initialized, c)
      case Some(e) => rc == e.Code() && bus.log == before
      case None => rc <= 4 && bus.log == before + [Transmit(devAddr, [CommandByte(c)], rc)]
    }

    /** The shared shape of the twelve command methods: the initialisation
        check, the wiper check for per-wiper commands, then write_cmd. */
    method Issue(c: Command) returns (rc: bv8)
      requires Valid()
      modifies this`errCode, bus`txAddr, bus`txData, bus`rx, bus`log
      ensures Valid()
      ensures CommandDone(c, rc, old(bus.log))
    {
      if !initialized {
        errCode := NotInitialized.Code();
        return errCode;
      }
      if c.PerWiper() && c.rdac > MaxRdac {
        errCode := BadRegister.Code();
        return errCode;
      }
      rc := WriteCmd(Opcode(c) | c.Index());
    }

    /** reset_device: CMD_NOP returns the chip to idle. */
    method ResetDevice() returns (rc: bv8)
      requires Valid()
      modifies this`errCode, bus`txAddr, bus`txData, bus`rx, bus`log
      ensures Valid() && CommandDone(Nop, rc, old(bus.log))
    {
      rc := Issue(Nop);
    }

    /** restore_RDAC: reload one wiper from its EEMEM backup. */
    method RestoreRdac(rdac: bv8) returns (rc: bv8)
      requires Valid()
      modifies this`errCode, bus`txAddr, bus`txData, bus`rx, bus`log
      ensures Valid() && CommandDone(Restore(rdac), rc, old(bus.log))
    {
      rc := Issue(Restore(rdac));
    }

    /** restore_all_RDAC: reload every wiper from its EEMEM backup. */
    method RestoreAllRdac() returns (rc: bv8)
      requires Valid()
      modifies this`errCode, bus`txAddr, bus`txData, bus`rx, bus`log
      ensures Valid() && CommandDone(RestoreAll, rc, old(bus.log))
    {
      rc := Issue(RestoreAll);
    }

    /** store_RDAC: save one wiper into its EEMEM backup. */
    method StoreRdac(rdac: bv8) returns (rc: bv8)
      requires Valid()
      modifies this`errCode, bus`txAddr, bus`txData, bus`rx, bus`log
      ensures Valid() && CommandDone(Store(rdac), rc, old(bus.log))
    {
      rc := Issue(Store(rdac));
    }

    /** decrement_RDAC: one wiper down by one step. */
    method DecrementRdac(rdac: bv8) returns (rc: bv8)
      requires Valid()
      modifies this`errCode, bus`txAddr, bus`txData, bus`rx, bus`log
      ensures Valid() && CommandDone(DecStep(rdac), rc, old(bus.log))
    {
      rc := Issue(DecStep(rdac));
    }

    /** increment_RDAC: one wiper up by one step. */
    method IncrementRdac(rdac: bv8) returns (rc: bv8)
      requires Valid()
      modifies this`errCode, bus`txAddr, bus`txData, bus`rx, bus`log
      ensures Valid() && CommandDone(IncStep(rdac), rc, old(bus.log))
    {
      rc := Issue(IncStep(rdac));
    }

    /** decrement_RDAC_6dB: one wiper halved. */
    method DecrementRdac6dB(rdac: bv8) returns (rc: bv8)
      requires Valid()
      modifies this`errCode, bus`txAddr, bus`txData, bus`rx, bus`log
      ensures Valid() && CommandDone(Dec6dB(rdac), rc, old(bus.log))
    {
      rc := Issue(Dec6dB(rdac));
    }

    /** increment_RDAC_6dB: one wiper doubled. */
    method IncrementRdac6dB(rdac: bv8) returns (rc: bv8)
      requires Valid()
      modifies this`errCode, bus`txAddr, bus`txData, bus`rx, bus`log
      ensures Valid() && CommandDone(Inc6dB(rdac), rc, old(bus.log))
    {
      rc := Issue(Inc6dB(rdac));
    }

    /** decrement_all_RDAC: every wiper down by one step. */
    method DecrementAllRdac() returns (rc: bv8)
      requires Valid()
      modifies this`errCode, bus`txAddr, bus`txData, bus`rx, bus`log
      ensures Valid() && CommandDone(DecStepAll, rc, old(bus.log))
    {
      rc := Issue(DecStepAll);
    }

    /** increment_all_RDAC: every wiper up by one step. */
    method IncrementAllRdac() returns (rc: bv8)
      requires Valid()
      modifies this`errCode, bus`txAddr, bus`txData, bus`rx, bus`log
      ensures Valid() && CommandDone(IncStepAll, rc, old(bus.log))
    {
      rc := Issue(IncStepAll);
    }

    /** decrement_all_RDAC_6dB: every wiper halved. */
    method DecrementAllRdac6dB() returns (rc: bv8)
      requires Valid()
      modifies this`errCode, bus`txAddr, bus`txData, bus`rx, bus`log
      ensures Valid() && CommandDone(Dec6dBAll, rc, old(bus.log))
    {
      rc := Issue(Dec6dBAll);
    }

    /** increment_all_RDAC_6dB: every wiper doubled. */
    method IncrementAllRdac6dB() returns (rc: bv8)
      requires Valid()
      modifies this`errCode, bus`txAddr, bus`txData, bus`rx, bus`log
      ensures Valid() && CommandDone(Inc6dBAll, rc, old(bus.log))
    {
      rc := Issue(Inc6dBAll);
    }

    /** write_cmd: one transmission carrying the command byte alone. */
    method WriteCmd(cmd: bv8) returns (rc: bv8)
      requires Valid()
      modifies this`errCode, bus`txAddr, bus`txData, bus`rx, bus`log
      ensures Valid() && rc == errCode && rc <= 4
      ensures bus.log == old(bus.log) + [Transmit(devAddr, [cmd], rc)]
    {
      bus.BeginTransmission(devAddr);
      bus.Write(cmd);
      assert bus.txData == [cmd];
      errCode := bus.EndTransmission();
      return errCode;
    }

    /** write_data: one transmission carrying the register byte and the data byte. */
    method WriteData(reg: bv8, data: bv8) returns (rc: bv8)
      requires Valid()
      modifies this`errCode, bus`txAddr, bus`txData, bus`rx, bus`log
      ensures Valid() && rc == errCode && rc <= 4
      ensures bus.log == old(bus.log) + [Transmit(devAddr, [reg, data], rc)]
    {
      bus.BeginTransmission(devAddr);
      bus.Write(reg);
      bus.Write(data);
      assert bus.txData == [reg, data];
      errCode := bus.EndTransmission();
      return errCode;
    }

    /** read_data: selects `reg`, requests `length` bytes, copies them out
        of the receive buffer and closes the exchange; None stands for the
        NULL the driver returns on any failure. */
    method ReadData(reg: bv8, length: bv8) returns (buf: Option<seq<bv8>>)
      requires Valid()
      modifies this`errCode, bus`txAddr, bus`txData, bus`rx, bus`log
      ensures Valid()
      ensures Extends(old(bus.log), bus.log)
      ensures ReadOutcome(bus.log[|old(bus.log)|..], devAddr, reg, length) == Some((errCode, buf))
    {
      ghost var before := bus.log;
      bus.BeginTransmission(devAddr);
      bus.Write(reg);
      assert bus.txData == [reg];
      errCode := bus.EndTransmission();
      if errCode > 0 {
        SelectFailed(before, bus.log, devAddr, reg, length, errCode);
        return None;
      }

      ghost var received;
      buf, received := Receive(length);
      if |received| != length as int {
        ShortReceive(before, bus.log, devAddr, reg, length, received);
      } else {
        Completed(before, bus.log, devAddr, reg, length, received, errCode);
      }
    }

    /** The second half of read_data, after a successful select: requests
        `length` bytes; a short answer gives EC_BAD_READ_SIZE, otherwise the
        bytes are copied out and the closing transmission decides between
        them and NULL. `received` is what the device sent. */
    method Receive(length: bv8) returns (buf: Option<seq<bv8>>, ghost received: seq<bv8>)
      requires Valid()
      modifies this`errCode, bus`txAddr, bus`txData, bus`rx, bus`log
      ensures Valid()
      ensures |received| != length as int ==>
        errCode == BadReadSize.Code() && buf == None &&
        bus.log == old(bus.log) + [Request(devAddr, length, received)]
      ensures |received| == length as int ==>
        errCode <= 4 && buf == (if errCode == 0 then Some(received) else None) &&
        bus.log == old(bus.log) + [Request(devAddr, length, received)] + [Transmit(devAddr, [], errCode)]
    {
      bus.BeginTransmission(devAddr);
      var count := bus.RequestFrom(devAddr, length);
      received := bus.rx;
      if count != length as int {
        errCode := BadReadSize.Code();
        return None, received;
      }

      var buff := new bv8[length as int];
      var available := bus.Available();
      if available == length as int {
        ReadInto(bus, buff);
      }
      assert buff[..] == received;
      errCode := bus.EndTransmission();
      if errCode > 0 {
        return None, received;
      }
      return Some(buff[..]), received;
    }

    /** read_data_byte: a one-byte read_data, with 0 in place of NULL. */
    method ReadDataByte(reg: bv8) returns (v: bv8)
      requires Valid()
      modifies this`errCode, bus`txAddr, bus`txData, bus`rx, bus`log
      ensures Valid()
      ensures Extends(old(bus.log), bus.log)
      ensures ByteOutcome(bus.log[|old(bus.log)|..], devAddr, reg) == Some((errCode, v))
    {
      var rv := ReadData(reg, 1);
      if rv.None? {
        return 0;
      }
      return rv.value[0];
    }
  }
}
