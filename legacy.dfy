/** The first version of the driver: the same register protocol, but the
    handle is ready from construction, a bad selector is silently replaced
    by 0, the wiper limit is a field left at 0, out-of-range RDAC and EEMEM
    reads answer with the error code itself, and the error texts come from its own table. */
module LegacyDriver {
  import opened Optional
  import opened Errors
  import opened Registers
  import opened Wire
  import opened Transactions
  import opened Tolerance

  /** get_error_string: the first driver's table covers codes 0-7 only, and
      its text for a bad register is shorter. */
  function LegacyErrorString(code: bv8): (s: string)
    ensures s == UnknownError <==> code > 7
  {
    if code == 0 then "No error."
    else if code == 1 then "Data too long to fit in transmit buffer."
    else if code == 2 then "Received NACK on transmit of address."
    else if code == 3 then "Received NACK on transmit of data."
    else if code == 4 then "Other I2C error."
    else if code == 5 then "Invalid register."
    else if code == 6 then "Invalid wiper setting."
    else if code == 7 then "Invalid number of bytes read from register."
    else UnknownError
  }

  /** The two tables agree on the transport codes, on EC_BAD_WIPER_SETTING and
      EC_BAD_READ_SIZE, and on the fallback; they differ on EC_BAD_REGISTER
      and on the codes 8-10 the first table does not know. */
  lemma {:induction false} LegacyAgreesWithLookup(code: bv8)
    ensures LegacyErrorString(code) == ErrorString(code) <==> code != 5 && (code <= 7 || code > 10)
  {
    if code == 5 || 8 <= code <= 10 {
      LegacyDiffers(code);
    }
  }

  /** Where the tables differ, the texts already differ in length. */
  lemma {:induction false} LegacyDiffers(code: bv8)
    requires code == 5 || 8 <= code <= 10
    ensures LegacyErrorString(code) != ErrorString(code)
  {
    MessageLength(FromCode(code).value);
    assert |LegacyErrorString(code)| == if code == 5 then 17 else 14;
  }

  /** The first check the old write_RDAC fails. */
  function LegacyWriteRdacFault(rdac: bv8, value: bv8, maxVal: bv8): (f: Option<Error>)
    ensures f.None? <==> rdac <= MaxRdac && value <= maxVal
    ensures f == Some(BadRegister) <==> rdac > MaxRdac
    ensures f == Some(BadWiperSetting) <==> rdac <= MaxRdac && value > maxVal
  {
    if rdac > MaxRdac then Some(BadRegister)
    else if value > maxVal then Some(BadWiperSetting)
    else None
  }

  /** The first check the old write_EEMEM fails; the wiper check comes first
      and rejects a value below the limit. */
  function LegacyWriteEememFault(reg: bv8, value: bv8, maxVal: bv8): (f: Option<Error>)
    ensures f.None? <==> reg <= MaxEemem && (reg <= MaxRdac ==> value >= maxVal)
    ensures f == Some(BadWiperSetting) <==> reg <= MaxRdac && value < maxVal
    ensures f == Some(BadRegister) <==> reg > MaxEemem
  {
    if reg < 4 && value < maxVal then Some(BadWiperSetting)
    else if reg > MaxEemem then Some(BadRegister)
    else None
  }

  /** With the limit left at 0, write_RDAC lets through only the value 0
      (for a valid wiper), and write_EEMEM never reports a bad wiper setting:
      it fails exactly on a register past 15. */
  lemma {:induction false} ZeroLimitConsequences(rdac: bv8, reg: bv8, value: bv8)
    requires rdac <= MaxRdac
    ensures LegacyWriteRdacFault(rdac, value, 0).None? <==> value == 0
    ensures LegacyWriteEememFault(reg, value, 0) != Some(BadWiperSetting)
    ensures LegacyWriteEememFault(reg, value, 0).None? <==> reg <= MaxEemem
  {
  }

  class LegacyAD525x {
    /** The two-wire bus the chip sits on. */
    const bus: Bus
    var devAddr: bv8
    /** The wiper limit of the base class: the constructor sets it to 0 and
        no method lists it in its modifies clause, so it stays 0. */
    var maxVal: bv8
    var errCode: bv8

    /** The address is one of the family's and the error code is a
        transport code or one of 5-7. */
    predicate Valid()
      reads this
    {
      IsDeviceAddress(devAddr) && errCode <= 7
    }

    /** The constructor: a selector wider than two bits is replaced by 0,
        and the handle joins the bus straight away. */
    constructor(sel: bv8, bus: Bus)
      modifies bus`started
      ensures Valid() && this.bus == bus
      ensures devAddr == DeviceAddress(if sel > MaxSelector then 0 else sel)
      ensures maxVal == 0 && errCode == 0 && bus.started
    {
      var a := sel;
      if a > MaxSelector {
        a := 0;
      }
      this.bus := bus;
      devAddr := BaseAddress | a;
      maxVal := 0;
      errCode := 0;
      new;
      bus.Begin();
    }

    /** get_err_code. */
    function ErrCode(): (c: bv8)
      reads this
      requires Valid()
      ensures c <= BadReadSize.Code()
    {
      errCode
    }

    /** get_error_text: the old table's text for the stored code, which is
        never the fallback, and is the shared lookup's text except for
        EC_BAD_REGISTER. */
    function ErrorText(): (s: string)
      reads this
      requires Valid()
      ensures s != UnknownError
      ensures errCode != BadRegister.Code() <==> s == ErrorString(errCode)
    {
      LegacyAgreesWithLookup(errCode);
      LegacyErrorString(errCode)
    }

    /** write_RDAC: after LegacyWriteRdacFault, sends exactly [0x00 | rdac, value]. */
    method WriteRdac(rdac: bv8, value: bv8) returns (rc: bv8)
      requires Valid()
      modifies this`errCode, bus`txAddr, bus`txData, bus`rx, bus`log
      ensures Valid() && rc == errCode
      ensures match LegacyWriteRdacFault(rdac, value, maxVal)
        case Some(e) => rc == e.Code() && bus.log == old(bus.log)
        case None => rc <= 4 && bus.log == old(bus.log) + [Transmit(devAddr, [Instruction(Rdac(rdac)), value], rc)]
    {
      if rdac > MaxRdac {
        errCode := BadRegister.Code();
        return errCode;
      }
      if value > maxVal {
        errCode := BadWiperSetting.Code();
        return errCode;
      }
      assert LegacyWriteRdacFault(rdac, value, maxVal).None?;
      var instr := RdacBase | rdac;
      errCode := WriteData(instr, value);
      return errCode;
    }

    /** read_RDAC: an index past 3 records EC_BAD_REGISTER and answers with
        that code, 5; otherwise one one-byte read of 0x00 | rdac. */
    method ReadRdac(rdac: bv8) returns (v: bv8)
      requires Valid()
      modifies this`errCode, bus`txAddr, bus`txData, bus`rx, bus`log
      ensures Valid()
      ensures rdac > MaxRdac ==> errCode == BadRegister.Code() && v == 5 && bus.log == old(bus.log)
      ensures rdac <= MaxRdac ==>
        Extends(old(bus.log), bus.log) &&
        ByteOutcome(bus.log[|old(bus.log)|..], devAddr, Instruction(Rdac(rdac))) == Some((errCode, v))
    {
      if rdac > MaxRdac {
        errCode := BadRegister.Code();
        return errCode;
      }
      var instr := RdacBase | rdac;
      var rv := ReadData(instr, 1);
      if rv.None? {
        return 0;
      }
      return rv.value[0];
    }

    /** write_EEMEM: after LegacyWriteEememFault, sends exactly [0x20 | reg, value]. */
    method WriteEemem(reg: bv8, value: bv8) returns (rc: bv8)
      requires Valid()
      modifies this`errCode, bus`txAddr, bus`txData, bus`rx, bus`log
      ensures Valid() && rc == errCode
      ensures match LegacyWriteEememFault(reg, value, maxVal)
        case Some(e) => rc == e.Code() && bus.log == old(bus.log)
        case None => rc <= 4 && bus.log == old(bus.log) + [Transmit(devAddr, [Instruction(Eemem(reg)), value], rc)]
    {
      if reg < 4 && value < maxVal {
        errCode := BadWiperSetting.Code();
        return errCode;
      }
      if reg > MaxEemem {
        errCode := BadRegister.Code();
        return errCode;
      }
      var instr := EememBase | reg;
      errCode := WriteData(instr, value);
      return errCode;
    }

    /** read_EEMEM: a register past 15 records EC_BAD_REGISTER and answers
        5; otherwise one one-byte read of 0x20 | reg. */
    method ReadEemem(reg: bv8) returns (v: bv8)
      requires Valid()
      modifies this`errCode, bus`txAddr, bus`txData, bus`rx, bus`log
      ensures Valid()
      ensures reg > MaxEemem ==> errCode == BadRegister.Code() && v == 5 && bus.log == old(bus.log)
      ensures reg <= MaxEemem ==>
        Extends(old(bus.log), bus.log) &&
        ByteOutcome(bus.log[|old(bus.log)|..], devAddr, Instruction(Eemem(reg))) == Some((errCode, v))
    {
      if reg > MaxEemem {
        errCode := BadRegister.Code();
        return errCode;
      }
      var instr := EememBase | reg;
      var rv := ReadData(instr, 1);
      if rv.None? {
        return 0;
      }
      return rv.value[0];
    }

    /** read_tolerance: as in the later driver but with no initialisation
        guard; a wiper past 3 records EC_BAD_REGISTER and answers 0. */
    method ReadTolerance(rdac: bv8) returns (t: real)
      requires Valid()
      modifies this`errCode, bus`txAddr, bus`txData, bus`rx, bus`log
      ensures Valid()
      ensures rdac > MaxRdac ==> errCode == BadRegister.Code() && t == 0.0 && bus.log == old(bus.log)
      ensures rdac <= MaxRdac ==>
        Extends(old(bus.log), bus.log) &&
        ToleranceOutcome(bus.log[|old(bus.log)|..], devAddr, rdac) == Some((errCode, t))
    {
      if rdac > MaxRdac {
        errCode := BadRegister.Code();
        return 0.0;
      }
      ghost var before := bus.log;
      var instr := ToleranceBase | (rdac << 1);
      var instrInt := instr | TolInt;
      var instrDec := instr | TolDec;
      assert instrInt == Instruction(Tolerance(rdac, IntegerPart));
      assert instrDec == Instruction(Tolerance(rdac, FractionPart));
      var tolInt := ReadDataByte(instrInt);
      if errCode != 0 {
        ToleranceFirstFails(bus.log[|before|..], devAddr, rdac, errCode, tolInt);
        return 0.0;
      }
      ghost var middle := bus.log;
      var tolDec := ReadDataByte(instrDec);
      ExtendsTwice(before, middle, bus.log);
      ToleranceSecondRead(middle[|before|..], bus.log[|middle|..], devAddr, rdac, tolInt, errCode, tolDec);
      if errCode != 0 {
        return 0.0;
      }
      t := DecodeTolerance(tolInt, tolDec);
    }

    /** write_data: one transmission carrying the register byte and the data byte. */
    method WriteData(reg: bv8, data: bv8) returns (rc: bv8)
      requires Valid()
      modifies this`errCode, bus`txAddr, bus`txData, bus`rx, bus`log
      ensures Valid() && rc == errCode && rc <= 4
      ensures bus.log == old(bus.log) + [Transmit(devAddr, [reg, data], rc)]
    {
      bus.BeginTransmission(devAddr);
      bus.Write(reg);
      bus.Write(data);
      assert bus.txData == [reg, data];
      errCode := bus.EndTransmission();
      return errCode;
    }

    /** read_data: selects `reg`, requests `length` bytes, copies them out
        and closes the exchange; None stands for NULL. */
    method ReadData(reg: bv8, length: bv8) returns (buf: Option<seq<bv8>>)
      requires Valid()
      modifies this`errCode, bus`txAddr, bus`txData, bus`rx, bus`log
      ensures Valid()
      ensures Extends(old(bus.log), bus.log)
      ensures ReadOutcome(bus.log[|old(bus.log)|..], devAddr, reg, length) == Some((errCode, buf))
    {
      ghost var before := bus.log;
      bus.BeginTransmission(devAddr);
      bus.Write(reg);
      assert bus.txData == [reg];
      errCode := bus.EndTransmission();
      if errCode > 0 {
        SelectFailed(before, bus.log, devAddr, reg, length, errCode);
        return None;
      }

      ghost var received;
      buf, received := Receive(length);
      if |received| != length as int {
        ShortReceive(before, bus.log, devAddr, reg, length, received);
      } else {
        Completed(before, bus.log, devAddr, reg, length, received, errCode);
      }
    }

    /** The second half of read_data, after a successful select: requests
        `length` bytes; a short answer gives EC_BAD_READ_SIZE, otherwise the
        bytes are copied out and the closing transmission decides between
        them and NULL. `received` is what the device sent. */
    method Receive(length: bv8) returns (buf: Option<seq<bv8>>, ghost received: seq<bv8>)
      requires Valid()
      modifies this`errCode, bus`txAddr, bus`txData, bus`rx, bus`log
      ensures Valid()
      ensures |received| != length as int ==>
        errCode == BadReadSize.Code() && buf == None &&
        bus.log == old(bus.log) + [Request(devAddr, length, received)]
      ensures |received| == length as int ==>
        errCode <= 4 && buf == (if errCode == 0 then Some(received) else None) &&
        bus.log == old(bus.log) + [Request(devAddr, length, received)] + [Transmit(devAddr, [], errCode)]
    {
      bus.BeginTransmission(devAddr);
      var count := bus.RequestFrom(devAddr, length);
      received := bus.rx;
      if count != length as int {
        errCode := BadReadSize.Code();
        return None, received;
      }

      var buff := new bv8[length as int];
      var available := bus.Available();
      if available == length as int {
        ReadInto(bus, buff);
      }
      assert buff[..] == received;
      errCode := bus.EndTransmission();
      if errCode > 0 {
        return None, received;
      }
      return Some(buff[..]), received;
    }

    /** read_data_byte: a one-byte read_data, with 0 in place of NULL. */
    method ReadDataByte(reg: bv8) returns (v: bv8)
      requires Valid()
      modifies this`errCode, bus`txAddr, bus`txData, bus`rx, bus`log
      ensures Valid()
      ensures Extends(old(bus.log), bus.log)
      ensures ByteOutcome(bus.log[|old(bus.log)|..], devAddr, reg) == Some((errCode, v))
    {
      var rv := ReadData(reg, 1);
      if rv.None? {
        return 0;
      }
      return rv.value[0];
    }
  }
}
