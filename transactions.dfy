/** What the driver's register reads look like on the bus, and what they
    report. A read selects a register with a one-byte transmission, asks for
    the data, then closes with an empty transmission; each step can fail.
    These functions read the events of one such read back into the error
    code and value the driver is left with, so the driver's methods can be
    specified by them. */
module Transactions {
  import opened Optional
  import opened Wire
  import opened Errors
  import opened Registers
  import opened Tolerance

  /** `log` is `before` followed by more events. */
  ghost predicate Extends(before: seq<Event>, log: seq<Event>) {
    |before| <= |log| && log[..|before|] == before
  }

  /** Appending events extends a log, and cutting the old log off gives them back. */
  lemma AfterPrefix(before: seq<Event>, tail: seq<Event>)
    ensures Extends(before, before + tail) && (before + tail)[|before|..] == tail
  {
    assert (before + tail)[..|before|] == before;
  }

  /** A transmission from `addr` carrying exactly `data`, whatever its status. */
  predicate Sends(e: Event, addr: bv8, data: seq<bv8>) {
    e.Transmit? && e.addr == addr && e.data == data
  }

  /** read_data: for the events `t` of one read of `n` bytes of register
      `reg` at `addr`, the error code it leaves and the buffer it returns
      (None for NULL). None when `t` is not such a read. */
  function ReadOutcome(t: seq<Event>, addr: bv8, reg: bv8, n: bv8): (o: Option<(bv8, Option<seq<bv8>>)>)
    ensures o.Some? ==> 1 <= |t| <= 3 && Sends(t[0], addr, [reg])
    ensures o.Some? ==> (o.value.1.Some? <==> o.value.0 == 0)
    ensures o.Some? && o.value.1.Some? ==>
      |t| == 3 && |o.value.1.value| == n as int && t[1] == Request(addr, n, o.value.1.value) && Sends(t[2], addr, [])
    ensures o.Some? && |t| == 2 ==> o.value.0 == BadReadSize.Code()
  {
    if |t| == 0 || !Sends(t[0], addr, [reg]) then None
    else if t[0].status != 0 then
      // the select transmission failed: NULL, err_code is the bus status
      if |t| == 1 then Some((t[0].status, None)) else None
    else if |t| < 2 || !(t[1].Request? && t[1].addr == addr && t[1].length == n) then None
    else if |t[1].received| != n as int then
      // short read: NULL, EC_BAD_READ_SIZE
      if |t| == 2 then Some((BadReadSize.Code(), None)) else None
    else if |t| != 3 || !Sends(t[2], addr, []) then None
    else
      // the closing transmission decides between the buffer and NULL
      Some((t[2].status, if t[2].status == 0 then Some(t[1].received) else None))
  }

  /** The three ways a read can end, each read back as read_data reports it:
      a failed select, a short receive, or a completed exchange, appended
      to whatever the log held before. */
  lemma SelectFailed(before: seq<Event>, log: seq<Event>, addr: bv8, reg: bv8, n: bv8, s: bv8)
    requires s != 0 && log == before + [Transmit(addr, [reg], s)]
    ensures Extends(before, log) && ReadOutcome(log[|before|..], addr, reg, n) == Some((s, None))
  {
    AfterPrefix(before, [Transmit(addr, [reg], s)]);
  }

  lemma ShortReceive(before: seq<Event>, log: seq<Event>, addr: bv8, reg: bv8, n: bv8, r: seq<bv8>)
    requires |r| != n as int && log == before + [Transmit(addr, [reg], 0)] + [Request(addr, n, r)]
    ensures Extends(before, log) && ReadOutcome(log[|before|..], addr, reg, n) == Some((BadReadSize.Code(), None))
  {
    assert log == before + [Transmit(addr, [reg], 0), Request(addr, n, r)];
    AfterPrefix(before, [Transmit(addr, [reg], 0), Request(addr, n, r)]);
  }

  lemma Completed(before: seq<Event>, log: seq<Event>, addr: bv8, reg: bv8, n: bv8, r: seq<bv8>, s: bv8)
    requires |r| == n as int
    requires log == before + [Transmit(addr, [reg], 0)] + [Request(addr, n, r)] + [Transmit(addr, [], s)]
    ensures Extends(before, log)
    ensures ReadOutcome(log[|before|..], addr, reg, n) == Some((s, if s == 0 then Some(r) else None))
  {
    assert log == before + [Transmit(addr, [reg], 0), Request(addr, n, r), Transmit(addr, [], s)];
    AfterPrefix(before, [Transmit(addr, [reg], 0), Request(addr, n, r), Transmit(addr, [], s)]);
  }

  /** The copy loop of read_data, shared by both drivers: the next
      `buff.Length` received bytes, in order, into `buff`. */
  method ReadInto(bus: Bus, buff: array<bv8>)
    requires buff.Length <= |bus.rx|
    modifies buff, bus`rx
    ensures buff[..] == old(bus.rx)[..buff.Length]
    ensures bus.rx == old(bus.rx)[buff.Length..]
  {
    ghost var received := bus.rx;
    var i := 0;
    while i < buff.Length
      invariant 0 <= i <= buff.Length
      invariant bus.rx == received[i..]
      invariant buff[..i] == received[..i]
    {
      buff[i] := bus.Read();
      i := i + 1;
    }
    assert buff[..] == buff[..i];
  }

  /** read_data_byte: a one-byte read, reporting 0 in place of a NULL buffer. */
  function ByteOutcome(t: seq<Event>, addr: bv8, reg: bv8): (o: Option<(bv8, bv8)>)
    ensures o.Some? <==> ReadOutcome(t, addr, reg, 1).Some?
    ensures o.Some? ==> 1 <= |t| <= 3 && o.value.0 == ReadOutcome(t, addr, reg, 1).value.0
    ensures o.Some? && o.value.0 != 0 ==> o.value.1 == 0
    ensures o.Some? && o.value.0 == 0 ==> |t| == 3
  {
    match ReadOutcome(t, addr, reg, 1)
    case None => None
    case Some((code, None)) => Some((code, 0))
    case Some((code, Some(data))) => Some((code, data[0]))
  }

  /** A one-byte read reports success with value `v` exactly when the select
      and the closing transmission succeeded and the device sent `v` alone. */
  lemma {:induction false} ByteSuccess(t: seq<Event>, addr: bv8, reg: bv8, v: bv8)
    ensures ByteOutcome(t, addr, reg) == Some((0, v)) <==>
      t == [Transmit(addr, [reg], 0), Request(addr, 1, [v]), Transmit(addr, [], 0)]
  {
    if ByteOutcome(t, addr, reg) == Some((0, v)) {
      var data := ReadOutcome(t, addr, reg, 1).value.1.value;
      assert |data| == 1 && data[0] == v;
      assert data == [v];
      assert t[0] == Transmit(addr, [reg], 0);
      assert t[2] == Transmit(addr, [], 0);
    }
  }

  /** A one-byte read that reports an error returns 0, and the error is a bus
      status or EC_BAD_READ_SIZE. */
  lemma {:induction false} ByteFailure(t: seq<Event>, addr: bv8, reg: bv8, code: bv8, v: bv8)
    requires ByteOutcome(t, addr, reg) == Some((code, v)) && code != 0
    ensures v == 0
    ensures code == BadReadSize.Code() || exists i :: 0 <= i < |t| && t[i].Transmit? && t[i].status == code
  {
    if |t| == 1 {
      assert t[0].status == code;
    } else if |t| == 3 {
      assert t[2].status == code;
    }
  }

  /** read_tolerance: the integer byte is read from the tolerance register
      of wiper `rdac` with the low bit clear, then the fraction byte with it
      set. A failing first read ends the exchange; the value is the decoded
      tolerance when both succeed and 0 otherwise. */
  function ToleranceOutcome(t: seq<Event>, addr: bv8, rdac: bv8): (o: Option<(bv8, real)>)
    requires rdac <= MaxRdac
    ensures o.Some? && o.value.0 != 0 ==> o.value.1 == 0.0
    ensures o.Some? ==> 1 <= |t| <= 6
  {
    var intReg := Instruction(Tolerance(rdac, IntegerPart));
    var fracReg := Instruction(Tolerance(rdac, FractionPart));
    if |t| <= 3 then
      match ByteOutcome(t, addr, intReg)
      case Some((code, _)) => if code != 0 then Some((code, 0.0)) else None
      case None => None
    else
      match ByteOutcome(t[..3], addr, intReg)
      case Some((0, b)) =>
        (match ByteOutcome(t[3..], addr, fracReg)
         case Some((code, f)) => Some((code, if code == 0 then ToleranceValue(b, f) else 0.0))
         case None => None)
      case _ => None
  }

  /** A tolerance read whose integer-byte read fails ends there, with that error and 0. */
  lemma {:induction false} ToleranceFirstFails(first: seq<Event>, addr: bv8, rdac: bv8, code: bv8, b: bv8)
    requires rdac <= MaxRdac && code != 0
    requires ByteOutcome(first, addr, Instruction(Tolerance(rdac, IntegerPart))) == Some((code, b))
    ensures ToleranceOutcome(first, addr, rdac) == Some((code, 0.0))
  {
  }

  /** A tolerance read whose integer-byte read succeeds with `b` reports what
      the fraction-byte read reports, and the decoded value when it succeeds. */
  lemma {:induction false} ToleranceSecondRead(first: seq<Event>, second: seq<Event>, addr: bv8, rdac: bv8, b: bv8, code: bv8, f: bv8)
    requires rdac <= MaxRdac
    requires ByteOutcome(first, addr, Instruction(Tolerance(rdac, IntegerPart))) == Some((0, b))
    requires ByteOutcome(second, addr, Instruction(Tolerance(rdac, FractionPart))) == Some((code, f))
    ensures ToleranceOutcome(first + second, addr, rdac) == Some((code, if code == 0 then ToleranceValue(b, f) else 0.0))
  {
    assert (first + second)[..3] == first;
    assert (first + second)[3..] == second;
  }

  /** Logs extended twice are extended once by both tails. */
  lemma ExtendsTwice(before: seq<Event>, middle: seq<Event>, log: seq<Event>)
    requires Extends(before, middle) && Extends(middle, log)
    ensures Extends(before, log) && log[|before|..] == middle[|before|..] + log[|middle|..]
  {
    assert log[..|middle|] == middle;
    assert log[..|before|] == middle[..|before|];
  }

  /** A tolerance read succeeds exactly as two successful one-byte reads, at
      0x38 | rdac << 1 and then with the low bit set, and yields the decoded
      value of the two bytes received. */
  lemma {:induction false} ToleranceSuccess(t: seq<Event>, addr: bv8, rdac: bv8, x: real)
    requires rdac <= MaxRdac
    ensures ToleranceOutcome(t, addr, rdac) == Some((0, x)) <==>
      |t| == 6 &&
      t[0] == Transmit(addr, [ToleranceBase | (rdac << 1)], 0) &&
      t[3] == Transmit(addr, [ToleranceBase | (rdac << 1) | TolDec], 0) &&
      t[1].Request? && t[4].Request? && |t[1].received| == 1 && |t[4].received| == 1 &&
      t[..3] == [t[0], Request(addr, 1, t[1].received), Transmit(addr, [], 0)] &&
      t[3..] == [t[3], Request(addr, 1, t[4].received), Transmit(addr, [], 0)] &&
      x == ToleranceValue(t[1].received[0], t[4].received[0])
  {
    var intReg := Instruction(Tolerance(rdac, IntegerPart));
    var fracReg := Instruction(Tolerance(rdac, FractionPart));
    assert intReg == ToleranceBase | (rdac << 1);
    assert fracReg == ToleranceBase | (rdac << 1) | TolDec;
    if |t| == 6 && t[1].Request? && t[4].Request? && |t[1].received| == 1 && |t[4].received| == 1 {
      var b := t[1].received[0];
      var f := t[4].received[0];
      assert t[1].received == [b];
      assert t[4].received == [f];
      ByteSuccess(t[..3], addr, intReg, b);
      ByteSuccess(t[3..], addr, fracReg, f);
    }
  }
}
