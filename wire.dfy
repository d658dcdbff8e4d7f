/** The two-wire (I2C) transport the driver talks through, reduced to what
    the driver observes: a transmission ends with a status in 0..4 chosen by
    the bus, and a request receives at most the bytes asked for. Every
    completed exchange is recorded in a ghost log so that contracts can say
    exactly what was sent. */
module Wire {

  /** One completed exchange on the bus. */
  datatype Event =
      /** beginTransmission(addr), write(b) for each b in data, endTransmission() == status */
    | Transmit(addr: bv8, data: seq<bv8>, status: bv8)
      /** requestFrom(addr, length), after which `received` is available to read */
    | Request(addr: bv8, length: bv8, received: seq<bv8>)

  class Bus {
    /** Every exchange so far, oldest first. */
    ghost var log: seq<Event>
    /** begin() has been called. */
    var started: bool
    /** The transmission being assembled. */
    var txAddr: bv8
    var txData: seq<bv8>
    /** Bytes received by the last request and not read yet. */
    var rx: seq<bv8>

    constructor()
      ensures log == [] && !started && txData == [] && rx == []
    {
      log := [];
      started := false;
      txAddr := 0;
      txData := [];
      rx := [];
    }

    /** Joins the bus; no traffic. */
    method Begin()
      modifies this`started
      ensures started
    {
      started := true;
    }

    /** Starts assembling a transmission to `addr`. */
    method BeginTransmission(addr: bv8)
      modifies this`txAddr, this`txData
      ensures txAddr == addr && txData == []
    {
      txAddr := addr;
      txData := [];
    }

    /** Queues one byte of the transmission. */
    method Write(b: bv8)
      modifies this`txData
      ensures txData == old(txData) + [b]
    {
      txData := txData + [b];
    }

    /** Sends the queued transmission; the status is the bus's answer:
        0 success, 1 data too long, 2 address NACK, 3 data NACK, 4 other. */
    method EndTransmission() returns (status: bv8)
      modifies this`txData, this`log
      ensures status <= 4
      ensures log == old(log) + [Transmit(txAddr, old(txData), status)]
      ensures txData == []
    {
      status :| status <= 4;
      log := log + [Transmit(txAddr, txData, status)];
      txData := [];
    }

    /** Asks the device at `addr` for `length` bytes; returns how many arrived. */
    method RequestFrom(addr: bv8, length: bv8) returns (count: nat)
      modifies this`rx, this`log
      ensures count == |rx| <= length as int
      ensures log == old(log) + [Request(addr, length, rx)]
    {
      var got: seq<bv8> := *;
      if |got| > length as int {
        got := got[..length];
      }
      rx := got;
      count := |got|;
      log := log + [Request(addr, length, got)];
    }

    /** Number of received bytes not read yet. */
    method Available() returns (n: nat)
      ensures n == |rx|
    {
      n := |rx|;
    }

    /** Takes the next received byte; with none left the library's -1 reads as 0xFF. */
    method Read() returns (b: bv8)
      modifies this`rx
      ensures old(rx) != [] ==> b == old(rx)[0] && rx == old(rx)[1..]
      ensures old(rx) == [] ==> b == 0xFF && rx == []
    {
      if rx == [] {
        b := 0xFF;
      } else {
        b := rx[0];
        rx := rx[1..];
      }
    }
  }
}
