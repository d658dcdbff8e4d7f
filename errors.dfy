/** The closed error taxonomy shared by every driver operation, and the
    code-to-message lookup of the error-string helper library. */
module Errors {
  import opened Optional

  /** Every result an operation can record in `err_code`. Codes 1-4 are the
      values the two-wire library reports when a transmission ends; 5-10 are
      raised by the driver itself. */
  datatype Error =
    | NoError           // 0
    | DataTooLong       // 1: data too long for the transmit buffer
    | NackAddress       // 2: NACK on transmit of the address
    | NackData          // 3: NACK on transmit of data
    | OtherBusError     // 4: any other two-wire error
    | BadRegister       // 5: register index out of range
    | BadWiperSetting   // 6: wiper value out of range
    | BadReadSize       // 7: unexpected number of bytes received
    | BadDeviceAddress  // 8: device selector does not fit in two bits
    | NotImplemented    // 9: capability missing on the undifferentiated device
    | NotInitialized    // 10: operation before a successful initialize
  {
    /** The numeric value kept in `err_code` and returned to callers. */
    function Code(): (c: bv8)
      ensures c <= 10
      ensures c == 0 <==> this == NoError
      ensures 1 <= c <= 4 <==> IsBusError()
    {
      match this
      case NoError => 0
      case DataTooLong => 1
      case NackAddress => 2
      case NackData => 3
      case OtherBusError => 4
      case BadRegister => 5
      case BadWiperSetting => 6
      case BadReadSize => 7
      case BadDeviceAddress => 8
      case NotImplemented => 9
      case NotInitialized => 10
    }

    /** The errors that come from the two-wire transport rather than the driver. */
    predicate IsBusError() {
      DataTooLong? || NackAddress? || NackData? || OtherBusError?
    }
  }

  /** The error a numeric code stands for; None for a code outside the taxonomy. */
  function FromCode(c: bv8): (e: Option<Error>)
    ensures e.Some? <==> c <= 10
    ensures e.Some? ==> e.value.Code() == c
  {
    if c == 0 then Some(NoError)
    else if c == 1 then Some(DataTooLong)
    else if c == 2 then Some(NackAddress)
    else if c == 3 then Some(NackData)
    else if c == 4 then Some(OtherBusError)
    else if c == 5 then Some(BadRegister)
    else if c == 6 then Some(BadWiperSetting)
    else if c == 7 then Some(BadReadSize)
    else if c == 8 then Some(BadDeviceAddress)
    else if c == 9 then Some(NotImplemented)
    else if c == 10 then Some(NotInitialized)
    else None
  }

  /** Decoding a code recovers the error it was produced from. */
  lemma CodeRoundTrip(e: Error)
    ensures FromCode(e.Code()) == Some(e)
  {
  }

  /** The eleven codes are pairwise distinct. */
  lemma {:induction false} CodeInjective(e1: Error, e2: Error)
    ensures e1.Code() == e2.Code() ==> e1 == e2
  {
    CodeRoundTrip(e1);
    CodeRoundTrip(e2);
  }

  const UnknownError: string := "Unknown error."

  /** The human-readable text of each error, from the error-string header:
      a sentence, and never the fallback text. */
  function Message(e: Error): (m: string)
    ensures |m| > 0 && m[|m| - 1] == '.'
    ensures m != UnknownError
  {
    match e
    case NoError => "No error."
    case DataTooLong => "Data too long to fit in transmit buffer."
    case NackAddress => "Received NACK on transmit of address."
    case NackData => "Received NACK on transmit of data."
    case OtherBusError => "Other I2C error."
    case BadRegister => "Invalid register passed to function."
    case BadWiperSetting => "Invalid wiper setting."
    case BadReadSize => "Invalid number of bytes read from register."
    case BadDeviceAddress => "Bad device address - device address must be in [0, 3]."
    case NotImplemented => "Function not implemented on interface."
    case NotInitialized => "Communication has not been initialized."
  }

  /** The string lookup of the error-string library: total over every byte,
      with the fallback text exactly for the codes outside the taxonomy. */
  function ErrorString(code: bv8): (s: string)
    ensures s == UnknownError <==> code > 10
    ensures code <= 10 ==> s == Message(FromCode(code).value)
  {
    match FromCode(code)
    case Some(e) => Message(e)
    case None => UnknownError
  }

  /** Every message has its own length, which is what keeps them apart. */
  lemma MessageLength(e: Error)
    ensures |Message(e)| == match e
      case NoError => 9
      case DataTooLong => 40
      case NackAddress => 37
      case NackData => 34
      case OtherBusError => 16
      case BadRegister => 36
      case BadWiperSetting => 22
      case BadReadSize => 43
      case BadDeviceAddress => 54
      case NotImplemented => 38
      case NotInitialized => 39
  {
  }

  /** Distinct errors have distinct messages. */
  lemma {:induction false} MessageInjective(e1: Error, e2: Error)
    ensures Message(e1) == Message(e2) ==> e1 == e2
  {
    MessageLength(e1);
    MessageLength(e2);
  }

  /** The eleven known codes map to pairwise-distinct strings (and, by the
      contract of ErrorString, none of them to the fallback text). */
  lemma {:induction false} ErrorStringInjective(c1: bv8, c2: bv8)
    requires c1 <= 10 && c2 <= 10
    ensures ErrorString(c1) == ErrorString(c2) ==> c1 == c2
  {
    MessageInjective(FromCode(c1).value, FromCode(c2).value);
  }
}
