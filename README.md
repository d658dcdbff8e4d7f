# AD525x digital potentiometer driver, modelled in Dafny

The AD5253 and AD5254 are four-channel digital potentiometers. They sit on a
two-wire (I2C) bus at address `0x2C | sel`, where `sel` is the two-bit value
of the chip's AD1/AD0 pins. A driver handle validates each request and
encodes it as instruction bytes:

- `0x00 | wiper` selects a wiper (RDAC) register.
- `0x20 | reg` selects one of the sixteen EEMEM registers.
- `0x38 | wiper << 1 | part` selects a factory tolerance byte.
- `opcode | wiper` is a device command.

The handle then runs one or two register transactions (each a write, or a
select, request and close: up to three bus exchanges) and keeps the outcome in an
error code (0 = no error, 1-4 = bus status, 5-10 = the driver's own checks).
A helper library maps error codes to texts.

The project models two drivers, the shared register protocol and the error
strings:

- `Driver` models the current driver (`AD525x/AD525x.cpp`). It is a class
  with an explicit `initialize` and the variant-specific wiper limit (63 on
  the AD5253, 255 on the AD5254, none on the base class).
- `LegacyDriver` models the first driver (`AD525x.cpp`). Its constructor
  replaces a bad selector by 0, its wiper limit stays 0, an out-of-range RDAC or
  EEMEM read answers with the error code itself, and it has its own 8-entry error table.
- `Registers`, `Commands` and `Tolerance` are pure. They cover the address,
  instruction and command encodings with their decoders and round trips, and
  the decoding of the tolerance bytes.
- `Errors` holds the error taxonomy and the lookup of the error-string library.
- `Wire` is the two-wire bus. The bus picks every status and every received
  byte nondeterministically. A ghost log records each completed exchange, so
  each driver method can state exactly what it put on the bus.
- `Transactions` reads such a log back into what a register read reports.
  The driver methods are specified against these functions.

## Model

| member | source | states |
|---|---|---|
| `Errors.Error.Code` | AD525x/AD525x_Errors.h:7-17 | every error's code is one of 0-10; the code is 0 exactly for no error, and 1-4 exactly for the four transport errors |
| `Errors.Message` | AD525x_ErrorStrings/AD525x_ErrorStrings.h:10-20 | each error's text is a sentence ending in a full stop, and never the fallback "Unknown error." |
| `Errors.FromCode` | AD525x/AD525x_Errors.h:7-17 | the eleven codes 0-10 are exactly the ones that name an error, and each decodes to the error carrying that code |
| `Errors.CodeInjective` | AD525x/AD525x_Errors.h:7-17 | distinct errors have distinct codes |
| `Errors.ErrorString` | AD525x_ErrorStrings/AD525x_ErrorStrings.cpp:7-40 | every code 0-10 gets its own message from the error-string header; the fallback "Unknown error." is returned exactly for codes above 10 |
| `Errors.ErrorStringInjective` | AD525x_ErrorStrings/AD525x_ErrorStrings.h:10-20 | the eleven known codes map to pairwise-distinct texts |
| `Registers.DeviceAddress` | AD525x/AD525x.cpp:26-32 | the bus address built from a two-bit selector lies in 0x2C..0x2F and carries the selector in its low two bits |
| `Registers.DeviceAddressRoundTrip` | AD525x.h:11 | every address of the family is the address of the selector in its low two bits |
| `Registers.WiperLimit` | AD525x/AD525x.cpp:474-512 | the base class has no wiper limit; the AD5253 has limit 63 and the AD5254 limit 255, and no other variant has either |
| `Registers.Instruction` | AD525x.h:22-27 | wiper, EEMEM and tolerance instructions fall in 0x00-0x03, 0x20-0x2F and 0x38-0x3F; a tolerance instruction has its low bit clear exactly for the integer byte |
| `Registers.InstructionRoundTrip` | AD525x.h:22-27 | decoding the instruction byte of any well-formed register gives back that register |
| `Registers.DecodeInstructionSound` | AD525x.h:22-27 | every byte that decodes is the instruction byte of the register it decodes to |
| `Registers.InstructionInjective` | AD525x.h:22-27 | two well-formed registers with the same instruction byte are the same register |
| `Commands.Opcode` | AD525x.h:119-130 | every opcode has its top bit set and its low three bits clear, leaving room for the wiper index |
| `Commands.CommandByte` | AD525x.h:119-130 | the command byte carries the opcode in its top five bits and the wiper index (0 for all-wiper commands) in its low three, so the byte is exactly opcode OR index |
| `Commands.CommandRoundTrip` | AD525x.h:119-130 | decoding the byte of any well-formed command gives back that command |
| `Commands.DecodeCommandSound` | AD525x.h:119-130 | every byte that decodes is the byte of the command it decodes to |
| `Commands.CommandByteInjective` | AD525x.h:119-130 | two well-formed commands with the same byte are the same command |
| `Commands.CommandsApartFromRegisters` | AD525x.h:22-27 | no command byte is a register instruction |
| `Tolerance.SignedPart` | AD525x/AD525x.cpp:249-253 | the integer byte is sign-magnitude: its magnitude is the low seven bits, and bit 7 set makes it non-positive while a negative value needs bit 7 set |
| `Tolerance.ToleranceValue` | AD525x/AD525x.cpp:249-260 | the tolerance lies in -127..127+255/256, its floor is the signed integer part, and the rest is the fraction byte in 256ths |
| `Tolerance.FractionPrefixClosedForm` | AD525x/AD525x.cpp:256-260 | after n rounds the loop has added the top n fraction bits over 2^n |
| `Tolerance.FractionExact` | AD525x/AD525x.cpp:256-260 | the eight rounds of the loop add exactly f/256 |
| `Tolerance.DecodeTolerance` | AD525x/AD525x.cpp:249-260 | the decoding loop yields exactly ToleranceValue of the two bytes |
| `Tolerance.Examples` | AD525x/AD525x.cpp:249-260 | 0x05,0x80 decodes to 5.5; 0x85,0x00 to -5.0; 0x85,0x80 to -4.5 (the fraction is added even to a negative integer part) |
| `Transactions.ReadOutcome` | AD525x/AD525x.cpp:580-631 | a read that is reported starts with the select; the buffer is returned exactly when the code is 0, and then it has the requested length, was received by the request and was followed by the closing transmission; a two-event read reports EC_BAD_READ_SIZE |
| `Transactions.SelectFailed` | AD525x/AD525x.cpp:603-608 | a failed select reports its status and NULL |
| `Transactions.ShortReceive` | AD525x/AD525x.cpp:610-616 | a request answered with the wrong number of bytes reports EC_BAD_READ_SIZE and NULL |
| `Transactions.Completed` | AD525x/AD525x.cpp:618-630 | a full receive reports the status of the closing transmission, and the bytes received only when that status is 0 |
| `Transactions.ReadInto` | AD525x/AD525x.cpp:619-623 | the copy loop puts the next `length` received bytes, in order, into the buffer and consumes them |
| `Transactions.ByteOutcome` | AD525x/AD525x.cpp:633-651 | a one-byte read is reported exactly when the underlying read is and with the same code; a failure reports value 0, and a success took three exchanges |
| `Transactions.ByteSuccess` | AD525x/AD525x.cpp:633-651 | a one-byte read succeeds with v if and only if the trace is exactly: select, request answered with [v], successful close |
| `Transactions.ByteFailure` | AD525x/AD525x.cpp:633-651 | a failing one-byte read returns 0, and its code is EC_BAD_READ_SIZE or a status some transmission of the trace returned |
| `Transactions.ToleranceOutcome` | AD525x/AD525x.cpp:236-262 | a reported tolerance read spans at most six exchanges and answers 0 whenever it reports an error |
| `Transactions.ToleranceFirstFails` | AD525x/AD525x.cpp:236-240 | a failing integer-byte read ends the tolerance read with its error and 0 |
| `Transactions.ToleranceSecondRead` | AD525x/AD525x.cpp:242-260 | after a good integer byte, the tolerance read reports what the fraction-byte read reports, and the decoded value on success |
| `Transactions.ToleranceSuccess` | AD525x/AD525x.cpp:229-262 | a tolerance read succeeds with x if and only if it is two successful one-byte reads, of 0x38 + 2*rdac and then with the low bit set, and x is the decoded value of the two bytes received |
| `Driver.WriteRdacFault` | AD525x/AD525x.cpp:62-71 | write_RDAC goes on to write exactly when the handle is initialised, the wiper is 0-3, the variant has a limit and the value is within it; otherwise the first failing check names the error: EC_NOT_INITIALIZED, then EC_BAD_REGISTER for a wiper past 3, then EC_NOT_IMPLEMENTED on the base class, then EC_BAD_WIPER_SETTING for a value above the limit, each stated in both directions |
| `Driver.WriteEememFault` | AD525x/AD525x.cpp:137-147 | write_EEMEM writes exactly when initialised, on a chip variant, with a register 0-15, and, for registers 0-3, a value at or above the limit; a value below the limit for 0-3 is EC_BAD_WIPER_SETTING, and a register past 15 on a chip variant is EC_BAD_REGISTER, each stated in both directions |
| `Driver.ReadFault` | AD525x/AD525x.cpp:97-105 | a register read goes to the bus exactly when initialised with an index within the limit; otherwise EC_NOT_INITIALIZED or EC_BAD_REGISTER |
| `Driver.CommandFault` | AD525x/AD525x.cpp:281-299 | a command is sent exactly when initialised and, for a per-wiper command, the wiper is 0-3; an initialised handle given a per-wiper command with a wiper past 3 reports EC_BAD_REGISTER, and only then |
| `Driver.WiperAndBackupAgreeOnlyAtLimit` | AD525x/AD525x.cpp:62-71 | a wiper write and a write of its EEMEM backup both pass only for the value equal to the limit |
| `Driver.AD525x.ErrCode` | AD525x/AD525x.cpp:518-528 | the stored error code is always one of the eleven known codes |
| `Driver.AD525x.Initialize` | AD525x/AD525x.cpp:9-38 | a selector above 3 leaves the handle uninitialised with EC_BAD_DEVICE_ADDR and the bus untouched; otherwise the handle takes address 0x2C + sel, joins the bus and returns 0, and nothing is sent |
| `Driver.AD525x.MaxVal` | AD525x/AD525x.cpp:474-512 | the chip variants answer 63 or 255; the base answers 0 and records EC_NOT_IMPLEMENTED |
| `Driver.AD525x.WriteRdac` | AD525x/AD525x.cpp:40-76 | a failed check returns its code and sends nothing; otherwise exactly [0x00 + rdac, value] is sent and the bus status is returned and kept |
| `Driver.AD525x.ReadRdac` | AD525x/AD525x.cpp:78-115 | a failed check returns 0 with its code and sends nothing; otherwise one one-byte read of register 0x00 + rdac whose outcome is the returned value and the kept code |
| `Driver.AD525x.WriteEemem` | AD525x/AD525x.cpp:117-153 | a failed check returns its code and sends nothing; otherwise exactly [0x20 + reg, value] is sent and the bus status is returned and kept |
| `Driver.AD525x.ReadEemem` | AD525x/AD525x.cpp:155-194 | as ReadRdac, for register 0x20 + reg with indices 0-15 |
| `Driver.AD525x.ReadTolerance` | AD525x/AD525x.cpp:196-263 | a failed check returns 0 and sends nothing; otherwise the exchanges on the bus read back through ToleranceOutcome as the kept code and the returned tolerance |
| `Driver.AD525x.Issue` | AD525x/AD525x.cpp:281-299 | the shared shape of the command methods: a failed check sends nothing; otherwise exactly the command byte is sent and its status kept |
| `Driver.AD525x.ResetDevice` | AD525x/AD525x.cpp:269-279 | sends CMD_NOP (0x80) once initialised |
| `Driver.AD525x.RestoreRdac` | AD525x/AD525x.cpp:281-299 | sends 0x88 + rdac for a wiper 0-3 |
| `Driver.AD525x.RestoreAllRdac` | AD525x/AD525x.cpp:301-311 | sends 0xB8 |
| `Driver.AD525x.StoreRdac` | AD525x/AD525x.cpp:313-330 | sends 0x90 + rdac for a wiper 0-3 |
| `Driver.AD525x.DecrementRdac` | AD525x/AD525x.cpp:332-350 | sends 0xA8 + rdac for a wiper 0-3 |
| `Driver.AD525x.IncrementRdac` | AD525x/AD525x.cpp:352-370 | sends 0xD0 + rdac for a wiper 0-3 |
| `Driver.AD525x.DecrementRdac6dB` | AD525x/AD525x.cpp:372-390 | sends 0x98 + rdac for a wiper 0-3 |
| `Driver.AD525x.IncrementRdac6dB` | AD525x/AD525x.cpp:392-410 | sends 0xC0 + rdac for a wiper 0-3 |
| `Driver.AD525x.DecrementAllRdac` | AD525x/AD525x.cpp:412-424 | sends 0xB0 |
| `Driver.AD525x.IncrementAllRdac` | AD525x/AD525x.cpp:426-438 | sends 0xD8 |
| `Driver.AD525x.DecrementAllRdac6dB` | AD525x/AD525x.cpp:440-453 | sends 0xA0 |
| `Driver.AD525x.IncrementAllRdac6dB` | AD525x/AD525x.cpp:455-468 | sends 0xC8 |
| `Driver.AD525x.WriteCmd` | AD525x/AD525x.cpp:533-554 | exactly one transmission carrying the command byte alone; its status (0-4) is returned and kept |
| `Driver.AD525x.WriteData` | AD525x/AD525x.cpp:556-578 | exactly one transmission carrying [register, data]; its status is returned and kept |
| `Driver.AD525x.ReadData` | AD525x/AD525x.cpp:580-631 | the exchanges on the bus read back through ReadOutcome as the kept code and the returned buffer (None for NULL) |
| `Driver.AD525x.Receive` | AD525x/AD525x.cpp:610-630 | a short receive gives EC_BAD_READ_SIZE and NULL after the request alone; a full one copies exactly the received bytes and the closing status decides between them and NULL |
| `Driver.AD525x.ReadDataByte` | AD525x/AD525x.cpp:633-651 | the exchanges on the bus read back through ByteOutcome as the kept code and the returned byte |
| `LegacyDriver.LegacyErrorString` | AD525x.cpp:259-284 | the first table knows codes 0-7 and answers "Unknown error." exactly above 7 |
| `LegacyDriver.LegacyAgreesWithLookup` | AD525x.cpp:259-284 | the old and new tables agree exactly on codes other than 5 that are at most 7 or above 10 |
| `LegacyDriver.LegacyWriteRdacFault` | AD525x.cpp:31-39 | the old write_RDAC writes exactly for a wiper 0-3 and a value within the limit; otherwise EC_BAD_REGISTER, then EC_BAD_WIPER_SETTING |
| `LegacyDriver.LegacyWriteEememFault` | AD525x.cpp:68-89 | the old write_EEMEM writes exactly for a register 0-15 whose value, for registers 0-3, is at or above the limit; the wiper check comes first, and EC_BAD_REGISTER is reported exactly for a register past 15 |
| `LegacyDriver.ZeroLimitConsequences` | AD525x.cpp:16 | with the limit left at 0, write_RDAC passes only the value 0, and write_EEMEM fails only on a register past 15 |
| `LegacyDriver.LegacyAD525x.constructor` | AD525x.cpp:8-20 | a selector above 3 is replaced by 0; the handle takes address 0x2C + sel, limit 0, error 0, and joins the bus |
| `LegacyDriver.LegacyAD525x.ErrCode` | AD525x.cpp:161-166 | the stored code is at most EC_BAD_READ_SIZE |
| `LegacyDriver.LegacyAD525x.ErrorText` | AD525x.cpp:168-173 | the text of the stored code is never the fallback, and it is the shared library's text exactly when the code is not EC_BAD_REGISTER |
| `LegacyDriver.LegacyAD525x.WriteRdac` | AD525x.cpp:22-44 | a failed check returns its code and sends nothing; otherwise exactly [0x00 + rdac, value] is sent and its status kept |
| `LegacyDriver.LegacyAD525x.ReadRdac` | AD525x.cpp:46-66 | a wiper past 3 records EC_BAD_REGISTER and returns 5; otherwise one one-byte read of 0x00 + rdac |
| `LegacyDriver.LegacyAD525x.WriteEemem` | AD525x.cpp:68-89 | a failed check returns its code and sends nothing; otherwise exactly [0x20 + reg, value] is sent and its status kept |
| `LegacyDriver.LegacyAD525x.ReadEemem` | AD525x.cpp:91-111 | a register past 15 records EC_BAD_REGISTER and returns 5; otherwise one one-byte read of 0x20 + reg |
| `LegacyDriver.LegacyAD525x.ReadTolerance` | AD525x.cpp:113-159 | with no initialisation check: a wiper past 3 gives EC_BAD_REGISTER and 0; otherwise the exchanges read back through ToleranceOutcome |
| `LegacyDriver.LegacyAD525x.WriteData` | AD525x.cpp:190-203 | exactly one transmission carrying [register, data]; its status is returned and kept |
| `LegacyDriver.LegacyAD525x.ReadData` | AD525x.cpp:205-242 | the exchanges read back through ReadOutcome as the kept code and the returned buffer |
| `LegacyDriver.LegacyAD525x.Receive` | AD525x.cpp:221-241 | as the later driver's Receive |
| `LegacyDriver.LegacyAD525x.ReadDataByte` | AD525x.cpp:244-257 | the exchanges read back through ByteOutcome as the kept code and the returned byte |

## Left out

- The Arduino `Wire` library is not part of this model. `Wire.Bus` stands in
  for it: each status (0-4) and each received byte string (at most the length
  asked for) is a nondeterministic choice. The return value of `Wire.write`
  is ignored, as the drivers ignore it.
- `read_data` returns the address of a stack buffer that no longer exists after
  the call. The model returns the buffer's contents as a value. It also does
  not model the case where the buffer is left unfilled: the bus model always
  makes `available()` equal the count just received.
- `read_tolerance` computes in single-precision floating point. The model uses
  exact reals. Every value it produces (a 7-bit integer plus a multiple of
  1/256) is exact in a float, except that a negative zero is not
  distinguished from 0.
- What the commands do to the chip (wiper steps, EEMEM stores and restores)
  happens in hardware. The model states only the byte sent.
- Virtual dispatch of `get_max_val` is modelled by the `Variant` field of the
  handle. In the first driver, the subclasses declare a `max_val` constant
  that shadows the base field. The base-class methods read the field, which
  stays 0. `LegacyDriver.LegacyAD525x` models that field.
- The header of the current driver (`AD525x/AD525x.h`) is not part of this
  model. Its constants (base address, limits, register bases, opcodes) are
  taken from the top-level header and the doc comments.
- `Driver.AD525x.constructor`: the current driver's constructor is in that
  missing header, so its initial state is assumed: not initialised, error
  code 0. No source line states it.
- `Errors.ErrorString`: `AD525xGetErrorString` switches on `get_err_code()`, a
  name not declared in that file, rather than on its parameter. The model
  switches on the parameter. The header also declares the function under
  another name (`AD525xErrorStringHandler`). Neither build problem is
  modelled.
- `LegacyDriver`: the first driver's `write_cmd` (AD525x.cpp:178-188) is not
  modelled, because nothing in that driver calls it. Its header declares
  methods that the file never defines (the command methods,
  `get_max_val`); those are absent there and so are not modelled.
- Integer widths: every quantity the drivers keep is `uint8_t` and is modelled
  as `bv8`. `Wire.requestFrom`'s count is at most the length asked for, so it
  never wraps.
