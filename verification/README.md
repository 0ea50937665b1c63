# MAX517 DAC command encoder

A model of the `Max517Dac` Arduino driver for the MAX517 8-bit single-channel DAC.
The driver turns each of its four public operations into one addressed write on the
two-wire bus:

- `resetOutput(powerDown = false)`: the command byte 0x10, OR-ed with 0x08 when
  power-down is asked for.
- `setOutput(value, powerDown = false)`: the command byte 0x00, OR-ed with 0x08 when
  power-down is asked for, followed by the data byte `byte(value)` unless `value` is -1.
- `powerDown()`: the command byte 0x08.
- `powerUp()`: the command byte 0x00.

All four go through the private `mSendCommand(command, output)`. It opens a write to the
bound address and sends `byte(command)`. It then sends `byte(output)` unless `output` is
the sentinel `NO_OUTPUT = -1`. The controller is bound to one address at construction
(default 0x2C) and its operations are `const`.

Modules:

- `Bytes` (`bytes.dfy`): the wire byte (`byte`, 0..255), the bit view `Bit(x, k)`, the
  C++ `byte(...)` conversion `ByteOf` (reduction modulo 256), and C++ `|` on
  non-negative ints (`BitOr`), characterised bit by bit.
- `Frames` (`frames.dfy`): the frame layout the driver means to send in one write. A
  `Frame` holds a reset flag, a power-down flag and an optional data byte. `Serialize`
  writes a frame as bytes and `Parse` decodes that layout, rejecting a command byte
  with any other bit set; the two are proved inverse.
- `Max517Dac` (`max517dac.dfy`): the constants, `Controller`, `Transaction`, the four
  operations, `SendCommand` (the shared `mSendCommand`), and `Issue`, which dispatches a
  `Request`. `Meaning` is an independent statement of what each request should put on
  the wire, and the lemmas tie every write to it.
- `Session` (`session.dfy`): `Transmit` issues a sequence of requests on one controller
  and returns the trace of writes. Every write in the trace goes to the construction
  address.

The C++ `const` on the operations is modelled by their shape. `Controller` is an
immutable datatype, and no operation returns a controller, so no call can change the
address. Calling the same operation twice (say `powerUp()` twice) gives two identical
writes, because `Issue` is a function of the controller and the request.

Two facts about the code shape the model:

- `setOutput` takes an `int`; -1 is the sentinel `NO_OUTPUT` and sends no data byte, so
  `setOutput(-1, pd)` writes what `powerDown()` (pd true) or `powerUp()` (pd false)
  writes (`SentinelIsNotAValue`). Other values outside 0..255 are reduced modulo 256.
- Every operation returns `void`; the status of `endTransmission()` is discarded.

## Model

| member | source | states |
|---|---|---|
| `Bytes.ByteOf` | Max517Dac.cpp:58-62 | `byte(x)` yields the one byte congruent to `x` modulo 256 |
| `Bytes.ByteOfInRange` | Max517Dac.cpp:62 | `byte(x)` leaves a value in 0..255 unchanged |
| `Bytes.ByteOfModulo` | Max517Dac.cpp:62 | two ints give the same byte if and only if they differ by a multiple of 256 |
| `Bytes.BitOr` | Max517Dac.cpp:23 | `a \| b` has bit k set if and only if `a` or `b` has bit k set, for every k |
| `Max517Dac.Command` | Max517Dac.cpp:19-37 | `command \|= CMD_POWER_DOWN` under `if (powerDown)`, in both `resetOutput` (lines 19-24) and `setOutput` (lines 32-37), keeps every opcode bit other than bit 3; bit 3 is set if and only if the opcode had it or power-down was asked for |
| `Max517Dac.SendCommand` | Max517Dac.cpp:55-66 | one write to the bound address: `byte(command)` first, then `byte(output)` if and only if `output` is not `NO_OUTPUT` |
| `Max517Dac.ResetOutput` | Max517Dac.cpp:16-27 | `resetOutput(false)` writes exactly [0x10] and `resetOutput(true)` exactly [0x18], to the bound address |
| `Max517Dac.SetOutput` | Max517Dac.cpp:29-40 | `setOutput(v, false)` writes [0x00, byte(v)] and `setOutput(v, true)` writes [0x08, byte(v)] when v is not -1; for v = -1 only the command byte is written |
| `Max517Dac.PowerDown` | Max517Dac.cpp:42-46 | `powerDown()` writes exactly [0x08] to the bound address |
| `Max517Dac.PowerUp` | Max517Dac.cpp:48-52 | `powerUp()` writes exactly [0x00] to the bound address |
| `Max517Dac.Issue` | Max517Dac.cpp:16-52 | every operation makes one write to the bound address, of one or two bytes |
| `Max517Dac.IssueMeansFrame` | Max517Dac.cpp:16-66 | each operation's bytes are exactly the frame it means (reset flag, power-down flag, data byte only for a non-sentinel `setOutput`), and parsing those bytes gives that frame back |
| `Max517Dac.IssueSameIffSameMeaning` | Max517Dac.cpp:16-66 | two calls write the same bytes if and only if they mean the same frame |
| `Max517Dac.CommandByteFlags` | Max517Dac.cpp:32-37 | in the command byte, bit 3 (0x08) is set if and only if the call asks for power-down, bit 4 (0x10) if and only if it is a reset, and no other bit is set |
| `Max517Dac.PowerFlagKeepsOpcode` | Max517Dac.cpp:19-24 | OR-ing in the power-down flag never clears the reset bit, and never sets it for set-output |
| `Max517Dac.CommandsFitInByte` | Max517Dac.cpp:5-8 | every command built from the constants is at most 0x18, so `byte(command)` sends it unchanged |
| `Max517Dac.DataByteIffValue` | Max517Dac.cpp:60-63 | a second byte is written if and only if the call is `setOutput` with a value other than -1; reset, powerDown and powerUp always write one byte |
| `Max517Dac.DataByteIsTruncatedValue` | Max517Dac.cpp:62 | the data byte is the value modulo 256, and the value itself when it lies in 0..255 |
| `Max517Dac.SentinelIsNotAValue` | Max517Dac.cpp:60-63 | `setOutput(-1, pd)` writes what `powerDown()` (pd true) or `powerUp()` (pd false) writes, and differs from `setOutput(255, pd)` although `byte(-1)` is 255 |
| `Max517Dac.DefaultArguments` | Max517Dac.h:10-15 | the default controller is bound to 0x2C; `resetOutput()` writes [0x10]; `setOutput(v)` writes [0x00, byte(v)] for v ≠ -1 and [0x00] for v = -1 |
| `Session.Transmit` | Max517Dac.h:14-20 | any number of calls on one controller give one write per call, in order, each the write of that call, all addressed to the construction address |
| `Session.SetSleepWake` | Max517Dac.cpp:29-52 | on the default controller, `setOutput(200)`, `powerDown()`, `powerUp()` write [0x00, 200], [0x08], [0x00], all to 0x2C |

## Left out

- The transport calls `Wire.begin`, `Wire.beginTransmission`, `Wire.write` and `Wire.endTransmission` are foreign I/O. Each write is modelled as a `Transaction` record of address and bytes.
- The status returned by `Wire.endTransmission()` is not modelled, because the code discards it and every operation returns `void`.
- The width of the C++ `int` (16 bits on AVR boards, 32 on ARM) is not modelled; ints are unbounded. With a 16-bit `int`, an argument wider than `int` is first converted to `int`, so any argument congruent to -1 modulo 65536 (such as `setOutput(65535)`) becomes the sentinel and sends the command byte only, whereas the model (like a 32-bit `int`) sends [0x00, 0xFF] for it.
- Any truncation of the address inside the Wire library is not modelled; the Wire library is not part of this model.
- Bytes.BitOr: models C++ `|` only on non-negative ints, because the driver only ORs its non-negative command constants.
- What the device does with a write (output voltage, floating output in power-down, restoring the last value on power-up) happens in hardware, outside the driver.
- Concurrent use of the bus by several controllers is not modelled; the driver does no locking.
