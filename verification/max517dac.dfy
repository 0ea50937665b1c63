/**
 The MAX517 driver: a controller bound to one bus address whose four operations
 each become one addressed write of a command byte and, for "set output", a data
 byte. The C++ `int` constants, the `|=` composition of the command and the
 `byte(...)` truncation of both bytes are kept as the driver writes them.
 */
module Max517Dac {
  import opened Wrappers
  import opened Bytes
  import opened Frames

  /** The sentinel `output` argument meaning "send no data byte". */
  const NO_OUTPUT: int := -1
  const CMD_RESET: nat := 0x10
  const CMD_SET_OUTPUT: nat := 0x00
  const CMD_POWER_DOWN: nat := 0x08
  const CMD_POWER_UP: nat := 0x00

  /** The address a MAX517 answers to with its address pins strapped low. */
  const DEFAULT_ADDRESS: int := 0x2C

  /** One addressed write handed to the bus: the target address and the bytes in order. */
  datatype Transaction = Transaction(address: int, bytes: seq<byte>)

  /** The driver object. Its only state is the address bound at construction; no
      operation returns a new controller, which is how the C++ `const` is kept. */
  datatype Controller = Controller(address: int := DEFAULT_ADDRESS)

  /** A call of one of the four public operations, with its arguments. */
  datatype Request =
    | Reset(powerDown: bool)              // resetOutput(powerDown)
    | Output(value: int, powerDown: bool) // setOutput(value, powerDown)
    | Sleep                               // powerDown()
    | Wake                                // powerUp()

  /** The command an operation computes: its opcode, OR-ed with the power-down flag
      when asked. The opcode's bits survive, and bit 3 ends up set exactly when it
      was set in the opcode or power-down was asked for. */
  function Command(opcode: nat, powerDown: bool): (command: nat)
    ensures forall k: nat :: k != 3 ==> Bit(command, k) == Bit(opcode, k)
    ensures Bit(command, 3) == (Bit(opcode, 3) || powerDown)
  {
    if powerDown then
      assert forall k: nat :: Bit(CMD_POWER_DOWN, k) == (k == 3) by {
        forall k: nat { BitsOfEight(k); }
      }
      BitOr(opcode, CMD_POWER_DOWN)
    else opcode
  }

  /** mSendCommand: one write to the bound address of `byte(command)`, followed by
      `byte(output)` exactly when `output` is not the sentinel. */
  function SendCommand(c: Controller, command: int, output: int): (t: Transaction)
    ensures t.address == c.address
    ensures |t.bytes| == (if output == NO_OUTPUT then 1 else 2)
    ensures t.bytes[0] == ByteOf(command)
    ensures output != NO_OUTPUT ==> t.bytes[1] == ByteOf(output)
  {
    var data := if NO_OUTPUT != output then [ByteOf(output)] else [];
    Transaction(c.address, [ByteOf(command)] + data)
  }

  /** resetOutput: the single byte 0x10, or 0x18 when power-down is asked for. */
  function ResetOutput(c: Controller, powerDown: bool := false): (t: Transaction)
    ensures t == Transaction(c.address, [if powerDown then 0x18 else 0x10])
  {
    SendCommand(c, Command(CMD_RESET, powerDown), NO_OUTPUT)
  }

  /** setOutput: 0x00, or 0x08 when power-down is asked for, then `byte(output)`;
      the sentinel `output` drops the data byte. */
  function SetOutput(c: Controller, output: int, powerDown: bool := false): (t: Transaction)
    ensures t.address == c.address
    ensures output != NO_OUTPUT ==> t.bytes == [if powerDown then 0x08 else 0x00, ByteOf(output)]
    ensures output == NO_OUTPUT ==> t.bytes == [if powerDown then 0x08 else 0x00]
  {
    SendCommand(c, Command(CMD_SET_OUTPUT, powerDown), output)
  }

  /** powerDown: the single byte 0x08. */
  function PowerDown(c: Controller): (t: Transaction)
    ensures t == Transaction(c.address, [0x08])
  {
    SendCommand(c, CMD_POWER_DOWN, NO_OUTPUT)
  }

  /** powerUp: the single byte 0x00. */
  function PowerUp(c: Controller): (t: Transaction)
    ensures t == Transaction(c.address, [0x00])
  {
    SendCommand(c, CMD_POWER_UP, NO_OUTPUT)
  }

  /** The write a request produces: the public operation it names, called on `c`. */
  function Issue(c: Controller, r: Request): (t: Transaction)
    ensures t.address == c.address
    ensures 1 <= |t.bytes| <= 2
  {
    match r
    case Reset(pd) => ResetOutput(c, pd)
    case Output(v, pd) => SetOutput(c, v, pd)
    case Sleep => PowerDown(c)
    case Wake => PowerUp(c)
  }

  /** Whether a request leaves the device in power-down mode. */
  predicate AsksPowerDown(r: Request)
  {
    match r
    case Reset(pd) => pd
    case Output(_, pd) => pd
    case Sleep => true
    case Wake => false
  }

  /** What a request means on the wire, written field by field: reset only for
      resetOutput, the power-down flag as asked, and a data byte `byte(value)` only for
      setOutput with a value other than the sentinel. */
  function Meaning(r: Request): Frame
  {
    match r
    case Reset(pd) => Frame(true, pd, None)
    case Output(v, pd) => Frame(false, pd, if v == NO_OUTPUT then None else Some(ByteOf(v)))
    case Sleep => Frame(false, true, None)
    case Wake => Frame(false, false, None)
  }

  /** Every write carries exactly the frame its request means, and parsing the write
      gives that frame back. */
  lemma IssueMeansFrame(c: Controller, r: Request)
    ensures Issue(c, r).bytes == Serialize(Meaning(r))
    ensures Parse(Issue(c, r).bytes) == Some(Meaning(r))
  {
    ParseSerialize(Meaning(r));
  }

  /** Two requests produce the same write exactly when they mean the same frame. */
  lemma IssueSameIffSameMeaning(c: Controller, r: Request, s: Request)
    ensures Issue(c, r) == Issue(c, s) <==> Meaning(r) == Meaning(s)
  {
    IssueMeansFrame(c, r);
    IssueMeansFrame(c, s);
    SerializeInjective(Meaning(r), Meaning(s));
  }

  /** The command byte's two flags: bit 3 (0x08) is set exactly when the request asks
      for power-down, bit 4 (0x10) exactly when it is a reset, and no other bit is set. */
  lemma CommandByteFlags(c: Controller, r: Request)
    ensures Bit(Issue(c, r).bytes[0], 3) == AsksPowerDown(r)
    ensures Bit(Issue(c, r).bytes[0], 4) == r.Reset?
    ensures Issue(c, r).bytes[0] == (if r.Reset? then 0x10 else 0) + (if AsksPowerDown(r) then 0x08 else 0)
  {
    IssueMeansFrame(c, r);
  }

  /** OR-ing in the power-down flag never clears the reset opcode bit. */
  lemma PowerFlagKeepsOpcode(powerDown: bool)
    ensures Bit(Command(CMD_RESET, powerDown), 4)
    ensures !Bit(Command(CMD_SET_OUTPUT, powerDown), 4)
  {
  }

  /** Every command the operations compute lies in 0..0x18, so `byte(command)` sends it
      unchanged. */
  lemma CommandsFitInByte(opcode: nat, powerDown: bool)
    requires opcode in {CMD_RESET, CMD_SET_OUTPUT, CMD_POWER_DOWN, CMD_POWER_UP}
    ensures Command(opcode, powerDown) <= 0x18
    ensures ByteOf(Command(opcode, powerDown)) == Command(opcode, powerDown)
  {
  }

  /** A second byte is written exactly for setOutput with a value other than the
      sentinel; reset, powerDown and powerUp always write one byte. */
  lemma DataByteIffValue(c: Controller, r: Request)
    ensures |Issue(c, r).bytes| == 2 <==> r.Output? && r.value != NO_OUTPUT
  {
  }

  /** The data byte is `value` modulo 256, and `value` itself when it fits in a byte. */
  lemma DataByteIsTruncatedValue(c: Controller, value: int, powerDown: bool)
    requires value != NO_OUTPUT
    ensures (SetOutput(c, value, powerDown).bytes[1] - value) % 256 == 0
    ensures 0 <= value < 256 ==> SetOutput(c, value, powerDown).bytes[1] == value
  {
  }

  /** The sentinel collides with real requests: setOutput(-1, pd) writes what
      powerDown() or powerUp() writes, while setOutput(255, pd), whose data byte is
      `byte(-1)`, writes two bytes. */
  lemma SentinelIsNotAValue(c: Controller, powerDown: bool)
    ensures SetOutput(c, NO_OUTPUT, powerDown) == (if powerDown then PowerDown(c) else PowerUp(c))
    ensures ByteOf(NO_OUTPUT) == 0xFF
    ensures SetOutput(c, 255, powerDown) != SetOutput(c, NO_OUTPUT, powerDown)
  {
  }

  /** The default arguments: the default controller is bound to 0x2C, resetOutput()
      is resetOutput(false) and setOutput(v) is setOutput(v, false). */
  lemma DefaultArguments(c: Controller, value: int)
    ensures Controller().address == 0x2C
    ensures ResetOutput(c).bytes == [0x10]
    ensures SetOutput(c, value).bytes == [0x00] + (if value == NO_OUTPUT then [] else [ByteOf(value)])
  {
  }
}
