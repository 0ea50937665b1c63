/**
 The frame layout the driver means to send in one addressed write: a command byte
 carrying two independent flags (the reset bit, bit 4, value 0x10; the power-down
 bit, bit 3, value 0x08) with every other bit clear and, optionally, one data byte
 holding the new output code. `Parse` is a decoder of this layout only; it rejects
 command bytes with other bits set, which the chip itself may ignore.
 */
module Frames {
  import opened Wrappers
  import opened Bytes

  const RESET_BIT: byte := 0x10
  const POWER_DOWN_BIT: byte := 0x08

  /** The content of one write, field by field. */
  datatype Frame = Frame(reset: bool, powerDown: bool, data: Option<byte>)

  /** The command byte carrying the two flags, all other bits clear. */
  function CommandByte(reset: bool, powerDown: bool): (b: byte)
    ensures Bit(b, 4) == reset && Bit(b, 3) == powerDown
    ensures forall k: nat :: k < 3 ==> !Bit(b, k)
    ensures b < 0x20
  {
    if reset then (if powerDown then 0x18 else RESET_BIT)
    else (if powerDown then POWER_DOWN_BIT else 0)
  }

  /** The bytes of a frame in wire order: the command byte, then the data byte if any. */
  function Serialize(f: Frame): (bs: seq<byte>)
    ensures |bs| == if f.data.Some? then 2 else 1
    ensures bs[0] == CommandByte(f.reset, f.powerDown)
    ensures f.data.Some? ==> bs[1] == f.data.value
  {
    [CommandByte(f.reset, f.powerDown)] + (if f.data.Some? then [f.data.value] else [])
  }

  /** Reads a write back into a frame; `None` for an empty write, a write of more than
      two bytes, or a command byte with a bit outside the two flags set. */
  function Parse(bs: seq<byte>): (r: Option<Frame>)
    ensures r.Some? ==> 1 <= |bs| <= 2
  {
    if |bs| == 0 || |bs| > 2 || bs[0] % 0x08 != 0 || bs[0] >= 0x20 then None
    else
      var data := if |bs| == 2 then Some(bs[1]) else None;
      Some(Frame(bs[0] >= RESET_BIT, bs[0] % RESET_BIT >= POWER_DOWN_BIT, data))
  }

  /** Parsing the bytes of a frame gives the frame back. */
  lemma ParseSerialize(f: Frame)
    ensures Parse(Serialize(f)) == Some(f)
  {
  }

  /** Whatever parses was the serialization of what it parsed to. */
  lemma SerializeParse(bs: seq<byte>)
    requires Parse(bs).Some?
    ensures Serialize(Parse(bs).value) == bs
  {
  }

  /** Two frames are sent as the same bytes only when they are the same frame. */
  lemma SerializeInjective(f: Frame, g: Frame)
    ensures Serialize(f) == Serialize(g) <==> f == g
  {
    ParseSerialize(f);
    ParseSerialize(g);
  }
}
