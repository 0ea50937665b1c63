/**
 The byte-level vocabulary of the driver: the wire byte, the C++ `byte(...)`
 conversion applied before every write, and bitwise OR on the non-negative `int`
 command values. Bits are numbered from 0 (least significant).
 */
module Bytes {

  /** One byte on the bus, as its unsigned value. */
  type byte = x: int | 0 <= x < 256

  /** Bit `k` of the non-negative integer `x`. */
  function Bit(x: nat, k: nat): bool
  {
    if k == 0 then x % 2 == 1 else Bit(x / 2, k - 1)
  }

  /** Zero has no bit set. */
  lemma {:induction false} NoBitOfZero(k: nat)
    ensures !Bit(0, k)
  {
    if k > 0 {
      NoBitOfZero(k - 1);
    }
  }

  /** 0x08 has bit 3 set and no other. */
  lemma BitsOfEight(k: nat)
    ensures Bit(0x08, k) == (k == 3)
  {
    if k > 3 {
      assert Bit(0x08, k) == Bit(0x04, k - 1) == Bit(0x02, k - 2) == Bit(0x01, k - 3) == Bit(0, k - 4);
      NoBitOfZero(k - 4);
    }
  }

  /** The Arduino `byte(x)` conversion (an `uint8_t` cast): the unique byte whose value
      is congruent to `x` modulo 256. */
  function ByteOf(x: int): (b: byte)
    ensures (x - b) % 256 == 0
  {
    x % 256
  }

  /** On a value that already fits in a byte the conversion changes nothing. */
  lemma ByteOfInRange(x: int)
    requires 0 <= x < 256
    ensures ByteOf(x) == x
  {
  }

  /** Two ints convert to the same byte exactly when they are congruent modulo 256;
      in particular adding a multiple of 256 never changes the byte. */
  lemma ByteOfModulo(x: int, y: int)
    ensures ByteOf(x) == ByteOf(y) <==> (x - y) % 256 == 0
  {
  }

  /** C++ `a | b` on non-negative ints: bit `k` of the result is set exactly when bit `k`
      of `a` or bit `k` of `b` is set. */
  function BitOr(a: nat, b: nat): (r: nat)
    ensures forall k: nat :: Bit(r, k) == (Bit(a, k) || Bit(b, k))
    decreases a + b
  {
    if a == 0 && b == 0 then 0
    else
      var low := if a % 2 == 1 || b % 2 == 1 then 1 else 0;
      var r := 2 * BitOr(a / 2, b / 2) + low;
      assert forall k: nat :: k > 0 ==> Bit(r, k) == Bit(BitOr(a / 2, b / 2), k - 1);
      r
  }
}
