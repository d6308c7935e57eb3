/** Bytes and big-endian numbers, shared by the image readers and writers. */
module Bytes {

  type Byte = bv8

  datatype Dimensions = Dimensions(widthPx: nat, heightPx: nat)

  datatype Option<T> = None | Some(value: T)

  function Value(b: Byte): (v: nat)
    ensures v < 256
  {
    b as int
  }

  lemma NextByte(b: Byte)
    requires b != 255
    ensures Value(b + 1) == Value(b) + 1
  {
  }

  lemma LastByte(b: Byte)
    requires Value(b) < 255
    ensures b != 255
  {
  }

  lemma ByteOfValue(b: Byte)
    ensures Value(b) as Byte == b
  {
  }

  /** Every number below 256 is the value of a byte. */
  lemma {:induction false} SomeByte(v: nat) returns (b: Byte)
    requires v < 256
    ensures Value(b) == v
  {
    if v == 0 {
      b := 0;
    } else {
      var c := SomeByte(v - 1);
      LastByte(c);
      hide Value;
      NextByte(c);
      b := c + 1;
    }
  }

  lemma ValueOfByte(v: nat)
    requires v < 256
    ensures Value(v as Byte) == v
  {
    var b := SomeByte(v);
    ByteOfValue(b);
    hide Value;
  }

  function ByteOf(v: nat): (b: Byte)
    requires v < 256
    ensures Value(b) == v
  {
    ValueOfByte(v);
    v as Byte
  }

  function U16(a: Byte, b: Byte): (v: nat)
    ensures v < 0x1_0000
  {
    Value(a) * 256 + Value(b)
  }

  function U32(a: Byte, b: Byte, c: Byte, d: Byte): (v: nat)
    ensures v < 0x1_0000_0000
  {
    U16(a, b) * 0x1_0000 + U16(c, d)
  }
}
