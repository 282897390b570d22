/** Bytes, fixed-width words and the two byte orders, shared by the packet modules. */
module Bytes {

  type Byte = b: int | 0 <= b < 0x100
  type U16 = x: int | 0 <= x < 0x1_0000
  type U32 = x: int | 0 <= x < 0x1_0000_0000
  type U64 = x: int | 0 <= x < 0x1_0000_0000_0000_0000

  const TWO32: int := 0x1_0000_0000
  const TWO64: int := 0x1_0000_0000_0000_0000

  function BE16(b: seq<Byte>): U16
    requires |b| == 2
  {
    b[0] as int * 0x100 + b[1] as int
  }

  function LE16(b: seq<Byte>): U16
    requires |b| == 2
  {
    b[0] as int + b[1] as int * 0x100
  }

  function BE32(b: seq<Byte>): U32
    requires |b| == 4
  {
    BE16(b[..2]) as int * 0x1_0000 + BE16(b[2..]) as int
  }

  function LE32(b: seq<Byte>): U32
    requires |b| == 4
  {
    LE16(b[..2]) as int + LE16(b[2..]) as int * 0x1_0000
  }

  function BE64(b: seq<Byte>): U64
    requires |b| == 8
  {
    BE32(b[..4]) as int * 0x1_0000_0000 + BE32(b[4..]) as int
  }

  function LE64(b: seq<Byte>): U64
    requires |b| == 8
  {
    LE32(b[..4]) as int + LE32(b[4..]) as int * 0x1_0000_0000
  }

  function PutBE16(x: U16): (b: seq<Byte>)
    ensures |b| == 2 && BE16(b) == x
  {
    [x / 0x100, x % 0x100]
  }

  function PutLE16(x: U16): (b: seq<Byte>)
    ensures |b| == 2 && LE16(b) == x
  {
    [x % 0x100, x / 0x100]
  }

  function PutBE32(x: U32): (b: seq<Byte>)
    ensures |b| == 4 && BE32(b) == x
  {
    var b := PutBE16(x / 0x1_0000) + PutBE16(x % 0x1_0000);
    assert b[..2] == PutBE16(x / 0x1_0000) && b[2..] == PutBE16(x % 0x1_0000);
    b
  }

  function PutLE32(x: U32): (b: seq<Byte>)
    ensures |b| == 4 && LE32(b) == x
  {
    var b := PutLE16(x % 0x1_0000) + PutLE16(x / 0x1_0000);
    assert b[..2] == PutLE16(x % 0x1_0000) && b[2..] == PutLE16(x / 0x1_0000);
    b
  }

  function PutBE64(x: U64): (b: seq<Byte>)
    ensures |b| == 8 && BE64(b) == x
  {
    var b := PutBE32(x / 0x1_0000_0000) + PutBE32(x % 0x1_0000_0000);
    assert b[..4] == PutBE32(x / 0x1_0000_0000) && b[4..] == PutBE32(x % 0x1_0000_0000);
    b
  }

  function PutLE64(x: U64): (b: seq<Byte>)
    ensures |b| == 8 && LE64(b) == x
  {
    var b := PutLE32(x % 0x1_0000_0000) + PutLE32(x / 0x1_0000_0000);
    assert b[..4] == PutLE32(x % 0x1_0000_0000) && b[4..] == PutLE32(x / 0x1_0000_0000);
    b
  }
}
