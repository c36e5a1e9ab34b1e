/** The byte type, and little-endian words. */
module Bytes {
  type byte = x: int | 0 <= x < 256

  function Min(a: nat, b: nat): nat {
    if a < b then a else b
  }

  const WORD32: nat := 4294967296

  function WordAt(d: seq<byte>, off: nat): (w: nat)
    requires off + 4 <= |d|
    ensures w < WORD32
  {
    d[off] as int + 256 * (d[off + 1] as int) + 65536 * (d[off + 2] as int) + 16777216 * (d[off + 3] as int)
  }

  function BytesOf(w: nat): (b: seq<byte>)
    requires w < WORD32
    ensures |b| == 4
  {
    [w % 256, w / 256 % 256, w / 65536 % 256, w / 16777216]
  }
}
