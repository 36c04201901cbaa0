/** Bytes, and the fixed-width integers read from them. */
module Binary {
  type Byte = b: int | 0 <= b < 256

  type Bytes = seq<Byte>

  function At(bytes: Bytes, offset: nat): (n: nat)
    requires offset < |bytes|
    ensures n < 0x100
  {
    bytes[offset]
  }

  function U16(bytes: Bytes, offset: nat, little: bool): (n: nat)
    requires offset + 2 <= |bytes|
    ensures n < 0x1_0000
  {
    if little then At(bytes, offset) + At(bytes, offset + 1) * 0x100
    else At(bytes, offset) * 0x100 + At(bytes, offset + 1)
  }

  function U32(bytes: Bytes, offset: nat, little: bool): (n: nat)
    requires offset + 4 <= |bytes|
    ensures n < 0x1_0000_0000
  {
    if little then U16(bytes, offset, true) + U16(bytes, offset + 2, true) * 0x1_0000
    else U16(bytes, offset, false) * 0x1_0000 + U16(bytes, offset + 2, false)
  }

  function U64(bytes: Bytes, offset: nat, little: bool): (n: nat)
    requires offset + 8 <= |bytes|
    ensures n < 0x1_0000_0000_0000_0000
  {
    if little then U32(bytes, offset, true) + U32(bytes, offset + 4, true) * 0x1_0000_0000
    else U32(bytes, offset, false) * 0x1_0000_0000 + U32(bytes, offset + 4, false)
  }

  /** The 32 bits as a signed integer in two's complement. */
  function I32(bytes: Bytes, offset: nat, little: bool): (n: int)
    requires offset + 4 <= |bytes|
    ensures -0x8000_0000 <= n < 0x8000_0000
  {
    var n := U32(bytes, offset, little);
    if n < 0x8000_0000 then n else n - 0x1_0000_0000
  }

  predicate HasAt(bytes: Bytes, offset: nat, pattern: Bytes) {
    offset + |pattern| <= |bytes| && bytes[offset..offset + |pattern|] == pattern
  }
}
