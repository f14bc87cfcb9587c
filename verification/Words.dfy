/** Fixed-width words of the firmware: wrap-around, two's complement and little-endian bytes. */
module Words {
  const TWO_8: int := 0x100
  const TWO_15: int := 0x8000
  const TWO_16: int := 0x1_0000
  const TWO_31: int := 0x8000_0000
  const TWO_32: int := 0x1_0000_0000
  const TWO_63: int := 0x8000_0000_0000_0000
  const TWO_64: int := 0x1_0000_0000_0000_0000

  type u8 = x: int | 0 <= x < TWO_8
  type u16 = x: int | 0 <= x < TWO_16
  type u32 = x: int | 0 <= x < TWO_32
  type u64 = x: int | 0 <= x < TWO_64

  function Wrap8(x: int): u8 { x % TWO_8 }
  function Wrap16(x: int): u16 { x % TWO_16 }
  function Wrap32(x: int): u32 { x % TWO_32 }
  function Wrap64(x: int): u64 { x % TWO_64 }

  lemma WrapOfSum32(x: int, y: int)
    ensures Wrap32(Wrap32(x) + y) == Wrap32(x + y)
  {
  }

  lemma WrapOfSum64(x: int, y: int)
    ensures Wrap64(Wrap64(x) + y) == Wrap64(x + y)
  {
  }

  /** Reinterpretation of an unsigned word as a signed one, as by a C cast or memcpy. */
  function Signed16(x: u16): (r: int)
    ensures -TWO_15 <= r < TWO_15 && Wrap16(r) == x
  {
    if x < TWO_15 then x else x - TWO_16
  }

  function Signed32(x: u32): (r: int)
    ensures -TWO_31 <= r < TWO_31 && Wrap32(r) == x
  {
    if x < TWO_31 then x else x - TWO_32
  }

  function Signed64(x: u64): (r: int)
    ensures -TWO_63 <= r < TWO_63 && Wrap64(r) == x
  {
    if x < TWO_63 then x else x - TWO_64
  }

  /** Serial-number difference: exact as long as the true difference fits in 31 bits. */
  lemma SignedDifference32(a: int, b: int)
    requires -TWO_31 <= a - b < TWO_31
    ensures Signed32(Wrap32(Wrap32(a) - Wrap32(b))) == a - b
  {
  }

  lemma WrapDifference64(a: int, b: int)
    ensures Wrap64(Wrap64(a) - Wrap64(b)) == Wrap64(a - b)
  {
  }

  lemma SignedDifference64(a: int, b: int)
    requires -TWO_63 <= a - b < TWO_63
    ensures Signed64(Wrap64(Wrap64(a) - Wrap64(b))) == a - b
  {
    WrapDifference64(a, b);
    SignedOfWrap64(a - b);
    hide Wrap64, Signed64;
  }

  lemma SignedOfWrap64(x: int)
    requires -TWO_63 <= x < TWO_63
    ensures Signed64(Wrap64(x)) == x
  {
  }

  function Le16(x: u16): (s: seq<u8>)
    ensures |s| == 2
  {
    [x % 256, x / 256]
  }

  function Le32(x: u32): (s: seq<u8>)
    ensures |s| == 4
  {
    Le16(x % TWO_16) + Le16(x / TWO_16)
  }

  function FromLe16(s: seq<u8>): (x: u16)
    requires |s| == 2
    ensures Le16(x) == s
  {
    s[0] as int + 256 * (s[1] as int)
  }

  function FromLe32(s: seq<u8>): (x: u32)
    requires |s| == 4
    ensures Le32(x) == s
  {
    var lo, hi := FromLe16(s[..2]), FromLe16(s[2..]);
    Halves(lo, hi);
    lo as int + TWO_16 * (hi as int)
  }

  lemma Halves(lo: u16, hi: u16)
    ensures 0 <= lo as int + TWO_16 * (hi as int) < TWO_32
    ensures (lo as int + TWO_16 * (hi as int)) % TWO_16 == lo
    ensures (lo as int + TWO_16 * (hi as int)) / TWO_16 == hi
  {
  }

  lemma Le16RoundTrip(x: u16)
    ensures FromLe16(Le16(x)) == x
  {
  }

  lemma Le32RoundTrip(x: u32)
    ensures FromLe32(Le32(x)) == x
  {
  }
}
