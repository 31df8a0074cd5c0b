/** Fixed-width machine words as they appear in memory: bytes and 16-bit signed
    integers, with the conversions C performs when it narrows or stores them. */
module Words {

  type Byte = b: int | 0 <= b < 0x100

  type Int16 = x: int | -0x8000 <= x < 0x8000

  /** The (int16_t) cast: wraps modulo 2^16. */
  function ToInt16(x: int): Int16 {
    var u := x % 0x10000;
    if u < 0x8000 then u else u - 0x10000
  }

  /** The low and high byte of an int16_t stored little-endian. */
  function LowByte(x: int): Byte {
    x % 0x10000 % 0x100
  }

  function HighByte(x: int): Byte {
    x % 0x10000 / 0x100
  }

  function FromBytes(low: Byte, high: Byte): Int16 {
    ToInt16(low + 0x100 * high)
  }

  lemma BytesRoundTrip(x: Int16)
    ensures FromBytes(LowByte(x), HighByte(x)) == x
  {
    var u := x % 0x10000;
    assert u == 0x100 * (u / 0x100) + u % 0x100;
  }

  lemma BytesOfWord(low: Byte, high: Byte)
    ensures LowByte(FromBytes(low, high)) == low
    ensures HighByte(FromBytes(low, high)) == high
  {
    var w := low + 0x100 * high;
    assert w % 0x10000 == w;
    assert ToInt16(w) % 0x10000 == w;
    assert w % 0x100 == low && w / 0x100 == high;
  }
}
