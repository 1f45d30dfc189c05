/** encoding/binary: big endian numbers of a fixed width. */
module BigEndian {
  import opened Common

  /** Only the low 16 bits of n are kept. */
  function Be16(n: nat): (s: bytes)
    ensures |s| == 2
  {
    [n % 0x1_0000 / 256, n % 256]
  }

  function FromBe16(s: bytes): nat
    requires |s| == 2
  {
    (256 as int) * s[0] + s[1]
  }

  function Be32(x: nat): (s: bytes)
    ensures |s| == 4
  {
    Be16(x / 0x1_0000) + Be16(x)
  }

  function FromBe32(s: bytes): nat
    requires |s| == 4
  {
    0x1_0000 * FromBe16(s[..2]) + FromBe16(s[2..])
  }

  lemma Be32RoundTrip(x: nat)
    requires x < 0x1_0000_0000
    ensures FromBe32(Be32(x)) == x
  {
    Be16RoundTrip(x / 0x1_0000);
    Be16RoundTrip(x);
    assert Be32(x)[..2] == Be16(x / 0x1_0000) && Be32(x)[2..] == Be16(x);
  }

  lemma Be16RoundTrip(n: nat)
    ensures FromBe16(Be16(n)) == n % 0x1_0000
  {
  }

  /** The four bytes of a number, the highest first. */
  function Num(x: nat): bytes
    requires x < 0x1_0000_0000
  {
    [x / 0x100_0000, x / 0x1_0000 % 256, x / 256 % 256, x % 256]
  }

  lemma Be32Bytes(x: nat)
    requires x < 0x1_0000_0000
    ensures Be32(x) == Num(x)
  {
    hide Be16;
    var z := x / 0x1_0000;
    HighByte(x);
    HighBits(x);
    Be16Bytes(z);
    Be16Bytes(x);
  }

  lemma Be16Bytes(n: nat)
    ensures Be16(n) == [n / 256 % 256, n % 256]
    ensures n < 0x1_0000 ==> n / 256 % 256 == n / 256
  {
    LowBytes(n);
  }

  lemma HighByte(x: nat)
    ensures x / 0x1_0000 / 256 == x / 0x100_0000
  {
    var z := x / 0x1_0000;
    assert x == 0x1_0000 * z + x % 0x1_0000;
    assert z == 256 * (z / 256) + z % 256;
  }

  lemma HighBits(x: nat)
    requires x < 0x1_0000_0000
    ensures x / 0x1_0000 < 0x1_0000 && x / 0x100_0000 < 256
  {
  }

  lemma LowBytes(x: nat)
    ensures x % 0x1_0000 / 256 == x / 256 % 256
  {
    var y, z := x / 256, x / 0x1_0000;
    assert x == 256 * y + x % 256;
    assert x == 0x1_0000 * z + x % 0x1_0000;
    assert y == 256 * (y / 256) + y % 256;
  }

  lemma FromBe32Bytes(s: bytes)
    requires |s| == 4
    ensures FromBe32(s) == 0x100_0000 * (s[0] as int) + 0x1_0000 * (s[1] as int) + 0x100 * (s[2] as int) + s[3]
  {
    assert s[..2] == [s[0], s[1]] && s[2..] == [s[2], s[3]];
  }
}
