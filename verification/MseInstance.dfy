/** The original's modulus and exclusive or meet what the handshake asks of them. */
module MseInstance {
  import opened Common
  import opened Mse

  const P_BYTES: bytes := [255, 255, 255, 255, 255, 255, 255, 255, 201, 15, 218, 162, 33, 104, 194, 52,
                           196, 198, 98, 139, 128, 220, 28, 209, 41, 2, 78, 8, 138, 103, 204, 116,
                           2, 11, 190, 166, 59, 19, 155, 34, 81, 74, 8, 121, 142, 52, 4, 221,
                           239, 149, 25, 179, 205, 58, 67, 27, 48, 43, 10, 109, 242, 95, 20, 55,
                           79, 225, 53, 109, 109, 81, 194, 69, 228, 133, 181, 118, 98, 94, 126, 198,
                           244, 76, 66, 233, 166, 58, 54, 33, 0, 0, 0, 0, 0, 9, 5, 99]

  lemma ModulusFits()
    ensures 0 < FromBytes(P_BYTES) <= Pow(256, KEY_SIZE)
  {
    FromBytesSmall(P_BYTES);
    assert P_BYTES[95] == 99;
  }

  /** The eight bits with value n. */
  function Bits(n: nat): bv8 {
    if n == 0 || n >= 256 then 0 else Bits(n - 1) + 1
  }

  function Xor(a: byte, b: byte): byte {
    (Bits(a) ^ Bits(b)) as int
  }

  lemma {:induction false} BitsValue(n: nat)
    requires n < 256
    ensures Bits(n) as int == n
  {
    if n > 0 {
      BitsValue(n - 1);
      Increment(Bits(n - 1), n - 1);
    }
  }

  lemma Increment(x: bv8, n: nat)
    requires n < 255 && x as int == n
    ensures (x + 1) as int == n + 1
  {
  }

  lemma SameValue(x: bv8, y: bv8)
    requires x as int == y as int
    ensures x == y
  {
  }

  lemma BitsOf(x: bv8)
    ensures x as int < 256 && Bits(x as int) == x
  {
    BitsValue(x as int);
    SameValue(Bits(x as int), x);
  }

  lemma XorTwice(a: byte, k: byte)
    ensures Xor(Xor(a, k), k) == a && Xor(a, k) == Xor(k, a)
  {
    BitsOf(Bits(a) ^ Bits(k));
    XorBits(Bits(a), Bits(k));
    BitsValue(a);
  }

  lemma XorBits(x: bv8, k: bv8)
    ensures (x ^ k) ^ k == x && x ^ k == k ^ x
  {
  }

  /** With any hash of 20 bytes and any key stream, the original's constants qualify. */
  lemma OriginalIsValid(sha1: bytes -> bytes, rc4: (bytes, nat) -> byte)
    requires forall s :: |sha1(s)| == SHA1_SIZE
    ensures Params(FromBytes(P_BYTES), sha1, rc4, Xor).Valid()
  {
    ModulusFits();
    forall a, k ensures Xor(Xor(a, k), k) == a && Xor(a, k) == Xor(k, a) {
      XorTwice(a, k);
    }
  }
}
