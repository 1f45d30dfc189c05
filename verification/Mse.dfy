/** internal/mse/mse.go: the Message Stream Encryption handshake. SHA-1 and the RC4 key
    stream are parameters; private keys, pads and how the transport splits the first read
    are inputs. Each handshake is cut at the points where it blocks on the peer. */
module Mse {
  import opened Common

  // ---- numbers on the wire

  function Pow(b: nat, e: nat): (r: nat)
    ensures b > 0 ==> r > 0
  {
    if e == 0 then 1 else b * Pow(b, e - 1)
  }

  /** big.Int.SetBytes */
  function FromBytes(s: bytes): nat {
    if s == [] then 0 else 256 * FromBytes(s[..|s| - 1]) + s[|s| - 1]
  }

  /** big.Int.Bytes: big endian without leading zeros. */
  function ToBytes(n: nat): bytes {
    if n == 0 then [] else ToBytes(n / 256) + [n % 256]
  }

  function Zeros(n: nat): (s: bytes)
    ensures |s| == n && forall i :: 0 <= i < n ==> s[i] == 0
  {
    seq(n, _ => 0)
  }

  const KEY_SIZE := 96

  function BytesWithPad(n: nat): bytes {
    var b := ToBytes(n);
    if |b| < KEY_SIZE then Zeros(KEY_SIZE - |b|) + b else b
  }

  lemma {:induction false} FromToBytes(n: nat)
    ensures FromBytes(ToBytes(n)) == n
  {
    if n > 0 {
      FromToBytes(n / 256);
      var s := ToBytes(n);
      assert s[..|s| - 1] == ToBytes(n / 256);
    }
  }

  lemma {:induction false} ToBytesShort(n: nat, k: nat)
    requires n < Pow(256, k)
    ensures |ToBytes(n)| <= k
  {
    if n > 0 {
      assert k > 0;
      ToBytesShort(n / 256, k - 1);
    }
  }

  lemma {:induction false} LeadingZeros(k: nat, s: bytes)
    ensures FromBytes(Zeros(k) + s) == FromBytes(s)
  {
    var t := Zeros(k) + s;
    if s != [] {
      assert t[..|t| - 1] == Zeros(k) + s[..|s| - 1];
      LeadingZeros(k, s[..|s| - 1]);
    } else if k > 0 {
      assert t[..|t| - 1] == Zeros(k - 1) + s;
      LeadingZeros(k - 1, s);
    }
  }

  lemma {:induction false} FromBytesSmall(s: bytes)
    ensures FromBytes(s) < Pow(256, |s|)
  {
    if s != [] {
      FromBytesSmall(s[..|s| - 1]);
    }
  }

  /** The first byte is the highest. */
  lemma {:induction false} FirstIsHighest(b: byte, s: bytes)
    ensures FromBytes([b] + s) == b * Pow(256, |s|) + FromBytes(s)
  {
    var t := [b] + s;
    if s == [] {
      assert t[..|t| - 1] == [];
    } else {
      var n, p := |s| - 1, Pow(256, |s| - 1);
      FirstIsHighest(b, s[..n]);
      assert t[..|t| - 1] == [b] + s[..n];
      assert 256 * (b * p) == b * (256 * p);
    }
  }

  /** The key arrives whole: 96 bytes, and SetBytes reads back the same number. */
  lemma PaddedKeyRoundTrip(n: nat)
    requires n < Pow(256, KEY_SIZE)
    ensures |BytesWithPad(n)| == KEY_SIZE && FromBytes(BytesWithPad(n)) == n
  {
    ToBytesShort(n, KEY_SIZE);
    FromToBytes(n);
    LeadingZeros(KEY_SIZE - |ToBytes(n)|, ToBytes(n));
  }

  // ---- Diffie-Hellman

  /** big.Int.Exp with a modulus. */
  function ModExp(b: nat, e: nat, m: nat): (r: nat)
    requires m > 0
    ensures r < m
  {
    Pow(b, e) % m
  }

  lemma ModUnique(m: nat, q: int, r: nat)
    requires r < m
    ensures (m * q + r) % m == r
  {
    var x := m * q + r;
    var q', r' := x / m, x % m;
    assert m * (q - q') == r' - r;
    assert m * (q' - q) == r - r';
    if q > q' {
      Grows(m, q - q');
    } else if q < q' {
      Grows(m, q' - q);
    }
  }

  lemma Grows(m: nat, d: int)
    requires d > 0
    ensures m * d >= m
  {
  }

  lemma MulMod(a: nat, b: nat, m: nat)
    requires m > 0
    ensures (a * b) % m == (a * (b % m)) % m
  {
    var q := b / m;
    var c := a * (b % m);
    assert a * b == m * (a * q) + c by {
      assert b == m * q + b % m;
      assert a * (m * q) == m * (a * q);
      Distribute(a, m * q, b % m);
    }
    assert c == m * (c / m) + c % m;
    assert a * b == m * (a * q + c / m) + c % m by { Distribute(m, a * q, c / m); }
    ModUnique(m, a * q + c / m, c % m);
  }

  lemma {:induction false} PowMod(b: nat, e: nat, m: nat)
    requires m > 0
    ensures Pow(b % m, e) % m == Pow(b, e) % m
  {
    if e > 0 {
      PowMod(b, e - 1, m);
      var r, p, q := b % m, Pow(b, e - 1), Pow(b % m, e - 1);
      MulMod(r, q, m);
      MulMod(r, p, m);
      MulMod(p, b, m);
      assert r * p == p * r && b * p == p * b;
    }
  }

  lemma {:induction false} PowAdd(b: nat, x: nat, y: nat)
    ensures Pow(b, x + y) == Pow(b, x) * Pow(b, y)
  {
    if x > 0 {
      PowAdd(b, x - 1, y);
      Associate(b, Pow(b, x - 1), Pow(b, y));
    }
  }

  lemma Associate(a: nat, b: nat, c: nat)
    ensures a * (b * c) == (a * b) * c
  {
  }

  lemma {:induction false} PowPow(b: nat, x: nat, y: nat)
    ensures 0 <= x * y && Pow(Pow(b, x), y) == Pow(b, x * y)
  {
    if y > 0 {
      PowPow(b, x, y - 1);
      assert x * y == x + x * (y - 1);
      PowAdd(b, x, x * (y - 1));
    }
  }

  const G := 2

  /** Both sides raise the other's public key to their own private key: the same S. */
  lemma SharedSecret(x: nat, y: nat, p: nat)
    requires p > 0
    ensures ModExp(ModExp(G, y, p), x, p) == ModExp(ModExp(G, x, p), y, p)
  {
    PowMod(Pow(G, y), x, p);
    PowMod(Pow(G, x), y, p);
    PowPow(G, y, x);
    PowPow(G, x, y);
    assert x * y == y * x;
  }

  // ---- the stream cipher

  /** p: the modulus. sha1: 20 bytes for any input. rc4(key, i): byte i of the key stream.
      xor: exclusive or, of which only these two laws are used. */
  datatype Params = Params(p: nat, sha1: bytes -> bytes, rc4: (bytes, nat) -> byte, xor: (byte, byte) -> byte) {
    ghost predicate Valid() {
      && 0 < p <= Pow(256, KEY_SIZE)
      && (forall s :: |sha1(s)| == SHA1_SIZE)
      && (forall a, k :: xor(xor(a, k), k) == a)
      && (forall a, k :: xor(a, k) == xor(k, a))
    }
  }

  const SHA1_SIZE := 20

  datatype Cipher = Rc4(key: bytes, pos: nat) | PlainText

  function Advance(c: Cipher, n: nat): Cipher {
    match c
    case Rc4(key, pos) => Rc4(key, pos + n)
    case PlainText => PlainText
  }

  /** XORKeyStream: encrypting and decrypting are the same operation. */
  function Crypt(m: Params, c: Cipher, data: bytes): (r: bytes)
    ensures |r| == |data|
  {
    match c
    case Rc4(key, pos) => seq(|data|, i requires 0 <= i < |data| => m.xor(data[i], m.rc4(key, pos + i)))
    case PlainText => data
  }

  lemma CryptTwice(m: Params, c: Cipher, data: bytes)
    requires m.Valid()
    ensures Crypt(m, c, Crypt(m, c, data)) == data
  {
  }

  lemma CryptConcat(m: Params, c: Cipher, s: bytes, t: bytes)
    ensures Crypt(m, c, s + t) == Crypt(m, c, s) + Crypt(m, Advance(c, |s|), t)
  {
  }

  lemma CryptDrop(m: Params, c: Cipher, data: bytes, n: nat)
    requires n <= |data|
    ensures Crypt(m, c, data)[..n] == Crypt(m, c, data[..n])
    ensures Crypt(m, c, data)[n..] == Crypt(m, Advance(c, n), data[n..])
  {
    assert data == data[..n] + data[n..];
    CryptConcat(m, c, data[..n], data[n..]);
  }

  /** What one side sends through its cipher, the other side gets back through a cipher
      in the same position, however many bytes follow. */
  lemma Delivered(m: Params, c: Cipher, data: bytes, more: bytes)
    requires m.Valid()
    ensures Crypt(m, c, Crypt(m, c, data) + more) == data + Crypt(m, Advance(c, |data|), more)
  {
    CryptConcat(m, c, Crypt(m, c, data), more);
    CryptTwice(m, c, data);
  }
}
