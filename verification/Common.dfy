/** Values shared by the other modules. */
module Common {
  type byte = x: int | 0 <= x < 256 witness 0

  type bytes = seq<byte>

  /** The number of values of a uint32. */
  const UINT32 := 0x1_0000_0000

  /** One more than the largest int64. */
  const INT64 := 0x8000_0000_0000_0000

  /** What an int64 holds where the unbounded result is x. */
  function Wrap64(x: int): int {
    (x + INT64) % (2 * INT64) - INT64
  }

  datatype Option<+T> = None | Some(value: T)

  function Min(a: int, b: int): int {
    if a < b then a else b
  }

  function Power2(n: nat): (p: nat)
    ensures p > 0
  {
    if n == 0 then 1 else 2 * Power2(n - 1)
  }

  lemma {:induction false} Power2Add(a: nat, b: nat)
    ensures Power2(a + b) == Power2(a) * Power2(b)
  {
    if a > 0 {
      Power2Add(a - 1, b);
      assert 2 * (Power2(a - 1) * Power2(b)) == 2 * Power2(a - 1) * Power2(b);
    }
  }

  lemma {:induction false} Power2Monotone(a: nat, b: nat)
    requires a <= b
    ensures Power2(a) <= Power2(b)
  {
    if a < b { Power2Monotone(a, b - 1); }
  }

  lemma Power2Byte()
    ensures Power2(0) == 1 && Power2(1) == 2 && Power2(2) == 4 && Power2(3) == 8 && Power2(4) == 16
    ensures Power2(5) == 32 && Power2(6) == 64 && Power2(7) == 128 && Power2(8) == 256
  {
    assert Power2(0) == 1;
    assert Power2(1) == 2;
    assert Power2(2) == 4;
    assert Power2(3) == 8;
    assert Power2(4) == 16;
    assert Power2(5) == 32;
    assert Power2(6) == 64;
    assert Power2(7) == 128;
  }

  /** s with the bytes from position `at` on replaced by `data`. */
  function Splice(s: bytes, at: nat, data: bytes): (r: bytes)
    requires at + |data| <= |s|
    ensures |r| == |s| && r[at..at + |data|] == data
    ensures r[..at] == s[..at] && r[at + |data|..] == s[at + |data|..]
  {
    s[..at] + data + s[at + |data|..]
  }

  lemma SliceSlice<T>(s: seq<T>, a: nat, b: nat, c: nat, d: nat)
    requires a <= b <= |s| && c <= d <= b - a
    ensures s[a..b][c..d] == s[a + c..a + d]
  {
    var x, y := s[a..b][c..d], s[a + c..a + d];
    forall i | 0 <= i < d - c ensures x[i] == y[i] {
      assert x[i] == s[a..b][c + i];
    }
  }

  lemma SliceConcat<T>(s: seq<T>, a: nat, b: nat, c: nat)
    requires a <= b <= c <= |s|
    ensures s[a..b] + s[b..c] == s[a..c]
  {
  }

  lemma DropConcat<T>(s: seq<T>, t: seq<T>, k: nat)
    requires |s| <= k <= |s| + |t|
    ensures (s + t)[k..] == t[k - |s|..]
  {
  }

  lemma DropConcatLeft<T>(s: seq<T>, t: seq<T>, k: nat)
    requires k <= |s|
    ensures (s + t)[k..] == s[k..] + t
  {
  }

  /** Splicing leaves the bytes before and behind alone. */
  lemma SpliceElsewhere(f: bytes, at: nat, data: bytes, a: nat, z: nat)
    requires at + |data| <= |f| && a <= z <= |f| && (z <= at || at + |data| <= a)
    ensures Splice(f, at, data)[a..z] == f[a..z]
  {
    var g := Splice(f, at, data);
    if z <= at {
      assert g[a..z] == g[..at][a..z] && f[a..z] == f[..at][a..z];
    } else {
      var e := at + |data|;
      assert g[a..z] == g[e..][a - e..z - e] && f[a..z] == f[e..][a - e..z - e];
    }
  }

  function Swapped<T>(s: seq<T>, i: nat, j: nat): (r: seq<T>)
    requires i < |s| && j < |s|
    ensures |r| == |s|
  {
    s[i := s[j]][j := s[i]]
  }

  lemma Distribute(a: int, b: int, c: int)
    ensures a * (b + c) == a * b + a * c
  {
  }

  ghost function UpTo(n: nat): (s: set<nat>)
    ensures forall i: nat :: i in s <==> i < n
    ensures |s| == n
  {
    if n == 0 then {} else UpTo(n - 1) + {n - 1}
  }

  lemma SubsetCardinality<T>(a: set<T>, b: set<T>)
    requires a <= b
    ensures |a| <= |b| && (|a| == |b| ==> a == b)
  {
    assert b == a + (b - a);
    assert |b| == |a| + |b - a|;
  }
}
