/** internal/metainfo/info.go (calculatePieceLength, nextPowerOfTwo): the piece length of a
    torrent that is created without one. */
module PieceLengths {
  import opened Common

  const MAX_PIECES := 2000

  /** calculatePieceLength: a power of two between 32 KiB and 16 MiB. */
  function CalculatePieceLength(total: nat): nat {
    var n := total / MAX_PIECES;
    if n < 0x8000 then 0x8000
    else if n > 0x100_0000 then 0x100_0000
    else NextPowerOfTwo(n)
  }

  // ---- the rounding, bit by bit

  /** v | w */
  function Or(v: nat, w: nat): nat {
    if v == 0 then w else if w == 0 then v
    else 2 * Or(v / 2, w / 2) + if v % 2 == 1 || w % 2 == 1 then 1 else 0
  }

  /** v | v >> k */
  function OrShifted(v: nat, k: nat): nat {
    Or(v, Shift(v, k))
  }

  /** v >> k */
  function Shift(v: nat, k: nat): nat {
    if k == 0 then v else Shift(v / 2, k - 1)
  }

  function NextPowerOfTwo(n: nat): nat
    requires n > 0
  {
    var v := n - 1;
    var v1 := OrShifted(v, 1);
    var v2 := OrShifted(v1, 2);
    var v4 := OrShifted(v2, 4);
    var v8 := OrShifted(v4, 8);
    var v16 := OrShifted(v8, 16);
    (v16 + 1) % UINT32
  }

  predicate Bit(v: nat, k: nat) {
    if k == 0 then v % 2 == 1 else Bit(v / 2, k - 1)
  }

  lemma {:induction false} OrBit(v: nat, w: nat, k: nat)
    ensures Bit(Or(v, w), k) <==> Bit(v, k) || Bit(w, k)
  {
    if v == 0 { NoBit(k); } else if w == 0 { NoBit(k); } else if k > 0 {
      OrBit(v / 2, w / 2, k - 1);
      assert Or(v, w) / 2 == Or(v / 2, w / 2);
    }
  }

  lemma {:induction false} NoBit(k: nat)
    ensures !Bit(0, k)
  {
    if k > 0 { NoBit(k - 1); }
  }

  lemma {:induction false} ShiftedBit(v: nat, m: nat, k: nat)
    ensures Bit(Shift(v, m), k) <==> Bit(v, k + m)
    decreases m
  {
    if m > 0 { ShiftedBit(v / 2, m - 1, k); }
  }

  /** Every bit of v0 has spread to the s - 1 places below it. */
  ghost predicate Smeared(v0: nat, v: nat, s: nat) {
    forall k: nat :: Bit(v, k) <==> BitWithin(v0, k, k + s)
  }

  ghost predicate BitWithin(v: nat, from: nat, to: nat) {
    exists j: nat :: from <= j < to && Bit(v, j)
  }

  lemma SmearStart(v: nat)
    ensures Smeared(v, v, 1)
  {
    hide Bit;
  }

  lemma SmearStep(v0: nat, v: nat, s: nat)
    requires Smeared(v0, v, s)
    ensures Smeared(v0, OrShifted(v, s), 2 * s)
  {
    hide Bit, Or, Shift;
    forall k: nat ensures Bit(OrShifted(v, s), k) <==> BitWithin(v0, k, k + 2 * s) {
      OrBit(v, Shift(v, s), k);
      ShiftedBit(v, s, k);
      assert Bit(v, k) <==> BitWithin(v0, k, k + s);
      assert Bit(v, k + s) <==> BitWithin(v0, k + s, k + s + s);
    }
  }

  /** The highest bit of v. */
  ghost predicate TopBit(v: nat, t: nat) {
    Bit(v, t) && forall k: nat :: k > t ==> !Bit(v, k)
  }

  lemma {:induction false} HasTopBit(v: nat) returns (t: nat)
    requires v > 0
    ensures TopBit(v, t) && Power2(t) <= v < 2 * Power2(t)
  {
    if v == 1 {
      t := 0;
      forall k: nat | k > 0 ensures !Bit(1, k) { NoBit(k - 1); }
    } else {
      var u := HasTopBit(v / 2);
      t := u + 1;
      forall k: nat | k > t ensures !Bit(v, k) { assert !Bit(v / 2, k - 1); }
    }
  }

  /** All bits up to t, and no other. */
  lemma {:induction false} AllOnes(v: nat, t: nat)
    requires forall k: nat :: Bit(v, k) <==> k <= t
    ensures v == 2 * Power2(t) - 1
    decreases t
  {
    assert Bit(v, 0);
    var h := v / 2;
    if t > 0 {
      forall k: nat ensures Bit(h, k) <==> k <= t - 1 { assert Bit(v, k + 1) <==> k + 1 <= t; }
      AllOnes(h, t - 1);
    } else {
      forall k: nat ensures !Bit(h, k) { assert !Bit(v, k + 1); }
      if h > 0 { var u := HasTopBit(h); }
    }
  }

  /** The least power of two that is not below n. */
  lemma NextPowerOfTwoCorrect(n: nat)
    requires 1 < n <= 0x8000_0000
    ensures n <= NextPowerOfTwo(n) < 2 * n && exists k :: NextPowerOfTwo(n) == Power2(k)
  {
    hide OrShifted, Power2, Bit, Smeared, TopBit;
    var v := n - 1;
    var v1 := OrShifted(v, 1);
    var v2 := OrShifted(v1, 2);
    var v4 := OrShifted(v2, 4);
    var v8 := OrShifted(v4, 8);
    var v16 := OrShifted(v8, 16);
    SmearStart(v);
    SmearStep(v, v, 1);
    SmearStep(v, v1, 2);
    SmearStep(v, v2, 4);
    SmearStep(v, v4, 8);
    SmearStep(v, v8, 16);
    var t := HasTopBit(v);
    TopBelow(t);
    SmearedOnes(v, v16, t);
    TwiceIsPower(t);
  }

  lemma TwiceIsPower(t: nat)
    ensures 2 * Power2(t) == Power2(t + 1)
  {
  }

  /** Of a number below 2^31 no bit lies higher than 30. */
  lemma TopBelow(t: nat)
    requires Power2(t) < 0x8000_0000
    ensures t <= 30
  {
    if t > 30 {
      Power2Monotone(31, t);
      Power2Add(24, 7);
      LargePowers();
      assert false;
    }
  }

  lemma SmearedOnes(v0: nat, v: nat, t: nat)
    requires Smeared(v0, v, 32) && TopBit(v0, t) && t <= 30
    ensures v == 2 * Power2(t) - 1
  {
    forall k: nat ensures Bit(v, k) <==> k <= t {
      if k <= t { assert Bit(v0, t); }
    }
    AllOnes(v, t);
  }

  lemma LargePowers()
    ensures Power2(15) == 0x8000 && Power2(16) == 0x1_0000 && Power2(24) == 0x100_0000
    ensures Power2(7) == 128
  {
    Power2Byte();
    Power2Add(8, 7);
    Power2Add(8, 8);
    Power2Add(8, 16);
  }

  lemma PowersApart(j: nat, k: nat)
    requires j < k
    ensures 2 * Power2(j) <= Power2(k)
  {
    Power2Monotone(j + 1, k);
  }

  lemma SamePower(j: nat, k: nat)
    requires Power2(j) <= Power2(k) < 2 * Power2(j)
    ensures j == k
  {
    if j < k { PowersApart(j, k); } else if k < j { PowersApart(k, j); }
  }

  /** A piece length for so many bytes: a power of two from 32 KiB to 16 MiB, for about
      2000 pieces where these limits allow it. */
  ghost predicate Fitting(pieceLength: nat, total: nat) {
    && (exists k :: pieceLength == Power2(k)) && 32 * 1024 <= pieceLength <= 16 * 1024 * 1024
    && (total / 2000 <= 32 * 1024 ==> pieceLength == 32 * 1024)
    && (total / 2000 >= 16 * 1024 * 1024 ==> pieceLength == 16 * 1024 * 1024)
    && (32 * 1024 < total / 2000 < 16 * 1024 * 1024 ==> total / 2000 <= pieceLength < 2 * (total / 2000))
  }

  lemma CalculatedFits(total: nat)
    ensures Fitting(CalculatePieceLength(total), total)
  {
    hide NextPowerOfTwo, Power2;
    LargePowers();
    var n := total / 2000;
    if 0x8000 <= n <= 0x100_0000 {
      NextPowerOfTwoCorrect(n);
      var k :| NextPowerOfTwo(n) == Power2(k);
      InLimits(k, n);
    }
  }

  lemma InLimits(k: nat, n: nat)
    requires 0x8000 <= n <= 0x100_0000 && n <= Power2(k) < 2 * n
    ensures 0x8000 <= Power2(k) <= 0x100_0000
    ensures n == 0x8000 || n == 0x100_0000 ==> Power2(k) == n
  {
    LargePowers();
    if k > 24 { PowersApart(24, k); }
    if k < 24 { PowersApart(k, 24); }
    if n == 0x8000 { SamePower(15, k); }
    if n == 0x100_0000 { SamePower(24, k); }
  }

  lemma PieceLengthPositive(total: nat)
    ensures 0 < CalculatePieceLength(total) < UINT32
  {
    CalculatedFits(total);
  }
}
