/** internal/bitfield/bitfield.go: bits packed into bytes, most significant bit first. */
module Bitfields {
  import opened Common

  function NumBytes(length: nat): nat {
    (length + 7) / 8
  }

  /** 1 << (7 - mod) */
  function Mask(mod: nat): bv8 {
    match mod
    case 0 => 0x80
    case 1 => 0x40
    case 2 => 0x20
    case 3 => 0x10
    case 4 => 0x08
    case 5 => 0x04
    case 6 => 0x02
    case _ => 0x01
  }

  /** 0xff >> mod */
  function LowMask(mod: nat): bv8 {
    match mod
    case 0 => 0xFF
    case 1 => 0x7F
    case 2 => 0x3F
    case 3 => 0x1F
    case 4 => 0x0F
    case 5 => 0x07
    case 6 => 0x03
    case _ => 0x01
  }

  predicate HasBit(b: bv8, mod: nat) {
    b & Mask(mod) > 0
  }

  /** Bit 0 has the highest value, and each further bit half of it. */
  lemma BitOrder(b: bv8)
    ensures HasBit(b, 0) <==> b >= 128
    ensures HasBit(b, 1) <==> b % 128 >= 64
    ensures HasBit(b, 2) <==> b % 64 >= 32
    ensures HasBit(b, 3) <==> b % 32 >= 16
    ensures HasBit(b, 4) <==> b % 16 >= 8
    ensures HasBit(b, 5) <==> b % 8 >= 4
    ensures HasBit(b, 6) <==> b % 4 >= 2
    ensures HasBit(b, 7) <==> b % 2 == 1
  {
  }

  lemma BitSet(b: bv8, j: nat, k: nat)
    requires j < 8 && k < 8
    ensures HasBit(b | Mask(j), k) <==> k == j || HasBit(b, k)
  {
  }

  lemma BitCleared(b: bv8, j: nat, k: nat)
    requires j < 8 && k < 8
    ensures HasBit(b & !Mask(j), k) <==> k != j && HasBit(b, k)
  {
  }

  lemma TopBitsKept(b: bv8, mod: nat, k: nat)
    requires mod < 8 && k < 8
    ensures HasBit(b & !LowMask(mod), k) <==> k < mod && HasBit(b, k)
  {
  }

  // ---- the table of bit counts

  /** countCache in rows of sixteen; h is the high half of the index. */
  function CountRow(h: bv8): (r: seq<nat>)
    ensures |r| == 16
  {
    match h
    case 0 => [0, 1, 1, 2, 1, 2, 2, 3, 1, 2, 2, 3, 2, 3, 3, 4]
    case 1 => [1, 2, 2, 3, 2, 3, 3, 4, 2, 3, 3, 4, 3, 4, 4, 5]
    case 2 => [1, 2, 2, 3, 2, 3, 3, 4, 2, 3, 3, 4, 3, 4, 4, 5]
    case 3 => [2, 3, 3, 4, 3, 4, 4, 5, 3, 4, 4, 5, 4, 5, 5, 6]
    case 4 => [1, 2, 2, 3, 2, 3, 3, 4, 2, 3, 3, 4, 3, 4, 4, 5]
    case 5 => [2, 3, 3, 4, 3, 4, 4, 5, 3, 4, 4, 5, 4, 5, 5, 6]
    case 6 => [2, 3, 3, 4, 3, 4, 4, 5, 3, 4, 4, 5, 4, 5, 5, 6]
    case 7 => [3, 4, 4, 5, 4, 5, 5, 6, 4, 5, 5, 6, 5, 6, 6, 7]
    case 8 => [1, 2, 2, 3, 2, 3, 3, 4, 2, 3, 3, 4, 3, 4, 4, 5]
    case 9 => [2, 3, 3, 4, 3, 4, 4, 5, 3, 4, 4, 5, 4, 5, 5, 6]
    case 10 => [2, 3, 3, 4, 3, 4, 4, 5, 3, 4, 4, 5, 4, 5, 5, 6]
    case 11 => [3, 4, 4, 5, 4, 5, 5, 6, 4, 5, 5, 6, 5, 6, 6, 7]
    case 12 => [2, 3, 3, 4, 3, 4, 4, 5, 3, 4, 4, 5, 4, 5, 5, 6]
    case 13 => [3, 4, 4, 5, 4, 5, 5, 6, 4, 5, 5, 6, 5, 6, 6, 7]
    case 14 => [3, 4, 4, 5, 4, 5, 5, 6, 4, 5, 5, 6, 5, 6, 6, 7]
    case _ => [4, 5, 5, 6, 5, 6, 6, 7, 5, 6, 6, 7, 6, 7, 7, 8]
  }

  function Entry(row: seq<nat>, l: bv8): nat
    requires |row| == 16
  {
    match l
    case 0 => row[0]
    case 1 => row[1]
    case 2 => row[2]
    case 3 => row[3]
    case 4 => row[4]
    case 5 => row[5]
    case 6 => row[6]
    case 7 => row[7]
    case 8 => row[8]
    case 9 => row[9]
    case 10 => row[10]
    case 11 => row[11]
    case 12 => row[12]
    case 13 => row[13]
    case 14 => row[14]
    case _ => row[15]
  }

  /** countCache[v] */
  function CountCache(v: bv8): nat {
    Entry(CountRow(v >> 4), v & 0x0F)
  }

  function One(b: bool): nat {
    if b then 1 else 0
  }

  function BitsOf(b: bv8): nat {
    One(HasBit(b, 0)) + One(HasBit(b, 1)) + One(HasBit(b, 2)) + One(HasBit(b, 3))
    + One(HasBit(b, 4)) + One(HasBit(b, 5)) + One(HasBit(b, 6)) + One(HasBit(b, 7))
  }

  function HalfBits(h: bv8): nat {
    One(h & 8 > 0) + One(h & 4 > 0) + One(h & 2 > 0) + One(h & 1 > 0)
  }

  /** Each entry of the table is the number of bits set in its index. */
  lemma TableCountsBits(v: bv8)
    ensures CountCache(v) == BitsOf(v)
  {
    Halves(v);
    if v >> 4 < 8 { LowerRows(v >> 4, v & 0x0F); } else { UpperRows(v >> 4, v & 0x0F); }
  }

  lemma Halves(v: bv8)
    ensures BitsOf(v) == HalfBits(v >> 4) + HalfBits(v & 0x0F)
    ensures v >> 4 < 16 && v & 0x0F < 16
  {
  }

  lemma LowerRows(h: bv8, l: bv8)
    requires h < 8 && l < 16
    ensures Entry(CountRow(h), l) == HalfBits(h) + HalfBits(l)
  {
  }

  lemma UpperRows(h: bv8, l: bv8)
    requires 8 <= h < 16 && l < 16
    ensures Entry(CountRow(h), l) == HalfBits(h) + HalfBits(l)
  {
  }

  // ---- the bits of a byte sequence

  predicate BitAt(s: seq<bv8>, i: nat) {
    i / 8 < |s| && HasBit(s[i / 8], i % 8)
  }

  /** Unused bits of the last byte are zero. */
  ghost predicate TailClear(s: seq<bv8>, length: nat) {
    forall i: nat :: length <= i < 8 * |s| ==> !BitAt(s, i)
  }

  ghost function Bits(s: seq<bv8>, length: nat): (b: seq<bool>)
    ensures |b| == length
  {
    seq(length, i requires 0 <= i < length => BitAt(s, i))
  }

  /** How many of the first n bits are set. */
  ghost function Ones(s: seq<bv8>, n: nat): nat {
    if n == 0 then 0 else Ones(s, n - 1) + One(BitAt(s, n - 1))
  }

  ghost function Trues(b: seq<bool>): nat {
    if b == [] then 0 else Trues(b[..|b| - 1]) + One(b[|b| - 1])
  }

  lemma {:induction false} OnesAreTrues(s: seq<bv8>, length: nat)
    ensures Ones(s, length) == Trues(Bits(s, length))
  {
    if length > 0 {
      OnesAreTrues(s, length - 1);
      assert Bits(s, length)[..length - 1] == Bits(s, length - 1);
    }
  }

  lemma {:induction false} ClearTail(s: seq<bv8>, length: nat, n: nat)
    requires TailClear(s, length) && length <= n <= 8 * |s|
    ensures Ones(s, n) == Ones(s, length)
    decreases n
  {
    if length < n { ClearTail(s, length, n - 1); }
  }

  /** One byte of the counting loop: eight bits at a time. */
  lemma NextByte(s: seq<bv8>, k: nat)
    requires k < |s|
    ensures Ones(s, 8 * (k + 1)) == Ones(s, 8 * k) + CountCache(s[k])
  {
    hide HasBit, CountCache, Ones, BitAt;
    TableCountsBits(s[k]);
    AtByte(s, k, 0); AtByte(s, k, 1); AtByte(s, k, 2); AtByte(s, k, 3);
    AtByte(s, k, 4); AtByte(s, k, 5); AtByte(s, k, 6); AtByte(s, k, 7);
  }

  lemma AtByte(s: seq<bv8>, k: nat, j: nat)
    requires k < |s| && j < 8
    ensures Ones(s, 8 * k + j + 1) == Ones(s, 8 * k + j) + One(HasBit(s[k], j))
  {
    assert (8 * k + j) / 8 == k && (8 * k + j) % 8 == j;
  }

  lemma {:induction false} AllOnes(b: seq<bool>)
    ensures Trues(b) <= |b|
    ensures Trues(b) == |b| <==> forall i :: 0 <= i < |b| ==> b[i]
  {
    if b != [] {
      var front := b[..|b| - 1];
      AllOnes(front);
      assert forall i :: 0 <= i < |front| ==> front[i] == b[i];
    }
  }

  lemma Updated(s: seq<bv8>, length: nat, i: nat, v: bv8, on: bool)
    requires |s| == NumBytes(length) && TailClear(s, length) && i < length
    requires v == if on then s[i / 8] | Mask(i % 8) else s[i / 8] & !Mask(i % 8)
    ensures TailClear(s[i / 8 := v], length) && Bits(s[i / 8 := v], length) == Bits(s, length)[i := on]
  {
    hide HasBit, Mask;
    var t := s[i / 8 := v];
    forall k: nat | k < 8 * |s| ensures BitAt(t, k) <==> if k == i then on else BitAt(s, k) {
      if k / 8 == i / 8 {
        BitSet(s[i / 8], i % 8, k % 8);
        BitCleared(s[i / 8], i % 8, k % 8);
      }
    }
  }

  /** The last byte with its unused bits cleared: same bits, nothing behind them. */
  lemma TailCut(s: seq<bv8>, length: nat)
    requires |s| == NumBytes(length)
    ensures var t := if length % 8 != 0 then s[|s| - 1 := s[|s| - 1] & !LowMask(length % 8)] else s;
            TailClear(t, length) && Bits(t, length) == Bits(s, length)
  {
    hide HasBit, LowMask;
    if length % 8 != 0 {
      var n := |s| - 1;
      var t := s[n := s[n] & !LowMask(length % 8)];
      forall k: nat | k < 8 * |s| ensures BitAt(t, k) <==> k < length && BitAt(s, k) {
        CutAt(s, length, k);
      }
    }
  }

  lemma CutAt(s: seq<bv8>, length: nat, k: nat)
    requires |s| == NumBytes(length) && length % 8 != 0 && k < 8 * |s|
    ensures BitAt(s[|s| - 1 := s[|s| - 1] & !LowMask(length % 8)], k) <==> k < length && BitAt(s, k)
  {
    hide HasBit, LowMask;
    var n := |s| - 1;
    assert n == length / 8;
    if k / 8 == n {
      TopBitsKept(s[n], length % 8, k % 8);
    }
  }

  class Bitfield {
    const data: array<bv8>
    const length: nat

    ghost predicate Valid()
      reads data
    {
      data.Length == NumBytes(length) && TailClear(data[..], length)
    }

    ghost function View(): (b: seq<bool>)
      reads data
      ensures |b| == length
    {
      Bits(data[..], length)
    }

    /** New: all bits clear. */
    constructor (length: nat)
      ensures Valid() && this.length == length && fresh(data) && View() == seq(length, _ => false)
    {
      var bytes := new bv8[NumBytes(length)](_ => 0);
      this.data, this.length := bytes, length;
      new;
      forall i: nat ensures !BitAt(data[..], i) { NoBits(data[..], i); }
    }

    /** NewBytes shares the given bytes and clears the unused bits in them. */
    constructor Wrap(b: array<bv8>, length: nat)
      requires b.Length == NumBytes(length) && (length % 8 != 0 ==> b[b.Length - 1] & LowMask(length % 8) == 0)
      ensures Valid() && data == b && this.length == length && View() == Bits(b[..], length)
    {
      this.data, this.length := b, length;
      new;
      TailCut(b[..], length);
      if length % 8 != 0 {
        Unchanged(b[b.Length - 1], LowMask(length % 8));
        assert b[..] == b[..][b.Length - 1 := b[b.Length - 1]];
      }
    }

    method Set(i: nat)
      requires Valid() && i < length
      modifies data
      ensures Valid() && View() == old(View())[i := true]
    {
      hide Mask, TailClear, Bits, BitAt;
      ghost var before := data[..];
      var div, v := i / 8, data[i / 8] | Mask(i % 8);
      Updated(before, length, i, v, true);
      data[div] := v;
      assert data[..] == before[div := v];
    }

    method Clear(i: nat)
      requires Valid() && i < length
      modifies data
      ensures Valid() && View() == old(View())[i := false]
    {
      hide Mask, TailClear, Bits, BitAt;
      ghost var before := data[..];
      var div, v := i / 8, data[i / 8] & !Mask(i % 8);
      Updated(before, length, i, v, false);
      data[div] := v;
      assert data[..] == before[div := v];
    }

    method Test(i: nat) returns (on: bool)
      requires Valid() && i < length
      ensures on == View()[i]
    {
      on := data[i / 8] & Mask(i % 8) > 0;
    }

    method Count() returns (total: nat)
      requires Valid()
      ensures total == Trues(View())
    {
      hide CountCache;
      total := 0;
      for k := 0 to data.Length
        invariant total == Ones(data[..], 8 * k)
      {
        NextByte(data[..], k);
        total := total + CountCache(data[k]);
      }
      ClearTail(data[..], length, 8 * data.Length);
      OnesAreTrues(data[..], length);
    }

    method All() returns (all: bool)
      requires Valid()
      ensures all <==> forall i :: 0 <= i < length ==> View()[i]
    {
      var n := Count();
      AllOnes(View());
      all := n == length;
    }
  }

  lemma NoBits(s: seq<bv8>, i: nat)
    requires forall k :: 0 <= k < |s| ==> s[k] == 0
    ensures !BitAt(s, i)
  {
  }

  lemma Unchanged(b: bv8, m: bv8)
    requires b & m == 0
    ensures b & !m == b
  {
  }

  /** NewBytes: the length has to fit exactly; the bits asked for are kept. */
  method NewBytes(b: array<bv8>, length: nat) returns (r: Option<Bitfield>)
    modifies b
    ensures r == None <==> b.Length != NumBytes(length)
    ensures r == None ==> b[..] == old(b[..])
    ensures r.Some? ==>
              && r.value.Valid() && r.value.data == b && r.value.length == length && fresh(r.value)
              && r.value.View() == Bits(old(b[..]), length)
  {
    var requiredBytes := length / 8;
    var mod := length % 8;
    if mod != 0 { requiredBytes := requiredBytes + 1; }
    if b.Length != requiredBytes { return None; }
    hide LowMask, TailClear, Bits, BitAt;
    TailCut(b[..], length);
    if mod != 0 { CutLast(b, mod); }
    var f := new Bitfield.Wrap(b, length);
    r := Some(f);
  }

  method CutLast(b: array<bv8>, mod: nat)
    requires b.Length > 0
    modifies b
    ensures b[..] == old(b[..])[b.Length - 1 := old(b[b.Length - 1]) & !LowMask(mod)]
    ensures b[b.Length - 1] & LowMask(mod) == 0
  {
    hide LowMask;
    var last := b[b.Length - 1] & !LowMask(mod);
    CutTwice(b[b.Length - 1], LowMask(mod));
    b[b.Length - 1] := last;
  }

  lemma CutTwice(b: bv8, m: bv8)
    ensures (b & !m) & m == 0
  {
  }
}
