/** filechain/torrent_stats.go: bytesComplete. */
module TorrentStats {
  import opened Common
  import opened Bitfields
  import opened PieceLayout

  /** The total length of the pieces whose bit is set, among the first n. */
  ghost function Held(bits: seq<bool>, pieces: seq<Piece>, n: nat): nat {
    if n == 0 || n > |bits| || n > |pieces| then 0
    else Held(bits, pieces, n - 1) + if bits[n - 1] then pieces[n - 1].length else 0
  }

  lemma {:induction false} FullPieces(bits: seq<bool>, pieces: seq<Piece>, length: nat, n: nat)
    requires n <= |bits| == |pieces| && forall i :: 0 <= i < n ==> pieces[i].length == length
    ensures 0 <= length * Trues(bits[..n]) && Held(bits, pieces, n) == length * Trues(bits[..n])
  {
    if n > 0 {
      FullPieces(bits, pieces, length, n - 1);
      assert bits[..n][..n - 1] == bits[..n - 1];
      OneMore(length, Trues(bits[..n - 1]));
    } else {
      assert bits[..0] == [];
    }
  }

  lemma OneMore(a: nat, b: nat)
    ensures a * (b + 1) == a * b + a
  {
  }

  lemma {:induction false} HeldBound(info: Info, lengths: seq<nat>, bits: seq<bool>, pieces: seq<Piece>, n: nat)
    requires pieces != [] && IsLayout(info, lengths, pieces) && |bits| == |pieces| && n <= |pieces|
    ensures Held(bits, pieces, n) <= PieceStart(info, n)
    ensures Held(bits, pieces, n) == PieceStart(info, n) <==> forall i :: 0 <= i < n ==> bits[i]
  {
    if n > 0 {
      HeldBound(info, lengths, bits, pieces, n - 1);
      assert IsPiece(info, lengths, n - 1, pieces[n - 1]);
    } else {
      assert IsPiece(info, lengths, 0, pieces[0]);
    }
  }

  lemma LastPiece(info: Info, lengths: seq<nat>, pieces: seq<Piece>)
    requires IsLayout(info, lengths, pieces) && pieces != []
    ensures PieceStart(info, |pieces|) == info.length
    ensures forall i :: 0 <= i < |pieces| - 1 ==> pieces[i].length == info.pieceLength
  {
    var n := |pieces| - 1;
    assert IsPiece(info, lengths, n, pieces[n]);
    PieceBounds(info, lengths, n);
    forall i | 0 <= i < n ensures pieces[i].length == info.pieceLength {
      assert IsPiece(info, lengths, i, pieces[i]);
    }
  }

  lemma LastBit(bits: seq<bool>, pieces: seq<Piece>, last: nat)
    requires last + 1 == |bits| == |pieces|
    ensures Trues(bits) == Trues(bits[..last]) + if bits[last] then 1 else 0
    ensures Held(bits, pieces, last + 1) == Held(bits, pieces, last) + if bits[last] then pieces[last].length else 0
  {
  }

  lemma Corrected(info: Info, lengths: seq<nat>, bits: seq<bool>, pieces: seq<Piece>, last: nat)
    requires IsLayout(info, lengths, pieces) && last + 1 == |bits| == |pieces|
    ensures var n := info.pieceLength * Trues(bits) + if bits[last] then pieces[last].length - info.pieceLength else 0;
            && n == Held(bits, pieces, |pieces|) && n <= info.length
            && (n == info.length <==> forall i :: 0 <= i < |bits| ==> bits[i])
  {
    hide IsLayout, PieceStart, Held, Trues;
    LastPiece(info, lengths, pieces);
    FullPieces(bits, pieces, info.pieceLength, last);
    HeldBound(info, lengths, bits, pieces, |pieces|);
    OneMore(info.pieceLength, Trues(bits[..last]));
    LastBit(bits, pieces, last);
  }

  /** The count times the piece length, corrected for a shorter last piece, is the total
      length of the pieces held: never more than the torrent, all of it when all are held.
      The product may overflow an int64; the result is right all the same. */
  method BytesComplete(bitfield: Option<Bitfield>, info: Info, pieces: seq<Piece>, ghost lengths: seq<nat>)
    returns (n: int)
    requires pieces != [] ==> IsLayout(info, lengths, pieces) && info.length < INT64
    requires bitfield.Some? && pieces != [] ==> bitfield.value.Valid() && bitfield.value.length == |pieces|
    ensures bitfield == None || pieces == [] ==> n == 0
    ensures bitfield.Some? && pieces != [] ==>
              var bits := bitfield.value.View();
              && n == Held(bits, pieces, |pieces|) && 0 <= n <= info.length
              && (n == info.length <==> forall i :: 0 <= i < |bits| ==> bits[i])
  {
    if bitfield == None || pieces == [] { return 0; }
    hide IsLayout, Held, Trues, Bits, TailClear, Wrap64;
    var b := bitfield.value;
    ghost var bits := b.View();
    var last := b.length - 1;
    Corrected(info, lengths, bits, pieces, last);
    var count := b.Count();
    var on := b.Test(last);
    n := Completed(info.pieceLength, count, on, pieces[last].length, Held(bits, pieces, |pieces|));
  }

  /** The arithmetic, on int64. */
  method Completed(pieceLength: nat, count: nat, on: bool, last: nat, ghost held: nat) returns (n: int)
    requires held == pieceLength * count + (if on then last - pieceLength else 0) && held < INT64
    ensures n == held
  {
    hide Wrap64;
    Rewrapped(pieceLength * count, pieceLength, last);
    WrapExactly(held);
    n := Wrap64(pieceLength * count);
    if on {
      n := Wrap64(n - pieceLength);
      n := Wrap64(n + last);
    }
  }

  lemma Rewrapped(a: int, b: int, c: int)
    ensures Wrap64(Wrap64(Wrap64(a) - b) + c) == Wrap64(a - b + c)
  {
    hide Wrap64;
    WrapAdd(a, 0 - b);
    WrapAdd(a - b, c);
  }
}
