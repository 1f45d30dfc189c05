/** internal/metainfo/info.go and internal/piece/piece.go: the info dictionary, and how
    its pieces are laid over the files. */
module PieceLayout {
  import opened Common
  import opened Storage

  const SHA1_SIZE := 20

  /** The decoded dictionary; lengths come from the wire and may be anything. */
  datatype InfoDict = InfoDict(pieceLength: nat, pieces: bytes, length: int, files: seq<int>) {
    /** The values a uint32 and an int64 can take. */
    ghost predicate Decoded() {
      pieceLength < UINT32 && -INT64 <= length < INT64 && forall j :: 0 <= j < |files| ==> -INT64 <= files[j] < INT64
    }

    function FileLengths(): seq<int> {
      if |files| > 0 then files else [length]
    }
  }

  datatype Info = Info(pieceLength: nat, numPieces: nat, length: int, files: seq<int>, pieces: bytes)

  datatype InfoError = ZeroPieceLength | InvalidPieceData | ZeroPieces

  datatype InfoResult = Accepted(info: Info) | Refused(error: InfoError)

  function Sum(s: seq<int>): int {
    if s == [] then 0 else Sum(s[..|s| - 1]) + s[|s| - 1]
  }

  /** The sum as an int64 adds it up. */
  function Sum64(s: seq<int>): int {
    if s == [] then 0 else Wrap64(Sum64(s[..|s| - 1]) + s[|s| - 1])
  }

  /** NewInfo's checks, in order, with its 64-bit sums and its 32-bit piece count. */
  function NewInfo(d: InfoDict): InfoResult {
    if d.pieceLength == 0 then Refused(ZeroPieceLength)
    else if |d.pieces| % SHA1_SIZE != 0 then Refused(InvalidPieceData)
    else if |d.pieces| / SHA1_SIZE == 0 then Refused(ZeroPieces)
    else
      var numPieces := |d.pieces| / SHA1_SIZE % UINT32;
      var length := if |d.files| > 0 then Sum64(d.files) else d.length;
      var totalPieceDataLength := Wrap64(d.pieceLength * numPieces);
      var delta := Wrap64(totalPieceDataLength - length);
      if delta >= d.pieceLength || delta < 0 then Refused(InvalidPieceData)
      else Accepted(Info(d.pieceLength, numPieces, length, d.FileLengths(), d.pieces))
  }

  /** Where PieceHash cuts: both ends are uint32. */
  function HashPlace(i: nat): (nat, nat) {
    var begin := i * SHA1_SIZE % UINT32;
    (begin, (begin + SHA1_SIZE) % UINT32)
  }

  function PieceHash(info: Info, i: nat): (h: bytes)
    requires (i + 1) * SHA1_SIZE <= |info.pieces| < UINT32
    ensures h == info.pieces[i * SHA1_SIZE..(i + 1) * SHA1_SIZE]
  {
    info.pieces[HashPlace(i).0..HashPlace(i).1]
  }

  /** The hash is looked for where it is as long as its end fits into 32 bits; the first
      piece behind that gets an inverted range, on which Go panics. */
  lemma HashPlaceExactly(i: nat)
    requires i < UINT32
    ensures HashPlace(i) == (i * SHA1_SIZE, (i + 1) * SHA1_SIZE) <==> (i + 1) * SHA1_SIZE < UINT32
    ensures i == UINT32 / SHA1_SIZE ==> HashPlace(i).0 > HashPlace(i).1
  {
  }

  /** What NewPieces relies on. */
  ghost predicate Usable(info: Info, lengths: seq<nat>) {
    && info.pieceLength > 0 && info.numPieces > 0
    && |lengths| == |info.files| && (forall j :: 0 <= j < |lengths| ==> info.files[j] == lengths[j])
    && info.length == Total(lengths)
    && 0 <= info.pieceLength * info.numPieces - info.length < info.pieceLength
    && |info.pieces| == info.numPieces * SHA1_SIZE && |info.pieces| < UINT32
  }

  lemma {:induction false} SumIsTotal(files: seq<int>, lengths: seq<nat>, n: nat)
    requires n <= |files| == |lengths| && forall j :: 0 <= j < |files| ==> files[j] == lengths[j]
    ensures Sum(files[..n]) == FileStart(lengths, n)
  {
    if n > 0 {
      assert files[..n][..n - 1] == files[..n - 1];
      SumIsTotal(files, lengths, n - 1);
    }
  }

  lemma {:induction false} Sum64Wraps(s: seq<int>)
    ensures Sum64(s) == Wrap64(Sum(s))
  {
    if s != [] {
      Sum64Wraps(s[..|s| - 1]);
      WrapAdd(Sum(s[..|s| - 1]), s[|s| - 1]);
    }
  }

  lemma WrapAdd(a: int, b: int)
    ensures Wrap64(Wrap64(a) + b) == Wrap64(a + b)
  {
  }

  lemma WrapExactly(x: int)
    ensures Wrap64(x) == x <==> -INT64 <= x < INT64
  {
  }

  lemma {:induction false} SumNonNegative(s: seq<int>)
    requires forall j :: 0 <= j < |s| ==> s[j] >= 0
    ensures Sum(s) >= 0
  {
    if s != [] { SumNonNegative(s[..|s| - 1]); }
  }

  /** What a caller of NewInfo would have to check besides. */
  ghost predicate Regular(d: InfoDict) {
    && (forall j :: 0 <= j < |d.FileLengths()| ==> d.FileLengths()[j] >= 0)
    && Sum(d.FileLengths()) < INT64
    && |d.pieces| < UINT32
  }

  ghost function Naturals(s: seq<int>): seq<nat> {
    seq(|s|, j requires 0 <= j < |s| => if s[j] >= 0 then s[j] else 0)
  }

  /** What passes NewInfo's checks can be laid out exactly when no length is negative, the
      true sum of the lengths is an int64 and the hash string is shorter than 4 GiB. */
  lemma AcceptedIsUsable(d: InfoDict)
    requires d.Decoded() && NewInfo(d).Accepted?
    ensures Usable(NewInfo(d).info, Naturals(d.FileLengths())) <==> Regular(d)
  {
    hide Wrap64, Sum, FileStart, NewInfo;
    AcceptedParts(d);
    var (info, files) := (NewInfo(d).info, d.FileLengths());
    var lengths := Naturals(files);
    LengthWraps(d);
    if Regular(d) {
      SumNonNegative(files);
      WrapExactly(Sum(files));
      SumIsTotal(files, lengths, |files|);
      assert files[..|files|] == files;
      Covered(d.pieceLength, info.numPieces, Sum(files));
    }
    if Usable(info, lengths) {
      forall j | 0 <= j < |files| ensures files[j] >= 0 { assert files[j] == lengths[j]; }
      SumIsTotal(files, lengths, |files|);
      assert files[..|files|] == files;
      WrapExactly(Sum(files));
    }
  }

  lemma AcceptedParts(d: InfoDict)
    requires NewInfo(d).Accepted?
    ensures var info := NewInfo(d).info;
            && info.files == d.FileLengths() && info.pieces == d.pieces && info.pieceLength == d.pieceLength > 0
            && info.length == (if |d.files| > 0 then Sum64(d.files) else d.length)
            && |d.pieces| % SHA1_SIZE == 0 && |d.pieces| > 0 && info.numPieces == |d.pieces| / SHA1_SIZE % UINT32
            && 0 <= Wrap64(Wrap64(info.pieceLength * info.numPieces) - info.length) < info.pieceLength
  {
    hide Wrap64, Sum64;
  }

  lemma LengthWraps(d: InfoDict)
    requires d.Decoded()
    ensures (if |d.files| > 0 then Sum64(d.files) else d.length) == Wrap64(Sum(d.FileLengths()))
  {
    if |d.files| > 0 {
      Sum64Wraps(d.files);
    } else {
      assert [d.length][..0] == [];
      WrapExactly(d.length);
    }
  }

  /** The product may overflow an int64; the difference is right all the same. */
  lemma Covered(pieceLength: nat, numPieces: nat, length: nat)
    requires 0 < pieceLength < UINT32 && numPieces < UINT32 && length < INT64
    requires 0 <= Wrap64(Wrap64(pieceLength * numPieces) - length) < pieceLength
    ensures 0 <= pieceLength * numPieces - length < pieceLength
  {
    hide Wrap64;
    ProductBound(pieceLength, numPieces);
    WrapAdd(pieceLength * numPieces, 0 - length);
    WrapUp(pieceLength * numPieces - length);
  }

  lemma WrapUp(x: int)
    requires -INT64 < x < 2 * INT64 && 0 <= Wrap64(x) < UINT32
    ensures Wrap64(x) == x
  {
  }

  lemma ProductBound(a: nat, b: nat)
    requires a < UINT32 && b < UINT32
    ensures a * b < 2 * INT64
  {
    Mult(a, b, UINT32);
  }

  /** Three lengths whose true sum is 2^64 + 1 are accepted as a torrent of one byte. */
  lemma OverflowAccepted(hash: bytes)
    requires |hash| == SHA1_SIZE
    ensures var d := InfoDict(16 * 1024, hash, 0, [INT64 - 1, INT64 - 1, 3]);
            && d.Decoded() && NewInfo(d).Accepted? && NewInfo(d).info.length == 1
            && Sum(d.FileLengths()) == 2 * INT64 + 1 && !Usable(NewInfo(d).info, Naturals(d.FileLengths()))
  {
    var d := InfoDict(16 * 1024, hash, 0, [INT64 - 1, INT64 - 1, 3]);
    var s := d.files;
    assert [INT64 - 1][..0] == [] && s[..2][..1] == [INT64 - 1] && s[..2] == [INT64 - 1, INT64 - 1];
    assert Sum([INT64 - 1]) == INT64 - 1;
    assert Sum(s[..2]) == 2 * INT64 - 2;
    assert Sum(s) == 2 * INT64 + 1;
    Sum64Wraps(s);
    assert |hash| / SHA1_SIZE % UINT32 == 1;
    AcceptedIsUsable(d);
  }

  // ---- the layout

  datatype Piece = Piece(index: nat, length: nat, sections: seq<Section>, hash: bytes)

  /** Piece i covers Flat[PieceStart(i)..PieceStart(i + 1)]. */
  function PieceStart(info: Info, i: nat): int {
    Min(i * info.pieceLength, info.length)
  }

  /** Independent description of a piece: its interval of the concatenated files, the
      full piece length for all but the last, and the right hash. */
  ghost predicate IsPiece(info: Info, lengths: seq<nat>, i: nat, p: Piece) {
    && Usable(info, lengths) && i < info.numPieces
    && p.index == i && p.sections != []
    && 0 <= PieceStart(info, i) && 0 <= PieceStart(info, i + 1)
    && Tiles(lengths, p.sections, PieceStart(info, i), PieceStart(info, i + 1))
    && p.length == PieceStart(info, i + 1) - PieceStart(info, i) > 0
    && (i < info.numPieces - 1 ==> p.length == info.pieceLength)
    && (i + 1) * SHA1_SIZE <= |info.pieces| < UINT32 && p.hash == PieceHash(info, i)
  }

  ghost predicate IsLayout(info: Info, lengths: seq<nat>, pieces: seq<Piece>) {
    |pieces| == info.numPieces && forall i :: 0 <= i < |pieces| ==> IsPiece(info, lengths, i, pieces[i])
  }

  lemma PieceBounds(info: Info, lengths: seq<nat>, i: nat)
    requires Usable(info, lengths) && i < info.numPieces
    ensures i * info.pieceLength < info.length
    ensures 0 <= PieceStart(info, i) == i * info.pieceLength
    ensures PieceStart(info, i + 1) <= info.length && PieceStart(info, i) < PieceStart(info, i + 1)
    ensures i < info.numPieces - 1 ==> (i + 1) * info.pieceLength < info.length
    ensures i == info.numPieces - 1 ==> PieceStart(info, i + 1) == info.length
    ensures (i + 1) * info.pieceLength == i * info.pieceLength + info.pieceLength
  {
    Mult(info.pieceLength, 0, i);
    Mult(info.pieceLength, i, info.numPieces - 1);
    if i < info.numPieces - 1 { Mult(info.pieceLength, i + 1, info.numPieces - 1); }
  }

  lemma Mult(n: nat, a: nat, b: nat)
    requires a <= b
    ensures a * n <= b * n
    ensures (a + 1) * n == a * n + n && (b + 1) * n == b * n + n
  {
  }

  /** The cursor of NewPieces: `total` bytes have been assigned, up to fileOffset in
      file fileIndex. */
  ghost predicate Cursor(lengths: seq<nat>, fileIndex: int, fileOffset: nat, total: nat) {
    && 0 <= fileIndex < |lengths| && fileOffset <= lengths[fileIndex]
    && total == FileStart(lengths, fileIndex) + fileOffset
  }

  /** The cursor stands at the end of a file only when that file is empty. */
  ghost predicate BytesLeft(lengths: seq<nat>, fileIndex: nat, fileOffset: nat) {
    fileIndex < |lengths| && (fileOffset < lengths[fileIndex] || fileOffset == 0)
  }

  /** While bytes are missing there is a next file. */
  lemma NextFile(lengths: seq<nat>, fileIndex: int, total: nat)
    requires 0 <= fileIndex < |lengths| && Cursor(lengths, fileIndex, lengths[fileIndex], total)
    requires total < Total(lengths)
    ensures Cursor(lengths, fileIndex + 1, 0, total)
  {
    FileStartMonotone(lengths, fileIndex + 1, |lengths|);
  }

  /** The section after `a` goes on in the same file, or starts the next file when a ends
      its own. */
  ghost predicate Follows(lengths: seq<nat>, a: Section, b: Section) {
    || (b.file == a.file && b.offset == a.offset + a.length)
    || (b.file == a.file + 1 && b.offset == 0 && a.file < |lengths| && a.offset + a.length == lengths[a.file])
  }

  ghost predicate Chain(lengths: seq<nat>, all: seq<Section>) {
    forall k {:trigger all[k]} :: 0 < k < |all| ==> Follows(lengths, all[k - 1], all[k])
  }

  /** An empty section stands for an empty file. */
  ghost predicate Compact(all: seq<Section>) {
    forall k :: 0 <= k < |all| && all[k].length == 0 ==> all[k].offset == 0
  }

  /** The sections so far, and where the cursor stands behind them. */
  ghost predicate Trail(lengths: seq<nat>, all: seq<Section>, fileIndex: nat, fileOffset: nat) {
    && Chain(lengths, all) && Compact(all)
    && (all != [] ==> Follows(lengths, all[|all| - 1], Section(fileIndex, fileOffset, 0)))
  }

  lemma TrailSnoc(lengths: seq<nat>, all: seq<Section>, s: Section)
    requires Trail(lengths, all, s.file, s.offset) && (s.length == 0 ==> s.offset == 0)
    ensures Trail(lengths, all + [s], s.file, s.offset + s.length)
    ensures s.file < |lengths| && s.offset + s.length == lengths[s.file] ==> Trail(lengths, all + [s], s.file + 1, 0)
  {
  }

  /** All sections of the pieces a..z - 1, in order. */
  ghost function Sections(pieces: seq<Piece>, a: nat, z: nat): seq<Section> {
    if a >= z || z > |pieces| then [] else Sections(pieces, a, z - 1) + pieces[z - 1].sections
  }

  lemma {:induction false} SectionsPrefix(pieces: seq<Piece>, more: seq<Piece>, a: nat, z: nat)
    requires z <= |pieces|
    ensures Sections(pieces + more, a, z) == Sections(pieces, a, z)
  {
    if a < z { SectionsPrefix(pieces, more, a, z - 1); }
  }

  lemma {:induction false} SectionsSplit(pieces: seq<Piece>, a: nat, m: nat, z: nat)
    requires a <= m <= z <= |pieces|
    ensures Sections(pieces, a, z) == Sections(pieces, a, m) + Sections(pieces, m, z)
  {
    if m < z { SectionsSplit(pieces, a, m, z - 1); }
  }

  /** The nested loops of NewPieces. They never index past the file list, pass over
      zero-length files, and cut the files into exactly the pieces described above, in
      one unbroken chain of sections. */
  method NewPieces(info: Info, lengths: seq<nat>) returns (pieces: seq<Piece>)
    requires Usable(info, lengths)
    ensures IsLayout(info, lengths, pieces)
    ensures Chain(lengths, Sections(pieces, 0, |pieces|)) && Compact(Sections(pieces, 0, |pieces|))
  {
    hide Cursor, Trail, Usable;
    Beginning(info, lengths);
    PieceBounds(info, lengths, 0);
    var fileIndex: nat, fileOffset: nat, total: nat := 0, 0, 0;
    pieces := [];
    ghost var all := [];
    for i := 0 to info.numPieces
      invariant |pieces| == i && forall j :: 0 <= j < i ==> IsPiece(info, lengths, j, pieces[j])
      invariant Cursor(lengths, fileIndex, fileOffset, total) && total == PieceStart(info, i)
      invariant Trail(lengths, all, fileIndex, fileOffset) && all == Sections(pieces, 0, i)
      invariant total < info.length ==> BytesLeft(lengths, fileIndex, fileOffset)
    {
      PieceBounds(info, lengths, i);
      var sections, length;
      sections, length, fileIndex, fileOffset, total := CutPiece(info, lengths, i, fileIndex, fileOffset, total, all);
      HashInside(info, lengths, i);
      var p := Piece(i, length, sections, PieceHash(info, i));
      SectionsPrefix(pieces, [p], 0, i);
      assert (pieces + [p])[i] == p;
      pieces := pieces + [p];
      all := all + sections;
    }
    TrailChain(lengths, all, fileIndex, fileOffset);
  }

  lemma TrailChain(lengths: seq<nat>, all: seq<Section>, fileIndex: nat, fileOffset: nat)
    requires Trail(lengths, all, fileIndex, fileOffset)
    ensures Chain(lengths, all) && Compact(all)
  {
  }

  lemma HashInside(info: Info, lengths: seq<nat>, i: nat)
    requires Usable(info, lengths) && i < info.numPieces
    ensures (i + 1) * SHA1_SIZE <= |info.pieces| < UINT32
  {
  }

  lemma Beginning(info: Info, lengths: seq<nat>)
    requires Usable(info, lengths)
    ensures info.numPieces > 0 && info.length > 0 && Cursor(lengths, 0, 0, 0) && Trail(lengths, [], 0, 0)
  {
    PieceBounds(info, lengths, 0);
    SomeFile(lengths);
  }

  lemma SomeFile(lengths: seq<nat>)
    requires Total(lengths) > 0
    ensures Cursor(lengths, 0, 0, 0)
  {
  }

  method CutPiece(info: Info, lengths: seq<nat>, ghost i: nat, fileIndex0: nat, fileOffset0: nat, total0: nat,
                  ghost before: seq<Section>)
    returns (sections: seq<Section>, length: nat, fileIndex: nat, fileOffset: nat, total: nat)
    requires Usable(info, lengths) && i < info.numPieces
    requires Cursor(lengths, fileIndex0, fileOffset0, total0) && total0 == PieceStart(info, i)
    requires Trail(lengths, before, fileIndex0, fileOffset0) && BytesLeft(lengths, fileIndex0, fileOffset0)
    ensures sections != [] && length == PieceStart(info, i + 1) - total0 && total == PieceStart(info, i + 1)
    ensures Tiles(lengths, sections, total0, total)
    ensures Cursor(lengths, fileIndex, fileOffset, total)
    ensures Trail(lengths, before + sections, fileIndex, fileOffset)
    ensures total < info.length ==> BytesLeft(lengths, fileIndex, fileOffset)
  {
    hide Trail;
    PieceBounds(info, lengths, i);
    assert before + [] == before;
    fileIndex, fileOffset, total := fileIndex0, fileOffset0, total0;
    sections, length := [], 0;
    var left := info.pieceLength;
    while left > 0
      invariant Cursor(lengths, fileIndex, fileOffset, total) && fileIndex0 <= fileIndex
      invariant length == total - total0 && left == info.pieceLength - length
      invariant total < info.length || left == 0
      invariant Tiles(lengths, sections, total0, total) && (left == 0 ==> sections != [])
      invariant total <= PieceStart(info, i + 1)
      invariant Trail(lengths, before + sections, fileIndex, fileOffset)
      invariant total < info.length ==> BytesLeft(lengths, fileIndex, fileOffset)
      decreases left, |lengths| - fileIndex
    {
      var n := Min(left, lengths[fileIndex] - fileOffset);
      FileStartMonotone(lengths, fileIndex + 1, |lengths|);
      var section := Section(fileIndex, fileOffset, n);
      TilesSnoc(lengths, sections, total0, total, section);
      TrailSnoc(lengths, before + sections, section);
      assert before + (sections + [section]) == before + sections + [section];
      sections := sections + [section];
      left := left - n;
      length := length + n;
      fileOffset := fileOffset + n;
      total := total + n;
      if total == info.length { break; }
      if lengths[fileIndex] - fileOffset == 0 {
        NextFile(lengths, fileIndex, total);
        fileIndex, fileOffset := fileIndex + 1, 0;
      }
    }
  }

  lemma TilesSnoc(lengths: seq<nat>, p: seq<Section>, a: nat, z: nat, s: Section)
    requires Tiles(lengths, p, a, z) && Inside(lengths, s) && Pos(lengths, s) == z
    ensures Tiles(lengths, p + [s], a, z + s.length)
  {
    assert (p + [s])[..|p|] == p;
  }

  /** The pieces tile Flat: each starts where the one before ended. */
  lemma LayoutTiles(info: Info, lengths: seq<nat>, files: seq<bytes>, pieces: seq<Piece>, i: nat)
    requires IsLayout(info, lengths, pieces) && Lengths(files) == lengths && i < |pieces|
    ensures |Flat(files)| == info.length
    ensures 0 <= PieceStart(info, i) <= PieceStart(info, i + 1) <= info.length
    ensures Bytes(files, pieces[i].sections) == Flat(files)[PieceStart(info, i)..PieceStart(info, i + 1)]
    ensures SectionsLength(pieces[i].sections) == pieces[i].length
    ensures forall k :: 0 <= k < |pieces[i].sections| ==> Inside(lengths, pieces[i].sections[k])
  {
    assert IsPiece(info, lengths, i, pieces[i]);
    PieceBounds(info, lengths, i);
    FlatLength(files);
    TilesInside(lengths, pieces[i].sections, PieceStart(info, i), PieceStart(info, i + 1));
    TilesBytes(files, pieces[i].sections, PieceStart(info, i), PieceStart(info, i + 1));
  }

  // ---- writing pieces in any order

  datatype WriteOp = WriteOp(piece: nat, data: bytes)

  ghost predicate Writable(info: Info, ops: seq<WriteOp>) {
    forall k :: 0 <= k < |ops| ==>
      && ops[k].piece < info.numPieces
      && |ops[k].data| == PieceStart(info, ops[k].piece + 1) - PieceStart(info, ops[k].piece)
  }

  method WritePiece(disk: Disk, info: Info, lengths: seq<nat>, pieces: seq<Piece>, op: WriteOp)
    requires Usable(info, lengths) && IsLayout(info, lengths, pieces) && Lengths(disk.files) == lengths
    requires op.piece < info.numPieces && |op.data| == PieceStart(info, op.piece + 1) - PieceStart(info, op.piece)
    modifies disk
    ensures Lengths(disk.files) == lengths
    ensures forall i: nat :: i < info.numPieces ==>
              PieceData(info, disk.files, i) == if i == op.piece then op.data else PieceData(info, old(disk.files), i)
  {
    ghost var before := disk.files;
    ghost var a := WritePlace(info, lengths, before, pieces, op);
    disk.Write(pieces[op.piece].sections, op.data, a);
    WriteOthers(info, lengths, before, disk.files, op);
  }

  lemma WritePlace(info: Info, lengths: seq<nat>, files: seq<bytes>, pieces: seq<Piece>, op: WriteOp) returns (a: nat)
    requires Usable(info, lengths) && IsLayout(info, lengths, pieces) && Lengths(files) == lengths
    requires op.piece < info.numPieces && |op.data| == PieceStart(info, op.piece + 1) - PieceStart(info, op.piece)
    ensures a == PieceStart(info, op.piece) && a + |op.data| == PieceStart(info, op.piece + 1) <= |Flat(files)|
    ensures Tiles(lengths, pieces[op.piece].sections, a, a + |op.data|)
  {
    PieceBounds(info, lengths, op.piece);
    LayoutTiles(info, lengths, files, pieces, op.piece);
    assert IsPiece(info, lengths, op.piece, pieces[op.piece]);
    a := PieceStart(info, op.piece);
  }

  lemma WriteOthers(info: Info, lengths: seq<nat>, files: seq<bytes>, files': seq<bytes>, op: WriteOp)
    requires Usable(info, lengths) && Lengths(files) == lengths && Lengths(files') == lengths
    requires op.piece < info.numPieces
    requires 0 <= PieceStart(info, op.piece)
    requires PieceStart(info, op.piece) + |op.data| == PieceStart(info, op.piece + 1) <= |Flat(files)|
    requires Flat(files') == Splice(Flat(files), PieceStart(info, op.piece), op.data)
    ensures forall i: nat :: i < info.numPieces ==>
              PieceData(info, files', i) == if i == op.piece then op.data else PieceData(info, files, i)
  {
    forall i: nat | i < info.numPieces
      ensures PieceData(info, files', i) == if i == op.piece then op.data else PieceData(info, files, i)
    {
      WriteOther(info, lengths, files, files', op, i);
    }
  }

  /** Piece.Write for each op, one after the other. */
  method WriteAll(disk: Disk, info: Info, lengths: seq<nat>, pieces: seq<Piece>, ops: seq<WriteOp>)
    requires Usable(info, lengths) && IsLayout(info, lengths, pieces) && Lengths(disk.files) == lengths
    requires Writable(info, ops)
    modifies disk
    ensures Lengths(disk.files) == lengths
    ensures forall i: nat :: i < info.numPieces ==>
              PieceData(info, disk.files, i) == LastWritten(info, old(disk.files), ops, i)
  {
    ghost var before := disk.files;
    for k := 0 to |ops|
      invariant Lengths(disk.files) == lengths
      invariant forall i: nat :: i < info.numPieces ==>
                PieceData(info, disk.files, i) == LastWritten(info, before, ops[..k], i)
    {
      WritePiece(disk, info, lengths, pieces, ops[k]);
      assert ops[..k + 1][..k] == ops[..k];
    }
    assert ops[..|ops|] == ops;
  }

  /** The bytes of piece i, read off the concatenated files. */
  ghost function PieceData(info: Info, files: seq<bytes>, i: nat): bytes {
    Part(Flat(files), PieceStart(info, i), PieceStart(info, i + 1))
  }

  ghost function Part(f: bytes, a: int, z: int): bytes {
    if 0 <= a <= z <= |f| then f[a..z] else []
  }

  ghost function LastWritten(info: Info, files: seq<bytes>, ops: seq<WriteOp>, i: nat): bytes {
    if ops == [] then PieceData(info, files, i)
    else if ops[|ops| - 1].piece == i then ops[|ops| - 1].data
    else LastWritten(info, files, ops[..|ops| - 1], i)
  }

  /** Writing one piece gives that piece the data and leaves every other piece alone. */
  lemma WriteOther(info: Info, lengths: seq<nat>, files: seq<bytes>, files': seq<bytes>, op: WriteOp, i: nat)
    requires Usable(info, lengths) && Lengths(files) == lengths && Lengths(files') == lengths
    requires op.piece < info.numPieces && i < info.numPieces
    requires 0 <= PieceStart(info, op.piece)
    requires PieceStart(info, op.piece) + |op.data| == PieceStart(info, op.piece + 1) <= |Flat(files)|
    requires Flat(files') == Splice(Flat(files), PieceStart(info, op.piece), op.data)
    ensures PieceData(info, files', i) == if i == op.piece then op.data else PieceData(info, files, i)
  {
    FlatLength(files);
    PieceBounds(info, lengths, i);
    if i != op.piece {
      PiecesDisjoint(info, lengths, i, op.piece);
      SpliceElsewhere(Flat(files), PieceStart(info, op.piece), op.data, PieceStart(info, i), PieceStart(info, i + 1));
    }
  }

  lemma PiecesDisjoint(info: Info, lengths: seq<nat>, i: nat, j: nat)
    requires Usable(info, lengths) && i < info.numPieces && j < info.numPieces && i != j
    ensures PieceStart(info, i + 1) <= PieceStart(info, j) || PieceStart(info, j + 1) <= PieceStart(info, i)
    ensures PieceStart(info, i) != PieceStart(info, j)
  {
    PieceBounds(info, lengths, i);
    PieceBounds(info, lengths, j);
    if i < j { Mult(info.pieceLength, i + 1, j); } else { Mult(info.pieceLength, j + 1, i); }
  }

  /** After writes in any order, reading inside any piece gives the last bytes written to
      it, and reading across its end is refused. */
  method ReadPiece(disk: Disk, info: Info, lengths: seq<nat>, pieces: seq<Piece>, i: nat, n: nat, off: nat)
    returns (r: ReadResult)
    requires Usable(info, lengths) && IsLayout(info, lengths, pieces) && Lengths(disk.files) == lengths
    requires i < |pieces|
    ensures |PieceData(info, disk.files, i)| == pieces[i].length
    ensures r == if off > pieces[i].length then OutOfRange
                 else if off + n <= pieces[i].length then Full(PieceData(info, disk.files, i)[off..off + n])
                 else UnexpectedEOF
  {
    LayoutTiles(info, lengths, disk.files, pieces, i);
    assert IsPiece(info, lengths, i, pieces[i]);
    r := disk.ReadAt(pieces[i].sections, n, off);
  }
}
