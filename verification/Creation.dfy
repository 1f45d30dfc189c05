/** internal/metainfo/info.go (NewInfoBytes) and internal/verifier/verifier.go: hashing
    the files on disk into a torrent, and checking files against it. SHA-1 is a function
    `hash` about which only the digest size is known. */
module Creation {
  import opened Common
  import opened Storage
  import opened PieceLayout
  import opened PieceLengths

  type Hash = bytes -> bytes

  ghost predicate IsHash(hash: Hash) {
    forall b: bytes :: |hash(b)| == SHA1_SIZE
  }

  ghost function Chunk(flat: bytes, n: nat, i: nat): bytes {
    var a, z := Min(i * n, |flat|), Min((i + 1) * n, |flat|);
    if 0 <= a <= z <= |flat| then flat[a..z] else []
  }

  ghost function Hashes(flat: bytes, n: nat, hash: Hash, k: nat): bytes {
    if k == 0 then [] else Hashes(flat, n, hash, k - 1) + hash(Chunk(flat, n, k - 1))
  }

  lemma {:induction false} HashesAt(flat: bytes, n: nat, hash: Hash, k: nat, i: nat)
    requires IsHash(hash) && i < k
    ensures |Hashes(flat, n, hash, k)| == k * SHA1_SIZE
    ensures Hashes(flat, n, hash, k)[i * SHA1_SIZE..(i + 1) * SHA1_SIZE] == hash(Chunk(flat, n, i))
    decreases k
  {
    var front := Hashes(flat, n, hash, k - 1);
    if i < k - 1 {
      HashesAt(flat, n, hash, k - 1, i);
    } else if k > 1 {
      HashesAt(flat, n, hash, k - 1, 0);
    }
  }

  // ---- creating

  /** `h` whole chunks are hashed and the next `offset` bytes wait in the buffer. */
  ghost predicate Buffered(flat: bytes, n: nat, hash: Hash, h: nat, waiting: bytes, pieces: bytes, at: nat) {
    && |waiting| < n && at == h * n + |waiting| <= |flat|
    && waiting == flat[h * n..at]
    && pieces == Hashes(flat, n, hash, h)
  }

  /** io.ReadFull into buf[offset..]: as many bytes as there are and fit. */
  method ReadFull(file: bytes, pos: nat, buf: array<byte>, offset: nat) returns (n: nat)
    requires pos <= |file| && offset <= buf.Length
    modifies buf
    ensures n == Min(|file| - pos, buf.Length - offset)
    ensures buf[..offset + n] == old(buf[..offset]) + file[pos..pos + n]
  {
    n := Min(|file| - pos, buf.Length - offset);
    for k := 0 to n
      invariant buf[..offset + k] == old(buf[..offset]) + file[pos..pos + k]
    {
      buf[offset + k] := file[pos + k];
      assert buf[..offset + k + 1] == buf[..offset + k] + [file[pos + k]];
    }
  }

  lemma BufferMore(flat: bytes, n: nat, hash: Hash, h: nat, waiting: bytes, pieces: bytes, at: nat, more: bytes)
    requires n > 0 && Buffered(flat, n, hash, h, waiting, pieces, at)
    requires |waiting| + |more| <= n && at + |more| <= |flat| && more == flat[at..at + |more|]
    ensures |waiting| + |more| < n ==> Buffered(flat, n, hash, h, waiting + more, pieces, at + |more|)
    ensures |waiting| + |more| == n ==>
              Buffered(flat, n, hash, h + 1, [], pieces + hash(waiting + more), at + |more|)
  {
    var c := h * n;
    SliceConcat(flat, c, at, at + |more|);
    if |waiting| + |more| == n {
      WholeChunk(flat, n, h);
      NextBuffered(flat, n, hash, h, pieces, at + |more|);
    }
  }

  lemma NextBuffered(flat: bytes, n: nat, hash: Hash, h: nat, pieces: bytes, at: nat)
    requires n > 0 && pieces == Hashes(flat, n, hash, h) && at == (h + 1) * n <= |flat|
    ensures Buffered(flat, n, hash, h + 1, [], pieces + hash(Chunk(flat, n, h)), at)
  {
  }

  lemma WholeChunk(flat: bytes, n: nat, h: nat)
    requires 0 <= h * n && h * n + n <= |flat|
    ensures (h + 1) * n == h * n + n && Chunk(flat, n, h) == flat[h * n..h * n + n]
  {
  }

  /** The visit loop over one file. */
  method HashFile(files: seq<bytes>, f: nat, hash: Hash, buf: array<byte>, offset0: nat, pieces0: bytes, ghost h0: nat)
    returns (offset: nat, pieces: bytes, ghost h: nat)
    requires f < |files| && buf.Length > 0 && offset0 <= buf.Length
    requires Buffered(Flat(files), buf.Length, hash, h0, buf[..offset0], pieces0, FileStart(Lengths(files), f))
    modifies buf
    ensures offset <= buf.Length
    ensures Buffered(Flat(files), buf.Length, hash, h, buf[..offset], pieces, FileStart(Lengths(files), f + 1))
  {
    hide Chunk, Hashes;
    offset, pieces, h := offset0, pieces0, h0;
    ghost var start := FileStart(Lengths(files), f);
    var pos: nat := 0;
    FlatFile(files, f);
    while true
      invariant pos <= |files[f]| && offset < buf.Length
      invariant Buffered(Flat(files), buf.Length, hash, h, buf[..offset], pieces, start + pos)
      decreases |files[f]| - pos
    {
      ghost var waiting := buf[..offset];
      var n := ReadFull(files[f], pos, buf, offset);
      ghost var more := FileSlice(files, f, pos, n);
      BufferMore(Flat(files), buf.Length, hash, h, waiting, pieces, start + pos, more);
      pos := pos + n;
      offset := offset + n;
      if offset < buf.Length {  // EOF or unexpected EOF: go on with the next file
        assert start + pos == FileStart(Lengths(files), f + 1);
        return;
      }
      assert buf[..] == buf[..offset] && buf[..0] == [];
      pieces := pieces + hash(buf[..]);
      offset := 0;
      h := h + 1;
    }
  }

  lemma FileSlice(files: seq<bytes>, f: nat, pos: nat, n: nat) returns (more: bytes)
    requires f < |files| && pos + n <= |files[f]|
    ensures |more| == n && more == files[f][pos..pos + n]
    ensures var at := FileStart(Lengths(files), f) + pos;
            at + n <= |Flat(files)| && more == Flat(files)[at..at + n]
  {
    more := files[f][pos..pos + n];
    var s := Section(f, pos, n);
    assert Inside(Lengths(files), s);
    SectionIsSlice(files, s);
    assert SectionBytes(files, s) == files[f][pos..pos + n];
    assert Pos(Lengths(files), s) == FileStart(Lengths(files), f) + pos;
  }

  datatype CreateResult = Created(dict: InfoDict) | NoFiles | BadPieceLength

  function CeilDiv(a: nat, b: nat): nat
    requires b > 0
  {
    (a + b - 1) / b
  }

  /** The chunking of NewInfoBytes, with the file list already walked. */
  method HashFiles(files: seq<bytes>, n: nat, hash: Hash) returns (pieces: bytes)
    requires n > 0
    ensures pieces == Hashes(Flat(files), n, hash, CeilDiv(|Flat(files)|, n))
  {
    var buf := new byte[n](_ => 0);
    var offset: nat := 0;
    pieces := [];
    ghost var h: nat := 0;
    assert buf[..0] == [];
    for f := 0 to |files|
      invariant offset <= n
      invariant Buffered(Flat(files), n, hash, h, buf[..offset], pieces, FileStart(Lengths(files), f))
    {
      offset, pieces, h := HashFile(files, f, hash, buf, offset, pieces, h);
    }
    FlatLength(files);
    LastChunk(Flat(files), n, h, offset);
    if offset > 0 { pieces := pieces + hash(buf[..offset]); }
  }

  lemma LastChunk(flat: bytes, n: nat, h: nat, offset: nat)
    requires n > 0 && offset < n && |flat| == h * n + offset
    ensures CeilDiv(|flat|, n) == if offset > 0 then h + 1 else h
    ensures offset > 0 ==> Chunk(flat, n, h) == flat[h * n..|flat|]
  {
    assert (h + 1) * n == h * n + n;
    Quotient(n, h, offset);
  }

  lemma Quotient(n: nat, h: nat, offset: nat)
    requires n > 0 && offset < n
    ensures CeilDiv(h * n + offset, n) == if offset > 0 then h + 1 else h
  {
    var q := CeilDiv(h * n + offset, n);
    var r := (h * n + offset + n - 1) % n;
    assert h * n + offset + n - 1 == q * n + r;
    var goal := if offset > 0 then h + 1 else h;
    Monotone(n, q + 1, goal);
    Monotone(n, goal + 1, q);
  }

  lemma Monotone(n: nat, a: nat, b: nat)
    ensures a <= b ==> a * n <= b * n
  {
    if a <= b { Mult(n, a, b); }
  }

  /** NewInfoBytes on the contents of the walked files; `single` is a torrent of one
      plain file. */
  method NewInfoBytes(files: seq<bytes>, single: bool, pieceLength: nat, hash: Hash) returns (r: CreateResult)
    requires (single ==> |files| == 1) && pieceLength < UINT32
    ensures r == CreateSpec(files, single, pieceLength, hash)
    ensures r.NoFiles? <==> |Flat(files)| == 0
    ensures r.BadPieceLength? <==> |Flat(files)| > 0 && pieceLength % (16 * 1024) != 0
    ensures r.Created? && pieceLength == 0 ==> Fitting(r.dict.pieceLength, |Flat(files)|)
    ensures r.Created? && pieceLength > 0 ==> r.dict.pieceLength == pieceLength
    ensures r.Created? ==> if single then r.dict.length == |Flat(files)| && r.dict.files == []
                           else r.dict.length == 0 && r.dict.files == Lengths(files)
  {
    CalculatedFits(|Flat(files)|);
    hide Fitting;
    var total := 0;
    for f := 0 to |files|
      invariant total == FileStart(Lengths(files), f)
    {
      total := total + |files[f]|;
    }
    FlatLength(files);
    if total == 0 { return NoFiles; }
    var n := pieceLength;
    if n == 0 {
      n := CalculatePieceLength(total);
    } else if n % (16 * 1024) != 0 {
      return BadPieceLength;
    }
    PieceLengthPositive(total);
    var pieces := HashFiles(files, n, hash);
    r := Created(InfoDict(n, pieces, if single then total else 0, if single then [] else Lengths(files)));
  }

  ghost function CreateSpec(files: seq<bytes>, single: bool, pieceLength: nat, hash: Hash): (r: CreateResult)
    ensures r.Created? && pieceLength < UINT32 ==> 0 < r.dict.pieceLength < UINT32
  {
    var total := |Flat(files)|;
    if total == 0 then NoFiles
    else if pieceLength % (16 * 1024) != 0 then BadPieceLength
    else
      PieceLengthPositive(total);
      var n := if pieceLength == 0 then CalculatePieceLength(total) else pieceLength;
      Created(InfoDict(n, Hashes(Flat(files), n, hash, CeilDiv(total, n)),
                       if single then total else 0, if single then [] else Lengths(files)))
  }

  // ---- verifying

  /** Verifier.Run; each read succeeds because the files have their full lengths. The
      slice buf[:p.Length] never exceeds the buffer made for the first piece. */
  method Verify(disk: Disk, info: Info, lengths: seq<nat>, pieces: seq<Piece>, hash: Hash) returns (bits: seq<bool>)
    requires Usable(info, lengths) && IsLayout(info, lengths, pieces) && Lengths(disk.files) == lengths
    ensures |bits| == |pieces|
    ensures forall i :: 0 <= i < |bits| ==> (bits[i] <==> hash(PieceData(info, disk.files, i)) == pieces[i].hash)
  {
    bits := seq(|pieces|, _ => false);
    var capacity := pieces[0].length;
    for i := 0 to |pieces|
      invariant |bits| == |pieces|
      invariant forall j :: 0 <= j < i ==> (bits[j] <==> hash(PieceData(info, disk.files, j)) == pieces[j].hash)
    {
      var p := pieces[i];
      assert IsPiece(info, lengths, i, p) && IsPiece(info, lengths, 0, pieces[0]);
      FirstIsLongest(info, lengths, pieces, i);
      assert p.length <= capacity;
      var read := ReadPiece(disk, info, lengths, pieces, i, p.length, 0);
      assert read.Full? && read.data == PieceData(info, disk.files, i);
      bits := bits[p.index := |read.data| == p.length && hash(read.data) == p.hash];
    }
  }

  lemma FirstIsLongest(info: Info, lengths: seq<nat>, pieces: seq<Piece>, i: nat)
    requires Usable(info, lengths) && IsLayout(info, lengths, pieces) && i < |pieces|
    ensures pieces[i].length <= pieces[0].length
  {
    assert IsPiece(info, lengths, i, pieces[i]) && IsPiece(info, lengths, 0, pieces[0]);
    PieceBounds(info, lengths, i);
    PieceBounds(info, lengths, 0);
  }

  /** Without a bound on the hash string NewInfo counts its pieces modulo 2^32. */
  lemma CreatedAccepted(files: seq<bytes>, single: bool, pieceLength: nat, hash: Hash)
    requires IsHash(hash) && (single ==> |files| == 1) && pieceLength < UINT32 && |Flat(files)| < INT64
    requires CreateSpec(files, single, pieceLength, hash).Created?
    ensures var d := CreateSpec(files, single, pieceLength, hash).dict;
            var k := CeilDiv(|Flat(files)|, d.pieceLength);
            && d.Decoded() && d.FileLengths() == Lengths(files) && Sum(d.FileLengths()) == |Flat(files)|
            && d.pieceLength > 0 && d.pieces == Hashes(Flat(files), d.pieceLength, hash, k)
            && |d.pieces| == k * SHA1_SIZE
            && (|d.pieces| < UINT32 ==>
                  && NewInfo(d).Accepted? && NewInfo(d).info.numPieces == k
                  && NewInfo(d).info.pieces == d.pieces && NewInfo(d).info.pieceLength == d.pieceLength)
  {
    hide CalculatePieceLength, Hashes, Flat, Wrap64, NewInfo, Sum, FileStart;
    var flat := Flat(files);
    PieceLengthPositive(|flat|);
    var d := CreateSpec(files, single, pieceLength, hash).dict;
    var k := CeilDiv(|flat|, d.pieceLength);
    FlatLength(files);
    CeilBounds(|flat|, d.pieceLength);
    HashesAt(flat, d.pieceLength, hash, k, 0);
    FilesFit(files);
    SumIsTotal(Lengths(files), Lengths(files), |files|);
    assert Lengths(files)[..|files|] == Lengths(files);
    OneFile(files);
    if |d.pieces| < UINT32 { CoveredAccepted(d, k, |flat|); }
  }

  lemma OneFile(files: seq<bytes>)
    ensures |Flat(files)| > 0 ==> |files| > 0
    ensures |files| == 1 ==> Lengths(files) == [|Flat(files)|]
  {
    FlatLength(files);
    assert |files| == 1 ==> FileStart(Lengths(files), 1) == |files[0]|;
  }

  lemma FilesFit(files: seq<bytes>)
    ensures forall j :: 0 <= j < |files| ==> |files[j]| <= |Flat(files)|
  {
    FlatLength(files);
    forall j | 0 <= j < |files| ensures |files[j]| <= |Flat(files)| {
      FileStartMonotone(Lengths(files), j + 1, |files|);
    }
  }

  lemma CoveredAccepted(d: InfoDict, k: nat, total: nat)
    requires d.Decoded() && d.pieceLength > 0 && 0 < k && |d.pieces| == k * SHA1_SIZE && |d.pieces| < UINT32
    requires Sum(d.FileLengths()) == total < INT64 && 0 <= d.pieceLength * k - total < d.pieceLength
    ensures NewInfo(d).Accepted? && NewInfo(d).info.numPieces == k && NewInfo(d).info.pieces == d.pieces
    ensures NewInfo(d).info.pieceLength == d.pieceLength
  {
    hide Wrap64;
    LengthWraps(d);
    WrapExactly(total);
    WrapAdd(d.pieceLength * k, 0 - total);
    WrapExactly(d.pieceLength * k - total);
  }

  /** The metadata of any files with some content, of less than 4 GiB of hashes, passes
      NewInfo's checks and records for each piece the hash of the bytes NewPieces assigns
      to it; with more hashes it cannot be laid out. */
  lemma CreatedIsUsable(files: seq<bytes>, single: bool, pieceLength: nat, hash: Hash)
    requires IsHash(hash) && (single ==> |files| == 1) && pieceLength < UINT32 && |Flat(files)| < INT64
    requires CreateSpec(files, single, pieceLength, hash).Created?
    ensures var d := CreateSpec(files, single, pieceLength, hash).dict;
            && (NewInfo(d).Accepted? && Usable(NewInfo(d).info, Lengths(files)) <==> |d.pieces| < UINT32)
            && (|d.pieces| < UINT32 ==> forall i: nat :: i < NewInfo(d).info.numPieces ==>
                  && (i + 1) * SHA1_SIZE <= |NewInfo(d).info.pieces|
                  && PieceHash(NewInfo(d).info, i) == hash(PieceData(NewInfo(d).info, files, i)))
  {
    hide CreateSpec, Hashes, Wrap64, Flat, Sum;
    CreatedAccepted(files, single, pieceLength, hash);
    var d := CreateSpec(files, single, pieceLength, hash).dict;
    assert Naturals(d.FileLengths()) == Lengths(files);
    if NewInfo(d).Accepted? { AcceptedIsUsable(d); }
    if |d.pieces| < UINT32 {
      var info := NewInfo(d).info;
      FlatLength(files);
      forall i: nat | i < info.numPieces
        ensures (i + 1) * SHA1_SIZE <= |info.pieces| && PieceHash(info, i) == hash(PieceData(info, files, i))
      {
        HashesAt(Flat(files), info.pieceLength, hash, info.numPieces, i);
      }
    }
  }

  lemma CeilBounds(a: nat, b: nat)
    requires a > 0 && b > 0
    ensures CeilDiv(a, b) > 0 && 0 <= b * CeilDiv(a, b) - a < b
  {
    var q := CeilDiv(a, b);
    var r := (a + b - 1) % b;
    assert a + b - 1 == q * b + r;
    Monotone(b, q, 0);
  }

  /** Create, then verify the same files: every bit is set. */
  method CreateThenVerify(disk: Disk, single: bool, pieceLength: nat, hash: Hash)
    returns (r: CreateResult, bits: seq<bool>)
    requires IsHash(hash) && (single ==> |disk.files| == 1) && pieceLength < UINT32 && |Flat(disk.files)| < INT64
    ensures r == CreateSpec(disk.files, single, pieceLength, hash)
    ensures r.Created? && |r.dict.pieces| < UINT32 ==> |bits| > 0 && forall i :: 0 <= i < |bits| ==> bits[i]
  {
    bits := [];
    r := NewInfoBytes(disk.files, single, pieceLength, hash);
    if r.Created? && |r.dict.pieces| < UINT32 {
      CreatedIsUsable(disk.files, single, pieceLength, hash);
      var info := NewInfo(r.dict).info;
      var lengths := Lengths(disk.files);
      var pieces := NewPieces(info, lengths);
      bits := Verify(disk, info, lengths, pieces, hash);
      forall i | 0 <= i < |bits| ensures bits[i] {
        assert IsPiece(info, lengths, i, pieces[i]);
      }
    }
  }
}
