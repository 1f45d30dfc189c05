/** internal/cachedpiece/cachedpiece.go: reading a piece through the cache. */
module CachedPieces {
  import opened BigEndian
  import opened Blocks
  import opened Common
  import opened PieceCaches
  import opened PieceLayout
  import opened Storage

  function CacheKey(peerID: bytes, index: nat, blk: nat): Key {
    peerID + Be32(index) + Be32(blk)
  }

  // ---- what a read should return, and what it returns

  /** The cache block that holds `off`: where it begins and where it ends. */
  function BlockBegin(readSize: nat, off: nat): nat
    requires readSize > 0
  {
    off / readSize * readSize
  }

  function BlockEnd(length: nat, readSize: nat, off: nat): int
    requires readSize > 0
  {
    Min(BlockBegin(readSize, off) + readSize, length)
  }

  /** The end of the block as a uint32. */
  function Wrapped(readSize: nat, off: nat): nat
    requires readSize > 0
  {
    (BlockBegin(readSize, off) + readSize) % UINT32
  }

  /** The block's end is a 32-bit number, or wraps around to one behind the piece. */
  predicate Fits(length: nat, readSize: nat, off: nat)
    requires readSize > 0
  {
    BlockBegin(readSize, off) + readSize < UINT32 || Wrapped(readSize, off) >= length
  }

  /** A read sliced or indexed out of range panics. */
  datatype Outcome = Data(data: bytes) | Failed | Panicked

  /** What the piece holds from off on, up to n bytes and to the end of the cache block. */
  ghost predicate Right(d: bytes, readSize: nat, off: nat, n: nat, r: Outcome)
    requires readSize > 0
  {
    off <= |d| && r == Data(Part(d, off, Min(off + n, BlockEnd(|d|, readSize, off))))
  }

  /** Where the block in the cache ends, if it can be read at all. A block whose end wraps
      around has no room for its bytes, unless the read size does not fit into 32 bits
      itself: then only the first bytes of the piece are kept. */
  function Stop(length: nat, readSize: nat, off: nat): int
    requires readSize > 0
  {
    if Fits(length, readSize, off) then BlockEnd(length, readSize, off) else Wrapped(readSize, off)
  }

  /** For every position of a request, behind the end of the piece as well. */
  ghost function Answer(d: bytes, readSize: nat, off: nat, n: nat): Outcome
    requires readSize > 0
  {
    if BlockBegin(readSize, off) > |d| then Panicked
    else if !Fits(|d|, readSize, off) && readSize < UINT32 then Failed
    else if off > Stop(|d|, readSize, off) then Panicked
    else Data(Part(d, off, Min(off + n, Stop(|d|, readSize, off))))
  }

  lemma AnswerExactly(d: bytes, readSize: nat, off: nat, n: nat)
    requires readSize > 0 && off < UINT32 && |d| < UINT32
    ensures Right(d, readSize, off, n, Answer(d, readSize, off, n)) <==>
              && off <= |d|
              && (Fits(|d|, readSize, off) || (readSize >= UINT32 && off + n <= Wrapped(readSize, off)))
  {
    hide BlockBegin, Wrapped, Part;
    Quotient(off, readSize);
    BeginOf(readSize, off);
    if !Fits(|d|, readSize, off) && readSize >= UINT32 && off <= |d| {
      Few(readSize, off);
      var w := Wrapped(readSize, off);
      assert BlockEnd(|d|, readSize, off) == |d| > w;
      if off <= w {
        PartLength(d, off, Min(off + n, w));
        PartLength(d, off, Min(off + n, |d|));
      }
    }
  }

  lemma BeginOf(readSize: nat, off: nat)
    requires readSize > 0
    ensures BlockBegin(readSize, off) <= off < BlockBegin(readSize, off) + readSize
  {
    Quotient(off, readSize);
  }

  lemma PartLength(d: bytes, a: nat, z: nat)
    requires a <= z <= |d|
    ensures |Part(d, a, z)| == z - a
  {
  }

  /** Pieces and cache blocks that stay below 4 GiB together are always read right. */
  lemma AlwaysFits(length: nat, readSize: nat, off: nat)
    requires readSize > 0 && off < length && length + readSize <= UINT32
    ensures Fits(length, readSize, off)
  {
    Quotient(off, readSize);
  }

  /** Blocks of 2 GiB: the second half of a piece of 4 GiB - 1 cannot be read. Blocks of
      4 GiB: only the position 0 can be read, and nothing is returned. */
  lemma BlocksTooLarge(d: bytes, n: nat)
    requires |d| == UINT32 - 1
    ensures Answer(d, UINT32 / 2, UINT32 / 2, n) == Failed
    ensures Answer(d, UINT32, 1, n) == Panicked && Answer(d, UINT32, 0, n) == Data([])
  {
  }

  /** Pieces differ in their keys, and so do the blocks of one piece. */
  lemma KeyInjective(peerID: bytes, index: nat, blk: nat, index': nat, blk': nat)
    requires index < UINT32 && blk < UINT32 && index' < UINT32 && blk' < UINT32
    requires CacheKey(peerID, index, blk) == CacheKey(peerID, index', blk')
    ensures index == index' && blk == blk'
  {
    KeyParts(peerID, index, blk);
    KeyParts(peerID, index', blk');
  }

  lemma KeyParts(peerID: bytes, index: nat, blk: nat)
    requires index < UINT32 && blk < UINT32
    ensures var (k, n) := (CacheKey(peerID, index, blk), |peerID|);
            |k| == n + 8 && FromBe32(k[n..n + 4]) == index && FromBe32(k[n + 4..]) == blk
  {
    var (k, n) := (CacheKey(peerID, index, blk), |peerID|);
    assert k[n..n + 4] == Be32(index) && k[n + 4..] == Be32(blk);
    Be32RoundTrip(index);
    Be32RoundTrip(blk);
  }

  /** What loading block blk yields, with the end and the size taken modulo 2^32. */
  ghost function LoadedBlock(d: bytes, readSize: nat, blk: nat): Option<bytes> {
    var at := Start(blk, readSize);
    var size := (Min((at + readSize) % UINT32, |d|) - at) % UINT32;
    if at + size <= |d| then Some(d[at..at + size]) else None
  }

  function Start(blk: nat, readSize: nat): nat {
    blk * readSize
  }

  /** What the cache may hold under a key. */
  ghost function LoadedKey(data: nat -> bytes, readSize: nat, k: Key): Option<bytes> {
    if |k| != 28 then None else LoadedBlock(data(FromBe32(k[20..24])), readSize, FromBe32(k[24..]))
  }

  ghost function Source(data: nat -> bytes, readSize: nat): Key -> bytes {
    k => match LoadedKey(data, readSize, k) case Some(v) => v case None => []
  }

  lemma SourceAt(data: nat -> bytes, peerID: bytes, index: nat, readSize: nat, off: nat)
    requires |peerID| == 20 && index < UINT32 && readSize > 0 && off < UINT32
    ensures off / readSize < UINT32 && Start(off / readSize, readSize) == BlockBegin(readSize, off)
    ensures LoadedKey(data, readSize, CacheKey(peerID, index, off / readSize))
              == LoadedBlock(data(index), readSize, off / readSize)
  {
    Quotient(off, readSize);
    KeyParts(peerID, index, off / readSize);
  }

  lemma Quotient(off: nat, n: nat)
    requires n > 0
    ensures 0 <= off / n * n <= off < off / n * n + n && off / n <= off
  {
    assert off == n * (off / n) + off % n;
    assert n * (off / n) == off / n * n;
    var q := off / n;
    assert q <= q * n by { Scaled(q, n); }
  }

  lemma Scaled(q: nat, n: nat)
    requires n > 0
    ensures q <= q * n
  {
  }

  /** With whole blocks as the read size, no block of a piece straddles two cache blocks. */
  lemma NoStraddle(length: nat, readSize: nat, i: nat)
    requires i < NumBlocks(length) && readSize > 0 && readSize % BLOCK_SIZE == 0
    ensures var b := GetBlock(length, i).value;
            b.begin + b.length <= BlockEnd(length, readSize, b.begin)
  {
    BlocksTile(length, i);
    var b := GetBlock(length, i).value;
    var k := readSize / BLOCK_SIZE;
    Quotient(b.begin, readSize);
    var q := b.begin / readSize;
    assert readSize == k * BLOCK_SIZE;
    assert q * readSize + readSize == (q * k + k) * BLOCK_SIZE by { Spread(q, k, BLOCK_SIZE); }
    assert i < q * k + k;
  }

  lemma Spread(q: int, k: int, m: int)
    ensures q * (k * m) + k * m == (q * k + k) * m
  {
    assert q * (k * m) == (q * k) * m;
  }

  class CachedPiece {
    const pi: Piece
    const disk: Disk
    const cache: Cache
    const readSize: nat
    const peerID: bytes

    constructor (pi: Piece, disk: Disk, cache: Cache, readSize: nat, peerID: bytes)
      ensures this.pi == pi && this.disk == disk && this.cache == cache && this.readSize == readSize
      ensures this.peerID == peerID
    {
      this.pi, this.disk, this.cache, this.readSize, this.peerID := pi, disk, cache, readSize, peerID;
    }

    /** The piece is one of a torrent whose piece i holds the bytes data(i), and the cache
        has only been filled from them. */
    ghost predicate Serves(data: nat -> bytes)
      reads cache, disk
    {
      && cache.Valid() && Filled(data) && |peerID| == 20 && 0 < readSize < INT64
      && pi.index < UINT32 && pi.length < UINT32 && pi.sections != []
      && (forall k :: 0 <= k < |pi.sections| ==> Inside(Lengths(disk.files), pi.sections[k]))
      && Bytes(disk.files, pi.sections) == data(pi.index)
      && SectionsLength(pi.sections) == pi.length == |data(pi.index)|
    }

    ghost predicate Filled(data: nat -> bytes)
      reads cache
    {
      cache.Holds(Source(data, readSize)) && forall k :: k in cache.items ==> LoadedKey(data, readSize, k).Some?
    }

    /** ReadAt into n bytes, from the cache or from disk, at any position of a request. */
    method ReadAt(n: nat, off: nat, now: int, ghost data: nat -> bytes) returns (r: Outcome)
      requires Serves(data) && off < UINT32
      modifies cache
      ensures Serves(data)
      ensures r == Answer(data(pi.index), readSize, off, n)
    {
      hide LoadedKey, LoadedBlock, CacheKey, Answer, BlockBegin, Wrapped, Cache.Valid, LruRemoved, Part, Bytes,
          SectionsLength, Inside;
      SourceAt(data, peerID, pi.index, readSize, off);
      var blk, blkBegin, size := BlockAt(off);
      var key := CacheKey(peerID, pi.index, blk);
      var read := disk.ReadAt(pi.sections, size, blkBegin);  // what the loader does if the cache asks it
      LoadedAt(data(pi.index), readSize, off, size);
      AnswerOf(data(pi.index), readSize, off, n, blkBegin, size);
      if read == OutOfRange {
        assert key !in cache.items;
        return Panicked;
      }
      var loader := if read.Full? then Some(read.data) else None;
      assert loader == LoadedKey(data, readSize, key);
      var buf := cache.Get(key, loader, now, Source(data, readSize));
      assert buf == loader;
      if buf == None { return Failed; }
      var begin := off - blkBegin;
      if begin > |buf.value| { return Panicked; }
      r := Data(buf.value[begin..Min(begin + n, |buf.value|)]);
    }

    /** With a read size of whole blocks every block of the piece is read exactly, if and
        only if its cache block fits. */
    method ReadBlock(i: nat, now: int, ghost data: nat -> bytes) returns (r: Outcome)
      requires Serves(data) && i < NumBlocks(pi.length) && readSize % BLOCK_SIZE == 0
      modifies cache
      ensures Serves(data)
      ensures var b := GetBlock(pi.length, i).value;
              && b.begin < b.begin + b.length <= pi.length
              && (r == Data(data(pi.index)[b.begin..b.begin + b.length]) <==>
                    || Fits(pi.length, readSize, b.begin)
                    || (readSize >= UINT32 && b.begin + b.length <= readSize % UINT32))
    {
      hide Answer, Fits;
      var b := GetBlock(pi.length, i).value;
      BlocksTile(pi.length, i);
      NoStraddle(pi.length, readSize, i);
      AnswerExactly(data(pi.index), readSize, b.begin, b.length);
      BlockRight(data(pi.index), readSize, b, Answer(data(pi.index), readSize, b.begin, b.length));
      LargeBlock(readSize, b.begin);
      r := ReadAt(b.length, b.begin, now, data);
    }

    /** The 32-bit arithmetic in front of the read. The sum is an int64 that may overflow,
        of which the low 32 bits are taken. */
    method BlockAt(off: nat) returns (blk: nat, blkBegin: nat, size: nat)
      requires 0 < readSize < INT64 && off < UINT32 && pi.length < UINT32
      ensures blk == off / readSize && blkBegin == BlockBegin(readSize, off) <= off
      ensures size == (Min(Wrapped(readSize, off), pi.length) - blkBegin) % UINT32
    {
      Quotient(off, readSize);
      blk := off / readSize % UINT32;
      assert blk == off / readSize;
      blkBegin := blk * readSize % UINT32;
      assert blkBegin == BlockBegin(readSize, off);
      LowBits(blkBegin + readSize);
      var blkEnd := Wrap64(blkBegin + readSize) % UINT32;
      if blkEnd > pi.length { blkEnd := pi.length; }
      size := (blkEnd - blkBegin) % UINT32;
    }
  }

  lemma BlockRight(d: bytes, readSize: nat, b: Block, r: Outcome)
    requires readSize > 0 && b.begin + b.length <= BlockEnd(|d|, readSize, b.begin) <= |d|
    ensures Right(d, readSize, b.begin, b.length, r) <==> r == Data(d[b.begin..b.begin + b.length])
  {
  }

  lemma LowBits(x: nat)
    ensures Wrap64(x) % UINT32 == x % UINT32
  {
  }

  lemma LargeBlock(readSize: nat, off: nat)
    requires readSize > 0
    ensures readSize >= UINT32 && off < UINT32 ==> Wrapped(readSize, off) == readSize % UINT32
  {
  }

  lemma LoadedAt(d: bytes, readSize: nat, off: nat, size: nat)
    requires readSize > 0 && size == (Min(Wrapped(readSize, off), |d|) - BlockBegin(readSize, off)) % UINT32
    requires Start(off / readSize, readSize) == BlockBegin(readSize, off)
    ensures var at := BlockBegin(readSize, off);
            LoadedBlock(d, readSize, off / readSize) == if at + size <= |d| then Some(d[at..at + size]) else None
  {
  }

  /** The wrapped size against the answer: it is the block's length when the block fits,
      reaches behind the piece, or stops at the wrapped end. */
  lemma AnswerOf(d: bytes, readSize: nat, off: nat, n: nat, at: nat, size: nat)
    requires readSize > 0 && off < UINT32 && |d| < UINT32 && at == BlockBegin(readSize, off)
    requires size == (Min(Wrapped(readSize, off), |d|) - at) % UINT32
    ensures Answer(d, readSize, off, n)
         == if at > |d| then Panicked
            else if at + size > |d| then Failed
            else if off - at > size then Panicked
            else Data(d[at..at + size][off - at..Min(off - at + n, size)])
  {
    BeginOf(readSize, off);
    if at <= |d| {
      Sizes(|d|, readSize, off, at, size);
      if at + size <= |d| && off - at <= size { CopyOut(d, at, at + size, off, n); }
    }
  }

  lemma Sizes(length: nat, readSize: nat, off: nat, at: nat, size: nat)
    requires 0 < readSize && off < UINT32 && length < UINT32 && at == BlockBegin(readSize, off) <= off < at + readSize
    requires size == (Min(Wrapped(readSize, off), length) - at) % UINT32 && at <= length
    ensures Fits(length, readSize, off) || readSize >= UINT32 ==> at + size == Stop(length, readSize, off) <= length
    ensures !Fits(length, readSize, off) && readSize < UINT32 ==> at + size > length
  {
    hide BlockBegin;
    if readSize >= UINT32 { Few(readSize, off); }
  }

  lemma Few(readSize: nat, off: nat)
    requires off < readSize
    ensures BlockBegin(readSize, off) == 0
  {
  }

  lemma CopyOut(d: bytes, a: nat, z: nat, off: nat, n: nat)
    requires a <= off <= z <= |d|
    ensures d[a..z][off - a..Min(off - a + n, z - a)] == Part(d, off, Min(off + n, z))
  {
    SliceSlice(d, a, z, off - a, Min(off - a + n, z - a));
  }
}
