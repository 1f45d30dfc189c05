/** Upload requests: the test of torrent_messagehandler.go adds in 32 bits, and what passes
    it is read through the cache (internal/cachedpiece/cachedpiece.go). */
module Uploads {
  import opened Common
  import opened PieceLayout
  import opened EventLoop
  import CP = CachedPieces

  /** The fields of a request are 32-bit numbers. */
  predicate Request32(begin: nat, length: nat) {
    begin < UINT32 && length < UINT32
  }

  /** As long as the true sum is a 32-bit number the test refuses exactly what goes beyond the
      piece. */
  lemma RefusedExactly(pieceLength: nat, begin: nat, length: nat)
    requires begin + length < UINT32
    ensures Overruns(pieceLength, begin, length) <==> begin + length > pieceLength
  {
  }

  /** A request that passes the test lies inside its piece if and only if its true sum is
      a 32-bit number; otherwise it begins behind the piece's end or wraps all the way. */
  lemma InsideExactly(pieceLength: nat, begin: nat, length: nat)
    requires pieceLength < UINT32 && Request32(begin, length) && !Overruns(pieceLength, begin, length)
    ensures begin + length <= pieceLength <==> begin + length < UINT32
  {
  }

  /** What passes the test is answered with the bytes asked for if and only if the true sum
      is a 32-bit number, the bytes lie in one cache block, and that block is kept as far. */
  lemma ServedExactly(d: bytes, readSize: nat, begin: nat, length: nat)
    requires |d| < UINT32 && readSize > 0 && Request32(begin, length) && !Overruns(|d|, begin, length)
    ensures begin + length <= |d| && CP.Answer(d, readSize, begin, length) == CP.Data(d[begin..begin + length]) <==>
              && begin + length < UINT32 && begin + length <= CP.BlockEnd(|d|, readSize, begin)
              && (|| CP.Fits(|d|, readSize, begin)
                  || (readSize >= UINT32 && begin + length <= CP.Wrapped(readSize, begin)))
  {
    InsideExactly(|d|, begin, length);
    if begin + length < UINT32 {
      hide CP.Answer, CP.BlockBegin, CP.Wrapped, CP.Fits;
      CP.AnswerExactly(d, readSize, begin, length);
      CP.BeginOf(readSize, begin);
      ShortOrWhole(d, readSize, begin, length);
    }
  }

  /** A read that stops before the end of the request returns too little. */
  lemma ShortOrWhole(d: bytes, readSize: nat, begin: nat, length: nat)
    requires |d| < UINT32 && readSize > 0 && begin + length <= |d|
    ensures CP.Answer(d, readSize, begin, length) == CP.Data(d[begin..begin + length]) <==>
              && begin + length <= CP.BlockEnd(|d|, readSize, begin)
              && CP.Right(d, readSize, begin, length, CP.Answer(d, readSize, begin, length))
  {
    hide CP.BlockBegin, CP.Wrapped, CP.Fits;
    CP.BeginOf(readSize, begin);
    var end := CP.BlockEnd(|d|, readSize, begin);
    if begin + length > end {
      StopsThere(d, readSize, begin);
      var r := CP.Answer(d, readSize, begin, length);
      if r.Data? { CP.PartLength(d, begin, CP.Stop(|d|, readSize, begin)); }
    }
  }

  lemma StopsThere(d: bytes, readSize: nat, begin: nat)
    requires |d| < UINT32 && readSize > 0 && begin < UINT32
    ensures CP.Fits(|d|, readSize, begin) || readSize >= UINT32 ==>
              CP.Stop(|d|, readSize, begin) <= CP.BlockEnd(|d|, readSize, begin) <= |d|
  {
    hide CP.BlockBegin;
    if readSize >= UINT32 { CP.Few(readSize, begin); }
  }

  /** A request of 32 bytes that begins 16 bytes before 2^32 passes the test for any piece
      of 16 bytes or more, and the read indexes past the piece. */
  lemma BehindThePiece(d: bytes, readSize: nat)
    requires 16 <= |d| < UINT32 / 2 && 0 < readSize <= UINT32 / 4
    ensures !Overruns(|d|, UINT32 - 16, 32)
    ensures CP.Answer(d, readSize, UINT32 - 16, 32) == CP.Panicked
  {
    hide CP.BlockBegin, CP.Fits, CP.Wrapped;
    CP.BeginOf(readSize, UINT32 - 16);
  }
}
