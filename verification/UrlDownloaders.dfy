/** internal/urldownloader/urldownloader.go: cutting the responses to the range requests
    into pieces. End stays fixed. A response is what its body delivers before it ends or
    fails, or None when the request itself fails. */
module UrlDownloaders {
  import opened Common
  import opened PieceLayout
  import opened Storage
  import opened UrlJobs

  datatype PieceResult = Delivered(index: nat, data: bytes, done: bool) | Failed

  /** Where piece p begins in the pieces from `begin` on. */
  ghost function Offset(pieces: seq<Piece>, begin: nat, p: nat): nat {
    if p <= begin || p > |pieces| then 0 else Offset(pieces, begin, p - 1) + pieces[p - 1].length
  }

  lemma {:induction false} OffsetMonotone(pieces: seq<Piece>, begin: nat, p: nat, q: nat)
    requires p <= q <= |pieces|
    ensures Offset(pieces, begin, p) <= Offset(pieces, begin, q)
    decreases q
  {
    if p < q { OffsetMonotone(pieces, begin, p, q - 1); }
  }

  /** Pieces begin..p - 1, each once and in order, Done only on the last of the range. */
  ghost function Expected(pieces: seq<Piece>, all: bytes, begin: nat, end: nat, p: nat): seq<PieceResult> {
    if p <= begin then []
    else
      Expected(pieces, all, begin, end, p - 1)
      + [Delivered(p - 1, Part(all, Offset(pieces, begin, p - 1), Offset(pieces, begin, p)), p - 1 == end - 1)]
  }

  /** Result j is that of piece begin + j. */
  lemma {:induction false} ExpectedAt(pieces: seq<Piece>, all: bytes, begin: nat, end: nat, p: nat, j: nat)
    requires begin <= p
    ensures |Expected(pieces, all, begin, end, p)| == p - begin
    ensures j < p - begin ==>
              Expected(pieces, all, begin, end, p)[j] ==
              Delivered(begin + j, Part(all, Offset(pieces, begin, begin + j), Offset(pieces, begin, begin + j + 1)),
                        begin + j + 1 == end)
    decreases p - begin
  {
    hide Offset;
    if begin < p { ExpectedAt(pieces, all, begin, end, p - 1, j); }
  }

  /** Where the response to job k begins in all bytes requested. */
  ghost function JobStart(jobs: seq<Job>, k: nat): nat {
    if k == 0 || k > |jobs| then 0 else JobStart(jobs, k - 1) + jobs[k - 1].length
  }

  lemma {:induction false} JobStartMonotone(jobs: seq<Job>, j: nat, k: nat)
    requires j <= k <= |jobs|
    ensures JobStart(jobs, j) <= JobStart(jobs, k)
    decreases k
  {
    if j < k { JobStartMonotone(jobs, j, k - 1); }
  }

  lemma JobStartSteps(jobs: seq<Job>)
    ensures JobStart(jobs, 0) == 0
    ensures forall k :: 0 <= k < |jobs| ==> JobStart(jobs, k + 1) == JobStart(jobs, k) + jobs[k].length
  {
  }

  function Received(response: Option<bytes>): bytes {
    match response case None => [] case Some(body) => body
  }

  /** The body is a prefix of what was asked for, or goes on behind it. */
  ghost predicate Honest(all: bytes, start: nat, job: Job, response: Option<bytes>) {
    var n := Min(job.length, |Received(response)|);
    start + job.length <= |all| && Received(response)[..n] == all[start..start + n]
  }

  predicate Complete(job: Job, response: Option<bytes>) {
    response.Some? && |response.value| >= job.length
  }

  class URLDownloader {
    const begin: nat
    const end: nat
    var current: nat
    var n: nat      // position in piece
    var buf: bytes
    var results: seq<PieceResult>

    constructor (begin: nat, end: nat)
      ensures this.begin == begin && this.end == end && current == begin && results == []
    {
      this.begin, this.end := begin, end;
      current, n, buf, results := begin, 0, [], [];
    }

    ghost predicate Range(pieces: seq<Piece>, all: bytes) {
      && begin < end <= |pieces| && |all| == Offset(pieces, begin, end)
      && forall p :: 0 <= p < |pieces| ==> pieces[p].length > 0
    }

    /** t bytes have been cut: whole pieces delivered, the rest at the front of buf. */
    ghost predicate At(pieces: seq<Piece>, all: bytes, t: nat)
      reads this
    {
      if t == |all| then current == end - 1 && results == Expected(pieces, all, begin, end, end)
      else InPiece(pieces, all, t)
    }

    ghost predicate InPiece(pieces: seq<Piece>, all: bytes, t: nat)
      reads this
    {
      && begin <= current < end <= |pieces| && results == Expected(pieces, all, begin, end, current)
      && |buf| == pieces[current].length && n < |buf| && Offset(pieces, begin, current) + n == t <= |all|
      && buf[..n] == all[Offset(pieces, begin, current)..t]
    }

    /** Run: every piece once, in order and with its bytes when every response is complete;
        otherwise the pieces received in full before the first incomplete one, and an error. */
    method Run(pieces: seq<Piece>, jobs: seq<Job>, responses: seq<Option<bytes>>, ghost all: bytes)
      returns (ghost k: nat)
      requires Range(pieces, all) && current == begin && results == []
      requires |responses| == |jobs| && JobStart(jobs, |jobs|) == |all|
      requires forall j :: 0 <= j < |jobs| ==>
                jobs[j].length > 0 && Honest(all, JobStart(jobs, j), jobs[j], responses[j])
      modifies this
      ensures k <= |jobs| && forall j :: 0 <= j < k ==> Complete(jobs[j], responses[j])
      ensures k == |jobs| ==> results == Expected(pieces, all, begin, end, end) && current == end - 1
      ensures k < |jobs| ==>
                && !Complete(jobs[k], responses[k]) && begin <= current < end
                && results == Expected(pieces, all, begin, end, current) + [Failed]
                && Offset(pieces, begin, current) <= JobStart(jobs, k) + |Received(responses[k])|
                && JobStart(jobs, k) + |Received(responses[k])| < Offset(pieces, begin, current + 1)
    {
      hide Expected, Honest, Offset, JobStart, Complete, At, InPiece;
      n, buf := 0, seq(pieces[current].length, _ => 0);
      StartOfRange(pieces, all);
      JobStartSteps(jobs);
      k := 0;
      for i := 0 to |jobs|
        invariant k == i && At(pieces, all, JobStart(jobs, i))
        invariant forall j :: 0 <= j < i ==> Complete(jobs[j], responses[j])
      {
        JobStartMonotone(jobs, i + 1, |jobs|);
        var ok := ProcessJob(pieces, jobs[i], responses[i], all, JobStart(jobs, i));
        if !ok { return; }
        k := k + 1;
      }
      AllCut(pieces, all);
    }

    lemma AllCut(pieces: seq<Piece>, all: bytes)
      requires At(pieces, all, |all|)
      ensures results == Expected(pieces, all, begin, end, end) && current == end - 1
    {
    }

    lemma StartOfRange(pieces: seq<Piece>, all: bytes)
      requires Range(pieces, all) && current == begin && results == [] && n == 0 && |buf| == pieces[begin].length
      ensures At(pieces, all, 0) && |all| > 0
    {
      OffsetMonotone(pieces, begin, begin + 1, end);
    }

    method ProcessJob(pieces: seq<Piece>, job: Job, response: Option<bytes>, ghost all: bytes, ghost start: nat)
      returns (ok: bool)
      requires Range(pieces, all) && job.length > 0 && Honest(all, start, job, response) && start < |all|
      requires At(pieces, all, start)
      modifies this
      ensures ok == Complete(job, response)
      ensures ok ==> At(pieces, all, start + job.length)
      ensures !ok ==>
                && begin <= current < end && results == Expected(pieces, all, begin, end, current) + [Failed]
                && Offset(pieces, begin, current) <= start + |Received(response)| < Offset(pieces, begin, current + 1)
    {
      hide Expected, Offset;
      if response == None {
        Within(pieces, all, start);
        results := results + [Failed];
        return false;
      }
      var body, m := response.value, 0;
      while m < job.length
        invariant 0 <= m <= job.length && m <= |body|
        invariant At(pieces, all, start + m)
      {
        var readSize := CalcReadSize(job.length, m);
        if m + readSize > |body| {  // readFull
          Within(pieces, all, start + m);
          results := results + [Failed];
          return false;
        }
        Chunk(all, start, job, body, m, readSize);
        Take(pieces, body[m..m + readSize], all, start + m);
        m := m + readSize;
      }
      ok := true;
    }

    function CalcReadSize(length: nat, m: nat): (size: nat)
      requires n < |buf| && m < length
      reads this
      ensures 0 < size <= |buf| - n && size <= length - m && (size == |buf| - n || size == length - m)
    {
      if |buf| - n < length - m then |buf| - n else length - m
    }

    lemma Within(pieces: seq<Piece>, all: bytes, t: nat)
      requires InPiece(pieces, all, t)
      ensures Offset(pieces, begin, current) + n == t && t - n + |buf| == Offset(pieces, begin, current + 1)
    {
    }

    /** The bytes read go into the buffer; a full buffer is delivered, and unless it was
        the last one the next piece begins. */
    method Take(pieces: seq<Piece>, data: bytes, ghost all: bytes, ghost t: nat)
      requires Range(pieces, all) && InPiece(pieces, all, t) && data != [] && n + |data| <= |buf|
      requires t + |data| <= |all| && data == all[t..t + |data|]
      modifies this
      ensures At(pieces, all, t + |data|)
    {
      hide Offset, Expected;
      Within(pieces, all, t);
      SliceConcat(all, t - n, t, t + |data|);
      buf := buf[..n] + data + buf[n + |data|..];
      assert buf[..n + |data|] == all[t - n..t + |data|];
      n := n + |data|;
      if n == |buf| {
        var index := current;
        var done := current >= end - 1;
        Bounds(pieces, all, index);
        ExpectedSnoc(pieces, all, index);
        assert buf == buf[..n];
        results := results + [Delivered(index, buf, done)];
        if done { return; }
        current := current + 1;
        n := 0;
        buf := seq(pieces[current].length, _ => 0);
      } else {
        Inside(pieces, all, current);
      }
    }

    lemma Bounds(pieces: seq<Piece>, all: bytes, p: nat)
      requires Range(pieces, all) && begin <= p < end
      ensures p == end - 1 ==> Offset(pieces, begin, p + 1) == |all|
      ensures p < end - 1 ==> Offset(pieces, begin, p + 1) < |all|
    {
      if p < end - 1 { OffsetMonotone(pieces, begin, p + 2, end); }
    }

    lemma Inside(pieces: seq<Piece>, all: bytes, p: nat)
      requires Range(pieces, all) && begin <= p < end
      ensures Offset(pieces, begin, p + 1) <= |all|
    {
      OffsetMonotone(pieces, begin, p + 1, end);
    }

    lemma ExpectedSnoc(pieces: seq<Piece>, all: bytes, p: nat)
      requires begin <= p < end <= |pieces|
      ensures Expected(pieces, all, begin, end, p + 1)
              == Expected(pieces, all, begin, end, p)
                 + [Delivered(p, Part(all, Offset(pieces, begin, p), Offset(pieces, begin, p + 1)), p == end - 1)]
    {
    }
  }

  lemma Chunk(all: bytes, start: nat, job: Job, body: bytes, m: nat, size: nat)
    requires Honest(all, start, job, Some(body)) && m + size <= job.length && m + size <= |body|
    ensures body[m..m + size] == all[start + m..start + m + size]
  {
    var n := Min(job.length, |body|);
    assert body[m..m + size] == body[..n][m..m + size];
    SliceSlice(all, start, start + n, m, m + size);
  }

  // ---- jobs and pieces together

  lemma {:induction false} FetchedAt(serve: string -> bytes, jobs: seq<Job>, k: nat)
    requires k <= |jobs| && forall j :: 0 <= j < k ==> InFile(serve, jobs[j])
    ensures |Fetched(serve, jobs[..k])| == JobStart(jobs, k)
  {
    if k > 0 {
      assert jobs[..k][..k - 1] == jobs[..k - 1];
      FetchedAt(serve, jobs, k - 1);
    }
  }

  lemma RangeSnoc(files: seq<bytes>, pieces: seq<Piece>, begin: nat, p: nat)
    requires begin < p <= |pieces|
    ensures Offset(pieces, begin, p) == Offset(pieces, begin, p - 1) + pieces[p - 1].length
    ensures Bytes(files, Sections(pieces, begin, p))
              == Bytes(files, Sections(pieces, begin, p - 1)) + Bytes(files, pieces[p - 1].sections)
  {
    BytesConcat(files, Sections(pieces, begin, p - 1), pieces[p - 1].sections);
  }

  lemma PieceLength(info: Info, lengths: seq<nat>, files: seq<bytes>, pieces: seq<Piece>, i: nat)
    requires IsLayout(info, lengths, pieces) && Lengths(files) == lengths && i < |pieces|
    ensures |Bytes(files, pieces[i].sections)| == pieces[i].length
    ensures Bytes(files, pieces[i].sections) == PieceData(info, files, i)
  {
    LayoutTiles(info, lengths, files, pieces, i);
    BytesLength(files, pieces[i].sections);
  }

  lemma {:induction false} RangeLength(info: Info, lengths: seq<nat>, files: seq<bytes>, pieces: seq<Piece>, begin: nat,
                                       p: nat)
    requires IsLayout(info, lengths, pieces) && Lengths(files) == lengths && begin <= p <= |pieces|
    ensures |Bytes(files, Sections(pieces, begin, p))| == Offset(pieces, begin, p)
    decreases p - begin
  {
    hide IsLayout, Bytes, Sections, Offset;
    if begin < p {
      RangeLength(info, lengths, files, pieces, begin, p - 1);
      PieceLength(info, lengths, files, pieces, p - 1);
      RangeSnoc(files, pieces, begin, p);
    } else {
      RangeEmpty(files, pieces, begin);
    }
  }

  lemma RangeEmpty(files: seq<bytes>, pieces: seq<Piece>, begin: nat)
    ensures Offset(pieces, begin, begin) == 0 && Bytes(files, Sections(pieces, begin, begin)) == []
  {
  }

  /** Piece q as cut from the sections of the range is piece q of the torrent. */
  lemma {:induction false} PartIsPiece(info: Info, lengths: seq<nat>, files: seq<bytes>, pieces: seq<Piece>, begin: nat,
                                       p: nat, q: nat)
    requires IsLayout(info, lengths, pieces) && Lengths(files) == lengths && begin <= q < p <= |pieces|
    ensures Part(Bytes(files, Sections(pieces, begin, p)), Offset(pieces, begin, q), Offset(pieces, begin, q + 1))
            == PieceData(info, files, q)
    decreases p - begin
  {
    hide IsLayout, Bytes, Sections, Offset, PieceData;
    RangeLength(info, lengths, files, pieces, begin, p - 1);
    PieceLength(info, lengths, files, pieces, p - 1);
    RangeSnoc(files, pieces, begin, p);
    PartOfFront(Bytes(files, Sections(pieces, begin, p - 1)), Bytes(files, pieces[p - 1].sections),
                Offset(pieces, begin, q), Offset(pieces, begin, q + 1));
    if q < p - 1 {
      OffsetMonotone(pieces, begin, q, q + 1);
      OffsetMonotone(pieces, begin, q + 1, p - 1);
      PartIsPiece(info, lengths, files, pieces, begin, p - 1, q);
    }
  }

  lemma PartOfFront(f: bytes, g: bytes, a: nat, z: nat)
    ensures a <= z <= |f| ==> Part(f + g, a, z) == Part(f, a, z)
    ensures a == |f| && z == |f| + |g| ==> Part(f + g, a, z) == g
  {
  }

  lemma {:induction false} BytesConcat(files: seq<bytes>, p: seq<Section>, q: seq<Section>)
    ensures Bytes(files, p + q) == Bytes(files, p) + Bytes(files, q)
  {
    if q != [] {
      assert (p + q)[..|p + q| - 1] == p + q[..|q| - 1];
      BytesConcat(files, p, q[..|q| - 1]);
    } else {
      assert p + q == p;
    }
  }

  lemma {:induction false} ChainParts(lengths: seq<nat>, pieces: seq<Piece>, begin: nat, end: nat)
    requires begin <= end <= |pieces|
    requires Chain(lengths, Sections(pieces, 0, |pieces|)) && Compact(Sections(pieces, 0, |pieces|))
    ensures Chain(lengths, Sections(pieces, begin, end)) && Compact(Sections(pieces, begin, end))
  {
    SectionsSplit(pieces, 0, begin, |pieces|);
    SectionsSplit(pieces, begin, end, |pieces|);
    var (a, b, c) := (Sections(pieces, 0, begin), Sections(pieces, begin, end), Sections(pieces, end, |pieces|));
    MiddleOfChain(lengths, a, b, c);
  }

  lemma MiddleOfChain(lengths: seq<nat>, a: seq<Section>, b: seq<Section>, c: seq<Section>)
    requires Chain(lengths, a + (b + c)) && Compact(a + (b + c))
    ensures Chain(lengths, b) && Compact(b)
  {
    var all := a + (b + c);
    assert forall k :: 0 <= k < |b| ==> all[|a| + k] == b[k];
    forall k | 0 < k < |b| ensures Follows(lengths, b[k - 1], b[k]) {
      assert all[|a| + k - 1] == b[k - 1] && all[|a| + k] == b[k];
    }
  }

  ghost predicate AllInside(lengths: seq<nat>, sections: seq<Section>) {
    forall k :: 0 <= k < |sections| ==> Inside(lengths, sections[k])
  }

  lemma InsideConcat(lengths: seq<nat>, a: seq<Section>, b: seq<Section>)
    requires AllInside(lengths, a) && AllInside(lengths, b)
    ensures AllInside(lengths, a + b)
  {
    hide Inside;
  }

  lemma PieceInside(info: Info, lengths: seq<nat>, files: seq<bytes>, pieces: seq<Piece>, i: nat)
    requires IsLayout(info, lengths, pieces) && Lengths(files) == lengths && i < |pieces|
    ensures AllInside(lengths, pieces[i].sections)
  {
    hide Inside;
    LayoutTiles(info, lengths, files, pieces, i);
  }

  lemma {:induction false} SectionsInside(info: Info, lengths: seq<nat>, files: seq<bytes>, pieces: seq<Piece>,
                                          begin: nat, end: nat)
    requires IsLayout(info, lengths, pieces) && Lengths(files) == lengths && end <= |pieces|
    ensures AllInside(lengths, Sections(pieces, begin, end))
    decreases end
  {
    if begin < end {
      hide IsLayout, AllInside, Inside;
      SectionsInside(info, lengths, files, pieces, begin, end - 1);
      PieceInside(info, lengths, files, pieces, end - 1);
      InsideConcat(lengths, Sections(pieces, begin, end - 1), pieces[end - 1].sections);
    }
  }

  /** createJobs and Run over a layout of NewPieces: the jobs of the range, answered in
      full by a seed that has the files, come out as exactly the pieces of the range. */
  method Download(d: URLDownloader, info: Info, lengths: seq<nat>, pieces: seq<Piece>, names: seq<string>,
                  responses: seq<Option<bytes>>, ghost files: seq<bytes>, ghost serve: string -> bytes)
    returns (jobs: seq<Job>, ghost all: bytes)
    requires IsLayout(info, lengths, pieces) && Lengths(files) == lengths
    requires Chain(lengths, Sections(pieces, 0, |pieces|)) && Compact(Sections(pieces, 0, |pieces|))
    requires d.begin < d.end <= |pieces| && d.current == d.begin && d.results == []
    requires Serves(serve, names, files) && Separated(names, Sections(pieces, d.begin, d.end), d.begin == 0)
    requires var jobs := Flushed(Gathered(names, Sections(pieces, d.begin, d.end), d.begin == 0));
             |responses| == |jobs| && forall j :: 0 <= j < |jobs| ==> responses[j] == Some(JobBytes(serve, jobs[j]))
    modifies d
    ensures d.results == Expected(pieces, all, d.begin, d.end, d.end)
    ensures forall q: nat :: d.begin <= q < d.end ==>
              Part(all, Offset(pieces, d.begin, q), Offset(pieces, d.begin, q + 1)) == PieceData(info, files, q)
    ensures InOrder(d.results, info, files, d.begin, d.end)
  {
    hide Gathered, Expected, PieceData, InOrder, Chain, Compact, Follows, Serves, Separated;
    ghost var secs := Sections(pieces, d.begin, d.end);
    all := Bytes(files, secs);
    ChainParts(lengths, pieces, d.begin, d.end);
    SectionsInside(info, lengths, files, pieces, d.begin, d.end);
    JobsFetchSections(serve, files, names, secs, d.begin == 0);
    RangeLength(info, lengths, files, pieces, d.begin, d.end);
    NonEmpty(info, lengths, pieces);
    jobs := CreateJobs(pieces, names, d.begin, d.end);
    AllAnswered(serve, jobs, responses, all);
    ghost var k := d.Run(pieces, jobs, responses, all);
    forall q: nat | d.begin <= q < d.end
      ensures Part(all, Offset(pieces, d.begin, q), Offset(pieces, d.begin, q + 1)) == PieceData(info, files, q)
    {
      PartIsPiece(info, lengths, files, pieces, d.begin, d.end, q);
    }
    PiecesDelivered(info, files, pieces, all, d.begin, d.end);
  }

  /** The pieces of the range one by one, each under its index and with its own bytes, and
      Done on the last one alone. */
  ghost predicate InOrder(results: seq<PieceResult>, info: Info, files: seq<bytes>, begin: nat, end: nat) {
    && |results| == end - begin
    && forall j :: 0 <= j < |results| ==>
         results[j] == Delivered(begin + j, PieceData(info, files, begin + j), begin + j + 1 == end)
  }

  lemma PiecesDelivered(info: Info, files: seq<bytes>, pieces: seq<Piece>, all: bytes, begin: nat, end: nat)
    requires begin < end
    requires forall q: nat :: begin <= q < end ==>
               Part(all, Offset(pieces, begin, q), Offset(pieces, begin, q + 1)) == PieceData(info, files, q)
    ensures InOrder(Expected(pieces, all, begin, end, end), info, files, begin, end)
  {
    hide Part, Offset, PieceData, Expected;
    var results := Expected(pieces, all, begin, end, end);
    ExpectedAt(pieces, all, begin, end, end, 0);
    forall j | 0 <= j < |results|
      ensures results[j] == Delivered(begin + j, PieceData(info, files, begin + j), begin + j + 1 == end)
    {
      ExpectedAt(pieces, all, begin, end, end, j);
      var q := begin + j;
      assert Part(all, Offset(pieces, begin, q), Offset(pieces, begin, q + 1)) == PieceData(info, files, q);
    }
  }

  lemma NonEmpty(info: Info, lengths: seq<nat>, pieces: seq<Piece>)
    requires IsLayout(info, lengths, pieces)
    ensures forall p :: 0 <= p < |pieces| ==> pieces[p].length > 0 && pieces[p].sections != []
  {
    forall p | 0 <= p < |pieces| ensures pieces[p].length > 0 && pieces[p].sections != [] {
      assert IsPiece(info, lengths, p, pieces[p]);
    }
  }

  lemma {:induction false} AllAnswered(serve: string -> bytes, jobs: seq<Job>, responses: seq<Option<bytes>>,
                                       all: bytes)
    requires |responses| == |jobs| && Fetched(serve, jobs) == all
    requires forall j :: 0 <= j < |jobs| ==> InFile(serve, jobs[j]) && responses[j] == Some(JobBytes(serve, jobs[j]))
    ensures JobStart(jobs, |jobs|) == |all|
    ensures forall j :: 0 <= j < |jobs| ==>
              jobs[j].length > 0 && Honest(all, JobStart(jobs, j), jobs[j], responses[j])
                  && Complete(jobs[j], responses[j])
  {
    hide Fetched, InFile, JobBytes, JobStart, Honest, Complete;
    FetchedAt(serve, jobs, |jobs|);
    assert jobs[..|jobs|] == jobs;
    forall j | 0 <= j < |jobs|
      ensures jobs[j].length > 0 && Honest(all, JobStart(jobs, j), jobs[j], responses[j])
      ensures Complete(jobs[j], responses[j])
    {
      FetchedPart(serve, jobs, j, |jobs|);
      Answered(serve, jobs[j], JobStart(jobs, j), all, responses[j]);
    }
  }

  lemma Answered(serve: string -> bytes, job: Job, start: nat, all: bytes, response: Option<bytes>)
    requires InFile(serve, job) && response == Some(JobBytes(serve, job))
    requires start + job.length <= |all| && Part(all, start, start + job.length) == JobBytes(serve, job)
    ensures job.length > 0 && Honest(all, start, job, response) && Complete(job, response)
  {
    FullAnswer(serve, job);
  }

  lemma FetchedStep(serve: string -> bytes, jobs: seq<Job>, k: nat)
    requires k < |jobs|
    ensures Fetched(serve, jobs[..k + 1]) == Fetched(serve, jobs[..k]) + JobBytes(serve, jobs[k])
    ensures JobStart(jobs, k + 1) == JobStart(jobs, k) + jobs[k].length
  {
    assert jobs[..k + 1][..k] == jobs[..k];
  }

  lemma FullAnswer(serve: string -> bytes, job: Job)
    requires InFile(serve, job)
    ensures |JobBytes(serve, job)| == job.length
  {
  }

  lemma {:induction false} FetchedPart(serve: string -> bytes, jobs: seq<Job>, j: nat, k: nat)
    requires j < k <= |jobs| && forall i :: 0 <= i < |jobs| ==> InFile(serve, jobs[i])
    ensures JobStart(jobs, j) + jobs[j].length <= |Fetched(serve, jobs[..k])|
    ensures Part(Fetched(serve, jobs[..k]), JobStart(jobs, j), JobStart(jobs, j) + jobs[j].length)
              == JobBytes(serve, jobs[j])
    decreases k
  {
    hide *;
    assert |JobBytes(serve, jobs[k - 1])| == jobs[k - 1].length by { FullAnswer(serve, jobs[k - 1]); }
    FetchedAt(serve, jobs, k - 1);
    FetchedStep(serve, jobs, k - 1);
    PartOfFront(Fetched(serve, jobs[..k - 1]), JobBytes(serve, jobs[k - 1]), JobStart(jobs, j),
        JobStart(jobs, j) + jobs[j].length);
    if j < k - 1 { FetchedPart(serve, jobs, j, k - 1); }
  }
}
