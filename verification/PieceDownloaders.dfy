/** internal/piecedownloader/piecedownloader.go: collecting the blocks of one piece
    from one peer. */
module PieceDownloaders {
  import opened Common
  import opened Blocks

  datatype Downloader = Downloader(
    piece: nat,           // Piece.Index
    length: nat,          // Piece.Length
    allowedFast: bool,
    remaining: seq<nat>,  // still to be requested
    pending: set<nat>,    // in flight
    done: set<nat>,       // received
    buffer: bytes)
  {
    function N(): nat {
      NumBlocks(length)
    }

    predicate Done() {
      |done| == N()
    }

    /** Every queued index is a block of the piece; no block is ever lost. */
    ghost predicate Valid() {
      && |buffer| == length
      && (forall i :: i in remaining ==> i < N())
      && (forall i :: i in pending ==> i < N())
      && (forall i :: i in done ==> i < N())
      && (forall i: nat :: i < N() ==> i in remaining || i in pending || i in done)
    }
  }

  datatype BlockError = Fine | Duplicate | NotRequested

  function Iota(n: nat): (s: seq<nat>)
    ensures |s| == n && (forall i :: 0 <= i < n ==> s[i] == i) && (forall i: nat :: i in s <==> i < n)
  {
    if n == 0 then [] else Iota(n - 1) + [n - 1]
  }

  function New(piece: nat, length: nat, allowedFast: bool, buffer: bytes): (d: Downloader)
    requires |buffer| == length
    ensures d.Valid() && d.pending == {} && d.done == {}
  {
    Downloader(piece, length, allowedFast, Iota(NumBlocks(length)), {}, {}, buffer)
  }

  /** Go ranges over a map in any order: `order` lists the pending blocks. */
  ghost predicate Enumerates(order: seq<nat>, s: set<nat>) {
    forall i :: i in order <==> i in s
  }

  function Choke(d: Downloader, fastEnabled: bool, order: seq<nat>): Downloader {
    if d.allowedFast || fastEnabled then d
    else d.(pending := {}, remaining := d.remaining + order)
  }

  function Receive(d: Downloader, b: Block, data: bytes): (Downloader, BlockError)
    requires |d.buffer| == d.length
    requires GetBlock(d.length, b.index) == Some(b) && |data| == b.length
  {
    if b.index in d.done then (d, Duplicate)
    else
      BlocksTile(d.length, b.index);
      (d.(buffer := Splice(d.buffer, b.begin, data), pending := d.pending - {b.index}, done := d.done + {b.index}),
       if b.index in d.pending then Fine else NotRequested)
  }

  function Reject(d: Downloader, i: nat): Downloader {
    d.(pending := d.pending - {i}, remaining := d.remaining + [i])
  }

  /** Moves the front of `remaining` to `pending` until the queue is full; also the
      blocks asked from the peer. */
  function Request(d: Downloader, queueLength: int): (Downloader, seq<nat>)
    decreases |d.remaining|
  {
    if d.remaining == [] || |d.pending| >= queueLength then (d, [])
    else
      var i := d.remaining[0];
      var (e, asked) := Request(d.(remaining := d.remaining[1..], pending := d.pending + {i}), queueLength);
      (e, if i in d.done then asked else [i] + asked)
  }

  lemma ChokeValid(d: Downloader, fastEnabled: bool, order: seq<nat>)
    requires d.Valid() && Enumerates(order, d.pending)
    ensures Choke(d, fastEnabled, order).Valid()
  {
  }

  /** RequestBlocks keeps the downloader valid: it takes a first part of the remaining
      blocks into flight and asks for those of them that have not arrived. The in-flight
      set never grows past the queue length, and it stops early for that reason alone. */
  lemma {:induction false} RequestCorrect(d: Downloader, queueLength: int)
    requires d.Valid()
    ensures var (e, asked) := Request(d, queueLength);
            && e.Valid()
            && e == d.(remaining := e.remaining, pending := e.pending)
            && d.pending <= e.pending
            && (|e.pending| <= queueLength || e.pending == d.pending)
            && (e.remaining == [] || |e.pending| >= queueLength)
            && Taken(d, e, asked)
    decreases |d.remaining|
  {
    if d.remaining != [] && |d.pending| < queueLength {
      FirstAsked(d);
      var d' := d.(remaining := d.remaining[1..], pending := d.pending + {d.remaining[0]});
      RequestCorrect(d', queueLength);
      var (e, asked) := Request(d', queueLength);
      TakenFirst(d, d', e, asked);
    }
  }

  /** From d to e a first part of `remaining` went into flight; `asked` are those of them
      that have not arrived. */
  ghost predicate Taken(d: Downloader, e: Downloader, asked: seq<nat>) {
    && |e.remaining| <= |d.remaining|
    && var k := |d.remaining| - |e.remaining|;
    && e.remaining == d.remaining[k..]
    && (forall i :: i in e.pending <==> i in d.pending || i in d.remaining[..k])
    && (forall i :: i in asked <==> i in d.remaining[..k] && i !in d.done)
  }

  lemma TakenFirst(d: Downloader, d': Downloader, e: Downloader, asked: seq<nat>)
    requires d.remaining != []
    requires d' == d.(remaining := d.remaining[1..], pending := d.pending + {d.remaining[0]}) && Taken(d', e, asked)
    ensures Taken(d, e, if d.remaining[0] in d.done then asked else [d.remaining[0]] + asked)
  {
    var k := |d'.remaining| - |e.remaining|;
    assert d.remaining[..k + 1] == [d.remaining[0]] + d.remaining[1..][..k];
  }

  /** What a choke without the Fast Extension took out of flight is asked for again: with
      a queue as long as the piece, every block that has not arrived. */
  lemma ChokedAsksAgain(d: Downloader, order: seq<nat>, queueLength: int)
    requires d.Valid() && !d.allowedFast && Enumerates(order, d.pending) && queueLength >= d.N()
    ensures forall i: nat :: i < d.N() && i !in d.done ==> i in Request(Choke(d, false, order), queueLength).1
  {
    var c := Choke(d, false, order);
    ChokeValid(d, false, order);
    RequestCorrect(c, queueLength);
    var (e, asked) := Request(c, queueLength);
    var all := UpTo(d.N());
    assert e.pending <= all;
    SubsetCardinality(e.pending, all);
    forall i: nat | i < d.N() && i !in d.done ensures i in asked {
      assert e.remaining == [] || e.pending == all;
    }
  }

  lemma FirstAsked(d: Downloader)
    requires d.Valid() && d.remaining != []
    ensures d.(remaining := d.remaining[1..], pending := d.pending + {d.remaining[0]}).Valid() && d.remaining[0] < d.N()
  {
    var i := d.remaining[0];
    assert i in d.remaining && d.remaining == [i] + d.remaining[1..];
    assert forall j :: j in d.remaining <==> j == i || j in d.remaining[1..];
  }

  // ---- every history of one downloader

  datatype Op =
    | OpChoked(fastEnabled: bool, order: seq<nat>)
    | OpGot(block: Block, data: bytes)
    | OpRejected(i: nat)
    | OpRequest(queueLength: int)

  /** The block of a Got or Rejected comes from FindBlock. */
  ghost predicate Enabled(d: Downloader, op: Op) {
    match op
    case OpChoked(_, order) => Enumerates(order, d.pending)
    case OpGot(b, data) => GetBlock(d.length, b.index) == Some(b) && |data| == b.length
    case OpRejected(i) => i < d.N()
    case OpRequest(_) => true
  }

  ghost function Apply(d: Downloader, op: Op): Downloader
    requires d.Valid() && Enabled(d, op)
  {
    match op
    case OpChoked(fastEnabled, order) => Choke(d, fastEnabled, order)
    case OpGot(b, data) => Receive(d, b, data).0
    case OpRejected(i) => Reject(d, i)
    case OpRequest(queueLength) => Request(d, queueLength).0
  }

  lemma ApplyValid(d: Downloader, op: Op)
    requires d.Valid() && Enabled(d, op)
    ensures Apply(d, op).Valid()
    ensures Apply(d, op).length == d.length
    ensures op.OpGot? || (Apply(d, op).buffer == d.buffer && Apply(d, op).done == d.done)
  {
    match op
    case OpRequest(queueLength) => RequestCorrect(d, queueLength);
    case _ =>
  }

  /** d can be reached from a new downloader by the operations `ops`. */
  ghost predicate Reaches(start: Downloader, ops: seq<Op>, d: Downloader) {
    if ops == [] then start == d
    else
      exists e: Downloader ::
        && Reaches(start, ops[..|ops| - 1], e)
        && e.Valid() && Enabled(e, ops[|ops| - 1]) && d == Apply(e, ops[|ops| - 1])
  }

  ghost predicate Received(ops: seq<Op>, i: nat) {
    exists k :: 0 <= k < |ops| && ops[k].OpGot? && ops[k].block.index == i
  }

  /** The data of the first Got for block i. */
  ghost function FirstData(ops: seq<Op>, i: nat): bytes
    requires Received(ops, i)
  {
    if Received(ops[..|ops| - 1], i) then FirstData(ops[..|ops| - 1], i)
    else
      var k :| 0 <= k < |ops| && ops[k].OpGot? && ops[k].block.index == i;
      ops[k].data
  }

  lemma ReceivedSnoc(ops: seq<Op>, i: nat)
    requires ops != []
    ensures var last := ops[|ops| - 1];
            Received(ops, i) <==> Received(ops[..|ops| - 1], i) || (last.OpGot? && last.block.index == i)
    ensures Received(ops, i) && !Received(ops[..|ops| - 1], i) ==> FirstData(ops, i) == ops[|ops| - 1].data
  {
    var front := ops[..|ops| - 1];
    if Received(ops, i) {
      var k :| 0 <= k < |ops| && ops[k].OpGot? && ops[k].block.index == i;
      if k < |front| { assert front[k] == ops[k]; }
    }
    if Received(front, i) {
      var k :| 0 <= k < |front| && front[k].OpGot? && front[k].block.index == i;
      assert ops[k] == front[k];
    }
  }

  /** What block i of the buffer holds once it was received. */
  ghost predicate Holds(d: Downloader, ops: seq<Op>, i: nat)
    requires i < d.N() && |d.buffer| == d.length
  {
    BlocksTile(d.length, i);
    var b := GetBlock(d.length, i).value;
    (i in d.done <==> Received(ops, i)) && (i in d.done ==> d.buffer[b.begin..b.begin + b.length] == FirstData(ops, i))
  }

  lemma {:induction false} BlocksDisjoint(length: nat, i: nat, j: nat)
    requires i < j < NumBlocks(length)
    ensures GetBlock(length, i).value.begin + GetBlock(length, i).value.length <= GetBlock(length, j).value.begin
  {
    assert i * BLOCK_SIZE + BLOCK_SIZE <= j * BLOCK_SIZE;
  }

  lemma GotKeepsOtherBlocks(d: Downloader, b: Block, data: bytes, i: nat)
    requires d.Valid() && Enabled(d, OpGot(b, data)) && b.index !in d.done
    requires i < d.N() && i != b.index
    ensures var c := GetBlock(d.length, i).value;
            && c.begin + c.length <= d.length
            && Receive(d, b, data).0.buffer[c.begin..c.begin + c.length] == d.buffer[c.begin..c.begin + c.length]
  {
    BlocksTile(d.length, i);
    BlocksTile(d.length, b.index);
    var c := GetBlock(d.length, i).value;
    if i < b.index { BlocksDisjoint(d.length, i, b.index); } else { BlocksDisjoint(d.length, b.index, i); }
    SpliceElsewhere(d.buffer, b.begin, data, c.begin, c.begin + c.length);
  }

  lemma StepHolds(e: Downloader, ops: seq<Op>, i: nat)
    requires ops != [] && e.Valid() && Enabled(e, ops[|ops| - 1]) && i < e.N()
    requires Holds(e, ops[..|ops| - 1], i)
    ensures Apply(e, ops[|ops| - 1]).Valid() && Apply(e, ops[|ops| - 1]).length == e.length
    ensures Holds(Apply(e, ops[|ops| - 1]), ops, i)
  {
    var op := ops[|ops| - 1];
    ApplyValid(e, op);
    ReceivedSnoc(ops, i);
    BlocksTile(e.length, i);
    if op.OpGot? && op.block.index !in e.done && op.block.index != i {
      GotKeepsOtherBlocks(e, op.block, op.data, i);
    }
  }

  /** Every history keeps each received block equal to the first data that came for it. */
  lemma {:induction false} ReachableHolds(start: Downloader, ops: seq<Op>, d: Downloader, i: nat)
    requires start.Valid() && start.done == {} && Reaches(start, ops, d)
    ensures d.Valid() && d.length == start.length
    ensures i < d.N() ==> Holds(d, ops, i)
    decreases |ops|
  {
    if ops != [] {
      var front := ops[..|ops| - 1];
      var e :| Reaches(start, front, e) && e.Valid() && Enabled(e, ops[|ops| - 1]) && d == Apply(e, ops[|ops| - 1]);
      ReachableHolds(start, front, e, i);
      ApplyValid(e, ops[|ops| - 1]);
      if i < e.N() { StepHolds(e, ops, i); }
    }
  }

  /** The first data of blocks 0..n-1, in order. */
  ghost function InOrder(ops: seq<Op>, n: nat): bytes
    requires forall i: nat :: i < n ==> Received(ops, i)
  {
    if n == 0 then [] else InOrder(ops, n - 1) + FirstData(ops, n - 1)
  }

  /** Where block n begins; the end of the piece for n = N. */
  ghost function Start(length: nat, n: nat): (at: nat)
    requires n <= NumBlocks(length)
    ensures at <= length
  {
    if n == NumBlocks(length) then length else n * BLOCK_SIZE
  }

  lemma BlockBounds(length: nat, i: nat)
    requires i < NumBlocks(length)
    ensures Start(length, 0) == 0
    ensures var b := GetBlock(length, i).value;
            b.begin == Start(length, i) <= Start(length, i + 1) == b.begin + b.length
  {
    BlocksTile(length, i);
  }

  lemma {:induction false} BufferPrefix(d: Downloader, ops: seq<Op>, n: nat)
    requires |d.buffer| == d.length && n <= d.N()
    requires forall i: nat :: i < n ==> i in d.done && Holds(d, ops, i)
    ensures forall i: nat :: i < n ==> Received(ops, i)
    ensures InOrder(ops, n) == d.buffer[..Start(d.length, n)]
  {
    if n > 0 {
      BufferPrefix(d, ops, n - 1);
      BlockBounds(d.length, n - 1);
      assert Holds(d, ops, n - 1);
      var a, z := Start(d.length, n - 1), Start(d.length, n);
      assert d.buffer[..z] == d.buffer[..a] + d.buffer[a..z];
    } else {
      assert Start(d.length, 0) == 0;
    }
  }

  lemma DoneIffAll(d: Downloader, ops: seq<Op>)
    requires d.Valid()
    requires forall i: nat :: i < d.N() ==> Holds(d, ops, i)
    ensures d.Done() <==> forall i: nat :: i < d.N() ==> i in d.done
  {
    var all := UpTo(d.N());
    assert d.done <= all;
    SubsetCardinality(d.done, all);
    if forall i: nat :: i < d.N() ==> i in d.done {
      assert d.done == all;
    }
  }

  /** Done() holds exactly when every block of the piece has arrived, and the buffer is
      then the first data received for each block, concatenated in order. */
  lemma {:induction false} DoneExact(start: Downloader, ops: seq<Op>, d: Downloader)
    requires start.Valid() && start.done == {} && Reaches(start, ops, d)
    ensures d.Done() <==> forall i: nat :: i < d.N() ==> Received(ops, i)
    ensures d.Done() ==> d.buffer == InOrder(ops, d.N())
  {
    ReachableHolds(start, ops, d, 0);
    forall i: nat ensures i < d.N() ==> Holds(d, ops, i) {
      ReachableHolds(start, ops, d, i);
    }
    DoneIffAll(d, ops);
    assert forall i: nat :: i < d.N() && Holds(d, ops, i) ==> (i in d.done <==> Received(ops, i));
    if d.Done() {
      BufferPrefix(d, ops, d.N());
    }
  }

  /** The object itself. */
  class PieceDownloader {
    const piece: nat
    const length: nat
    const allowedFast: bool
    const buffer: array<byte>
    var remaining: seq<nat>
    var pending: set<nat>
    var done: set<nat>

    ghost function View(): Downloader
      reads this, buffer
    {
      Downloader(piece, length, allowedFast, remaining, pending, done, buffer[..])
    }

    constructor (piece: nat, length: nat, allowedFast: bool, buffer: array<byte>)
      requires buffer.Length == length
      ensures this.buffer == buffer && View() == New(piece, length, allowedFast, buffer[..])
    {
      this.piece, this.length, this.allowedFast, this.buffer := piece, length, allowedFast, buffer;
      remaining, pending, done := Iota(NumBlocks(length)), {}, {};
    }

    method Choked(fastEnabled: bool) returns (ghost order: seq<nat>)
      requires View().Valid()
      modifies this`remaining, this`pending
      ensures Enumerates(order, old(pending))
      ensures View() == Choke(old(View()), fastEnabled, order) && View().Valid()
      ensures allowedFast || fastEnabled ==> remaining == old(remaining) && pending == old(pending)
      ensures !allowedFast && !fastEnabled ==> pending == {} && remaining == old(remaining) + order
      ensures !allowedFast && !fastEnabled ==>
                forall i: nat :: i < NumBlocks(length) && i !in done ==> i in remaining
    {
      ghost var start := View();
      order := [];
      if allowedFast || fastEnabled {
        order := Listing(pending);
        return;
      }
      while pending != {}
        invariant remaining == start.remaining + order
        invariant pending <= start.pending
        invariant forall i :: i in order <==> i in start.pending && i !in pending
        decreases pending
      {
        var i :| i in pending;
        pending := pending - {i};
        remaining := remaining + [i];
        order := order + [i];
      }
      ChokeValid(start, fastEnabled, order);
    }

    method GotBlock(b: Block, data: bytes) returns (err: BlockError)
      requires View().Valid() && Enabled(View(), OpGot(b, data))
      modifies this`pending, this`done, buffer
      ensures (View(), err) == Receive(old(View()), b, data) && View().Valid()
      ensures err == if b.index in old(done) then Duplicate
                     else if b.index in old(pending) then Fine else NotRequested
      ensures err.Duplicate? ==> done == old(done) && pending == old(pending) && buffer[..] == old(buffer[..])
      ensures !err.Duplicate? ==> done == old(done) + {b.index} && pending == old(pending) - {b.index}
      ensures !err.Duplicate? ==> b.begin + b.length <= length && buffer[b.begin..b.begin + b.length] == data
    {
      ghost var start := View();
      BlocksTile(length, b.index);
      ReceiveExact(start, b, data);
      hide Downloader.Valid;
      if b.index in done { return Duplicate; }
      err := if b.index in pending then Fine else NotRequested;
      CopyInto(buffer, b.begin, data);
      pending := pending - {b.index};
      done := done + {b.index};
    }

    method Rejected(b: Block)
      requires View().Valid() && GetBlock(length, b.index) == Some(b)
      modifies this`pending, this`remaining
      ensures View() == Reject(old(View()), b.index) && View().Valid()
      ensures pending == old(pending) - {b.index} && remaining == old(remaining) + [b.index]
    {
      pending := pending - {b.index};
      remaining := remaining + [b.index];
    }

    /** GetBlock cannot fail here: by RequestCorrect every index moved to `pending`
        is a block of the piece. */
    method RequestBlocks(queueLength: int) returns (asked: seq<nat>)
      requires View().Valid()
      modifies this`remaining, this`pending
      ensures (View(), asked) == Request(old(View()), queueLength)
      ensures Taken(old(View()), View(), asked) && (remaining == [] || |pending| >= queueLength)
      ensures |pending| <= queueLength || pending == old(pending)
    {
      hide Request, Taken, Downloader.Valid;
      ghost var start := View();
      ValidBuffer(start);
      ghost var goal := Request(start, queueLength);
      ghost var cur := start;
      ghost var rest := goal.1;
      asked := [];
      while remaining != [] && |pending| < queueLength
        invariant View() == cur && |cur.buffer| == length
        invariant Request(cur, queueLength) == (goal.0, rest)
        invariant asked + rest == goal.1
        decreases |remaining|
      {
        var i := remaining[0];
        RequestStep(cur, queueLength);
        cur := cur.(remaining := cur.remaining[1..], pending := cur.pending + {i});
        rest := Request(cur, queueLength).1;
        assert asked + ([i] + rest) == asked + [i] + rest && [] + rest == rest;
        if i !in done { asked := asked + [i]; }
        remaining, pending := remaining[1..], pending + {i};
      }
      RequestEnd(cur, queueLength);
      assert asked + [] == asked;
      RequestCorrect(start, queueLength);
    }
  }

  /** copy(buffer[at:], data) */
  method CopyInto(buffer: array<byte>, at: nat, data: bytes)
    requires at + |data| <= buffer.Length
    modifies buffer
    ensures buffer[..] == Splice(old(buffer[..]), at, data)
  {
    for k := 0 to |data|
      invariant forall j :: 0 <= j < buffer.Length ==>
                  buffer[j] == if at <= j < at + k then data[j - at] else old(buffer[j])
    {
      buffer[at + k] := data[k];
    }
    assert buffer[..] == Splice(old(buffer[..]), at, data);
  }

  lemma ReceiveExact(d: Downloader, b: Block, data: bytes)
    requires d.Valid() && Enabled(d, OpGot(b, data))
    ensures b.begin + b.length <= d.length && Receive(d, b, data).0.Valid()
    ensures b.index !in d.done ==>
              Receive(d, b, data) ==
              (d.(buffer := Splice(d.buffer, b.begin, data), pending := d.pending - {b.index},
                  done := d.done + {b.index}), if b.index in d.pending then Fine else NotRequested)
    ensures b.index in d.done ==> Receive(d, b, data) == (d, Duplicate)
  {
    BlocksTile(d.length, b.index);
  }

  lemma ValidBuffer(d: Downloader)
    requires d.Valid()
    ensures |d.buffer| == d.length
  {
  }

  lemma RequestEnd(d: Downloader, queueLength: int)
    requires d.remaining == [] || |d.pending| >= queueLength
    ensures Request(d, queueLength) == (d, [])
  {
  }

  lemma RequestStep(d: Downloader, queueLength: int)
    requires d.remaining != [] && |d.pending| < queueLength
    ensures var i := d.remaining[0];
            var e := d.(remaining := d.remaining[1..], pending := d.pending + {i});
            && Request(d, queueLength).0 == Request(e, queueLength).0
            && Request(d, queueLength).1 == (if i in d.done then [] else [i]) + Request(e, queueLength).1
  {
  }

  ghost function Listing(s: set<nat>): (order: seq<nat>)
    ensures Enumerates(order, s)
  {
    if s == {} then [] else
      var x :| x in s;
      [x] + Listing(s - {x})
  }
}
