/** external/peerconn/peerwriter: the queue of outgoing messages and the framing of the
    next one. A block is read from storage only when its turn comes. */
module PeerWriters {
  import opened BigEndian
  import opened Common
  import opened Codec
  import CP = CachedPieces

  /** In the queue: a message, or a promise to read and send a block. */
  datatype Queued = Plain(m: Message) | Block(index: nat, begin: nat, length: nat)

  function Blocks(q: seq<Queued>): nat {
    if q == [] then 0 else Blocks(q[..|q| - 1]) + if q[|q| - 1].Block? then 1 else 0
  }

  function WithoutBlocks(q: seq<Queued>): seq<Queued> {
    if q == [] then []
    else WithoutBlocks(q[..|q| - 1]) + if q[|q| - 1].Block? then [] else [q[|q| - 1]]
  }

  lemma {:induction false} BlocksConcat(q: seq<Queued>, r: seq<Queued>)
    ensures Blocks(q + r) == Blocks(q) + Blocks(r)
  {
    if r != [] {
      assert (q + r)[..|q + r| - 1] == q + r[..|r| - 1];
      BlocksConcat(q, r[..|r| - 1]);
    } else {
      assert q + r == q;
    }
  }

  lemma {:induction false} NoBlocksLeft(q: seq<Queued>)
    ensures Blocks(WithoutBlocks(q)) == 0
  {
    if q != [] {
      var (front, x) := (WithoutBlocks(q[..|q| - 1]), q[|q| - 1]);
      NoBlocksLeft(q[..|q| - 1]);
      if x.Block? {
        assert front + [] == front;
      } else {
        assert (front + [x])[..|front|] == front;
      }
    }
  }

  /** Of any queue exactly the blocks are left out, and the rest keeps its order; the counter
      counts exactly the blocks. */
  lemma {:induction false} WithoutBlocksExactly(q: seq<Queued>, r: seq<Queued>, m: Message, i: nat, b: nat, n: nat)
    ensures WithoutBlocks(q + r) == WithoutBlocks(q) + WithoutBlocks(r)
    ensures WithoutBlocks([Plain(m)]) == [Plain(m)] && WithoutBlocks([Block(i, b, n)]) == []
    ensures Blocks(q + r) == Blocks(q) + Blocks(r) && Blocks([Plain(m)]) == 0 && Blocks([Block(i, b, n)]) == 1
  {
    BlocksConcat(q, r);
    var one, two := [Plain(m)], [Block(i, b, n)];
    assert one[..0] == [] && two[..0] == [];
    assert [] + one == one;
    if r == [] {
      assert q + r == q && WithoutBlocks(q) + [] == WithoutBlocks(q);
    } else {
      var front, last := r[..|r| - 1], r[|r| - 1];
      WithoutBlocksExactly(q, front, m, i, b, n);
      assert (q + r)[..|q + r| - 1] == q + front;
      var x := if last.Block? then [] else [last];
      assert WithoutBlocks(q) + (WithoutBlocks(front) + x) == WithoutBlocks(q) + WithoutBlocks(front) + x;
    }
  }

  lemma BlocksWithout(q: seq<Queued>, i: nat)
    requires i < |q|
    ensures Blocks(q[..i] + q[i + 1..]) == Blocks(q) - if q[i].Block? then 1 else 0
  {
    BlocksConcat(q[..i], q[i + 1..]);
    BlocksConcat(q[..i], q[i..]);
    BlocksConcat([q[i]], q[i + 1..]);
    assert q[..i] + q[i..] == q && [q[i]] + q[i + 1..] == q[i..];
    assert [q[i]][..0] == [];
  }

  lemma CancelStart(q: seq<Queued>)
    ensures WithoutBlocks(q[..0]) == [] && Blocks(q[..0]) == 0 && [] + q[0..] == q
  {
  }

  lemma CancelStep(q: seq<Queued>, e: nat, kept: seq<Queued>)
    requires e < |q| && kept == WithoutBlocks(q[..e])
    ensures WithoutBlocks(q[..e + 1]) == if q[e].Block? then kept else kept + [q[e]]
    ensures Blocks(q[..e + 1]) == Blocks(q[..e]) + if q[e].Block? then 1 else 0
    ensures kept + q[e..] == kept + [q[e]] + q[e + 1..]
  {
    assert q[..e + 1][..e] == q[..e];
    assert kept + [] == kept;
  }

  class PeerWriter {
    const maxQueuedRequests: int
    const fastEnabled: bool
    var writeQueue: seq<Queued>
    var currentQueuedRequests: int
    var servedRequests: set<(nat, nat, nat)>

    constructor (maxQueuedRequests: int, fastEnabled: bool)
      ensures Valid() && writeQueue == [] && servedRequests == {}
      ensures this.maxQueuedRequests == maxQueuedRequests && this.fastEnabled == fastEnabled
    {
      this.maxQueuedRequests, this.fastEnabled := maxQueuedRequests, fastEnabled;
      writeQueue, currentQueuedRequests, servedRequests := [], 0, {};
    }

    /** The counter is the number of waiting blocks, which stays within the limit. */
    ghost predicate Valid()
      reads this
    {
      currentQueuedRequests == Blocks(writeQueue)
          && (currentQueuedRequests > 0 ==> currentQueuedRequests <= maxQueuedRequests)
    }

    /** queueMessage: choking drops all waiting blocks; a block too many is rejected, or
        dropped for a peer without the Fast Extension. */
    method QueueMessage(msg: Queued)
      requires Valid()
      modifies this`writeQueue, this`currentQueuedRequests
      ensures Valid()
      ensures writeQueue ==
              if msg.Plain? then (if msg.m == Choke then WithoutBlocks(old(writeQueue)) else old(writeQueue)) + [msg]
              else if Blocks(old(writeQueue)) < maxQueuedRequests then old(writeQueue) + [msg]
              else if fastEnabled then old(writeQueue) + [Plain(Reject(msg.index, msg.begin, msg.length))]
              else old(writeQueue)
    {
      var out := msg;
      if msg.Plain? && msg.m == Choke {
        CancelQueuedPieceMessages();
      } else if msg.Block? {
        if currentQueuedRequests >= maxQueuedRequests {
          if !fastEnabled { return; }
          out := Plain(Reject(msg.index, msg.begin, msg.length));
        } else {
          currentQueuedRequests := currentQueuedRequests + 1;
        }
      }
      assert (writeQueue + [out])[..|writeQueue|] == writeQueue;
      writeQueue := writeQueue + [out];
    }

    method CancelQueuedPieceMessages()
      requires Valid()
      modifies this`writeQueue, this`currentQueuedRequests
      ensures writeQueue == WithoutBlocks(old(writeQueue)) && currentQueuedRequests == 0 == Blocks(writeQueue)
    {
      hide Blocks;
      var q, kept, e := writeQueue, [], 0;
      CancelStart(q);
      while e < |q|
        invariant 0 <= e <= |q| && kept == WithoutBlocks(q[..e]) && writeQueue == kept + q[e..]
        invariant currentQueuedRequests == Blocks(q) - Blocks(q[..e])
      {
        CancelStep(q, e, kept);
        if q[e].Block? {
          writeQueue := kept + q[e + 1..];
          currentQueuedRequests := currentQueuedRequests - 1;
        } else {
          kept := kept + [q[e]];
        }
        e := e + 1;
      }
      assert q[..|q|] == q && writeQueue == kept + [];
      NoBlocksLeft(q);
    }

    /** cancelRequest removes the first waiting block that matches, if any. */
    method CancelRequest(index: nat, begin: nat, length: nat) returns (at: nat)
      requires Valid()
      modifies this`writeQueue, this`currentQueuedRequests
      ensures Valid() && at <= |old(writeQueue)|
      ensures forall i :: 0 <= i < at ==> old(writeQueue)[i] != Block(index, begin, length)
      ensures writeQueue == if at == |old(writeQueue)| then old(writeQueue)
                            else old(writeQueue)[..at] + old(writeQueue)[at + 1..]
      ensures at < |old(writeQueue)| ==> old(writeQueue)[at] == Block(index, begin, length)
    {
      at := 0;
      while at < |writeQueue|
        invariant at <= |writeQueue| && writeQueue == old(writeQueue)
        invariant currentQueuedRequests == old(currentQueuedRequests)
        invariant forall i :: 0 <= i < at ==> writeQueue[i] != Block(index, begin, length)
      {
        if writeQueue[at] == Block(index, begin, length) {
          BlocksWithout(writeQueue, at);
          writeQueue := writeQueue[..at] + writeQueue[at + 1..];
          currentQueuedRequests := currentQueuedRequests - 1;
          return;
        }
        at := at + 1;
      }
    }

    /** One turn of the two loops: the front of the queue goes out as one frame. A block is
        served at most once; asked for again, it is rejected. `read` is what reading the
        block gives, should it be read. A failing read ends the writer; a panic of the read,
        or a block larger than the reader lets in, ends the process. */
    method WriteNext(read: CP.Outcome) returns (written: Written)
      requires Valid() && writeQueue != [] && (writeQueue[0].Plain? ==> !writeQueue[0].m.Piece?)
      requires writeQueue[0].Block? && read.Data? ==> |read.data| <= writeQueue[0].length
      modifies this
      ensures Valid() && writeQueue == old(writeQueue)[1..]
      ensures var q := old(writeQueue)[0];
              match q
              case Plain(m) => written == Out(Frame(m)) && servedRequests == old(servedRequests)
              case Block(i, b, n) =>
                && servedRequests == old(servedRequests) + {(i, b, n)}
                && written == if (i, b, n) in old(servedRequests) then Out(Frame(Reject(i, b, n)))
                              else if n > MAX_BLOCK_SIZE || read.Panicked? then Crashed
                              else if read.Failed? then Ended
                              else Out(Frame(Piece(i, b, read.data)))
    {
      hide Frame;
      var q := writeQueue[0];
      BlocksWithout(writeQueue, 0);
      assert writeQueue[..0] + writeQueue[1..] == writeQueue[1..];
      writeQueue := writeQueue[1..];
      match q {
        case Plain(m) => written := WritePlain(m);
        case Block(i, b, n) =>
          currentQueuedRequests := currentQueuedRequests - 1;
          if (i, b, n) in servedRequests {
            written := WritePlain(Reject(i, b, n));
          } else {
            written := WriteBlock(i, b, n, read);
          }
          servedRequests := servedRequests + {(i, b, n)};
      }
    }

    method WritePlain(m: Message) returns (written: Written)
      requires !m.Piece?
      ensures written == Out(Frame(m))
    {
      var frame := WriteFrame(m, 0);
      written := Out(frame.value);
    }

    method WriteBlock(i: nat, b: nat, n: nat, read: CP.Outcome) returns (written: Written)
      requires read.Data? ==> |read.data| <= n
      ensures written == if n > MAX_BLOCK_SIZE || read.Panicked? then Crashed
                         else if read.Failed? then Ended
                         else Out(Frame(Piece(i, b, read.data)))
    {
      if 8 + n > ROOM { return Crashed; }
      match read {
        case Panicked => written := Crashed;
        case Failed => written := Ended;
        case Data(data) =>
          var frame := WriteFrame(Piece(i, b, data), n);
          written := Out(frame.value);
      }
    }
  }

  datatype Written = Out(frame: bytes) | Ended | Crashed

  /** binary.BigEndian.PutUint32 */
  method PutUint32(b: array<byte>, at: nat, v: nat)
    requires at + 4 <= b.Length
    modifies b
    ensures b[at..at + 4] == Be32(v) && b[..at] == old(b[..at]) && b[at + 4..] == old(b[at + 4..])
  {
    var s := Be32(v);
    b[at], b[at + 1], b[at + 2], b[at + 3] := s[0], s[1], s[2], s[3];
  }

  /** Read of the fixed layouts, and of a block behind its header. */
  method ReadBody(m: Message, b: array<byte>) returns (n: nat)
    requires !m.Bitfield? && !m.Extension? && |Body(m)| <= b.Length
    modifies b
    ensures n == |Body(m)| && b[..n] == Body(m)
  {
    n := 0;
    match m {
      case Have(i) => PutUint32(b, 0, i); n := 4;
      case AllowedFast(i) => PutUint32(b, 0, i); n := 4;
      case Request(i, begin, length) => PutThree(b, i, begin, length); n := 12;
      case Cancel(i, begin, length) => PutThree(b, i, begin, length); n := 12;
      case Reject(i, begin, length) => PutThree(b, i, begin, length); n := 12;
      case Piece(i, begin, data) => PutBlock(b, i, begin, data); n := 8 + |data|;
      case Port(p) =>
        b[0], b[1] := Be16(p)[0], Be16(p)[1];
        n := 2;
      case _ =>
    }
  }

  method PutThree(b: array<byte>, i: nat, begin: nat, length: nat)
    requires b.Length >= 12
    modifies b
    ensures b[..12] == Be32(i) + Be32(begin) + Be32(length)
  {
    hide Be32;
    PutUint32(b, 0, i);
    assert b[0..4] == b[..4];
    PutUint32(b, 4, begin);
    assert b[..8] == b[..4] + b[4..8];
    PutUint32(b, 8, length);
    assert b[..12] == b[..8] + b[8..12];
  }

  method PutBlock(b: array<byte>, i: nat, begin: nat, data: bytes)
    requires b.Length >= 8 + |data|
    modifies b
    ensures b[..8 + |data|] == Be32(i) + Be32(begin) + data
  {
    hide Be32;
    PutUint32(b, 0, i);
    assert b[0..4] == b[..4];
    PutUint32(b, 4, begin);
    assert b[..8] == b[..4] + b[4..8];
    for k := 0 to |data|
      invariant b[..8 + k] == Be32(i) + Be32(begin) + data[..k]
    {
      b[8 + k] := data[k];
      assert b[..8 + k + 1] == b[..8 + k] + [data[k]];
    }
    assert data[..|data|] == data;
  }

  /** BitfieldMessage.Read called by Buffer.ReadFrom: as much as fits each time, until the
      position reaches the end. The room left differs from call to call. */
  method ReadBitfield(data: bytes, room: nat -> nat) returns (out: bytes)
    requires forall k :: room(k) > 0
    ensures out == data
  {
    out := [];
    var pos, k := 0, 0;
    while true
      invariant 0 <= pos <= |data| && out == data[..pos]
      decreases |data| - pos
    {
      var n := Min(room(k), |data| - pos);
      assert data[..pos] + data[pos..pos + n] == data[..pos + n];
      out := out + data[pos..pos + n];
      pos, k := pos + n, k + 1;
      if pos == |data| { break; }
    }
  }

  /** What the array of messageWriter leaves behind length and id: the header and the data
      of the largest block. */
  const ROOM := 8 + MAX_BLOCK_SIZE

  /** messageWriter's framing: length and id are put in front once the body is written. For
      a block of `length` bytes the array is sliced, and is too short for more than the
      largest block; a bitfield may grow it. */
  method WriteFrame(m: Message, length: nat) returns (frame: Option<bytes>)
    requires m.Piece? ==> |m.data| <= length
    ensures frame == if m.Piece? && length > MAX_BLOCK_SIZE then None else Some(Frame(m))
  {
    hide Be32, Id;
    if m.Piece? && 8 + length > ROOM { return None; }
    var body;
    match m {
      case Bitfield(data) => body := ReadBitfield(data, k => if k == 0 then ROOM else 512);
      case Extension(data) => body := data;
      case _ =>
        var b := new byte[ROOM](_ => 0);
        var n := ReadBody(m, b);
        body := b[..n];
    }
    var framed := Framed(Id(m), body);
    frame := Some(framed);
  }

  method Framed(id: byte, body: bytes) returns (frame: bytes)
    ensures frame == Be32(1 + |body|) + [id] + body
  {
    hide Be32, Frame, Body;
    var buf := new byte[5 + |body|](i requires 0 <= i < 5 + |body| => if i < 5 then 0 else body[i - 5]);
    assert buf[5..] == body;
    buf[4] := id;
    PutUint32(buf, 0, 1 + |body|);
    assert buf[4..] == [id] + body;
    frame := buf[..];
    assert frame == frame[..4] + frame[4..] && frame[..4] == buf[0..4] && frame[4..] == buf[4..];
  }
}
