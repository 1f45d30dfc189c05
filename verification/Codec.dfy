/** external/peerprotocol, peerconn/peerreader and peerconn/peerwriter: the peer messages of
    BEP 3 (section "peer messages") and BEP 6. Extension payloads are opaque: `ext` says
    which of them UnmarshalBinary accepts. */
module Codec {
  import opened BigEndian
  import opened Common

  const MAX_BLOCK_SIZE := 16 * 1024

  datatype Message =
    | Choke
    | Unchoke
    | Interested
    | NotInterested
    | Have(index: nat)
    | Bitfield(data: bytes)
    | Request(index: nat, begin: nat, length: nat)
    | Piece(index: nat, begin: nat, data: bytes)
    | Cancel(index: nat, begin: nat, length: nat)
    | Port(port: nat)
    | HaveAll
    | HaveNone
    | Reject(index: nat, begin: nat, length: nat)
    | AllowedFast(index: nat)
    | Extension(data: bytes)

  /** ID(). AllowedFastMessage embeds HaveMessage and has no ID of its own. */
  function Id(m: Message): byte {
    match m
    case Choke => 0
    case Unchoke => 1
    case Interested => 2
    case NotInterested => 3
    case Have(_) => 4
    case Bitfield(_) => 5
    case Request(_, _, _) => 6
    case Piece(_, _, _) => 7
    case Cancel(_, _, _) => 8
    case Port(_) => 9
    case HaveAll => 14
    case HaveNone => 15
    case Reject(_, _, _) => 16
    case AllowedFast(_) => 4
    case Extension(_) => 20
  }

  function Body(m: Message): bytes {
    match m
    case Have(i) => Be32(i)
    case AllowedFast(i) => Be32(i)
    case Bitfield(data) => data
    case Request(i, b, n) => Be32(i) + Be32(b) + Be32(n)
    case Cancel(i, b, n) => Be32(i) + Be32(b) + Be32(n)
    case Reject(i, b, n) => Be32(i) + Be32(b) + Be32(n)
    case Piece(i, b, data) => Be32(i) + Be32(b) + data
    case Port(p) => Be16(p)
    case Extension(data) => data
    case _ => []
  }

  function Frame(m: Message): bytes {
    Be32(1 + |Body(m)|) + [Id(m)] + Body(m)
  }

  // ---- reading

  datatype Stop = Eof | TooLarge(id: byte, got: nat) | BadExtension

  datatype Parsed = Got(m: Message, used: nat) | Skip(used: nat) | Bad(stop: Stop)

  function Triple(s: bytes): (nat, nat, nat)
    requires |s| >= 12
  {
    (FromBe32(s[..4]), FromBe32(s[4..8]), FromBe32(s[8..12]))
  }

  /** The body behind a length and an id; n is the announced length of the body, which
      only the last four kinds look at. */
  function Parse(id: byte, n: nat, s: bytes, ext: bytes -> bool): Parsed {
    if id == 0 then Got(Choke, 0)
    else if id == 1 then Got(Unchoke, 0)
    else if id == 2 then Got(Interested, 0)
    else if id == 3 then Got(NotInterested, 0)
    else if id == 14 then Got(HaveAll, 0)
    else if id == 15 then Got(HaveNone, 0)
    else if id == 4 then if |s| < 4 then Bad(Eof) else Got(Have(FromBe32(s[..4])), 4)
    else if id == 17 then if |s| < 4 then Bad(Eof) else Got(AllowedFast(FromBe32(s[..4])), 4)
    else if id == 9 then if |s| < 2 then Bad(Eof) else Got(Port(FromBe16(s[..2])), 2)
    else if id in {6, 8, 16} then ParseTriple(id, s)
    else ParseSized(id, n, s, ext)
  }

  function ParseTriple(id: byte, s: bytes): Parsed {
    if |s| < 12 then Bad(Eof)
    else
      var (i, b, n) := Triple(s);
      if id == 6 then if n > MAX_BLOCK_SIZE then Bad(TooLarge(6, n)) else Got(Request(i, b, n), 12)
      else if id == 8 then Got(Cancel(i, b, n), 12)
      else Got(Reject(i, b, n), 12)
  }

  function ParseSized(id: byte, n: nat, s: bytes, ext: bytes -> bool): Parsed {
    if id == 7 then ParsePiece(n, s)
    else if |s| < n then Bad(Eof)
    else if id == 5 then Got(Bitfield(s[..n]), n)
    else if id == 20 then if ext(s[..n]) then Got(Extension(s[..n]), n) else Bad(BadExtension)
    else Skip(n)
  }

  /** length -= 8 wraps around for a body too short for its header. */
  function ParsePiece(n: nat, s: bytes): Parsed {
    if |s| < 8 then Bad(Eof)
    else
      var size := (n - 8) % UINT32;
      if size > MAX_BLOCK_SIZE then Bad(TooLarge(7, size))
      else if |s| < 8 + size then Bad(Eof)
      else Got(Piece(FromBe32(s[..4]), FromBe32(s[4..8]), s[8..8 + size]), 8 + size)
  }

  lemma UsedBound(id: byte, n: nat, s: bytes, ext: bytes -> bool)
    ensures var p := Parse(id, n, s, ext); !p.Bad? ==> p.used <= |s|
  {
  }

  /** PeerReader.Run: the messages delivered from the stream s, and what ended it. */
  function Decode(s: bytes, ext: bytes -> bool): (seq<Message>, Stop)
    decreases |s|
  {
    if |s| < 4 then ([], Eof)
    else if FromBe32(s[..4]) == 0 then Decode(s[4..], ext)
    else if |s| < 5 then ([], Eof)
    else
      match Parse(s[4], FromBe32(s[..4]) - 1, s[5..], ext)
      case Bad(stop) => ([], stop)
      case Skip(used) => if 5 + used <= |s| then Decode(s[5 + used..], ext) else ([], Eof)
      case Got(m, used) =>
        if 5 + used <= |s| then var (rest, stop) := Decode(s[5 + used..], ext); ([m] + rest, stop) else ([], Eof)
  }

  method Run(stream: bytes, ext: bytes -> bool) returns (messages: seq<Message>, err: Stop)
    ensures (messages, err) == Decode(stream, ext)
  {
    hide Parse;
    var s := stream;
    messages := [];
    while true
      invariant Decode(stream, ext).0 == messages + Decode(s, ext).0 && Decode(stream, ext).1 == Decode(s, ext).1
      decreases |s|
    {
      assert messages + [] == messages;
      if |s| < 4 { return messages, Eof; }
      var length := FromBe32(s[..4]);
      if length == 0 {
        s := s[4..];
        continue;
      }
      if |s| < 5 { return messages, Eof; }
      UsedBound(s[4], length - 1, s[5..], ext);
      match Parse(s[4], length - 1, s[5..], ext) {
        case Bad(stop) => return messages, stop;
        case Skip(used) => s := s[5 + used..];
        case Got(m, used) =>
          Prefix(messages, m, Decode(s[5 + used..], ext).0);
          messages := messages + [m];
          s := s[5 + used..];
      }
    }
  }

  lemma Prefix<T>(s: seq<T>, x: T, t: seq<T>)
    ensures s + ([x] + t) == s + [x] + t
  {
  }

  // ---- round trips

  /** The ranges of the fields, and what a reader accepts. */
  ghost predicate Sendable(m: Message, ext: bytes -> bool) {
    && |Body(m)| < UINT32 - 1
    && match m
       case Have(i) => i < UINT32
       case AllowedFast(i) => i < UINT32
       case Request(i, b, n) => i < UINT32 && b < UINT32 && n <= MAX_BLOCK_SIZE
       case Cancel(i, b, n) => i < UINT32 && b < UINT32 && n < UINT32
       case Reject(i, b, n) => i < UINT32 && b < UINT32 && n < UINT32
       case Piece(i, b, data) => i < UINT32 && b < UINT32 && |data| <= MAX_BLOCK_SIZE
       case Port(p) => p < 0x1_0000
       case Extension(data) => ext(data)
       case _ => true
  }

  /** What arrives: an AllowedFast message arrives as Have. */
  function Arrives(m: Message): Message {
    match m
    case AllowedFast(i) => Have(i)
    case _ => m
  }

  lemma TripleRoundTrip(i: nat, b: nat, n: nat, rest: bytes)
    requires i < UINT32 && b < UINT32 && n < UINT32
    ensures Triple(Be32(i) + Be32(b) + Be32(n) + rest) == (i, b, n)
  {
    var s := Be32(i) + Be32(b) + Be32(n) + rest;
    assert s[..4] == Be32(i) && s[4..8] == Be32(b) && s[8..12] == Be32(n);
    Be32RoundTrip(i);
    Be32RoundTrip(b);
    Be32RoundTrip(n);
  }

  lemma PieceRoundTrip(i: nat, b: nat, data: bytes, rest: bytes)
    requires i < UINT32 && b < UINT32 && |data| <= MAX_BLOCK_SIZE
    ensures ParsePiece(8 + |data|, Be32(i) + Be32(b) + data + rest) == Got(Piece(i, b, data), 8 + |data|)
  {
    var s := Be32(i) + Be32(b) + data + rest;
    assert s[..4] == Be32(i) && s[4..8] == Be32(b) && s[8..8 + |data|] == data;
    Be32RoundTrip(i);
    Be32RoundTrip(b);
  }

  lemma ShortRoundTrip(n: nat, rest: bytes)
    ensures n < UINT32 ==> FromBe32((Be32(n) + rest)[..4]) == n
    ensures n < 0x1_0000 ==> FromBe16((Be16(n) + rest)[..2]) == n
  {
    assert (Be32(n) + rest)[..4] == Be32(n) && (Be16(n) + rest)[..2] == Be16(n);
    if n < UINT32 { Be32RoundTrip(n); }
    Be16RoundTrip(n);
  }

  /** One body reads back, and exactly its bytes are consumed. */
  lemma BodyRoundTrip(m: Message, rest: bytes, ext: bytes -> bool)
    requires Sendable(m, ext)
    ensures Parse(Id(m), |Body(m)|, Body(m) + rest, ext) == Got(Arrives(m), |Body(m)|)
  {
    hide Be32, Be16, FromBe32, FromBe16, Triple;
    match m {
      case Have(i) => ShortRoundTrip(i, rest);
      case AllowedFast(i) => ShortRoundTrip(i, rest);
      case Port(p) => ShortRoundTrip(p, rest);
      case Request(i, b, n) => TripleRoundTrip(i, b, n, rest);
      case Cancel(i, b, n) => TripleRoundTrip(i, b, n, rest);
      case Reject(i, b, n) => TripleRoundTrip(i, b, n, rest);
      case Piece(i, b, data) => PieceRoundTrip(i, b, data, rest);
      case _ => assert (Body(m) + rest)[..|Body(m)|] == Body(m);
    }
  }

  lemma FrameRoundTrip(m: Message, rest: bytes, ext: bytes -> bool)
    requires Sendable(m, ext)
    ensures Decode(Frame(m) + rest, ext) == ([Arrives(m)] + Decode(rest, ext).0, Decode(rest, ext).1)
  {
    hide Be32, FromBe32, Parse, Sendable, Body, Id;
    var (s, n) := (Frame(m) + rest, |Body(m)|);
    BodySize(m, ext);
    BodyRoundTrip(m, rest, ext);
    Be32RoundTrip(1 + n);
    assert s[..4] == Be32(1 + n) && s[4] == Id(m);
    assert s[5..] == Body(m) + rest && s[5 + n..] == rest;
  }

  lemma BodySize(m: Message, ext: bytes -> bool)
    requires Sendable(m, ext)
    ensures 1 + |Body(m)| < UINT32
  {
  }

  datatype Sent = KeepAlive | Sent(m: Message)

  function Encode(items: seq<Sent>): bytes {
    if items == [] then []
    else (match items[0] case KeepAlive => [0, 0, 0, 0] case Sent(m) => Frame(m)) + Encode(items[1..])
  }

  function Messages(items: seq<Sent>): seq<Message> {
    if items == [] then []
    else (match items[0] case KeepAlive => [] case Sent(m) => [m]) + Messages(items[1..])
  }

  function Arriving(items: seq<Sent>): seq<Message> {
    if items == [] then []
    else (match items[0] case KeepAlive => [] case Sent(m) => [Arrives(m)]) + Arriving(items[1..])
  }

  ghost predicate AllSendable(items: seq<Sent>, ext: bytes -> bool) {
    forall i :: 0 <= i < |items| && items[i].Sent? ==> Sendable(items[i].m, ext)
  }

  /** Any sequence of frames, with keep-alives anywhere, is read back message by message. */
  lemma {:induction false} StreamRoundTrip(items: seq<Sent>, ext: bytes -> bool)
    requires AllSendable(items, ext)
    ensures Decode(Encode(items), ext) == (Arriving(items), Eof)
  {
    if items != [] {
      hide Frame, Sendable;
      StreamRoundTrip(items[1..], ext);
      match items[0] {
        case KeepAlive =>
          KeepAliveSkipped(Encode(items[1..]), ext);
          assert [] + Arriving(items[1..]) == Arriving(items[1..]);
        case Sent(m) => FrameRoundTrip(m, Encode(items[1..]), ext);
      }
    }
  }

  lemma KeepAliveSkipped(rest: bytes, ext: bytes -> bool)
    ensures Decode([0, 0, 0, 0] + rest, ext) == Decode(rest, ext)
  {
    var s := [0, 0, 0, 0] + rest;
    assert s[..4] == Be32(0) && s[4..] == rest;
    Be32RoundTrip(0);
  }

  /** The sequence itself arrives exactly when no AllowedFast message is in it. */
  lemma {:induction false} FaithfulExactly(items: seq<Sent>, ext: bytes -> bool)
    requires AllSendable(items, ext)
    ensures Decode(Encode(items), ext) == (Messages(items), Eof)
            <==> forall i :: 0 <= i < |items| && items[i].Sent? ==> !items[i].m.AllowedFast?
  {
    StreamRoundTrip(items, ext);
    SameExactly(items);
  }

  lemma {:induction false} SameExactly(items: seq<Sent>)
    ensures |Arriving(items)| == |Messages(items)|
    ensures Arriving(items) == Messages(items)
            <==> forall i :: 0 <= i < |items| && items[i].Sent? ==> !items[i].m.AllowedFast?
  {
    if items != [] {
      var rest := items[1..];
      SameExactly(rest);
      assert forall i :: 0 < i < |items| ==> items[i] == rest[i - 1];
      assert (forall i :: 0 <= i < |items| && items[i].Sent? ==> !items[i].m.AllowedFast?)
        <==> (items[0].Sent? ==> !items[0].m.AllowedFast?)
             && forall i :: 0 <= i < |rest| && rest[i].Sent? ==> !rest[i].m.AllowedFast?;
      if items[0].Sent? {
        Heads([Arrives(items[0].m)], Arriving(rest), [items[0].m], Messages(rest));
      } else {
        assert [] + Arriving(rest) == Arriving(rest) && [] + Messages(rest) == Messages(rest);
      }
    }
  }

  lemma Heads<T>(a: seq<T>, s: seq<T>, b: seq<T>, t: seq<T>)
    requires |a| == |b| && |s| == |t|
    ensures a + s == b + t <==> a == b && s == t
  {
    if a + s == b + t {
      assert (a + s)[..|a|] == a && (b + t)[..|b|] == b;
      assert (a + s)[|a|..] == s && (b + t)[|b|..] == t;
    }
  }

  /** A request for more than a block ends the connection, whatever was sent before. */
  lemma OversizedRequest(i: nat, b: nat, n: nat, rest: bytes, ext: bytes -> bool)
    requires i < UINT32 && b < UINT32 && MAX_BLOCK_SIZE < n < UINT32
    ensures Decode(Frame(Request(i, b, n)) + rest, ext) == ([], TooLarge(6, n))
  {
    hide Be32, FromBe32, Triple;
    var s := Frame(Request(i, b, n)) + rest;
    Be32RoundTrip(13);
    assert s[..4] == Be32(13);
    assert s[5..] == Be32(i) + Be32(b) + Be32(n) + rest;
    TripleRoundTrip(i, b, n, rest);
  }

  // ---- the bytes themselves

  /** Each kind of message on the wire. The fixed sizes are those of BEP 3 and BEP 6, but an
      AllowedFast message goes out with the id of Have. */
  lemma FrameBytes(m: Message, ext: bytes -> bool)
    requires Sendable(m, ext)
    ensures match m
            case Choke => Frame(m) == [0, 0, 0, 1, 0]
            case Unchoke => Frame(m) == [0, 0, 0, 1, 1]
            case Interested => Frame(m) == [0, 0, 0, 1, 2]
            case NotInterested => Frame(m) == [0, 0, 0, 1, 3]
            case Have(i) => Frame(m) == [0, 0, 0, 5, 4] + Num(i)
            case Bitfield(data) => Frame(m) == Num(1 + |data|) + [5] + data
            case Request(i, b, n) => Frame(m) == [0, 0, 0, 13, 6] + (Num(i) + Num(b) + Num(n))
            case Piece(i, b, data) => Frame(m) == Num(9 + |data|) + [7] + (Num(i) + Num(b) + data)
            case Cancel(i, b, n) => Frame(m) == [0, 0, 0, 13, 8] + (Num(i) + Num(b) + Num(n))
            case Port(p) => Frame(m) == [0, 0, 0, 3, 9, p / 256, p % 256]
            case HaveAll => Frame(m) == [0, 0, 0, 1, 14]
            case HaveNone => Frame(m) == [0, 0, 0, 1, 15]
            case Reject(i, b, n) => Frame(m) == [0, 0, 0, 13, 16] + (Num(i) + Num(b) + Num(n))
            case AllowedFast(i) => Frame(m) == [0, 0, 0, 5, 4] + Num(i)
            case Extension(data) => Frame(m) == Num(1 + |data|) + [20] + data
  {
    hide Be32;
    Be32Bytes(1 + |Body(m)|);
    match m
    case Have(i) => Be32Bytes(i);
    case AllowedFast(i) => Be32Bytes(i);
    case Request(i, b, n) => NumTriple(i, b, n);
    case Cancel(i, b, n) => NumTriple(i, b, n);
    case Reject(i, b, n) => NumTriple(i, b, n);
    case Piece(i, b, _) =>
      Be32Bytes(i);
      Be32Bytes(b);
    case _ =>
  }

  lemma NumTriple(i: nat, b: nat, n: nat)
    requires i < UINT32 && b < UINT32 && n < UINT32
    ensures Be32(i) + Be32(b) + Be32(n) == Num(i) + Num(b) + Num(n)
  {
    hide Be32;
    Be32Bytes(i);
    Be32Bytes(b);
    Be32Bytes(n);
  }

  /** Id 17 is read as AllowedFast, though this program never sends it. */
  lemma AllowedFastRead(i: nat, rest: bytes, ext: bytes -> bool)
    requires i < UINT32
    ensures Decode([0, 0, 0, 5, 17] + Num(i) + rest, ext) ==
            ([AllowedFast(i)] + Decode(rest, ext).0, Decode(rest, ext).1)
  {
    hide Be32, FromBe32;
    var s := [0, 0, 0, 5, 17] + Num(i) + rest;
    Be32Bytes(5);
    Be32RoundTrip(5);
    Be32Bytes(i);
    Be32RoundTrip(i);
    assert s[..4] == Be32(5) && s[5..][..4] == Be32(i) && s[9..] == rest;
  }

  /** A message of an unknown kind is passed over as a whole. */
  lemma UnknownSkipped(id: byte, body: bytes, rest: bytes, ext: bytes -> bool)
    requires id !in {0, 1, 2, 3, 4, 5, 6, 7, 8, 9, 14, 15, 16, 17, 20} && 1 + |body| < UINT32
    ensures Decode(Num(1 + |body|) + [id] + body + rest, ext) == Decode(rest, ext)
  {
    hide Be32, FromBe32, Parse, Num, Decode;
    NumRead(1 + |body|);
    UnknownParsed(id, body, rest, ext);
    FrameSlices(Num(1 + |body|), id, body, rest);
    SkipStep(Num(1 + |body|) + [id] + body + rest, |body|, ext);
  }

  lemma FrameSlices(size: bytes, id: byte, body: bytes, rest: bytes)
    requires |size| == 4
    ensures var s := size + [id] + body + rest;
            s[..4] == size && s[4] == id && s[5..] == body + rest && s[5 + |body|..] == rest
  {
  }

  lemma SkipStep(s: bytes, used: nat, ext: bytes -> bool)
    requires 5 + used <= |s| && FromBe32(s[..4]) > 0
    requires Parse(s[4], FromBe32(s[..4]) - 1, s[5..], ext) == Skip(used)
    ensures Decode(s, ext) == Decode(s[5 + used..], ext)
  {
    hide Parse, FromBe32;
  }

  lemma NumRead(x: nat)
    requires x < UINT32
    ensures |Num(x)| == 4 && FromBe32(Num(x)) == x
  {
    Be32Bytes(x);
    Be32RoundTrip(x);
  }

  lemma UnknownParsed(id: byte, body: bytes, rest: bytes, ext: bytes -> bool)
    requires id !in {0, 1, 2, 3, 4, 5, 6, 7, 8, 9, 14, 15, 16, 17, 20}
    ensures Parse(id, |body|, body + rest, ext) == Skip(|body|)
  {
  }
}
