/** From the wire to the event loop: what torrent.run receives for the messages that
    PeerReader.Run delivers and Peer.Run passes on (external/peer/peer.go). */
module Deliveries {
  import opened Common
  import opened PeerSets
  import opened Engine
  import opened EventLoop
  import opened Progress
  import opened Connections
  import BE = BigEndian
  import Bitfields
  import Codec

  /** What UnmarshalBinary makes of an extension payload: a handshake or something that
      changes nothing once the info is known. */
  datatype Payload = Handshake(requestQueue: int) | Other

  ghost function BitsOf(data: bytes, n: nat): seq<bool> {
    if |data| != Bitfields.NumBytes(n) then []
    else Bitfields.Bits(seq(|data|, i requires 0 <= i < |data| => data[i] as bv8), n)
  }

  ghost function Delivery(pe: Peer, m: Codec.Message, n: nat, payload: bytes -> Payload): Event {
    match m
    case Piece(i, begin, data) => PieceMessage(pe, i, begin, data)
    case _ => PeerMessage(pe, Received(m, n, payload))
  }

  ghost function Received(m: Codec.Message, n: nat, payload: bytes -> Payload): Message {
    match m
    case Choke => ChokeMessage
    case Unchoke => UnchokeMessage
    case Interested => InterestedMessage
    case NotInterested => NotInterestedMessage
    case Have(i) => HaveMessage(i)
    case Bitfield(data) => BitfieldMessage(|data|, BitsOf(data, n))
    case Request(i, begin, length) => RequestMessage(i, begin, length)
    case Cancel(i, begin, length) => CancelMessage(i, begin, length)
    case Reject(i, begin, length) => RejectMessage(i, begin, length)
    case Port(p) => PortMessage(p)
    case HaveAll => HaveAllMessage
    case HaveNone => HaveNoneMessage
    case AllowedFast(i) => AllowedFastMessage(i)
    case Extension(data) =>
      (match payload(data) case Handshake(q) => ExtensionHandshakeMessage(q) case Other => PassiveMessage)
    case Piece(_, _, _) => PassiveMessage
  }

  lemma DeliveryPossible(s: State, pe: Peer, m: Codec.Message, payload: bytes -> Payload)
    requires s.running && pe in s.peers && (m.Piece? ==> !s.suspended)
    ensures Possible(s, Delivery(pe, m, s.N(), payload)) && (Panics(Delivery(pe, m, s.N(), payload)) <==> m.Port?)
  {
    hide Bitfields.Bits;
    var n := s.N();
    assert Bitfields.NumBytes(n) == (n + 7) / 8;
  }

  /** Whatever a known peer sends and the reader delivers, in whatever safe state: the
      handler gets through if and only if the message is not Port. From a connected peer
      nothing makes it close a channel again. */
  lemma HandledExactly(s: State, pe: Peer, m: Codec.Message, payload: bytes -> Payload)
    requires Safe(s) && s.running && pe in s.peers && (m.Piece? ==> !s.suspended)
    ensures (exists t :: Step(s, Delivery(pe, m, s.N(), payload), t)) <==> !m.Port?
    ensures pe in s.connected ==> !ClosesAgain(s, Delivery(pe, m, s.N(), payload))
  {
    hide Safe, Possible, Panics, Step, BitsOf;
    DeliveryPossible(s, pe, m, payload);
    ProgressExactly(s, Delivery(pe, m, s.N(), payload));
  }

  /** The shortest stream that ends the loop: one frame with id 9. */
  lemma PortUnhandled(s: State, pe: Peer, a: byte, b: byte, ext: bytes -> bool, payload: bytes -> Payload)
    requires Safe(s) && s.running && pe in s.peers
    ensures var frame := [0, 0, 0, 3, 9, a, b];
            var port := Codec.Port(BE.FromBe16([a, b]));
            && Codec.Decode(frame, ext) == ([port], Codec.Eof)
            && !exists t :: Step(s, Delivery(pe, port, s.N(), payload), t)
  {
    hide Safe, Delivery, Step;
    var frame: bytes := [0, 0, 0, 3, 9, a, b];
    var port := Codec.Port(BE.FromBe16([a, b]));
    HandledExactly(s, pe, port, payload);
    assert frame[..4] == [0, 0, 0, 3] && frame[5..] == [a, b] && frame[5..][..2] == [a, b] && frame[7..] == [];
    assert Codec.Decode([], ext) == ([], Codec.Eof);
    assert [port] + [] == [port];
  }

  /** The stream is one frame, and the event loop receives e for it. */
  ghost predicate HeardAs(frame: bytes, pe: Peer, e: Event, n: nat, ext: bytes -> bool, payload: bytes -> Payload) {
    exists m: Codec.Message :: Codec.Decode(frame, ext) == ([m], Codec.Eof) && Delivery(pe, m, n, payload) == e
  }

  lemma OneFrame(m: Codec.Message, pe: Peer, n: nat, ext: bytes -> bool, payload: bytes -> Payload)
    requires Codec.Sendable(m, ext) && !m.AllowedFast?
    ensures HeardAs(Codec.Frame(m), pe, Delivery(pe, m, n, payload), n, ext, payload)
  {
    hide Codec.Frame, Delivery;
    Codec.FrameRoundTrip(m, [], ext);
    assert Codec.Decode([], ext) == ([], Codec.Eof);
    assert Codec.Frame(m) + [] == Codec.Frame(m) && [m] + [] == [m];
  }

  /** From the bytes to what the loop takes up of them: the messages without a body. */
  lemma BareFrames(pe: Peer, n: nat, ext: bytes -> bool, payload: bytes -> Payload)
    ensures HeardAs([0, 0, 0, 1, 0], pe, PeerMessage(pe, ChokeMessage), n, ext, payload)
    ensures HeardAs([0, 0, 0, 1, 1], pe, PeerMessage(pe, UnchokeMessage), n, ext, payload)
    ensures HeardAs([0, 0, 0, 1, 2], pe, PeerMessage(pe, InterestedMessage), n, ext, payload)
    ensures HeardAs([0, 0, 0, 1, 3], pe, PeerMessage(pe, NotInterestedMessage), n, ext, payload)
    ensures HeardAs([0, 0, 0, 1, 14], pe, PeerMessage(pe, HaveAllMessage), n, ext, payload)
    ensures HeardAs([0, 0, 0, 1, 15], pe, PeerMessage(pe, HaveNoneMessage), n, ext, payload)
  {
    hide HeardAs, Codec.Frame;
    BareFrame(Codec.Choke, pe, n, ext, payload);
    BareFrame(Codec.Unchoke, pe, n, ext, payload);
    BareFrame(Codec.Interested, pe, n, ext, payload);
    BareFrame(Codec.NotInterested, pe, n, ext, payload);
    BareFrame(Codec.HaveAll, pe, n, ext, payload);
    BareFrame(Codec.HaveNone, pe, n, ext, payload);
  }

  lemma BareFrame(m: Codec.Message, pe: Peer, n: nat, ext: bytes -> bool, payload: bytes -> Payload)
    requires m.Choke? || m.Unchoke? || m.Interested? || m.NotInterested? || m.HaveAll? || m.HaveNone?
    ensures HeardAs([0, 0, 0, 1, match m
                                 case Choke => 0
                                 case Unchoke => 1
                                 case Interested => 2
                                 case NotInterested => 3
                                 case HaveAll => 14
                                 case _ => 15],
                    pe, PeerMessage(pe, Received(m, n, payload)), n, ext, payload)
  {
    hide HeardAs, Codec.Frame;
    Codec.FrameBytes(m, ext);
    OneFrame(m, pe, n, ext, payload);
  }

  /** The same for the messages about pieces and blocks. */
  lemma BlockFrames(pe: Peer, i: nat, b: nat, l: nat, data: bytes, n: nat, ext: bytes -> bool,
                    payload: bytes -> Payload)
    requires i < UINT32 && b < UINT32 && l <= 16 * 1024 && |data| <= 16 * 1024
    ensures HeardAs([0, 0, 0, 5, 4] + BE.Num(i), pe, PeerMessage(pe, HaveMessage(i)), n, ext, payload)
    ensures HeardAs([0, 0, 0, 5, 17] + BE.Num(i), pe, PeerMessage(pe, AllowedFastMessage(i)), n, ext, payload)
    ensures var numbers := BE.Num(i) + BE.Num(b) + BE.Num(l);
            && HeardAs([0, 0, 0, 13, 6] + numbers, pe, PeerMessage(pe, RequestMessage(i, b, l)), n, ext, payload)
            && HeardAs([0, 0, 0, 13, 8] + numbers, pe, PeerMessage(pe, CancelMessage(i, b, l)), n, ext, payload)
            && HeardAs([0, 0, 0, 13, 16] + numbers, pe, PeerMessage(pe, RejectMessage(i, b, l)), n, ext, payload)
    ensures HeardAs(BE.Num(9 + |data|) + [7] + (BE.Num(i) + BE.Num(b) + data), pe,
                    PieceMessage(pe, i, b, data), n, ext, payload)
  {
    hide HeardAs, Codec.Frame, BE.Num;
    SentFrame(Codec.Have(i), pe, n, ext, payload);
    SentFrame(Codec.Request(i, b, l), pe, n, ext, payload);
    SentFrame(Codec.Cancel(i, b, l), pe, n, ext, payload);
    SentFrame(Codec.Reject(i, b, l), pe, n, ext, payload);
    SentFrame(Codec.Piece(i, b, data), pe, n, ext, payload);
    FastFrame(pe, i, n, ext, payload);
  }

  lemma SentFrame(m: Codec.Message, pe: Peer, n: nat, ext: bytes -> bool, payload: bytes -> Payload)
    requires Codec.Sendable(m, ext) && !m.AllowedFast?
    ensures HeardAs(Codec.Frame(m), pe, Delivery(pe, m, n, payload), n, ext, payload)
    ensures match m
            case Have(i) => Codec.Frame(m) == [0, 0, 0, 5, 4] + BE.Num(i)
            case Request(i, b, l) => Codec.Frame(m) == [0, 0, 0, 13, 6] + (BE.Num(i) + BE.Num(b) + BE.Num(l))
            case Cancel(i, b, l) => Codec.Frame(m) == [0, 0, 0, 13, 8] + (BE.Num(i) + BE.Num(b) + BE.Num(l))
            case Reject(i, b, l) => Codec.Frame(m) == [0, 0, 0, 13, 16] + (BE.Num(i) + BE.Num(b) + BE.Num(l))
            case Piece(i, b, data) =>
              Codec.Frame(m) == BE.Num(9 + |data|) + [7] + (BE.Num(i) + BE.Num(b) + data)
            case _ => true
  {
    OneFrame(m, pe, n, ext, payload);
    hide HeardAs, Codec.Frame, BE.Num;
    Codec.FrameBytes(m, ext);
  }

  lemma FastFrame(pe: Peer, i: nat, n: nat, ext: bytes -> bool, payload: bytes -> Payload)
    requires i < UINT32
    ensures HeardAs([0, 0, 0, 5, 17] + BE.Num(i), pe, PeerMessage(pe, AllowedFastMessage(i)), n, ext, payload)
  {
    hide BE.Num, Codec.Decode;
    Codec.AllowedFastRead(i, [], ext);
    EmptyStream(ext);
    var frame := [0, 0, 0, 5, 17] + BE.Num(i);
    assert frame + [] == frame && [Codec.AllowedFast(i)] + [] == [Codec.AllowedFast(i)];
    assert Delivery(pe, Codec.AllowedFast(i), n, payload) == PeerMessage(pe, AllowedFastMessage(i));
  }

  lemma EmptyStream(ext: bytes -> bool)
    ensures Codec.Decode([], ext) == ([], Codec.Eof)
  {
  }

  /** A bitfield message arrives with its size and, when that fits, with the bits of its
      bytes; see Bitfields.BitOrder for their order. */
  lemma BitfieldFrame(pe: Peer, data: bytes, n: nat, ext: bytes -> bool, payload: bytes -> Payload)
    requires 1 + |data| < UINT32 - 1
    ensures HeardAs(BE.Num(1 + |data|) + [5] + data, pe,
                    PeerMessage(pe, BitfieldMessage(|data|, BitsOf(data, n))), n, ext, payload)
  {
    hide HeardAs, Codec.Frame, BE.Num, BitsOf;
    Codec.FrameBytes(Codec.Bitfield(data), ext);
    OneFrame(Codec.Bitfield(data), pe, n, ext, payload);
  }
}
