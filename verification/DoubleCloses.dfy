/** Runs that close a channel twice, one for each of the two ways of
    Connections.ClosesAgainExactly. */
module DoubleCloses {
  import opened Common
  import opened Blocks
  import opened PeerSets
  import opened Pickers
  import opened Engine
  import opened EventLoop
  import opened Progress
  import opened Connections
  import PD = PieceDownloaders
  import RM = ResourceManagers

  /** One piece of one byte, none of it there, and one peer. */
  function Example(pe: Peer): State {
    State(true, false, 1, [1], [PieceState(false, false)], [false], Some(Picker([NEW_PIECE], 1, false)),
          map[], map[pe := NewPeer(1)], {pe}, false, None, 10, 10, [])
  }

  lemma ExamplePrepared(pe: Peer)
    ensures Prepared(Example(pe)) && Finish(Example(pe), false) == Example(pe)
  {
    assert !Example(pe).bitfield[0];
  }

  // ---- two invalid messages in one queue

  /** Have with an index past the end, twice, queued while the files were allocated. */
  lemma QueuedTwice(pe: Peer) returns (states: seq<State>, queues: Queues)
    ensures var events := Replay([pe], queues);
            && queues == map[pe := [HaveMessage(1), HaveMessage(1)]] && QueuesOk(queues, 1) && |events| == 2
            && Epoch(Example(pe), false, states, events) && Enumerates([pe], states[0].connected)
            && Unfolds(states, events, events) && ClosesAgain(states[1], events[1])
  {
    hide NewPeer, ClosedPeer;
    var have := HaveMessage(1);
    queues := map[pe := [have, have]];
    var e := PeerMessage(pe, have);
    TwoQueued(pe, have, have, queues);
    var s := Example(pe);
    ExamplePrepared(pe);
    var m := ClosedAlone(s, pe);
    ClosedKnows(s, pe, m);
    var t := ClosedAlone(m, pe);
    states := [s, m, t];
    assert Step(s, e, m) && Step(m, e, t);
  }

  lemma TwoQueued(pe: Peer, m: Message, n: Message, queues: Queues)
    requires queues == map[pe := [m, n]]
    ensures Replay([pe], queues) == [PeerMessage(pe, m), PeerMessage(pe, n)]
  {
    assert [pe][..0] == [] && [m, n][..1] == [m] && [m][..0] == [];
    assert Queued(pe, [m]) == [PeerMessage(pe, m)];
  }

  lemma ClosedKnows(s: State, pe: Peer, t: State)
    requires ClosedPeer(s, pe, t) && pe in s.peers && (pe in s.downloaders ==> pe in s.peers)
    ensures pe in t.peers && pe !in t.connected && t.running == s.running && t.lengths == s.lengths
    ensures t.writer == s.writer && t.suspended == s.suspended
  {
  }

  // ---- a corrupt piece of a peer that has gone

  lemma OpenExample(pe: Peer) returns (t: State)
    ensures Step(Example(pe), Opened, t) && t == Acquire(Example(pe), pe, false) && pe in t.connected
  {
    var s := Example(pe);
    t := Acquire(s, pe, false);
    assert WithPeers(s, {}) == s by { assert s.peers + map[] == s.peers; }
    assert [pe][..0] == [];
    assert StartEach(s, [], s) && StartOne(s, pe, t);
    assert StartEach(s, [pe], t) && Enumerates([pe], s.connected);
    assert {} !! s.peers.Keys && StartAll(WithPeers(s, {}), t);
  }

  /** The only piece, wanted by nobody else, is the one found. */
  lemma OnlyPieceFound(p: Picker, flags: seq<PieceState>, peer: PeerState, pe: Peer)
    requires |p.pieces| == |flags| == 1 && flags[0] == PieceState(false, false) && !p.endgame
    requires p.pieces[0].having.Has(pe) && p.pieces[0].requested.live == []
    requires !peer.downloading && !peer.peerChoking && peer.allowedFast == []
    ensures Found(p, flags, peer, pe, Some(0), false, false)
  {
    assert 0 in Unrequested(p, flags, pe);
  }

  /** pe downloads the example's piece and has sent nothing of it. */
  ghost predicate Downloading1(s: State, pe: Peer) {
    && s.running && s.lengths == [1] && !s.suspended && pe in s.peers && pe in s.downloaders && pe in s.connected
    && var d := s.downloaders[pe];
    d.piece == 0 && d.length == 1 && |d.buffer| == 1 && d.done == {}
  }

  /** The peer has announced the piece and RAM is in hand. */
  ghost function Offered1(pe: Peer): State {
    Acquire(Interest(HaveOne(Acquire(Example(pe), pe, false), pe, 0), pe), pe, true)
  }

  lemma OfferedFound(pe: Peer)
    ensures var a := Offered1(pe);
            && pe in a.peers && a.picker.Some? && a.Status() == Downloading && a.lengths == [1]
            && a.running && !a.suspended && pe in a.connected
            && Found(a.picker.value, a.flags, a.peers[pe], pe, Some(0), false, false)
  {
    hide Found;
    var a := Offered1(pe);
    OnlyPieceFound(a.picker.value, a.flags, a.peers[pe], pe);
  }

  lemma BegunExample(a: State, pe: Peer) returns (t: State)
    requires pe in a.peers && a.picker.Some? && a.Status() == Downloading && a.lengths == [1]
    requires a.running && !a.suspended && pe in a.connected
    requires Found(a.picker.value, a.flags, a.peers[pe], pe, Some(0), false, false)
    ensures Started(a, pe, t) && Downloading1(t, pe)
  {
    hide Found, PD.Request;
    t := Begin(a, pe, 0, false, false, [0]);
    assert StartedAs(a, pe, Choice(Some(0), false, false, [0]), t);
    PD.RequestCorrect(PD.New(0, 1, false, Buffer([0], 1)), MaxAllowedRequests(a, a.peers[pe]));
  }

  lemma OfferExample(pe: Peer) returns (t: State)
    ensures Step(Acquire(Example(pe), pe, false), PeerMessage(pe, HaveMessage(0)), t) && Downloading1(t, pe)
  {
    hide Started, Downloading1, Found;
    OfferedFound(pe);
    t := BegunExample(Offered1(pe), pe);
    var s := Acquire(Example(pe), pe, false);
    assert AskedFor(Interest(HaveOne(s, pe, 0), pe), pe, t);
  }

  lemma BlockArrives(s: State, pe: Peer, x: byte) returns (t: State)
    requires Downloading1(s, pe)
    ensures Step(s, PieceMessage(pe, 0, 0, [x]), t)
    ensures t.running && pe in t.connected && t.writer.Some? && t.writer.value.source == pe
  {
    hide AskedFor;
    var b := Block(0, 0, 1);
    assert FindBlock(1, 0, 1) == Some(b) && GetBlock(1, 0) == Some(b) && NumBlocks(1) == 1;
    var d := PD.Receive(s.downloaders[pe], b, [x]).0;
    assert d.done == {0};
    var n := MarkWriting(CloseDownloader(SetDownloader(s, pe, d), pe), d.piece);
    var u := RefusedRam(n, pe);
    AskedForFrame(n, pe, u);
    t := u.(suspended := true, writer := Some(Write(d.piece, pe, d.buffer)));
    assert Finished(SetDownloader(s, pe, d), pe, t);
    assert Taken(s, pe, b, [x], t);
  }

  /** The peer offers the piece, sends its only block, and disconnects while the block is
      hashed; then the hash is wrong. */
  lemma GoneBeforeHashed(pe: Peer, x: byte) returns (states: seq<State>, events: seq<Event>)
    ensures events == [Opened, PeerMessage(pe, HaveMessage(0)), PieceMessage(pe, 0, 0, [x]), Disconnected(pe),
                       WriteDone(false, false, false)]
    ensures Epoch(Example(pe), false, states, events) && Unfolds(states, events, [])
    ensures ClosesAgain(states[4], events[4])
  {
    hide Step, Prepared, Finish, NewPeer, Example, Safe, Closed;
    var s0 := Example(pe);
    ExamplePrepared(pe);
    CheckedSafe(s0, false);
    var s1 := OpenExample(pe);
    StepSafe(s0, Opened, s1);
    var s2 := OfferExample(pe);
    StepSafe(s1, PeerMessage(pe, HaveMessage(0)), s2);
    var s3 := BlockArrives(s2, pe, x);
    StepSafe(s2, PieceMessage(pe, 0, 0, [x]), s3);
    var s4 := LeavesEarly(s3, pe);
    StepSafe(s3, Disconnected(pe), s4);
    var s5 := Passes(s4, WriteDone(false, false, false));
    events := [Opened, PeerMessage(pe, HaveMessage(0)), PieceMessage(pe, 0, 0, [x]), Disconnected(pe),
               WriteDone(false, false, false)];
    states := [s0, s1, s2, s3, s4, s5];
    assert Step(s0, events[0], s1) && Step(s1, events[1], s2) && Step(s2, events[2], s3);
    assert Step(s3, events[3], s4) && Step(s4, events[4], s5);
    assert Heard(s1, events[1]) && Heard(s2, events[2]) && Heard(s3, events[3]) && Heard(s4, events[4]);
  }

  lemma LeavesEarly(s: State, pe: Peer) returns (t: State)
    requires s.running && s.writer.Some? && s.writer.value.source == pe && Safe(s)
    ensures Step(s, Disconnected(pe), t) && t.running && t.writer.Some?
    ensures ClosesAgain(t, WriteDone(false, false, false))
  {
    SourceKnown(s);
    t := ClosedAlone(s, pe);
    ClosedKnows(s, pe, t);
  }
}
