/** Which peers are connected over a run, and when closePeer (filechain/torrent_close.go)
    meets a peer it has closed before: Peer.Close (external/peer/peer.go) closes a channel,
    which panics the second time. */
module Connections {
  import opened Common
  import opened Blocks
  import opened PeerSets
  import opened Engine
  import opened EventLoop
  import PD = PieceDownloaders

  /** A message for which its sender is closed. */
  ghost predicate Offends(s: State, pe: Peer, m: Message) {
    match m
    case HaveMessage(i) => i >= s.N()
    case BitfieldMessage(size, _) => size != 0 && size != (s.N() + 7) / 8
    case AllowedFastMessage(i) => i >= s.N()
    case RejectMessage(index, begin, length) => Misses(s, pe, index, begin, length)
    case RequestMessage(index, begin, length) => BadRequest(s, index, begin, length)
    case _ => false
  }

  /** No block of the piece, or no such piece. */
  ghost predicate Misses(s: State, pe: Peer, index: nat, begin: nat, length: nat) {
    index >= s.N() || (Downloads(s, pe, index) && FindBlock(s.lengths[index], begin, length).None?)
  }

  /** The peer that a case of the loop passes to closePeer. */
  ghost function Closed(s: State, e: Event): Option<Peer> {
    match e
    case PeerMessage(pe, m) => if Offends(s, pe, m) then Some(pe) else None
    case PieceMessage(pe, index, begin, data) => if Misses(s, pe, index, begin, |data|) then Some(pe) else None
    case WriteDone(hashOK, _, _) => if !hashOK && s.writer.Some? then Some(s.writer.value.source) else None
    case Disconnected(pe) => Some(pe)
    case _ => None
  }

  /** Completion closes whoever is not interested, stopping closes everybody. */
  ghost predicate Dismissed(s: State, e: Event, t: State, pe: Peer) {
    && (e.WriteDone? || e.StopCommand?) && s.running && pe in s.peers
    && (!t.running || (t.completed && !s.completed && !s.peers[pe].peerInterested))
  }

  ghost predicate Closes(s: State, e: Event, t: State, pe: Peer) {
    Closed(s, e) == Some(pe) || Dismissed(s, e, t, pe)
  }

  /** Nobody comes or goes, and nobody changes his interest. */
  ghost predicate Same(s: State, t: State) {
    && t.peers.Keys == s.peers.Keys && t.connected == s.connected && t.running == s.running
    && t.completed == s.completed
    && forall pe :: pe in s.peers ==> t.peers[pe].peerInterested == s.peers[pe].peerInterested
  }

  lemma AskedForSame(s: State, pe: Peer, t: State)
    requires AskedFor(s, pe, t)
    ensures Same(s, t)
  {
    AskedForFrame(s, pe, t);
    if s.Status() == Downloading && t != Acquire(s, pe, false) {
      StartedSame(Acquire(s, pe, true), pe, t);
    }
  }

  lemma StartedSame(s: State, pe: Peer, t: State)
    requires Started(s, pe, t)
    ensures Same(s, t)
  {
  }

  lemma {:induction false} StartEachSame(s: State, order: seq<Peer>, t: State)
    requires StartEach(s, order, t)
    ensures Same(s, t)
  {
    if order != [] {
      var front, last := order[..|order| - 1], order[|order| - 1];
      var m :| StartEach(s, front, m) && StartOne(m, last, t);
      StartEachSame(s, front, m);
      if t != m { AskedForSame(m, last, t); }
    }
  }

  lemma StartAllSame(s: State, t: State)
    requires StartAll(s, t)
    ensures Same(s, t)
  {
    if s.Status() == Downloading {
      var order: seq<Peer> :| Enumerates(order, s.connected) && StartEach(s, order, t);
      StartEachSame(s, order, t);
    }
  }

  lemma {:induction false} HaveEachSame(s: State, pe: Peer, bits: seq<bool>)
    ensures Same(s, HaveEach(s, pe, bits))
  {
    if bits != [] { HaveEachSame(s, pe, bits[..|bits| - 1]); }
  }

  lemma SameTwice(s: State, m: State, t: State)
    requires Same(s, m) && Same(m, t)
    ensures Same(s, t)
  {
  }

  lemma {:induction false} CancelEachSame(s: State, i: nat, order: seq<Peer>, t: State)
    requires CancelEach(s, i, order, t)
    ensures Same(s, t)
  {
    if order != [] {
      hide Same, Downloads, AskedFor;
      var front, last := order[..|order| - 1], order[|order| - 1];
      var m :| CancelEach(s, i, front, m) && Downloads(m, last, i) && AskedFor(CloseDownloader(m, last), last, t);
      CancelEachSame(s, i, front, m);
      CloseDownloaderSame(m, last);
      AskedForSame(CloseDownloader(m, last), last, t);
      SameTwice(m, CloseDownloader(m, last), t);
      SameTwice(s, m, t);
    } else {
      SameSelf(s);
    }
  }

  lemma SameSelf(s: State)
    ensures Same(s, s)
  {
  }

  lemma CloseDownloaderSame(s: State, pe: Peer)
    ensures Same(s, CloseDownloader(s, pe))
  {
  }

  // ---- one step

  /** Known peers stay known; of them those stay connected that are not closed, and
      whoever joins a running torrent is connected. */
  ghost predicate Keeps(s: State, e: Event, t: State) {
    && s.peers.Keys <= t.peers.Keys
    && (forall pe :: pe in s.peers ==> (pe in t.connected <==> pe in s.connected && !Closes(s, e, t, pe)))
    && (t.running ==> s.running && forall pe :: pe in t.peers && pe !in s.peers ==> pe in t.connected)
  }

  lemma ClosedKeeps(s: State, pe: Peer, t: State)
    requires Agree(s) && ClosedPeer(s, pe, t)
    ensures s.peers.Keys <= t.peers.Keys && t.running == s.running && t.completed == s.completed
    ensures forall q :: q in s.peers ==> (q in t.connected <==> q in s.connected && q != pe)
    ensures forall q :: q in t.peers && q !in s.peers ==> q in t.connected
  {
    if pe in s.downloaders { assert DownloaderOk(s, pe); }
  }

  lemma MessageKeeps(s: State, pe: Peer, m: Message, t: State)
    requires Agree(s) && s.running && MessageStep(s, pe, m, t)
    ensures Keeps(s, PeerMessage(pe, m), t)
  {
    hide AskedFor, ClosedPeer, StartAll, HaveOne, HaveEach;
    if Offends(s, pe, m) {
      ClosedKeeps(s, pe, t);
    } else {
      UnoffendedSame(s, pe, m, t);
    }
  }

  lemma UnoffendedSame(s: State, pe: Peer, m: Message, t: State)
    requires MessageStep(s, pe, m, t) && !Offends(s, pe, m)
    ensures Stays(s, t)
  {
    hide AskedFor, ClosedPeer, StartAll, HaveOne, HaveEach;
    match m
    case HaveMessage(i) => OfferedStays(s, HaveOne(s, pe, i), pe, t) by { OneStays(s, pe, i); }
    case BitfieldMessage(size, bits) =>
      if size != 0 { OfferedStays(s, HaveEach(s, pe, bits), pe, t) by { HaveEachSame(s, pe, bits); } }
    case HaveAllMessage =>
      var bits := seq(s.N(), _ => true);
      OfferedStays(s, HaveEach(s, pe, bits), pe, t) by { HaveEachSame(s, pe, bits); }
    case UnchokeMessage => UnchokeStays(s, pe, t);
    case ChokeMessage =>
      forall u: State | StartAll(u, t) ensures Same(u, t) { StartAllSame(u, t); }
    case _ =>
  }

  lemma UnchokeStays(s: State, pe: Peer, t: State)
    requires MessageStep(s, pe, UnchokeMessage, t)
    ensures Stays(s, t)
  {
    hide AskedFor, PD.Request;
    var u := SetPeer(s, pe, s.peers[pe].(peerChoking := false));
    if pe !in u.downloaders { AskedForSame(u, pe, t); }
  }

  /** The part of Same that a change of interest does not touch. */
  ghost predicate Stays(s: State, t: State) {
    t.peers.Keys == s.peers.Keys && t.connected == s.connected && t.running == s.running && t.completed == s.completed
  }

  lemma OneStays(s: State, pe: Peer, i: nat)
    ensures Stays(s, HaveOne(s, pe, i))
  {
  }

  lemma OfferedStays(s: State, h: State, pe: Peer, t: State)
    requires Stays(s, h) && AskedFor(Interest(h, pe), pe, t)
    ensures Stays(s, t)
  {
    AskedForSame(Interest(h, pe), pe, t);
  }

  lemma PieceKeeps(s: State, pe: Peer, index: nat, begin: nat, data: bytes, t: State)
    requires Agree(s) && s.running && PieceStep(s, pe, index, begin, data, t)
    ensures Keeps(s, PieceMessage(pe, index, begin, data), t)
  {
    hide AskedFor, ClosedPeer, Taken, Agree;
    if Misses(s, pe, index, begin, |data|) {
      ClosedKeeps(s, pe, t);
    } else if Downloads(s, pe, index) {
      var block := FindBlock(s.lengths[index], begin, |data|).value;
      TakenStays(s, pe, block, data, t);
    }
  }

  lemma TakenStays(s: State, pe: Peer, b: Block, data: bytes, t: State)
    requires Taken(s, pe, b, data, t)
    ensures Stays(s, t)
  {
    hide Finished;
    forall u: State | Finished(u, pe, t) ensures Stays(u, t) { FinishedStays(u, pe, t); }
  }

  lemma FinishedStays(s: State, pe: Peer, t: State)
    requires Finished(s, pe, t)
    ensures Stays(s, t)
  {
    hide AskedFor;
    var d := s.downloaders[pe];
    var n := MarkWriting(CloseDownloader(s, pe), d.piece);
    var u: State :| AskedFor(n, pe, u) && t == u.(suspended := true, writer := Some(Write(d.piece, pe, d.buffer)));
    AskedForSame(n, pe, u);
    CloseDownloaderSame(s, pe);
  }

  lemma WriteDoneKeeps(s: State, hashOK: bool, failed: bool, stop: bool, t: State)
    requires Inv(s) && s.running && WriteDoneStep(s, hashOK, failed, stop, t)
    ensures Keeps(s, WriteDone(hashOK, failed, stop), t)
  {
    hide Inv, Keeps, ClosedPeer, StartAll, CancelEach, Finish, StoppedAs, Agree;
    var (w, u) := (s.writer.value, Unmark(s));
    UnmarkInv(s);
    JustAgree(u);
    if !hashOK {
      var m: State :| ClosedPeer(u, w.source, m) && StartAll(m, t);
      CorruptKeeps(s, u, failed, stop, m, t);
    } else if failed {
      StoppedKeeps(s, u, stop, t);
    } else {
      var v := MarkDone(u, w.piece);
      var m: State :| CancelEach(v, w.piece, RequestedPeers(v, w.piece), m) && t == Finish(m, stop);
      WrittenKeeps(s, v, w.piece, m, stop, t);
    }
  }

  lemma CorruptKeeps(s: State, u: State, failed: bool, stop: bool, m: State, t: State)
    requires s.running && s.writer.Some? && u == Unmark(s) && Agree(u)
    requires ClosedPeer(u, s.writer.value.source, m) && StartAll(m, t)
    ensures Keeps(s, WriteDone(false, failed, stop), t)
  {
    hide StartAll, ClosedPeer, Agree;
    ClosedKeeps(u, s.writer.value.source, m);
    StartAllSame(m, t);
  }

  lemma StoppedKeeps(s: State, u: State, stop: bool, t: State)
    requires s.running && s.writer.Some? && u == Unmark(s) && StoppedAs(u, t)
    ensures Keeps(s, WriteDone(true, true, stop), t)
  {
    StoppedConnects(u, t);
  }

  lemma WrittenKeeps(s: State, v: State, i: nat, m: State, stop: bool, t: State)
    requires s.running && s.writer.Some? && v == MarkDone(Unmark(s), i)
    requires CancelEach(v, i, RequestedPeers(v, i), m) && t == Finish(m, stop)
    ensures Keeps(s, WriteDone(true, false, stop), t)
  {
    hide CancelEach, Finish, RequestedPeers, Same, Keeps;
    MarkDoneSame(s, i);
    CancelEachSame(v, i, RequestedPeers(v, i), m);
    SameTwice(s, v, m);
    FinishKeeps(s, m, stop);
  }

  lemma MarkDoneSame(s: State, i: nat)
    requires s.writer.Some?
    ensures Same(s, MarkDone(Unmark(s), i))
  {
  }

  lemma FinishKeeps(s: State, m: State, stop: bool)
    requires s.running && Same(s, m)
    ensures Keeps(s, WriteDone(true, false, stop), Finish(m, stop))
  {
    hide Finish;
    FinishDismisses(m, stop);
  }

  lemma FinishDismisses(m: State, stop: bool)
    requires m.running
    ensures var t := Finish(m, stop);
            && t.peers.Keys == m.peers.Keys
            && forall pe :: pe in m.peers ==>
                 (pe in t.connected <==>
                    pe in m.connected && t.running && (t.completed && !m.completed ==> m.peers[pe].peerInterested))
  {
    hide AllSet, Releases;
  }

  lemma JustAgree(s: State)
    requires Inv(s)
    ensures Agree(s)
  {
  }

  lemma StepKeeps(s: State, e: Event, t: State)
    requires Safe(s) && Step(s, e, t)
    ensures Keeps(s, e, t)
  {
    hide Keeps, Inv, Agree, MessageStep, PieceStep, WriteDoneStep, Started, ClosedPeer;
    JustAgree(s);
    match e
    case PeerMessage(pe, m) => MessageKeeps(s, pe, m, t);
    case PieceMessage(pe, index, begin, data) => PieceKeeps(s, pe, index, begin, data, t);
    case WriteDone(hashOK, failed, stop) => WriteDoneKeeps(s, hashOK, failed, stop, t);
    case RamNotify(pe) => NotifyKeeps(s, pe, t);
    case Disconnected(pe) => DisconnectedKeeps(s, pe, t);
    case Incoming(pe) => IncomingKeeps(s, pe, t);
    case StopCommand => StopKeeps(s, t);
    case Opened => OpenedKeeps(s, t);
  }

  lemma StopKeeps(s: State, t: State)
    requires if s.running then StoppedAs(s, t) else t == s
    ensures Keeps(s, StopCommand, t)
  {
    if s.running { StoppedConnects(s, t); }
  }

  lemma StoppedConnects(s: State, t: State)
    requires StoppedAs(s, t)
    ensures s.peers.Keys <= t.peers.Keys && !t.running && forall pe :: pe in s.peers ==> pe !in t.connected
  {
    hide Releases;
    var dialled: set<Peer>, left: set<Peer> :|
      dialled !! s.peers.Keys && left <= dialled && (s.completed ==> dialled == {})
          && t == Redialled(Stop(s), dialled, left);
    assert Idle(s.peers).Keys == s.peers.Keys;
  }

  lemma OpenedKeeps(s: State, t: State)
    requires s.running && OpenedAs(s, t)
    ensures Keeps(s, Opened, t)
  {
    hide StartAll;
    var dialled: set<Peer> :|
      dialled !! s.peers.Keys && (s.completed ==> dialled == {}) && StartAll(WithPeers(s, dialled), t);
    StartAllSame(WithPeers(s, dialled), t);
  }

  lemma NotifyKeeps(s: State, pe: Peer, t: State)
    requires Started(Grant(s, pe), pe, t)
    ensures Keeps(s, RamNotify(pe), t)
  {
    hide Started;
    StartedSame(Grant(s, pe), pe, t);
  }

  lemma DisconnectedKeeps(s: State, pe: Peer, t: State)
    requires Agree(s) && s.running && ClosedPeer(s, pe, t)
    ensures Keeps(s, Disconnected(pe), t)
  {
    hide Agree, ClosedPeer;
    ClosedKeeps(s, pe, t);
  }

  lemma IncomingKeeps(s: State, pe: Peer, t: State)
    requires s.running && pe !in s.peers && t == WithPeers(s, {pe})
    ensures Keeps(s, Incoming(pe), t)
  {
  }

  // ---- whole runs

  /** Not connected when the run began, or closed by one of the first k events. */
  ghost predicate ClosedBefore(states: seq<State>, events: seq<Event>, k: nat, pe: Peer)
    requires |states| == |events| + 1 && k <= |events|
  {
    || (pe in states[0].peers && pe !in states[0].connected)
    || exists j :: 0 <= j < k && pe in states[j].peers && Closes(states[j], events[j], states[j + 1], pe)
  }

  lemma ClosedBeforeStep(states: seq<State>, events: seq<Event>, k: nat, pe: Peer)
    requires |states| == |events| + 1 && k < |events|
    ensures ClosedBefore(states, events, k + 1, pe) <==>
              || ClosedBefore(states, events, k, pe)
              || (pe in states[k].peers && Closes(states[k], events[k], states[k + 1], pe))
  {
  }

  /** The known peers that are no longer connected are those that were closed before. */
  lemma {:induction false} GoneMeansClosed(states: seq<State>, events: seq<Event>, k: nat, pe: Peer)
    requires |states| == |events| + 1 && k <= |events| && states[k].running
    requires forall q :: 0 <= q < |events| ==> Keeps(states[q], events[q], states[q + 1])
    ensures pe in states[k].peers ==> (pe !in states[k].connected <==> ClosedBefore(states, events, k, pe))
    ensures pe !in states[k].peers ==> !ClosedBefore(states, events, k, pe)
  {
    if k > 0 {
      hide Closes, Keeps, ClosedBefore;
      assert Keeps(states[k - 1], events[k - 1], states[k]);
      KeepsOne(states[k - 1], events[k - 1], states[k], pe);
      GoneMeansClosed(states, events, k - 1, pe);
      ClosedBeforeStep(states, events, k - 1, pe);
    }
  }

  lemma KeepsOne(s: State, e: Event, t: State, pe: Peer)
    requires Keeps(s, e, t) && t.running
    ensures s.running && (pe in s.peers ==> pe in t.peers)
    ensures pe in s.peers ==> (pe in t.connected <==> pe in s.connected && !Closes(s, e, t, pe))
    ensures pe in t.peers && pe !in s.peers ==> pe in t.connected
  {
  }

  /** The loop closes a peer's channel for the second time. */
  ghost predicate ClosesAgain(s: State, e: Event) {
    Closed(s, e).Some? && Closed(s, e).value !in s.connected
  }

  lemma EpochKeeps(start: State, stop: bool, states: seq<State>, events: seq<Event>)
    requires Epoch(start, stop, states, events)
    ensures forall q :: 0 <= q < |events| ==> Keeps(states[q], events[q], states[q + 1])
  {
    hide Keeps, Prepared, Finish, Safe, Step;
    forall q | 0 <= q < |events| ensures Keeps(states[q], events[q], states[q + 1]) {
      EpochSafe(start, stop, states, events, q);
      StepKeeps(states[q], events[q], states[q + 1]);
    }
  }

  lemma Running(s: State, e: Event, t: State)
    requires Step(s, e, t) && Closed(s, e).Some?
    ensures s.running
  {
  }

  /** Over all runs: the loop closes a channel again exactly when the peer it closes was
      closed before. */
  lemma AgainMeansClosed(start: State, stop: bool, states: seq<State>, events: seq<Event>, k: nat, pe: Peer)
    requires Epoch(start, stop, states, events) && k < |events|
    requires Closed(states[k], events[k]) == Some(pe) && pe in states[k].peers
    ensures ClosesAgain(states[k], events[k]) <==> ClosedBefore(states, events, k, pe)
  {
    hide Keeps, ClosedBefore, Prepared, Finish, Safe, Step;
    EpochKeeps(start, stop, states, events);
    Running(states[k], events[k], states[k + 1]);
    GoneMeansClosed(states, events, k, pe);
  }

  // ---- when a channel is closed again

  /** Once the loop receives, the channels are unbuffered and closing waits for the peer's
      goroutine, so only connected peers are heard of. */
  ghost predicate Heard(s: State, e: Event) {
    match e
    case PeerMessage(pe, _) => pe in s.connected
    case PieceMessage(pe, _, _, _) => pe in s.connected
    case Disconnected(pe) => pe in s.connected
    case _ => true
  }

  /** The run begins with the queued messages and opens behind them; from then on it hears
      of connected peers only. */
  ghost predicate Unfolds(states: seq<State>, events: seq<Event>, replay: seq<Event>)
    requires |states| == |events| + 1
  {
    && (forall k :: 0 <= k < |events| && k < |replay| ==> events[k] == replay[k])
    && (|replay| < |events| ==> events[|replay|] == Opened)
    && (forall k :: |replay| < k < |events| ==> Heard(states[k], events[k]))
  }

  /** A queueable message for which its sender is closed, whatever has happened before. */
  predicate Invalid(m: Message, n: nat) {
    match m
    case HaveMessage(i) => i >= n
    case BitfieldMessage(size, _) => size != 0 && size != (n + 7) / 8
    case AllowedFastMessage(i) => i >= n
    case _ => false
  }

  /** In one queue, an earlier invalid message and this one. */
  ghost predicate SecondInvalid(replay: seq<Event>, n: nat, k: nat) {
    && k < |replay| && replay[k].PeerMessage? && Invalid(replay[k].m, n)
    && exists j :: 0 <= j < k && replay[j].PeerMessage? && replay[j].pe == replay[k].pe && Invalid(replay[j].m, n)
  }

  /** Of the events behind the opening, a corrupt piece whose source was closed before. */
  ghost predicate StaleSource(states: seq<State>, events: seq<Event>, k: nat)
    requires |states| == |events| + 1 && k < |events|
  {
    && events[k].WriteDone? && !events[k].hashOK && states[k].writer.Some?
    && ClosedBefore(states, events, k, states[k].writer.value.source)
  }

  // ---- the queued messages

  lemma {:induction false} QueuedItems(pe: Peer, ms: seq<Message>)
    ensures |Queued(pe, ms)| == |ms| && forall k :: 0 <= k < |ms| ==> Queued(pe, ms)[k] == PeerMessage(pe, ms[k])
  {
    if ms != [] { QueuedItems(pe, ms[..|ms| - 1]); }
  }

  /** Only queueable messages of the listed peers are replayed. */
  ghost predicate Replayable(replay: seq<Event>, order: seq<Peer>) {
    forall k :: 0 <= k < |replay| ==> replay[k].PeerMessage? && Queueable(replay[k].m) && replay[k].pe in order
  }

  lemma {:induction false} ReplayItems(order: seq<Peer>, queues: Queues, n: nat)
    requires QueuesOk(queues, n)
    ensures Replayable(Replay(order, queues), order)
  {
    if order != [] {
      var front, last := order[..|order| - 1], order[|order| - 1];
      ReplayItems(front, queues, n);
      QueuedItems(last, Queue(queues, last));
    }
  }

  lemma {:induction false} ReplayFrame(states: seq<State>, events: seq<Event>, replay: seq<Event>, order: seq<Peer>,
                                       k: nat)
    requires Execution(states, events) && Unfolds(states, events, replay) && Replayable(replay, order)
    requires k <= |events| && k <= |replay|
    ensures states[k].lengths == states[0].lengths
  {
    if k > 0 {
      ReplayFrame(states, events, replay, order, k - 1);
      assert events[k - 1] == replay[k - 1];
      assert Step(states[k - 1], events[k - 1], states[k]);
      MessageFrame(states[k - 1], events[k - 1].pe, events[k - 1].m, states[k]);
    }
  }

  lemma OffendsIfInvalid(s: State, pe: Peer, m: Message)
    requires Queueable(m)
    ensures Offends(s, pe, m) <==> Invalid(m, s.N())
  {
  }

  /** Among the queued messages, event j closes pe exactly when it is an invalid one of his. */
  lemma ReplayCloses(states: seq<State>, events: seq<Event>, replay: seq<Event>, order: seq<Peer>, j: nat, pe: Peer)
    requires Execution(states, events) && Unfolds(states, events, replay) && Replayable(replay, order)
    requires j < |events| && j < |replay|
    ensures pe in states[j].peers && Closes(states[j], events[j], states[j + 1], pe) <==>
              replay[j].pe == pe && Invalid(replay[j].m, states[0].N())
    ensures Closed(states[j], events[j]) == if Invalid(replay[j].m, states[0].N()) then Some(replay[j].pe) else None
  {
    ReplayFrame(states, events, replay, order, j);
    assert events[j] == replay[j] && Step(states[j], events[j], states[j + 1]);
    OffendsIfInvalid(states[j], replay[j].pe, replay[j].m);
  }

  lemma ReplayAgain(start: State, stop: bool, states: seq<State>, events: seq<Event>, replay: seq<Event>,
                    order: seq<Peer>, k: nat)
    requires Epoch(start, stop, states, events) && Unfolds(states, events, replay) && Replayable(replay, order)
    requires (forall pe :: pe in order ==> pe in states[0].connected) && k < |events| && k < |replay|
    ensures ClosesAgain(states[k], events[k]) <==> SecondInvalid(replay, states[0].N(), k)
  {
    hide Closes, Prepared, Finish, Unfolds, Safe, Step;
    var pe, n := replay[k].pe, states[0].N();
    ReplayCloses(states, events, replay, order, k, pe);
    if Invalid(replay[k].m, n) {
      assert pe in states[0].connected;
      AgainMeansClosed(start, stop, states, events, k, pe);
      if ClosedBefore(states, events, k, pe) {
        var j: nat :| j < k && pe in states[j].peers && Closes(states[j], events[j], states[j + 1], pe);
        ReplayCloses(states, events, replay, order, j, pe);
      }
      if j: nat :| j < k && replay[j].pe == pe && Invalid(replay[j].m, n) {
        ReplayCloses(states, events, replay, order, j, pe);
      }
    }
  }

  lemma LiveAgain(start: State, stop: bool, states: seq<State>, events: seq<Event>, replay: seq<Event>, k: nat)
    requires Epoch(start, stop, states, events) && Unfolds(states, events, replay) && |replay| <= k < |events|
    ensures ClosesAgain(states[k], events[k]) <==> StaleSource(states, events, k)
  {
    hide Prepared, Finish, ClosedBefore, Safe;
    assert k > |replay| ==> Heard(states[k], events[k]);
    assert Step(states[k], events[k], states[k + 1]);
    if events[k].WriteDone? && !events[k].hashOK {
      EpochSafe(start, stop, states, events, k);
      SourceKnown(states[k]);
      AgainMeansClosed(start, stop, states, events, k, states[k].writer.value.source);
    }
  }

  lemma SourceKnown(s: State)
    requires Safe(s) && s.writer.Some?
    ensures s.writer.value.source in s.peers
  {
  }

  /** In an epoch that begins with the queued messages and then hears of connected peers
      only, a channel is closed again in two ways: by the second invalid message in one
      queue, and by a corrupt piece whose source was closed before. */
  lemma ClosesAgainExactly(start: State, stop: bool, states: seq<State>, events: seq<Event>, queues: Queues,
                           order: seq<Peer>, k: nat)
    requires Epoch(start, stop, states, events) && k < |events|
    requires QueuesOk(queues, states[0].N()) && Enumerates(order, states[0].connected)
    requires Unfolds(states, events, Replay(order, queues))
    ensures ClosesAgain(states[k], events[k]) <==>
              if k < |Replay(order, queues)| then SecondInvalid(Replay(order, queues), states[0].N(), k)
              else StaleSource(states, events, k)
  {
    hide Unfolds, Invalid, ClosesAgain;
    ReplayItems(order, queues, states[0].N());
    if k < |Replay(order, queues)| {
      ReplayAgain(start, stop, states, events, Replay(order, queues), order, k);
    } else {
      LiveAgain(start, stop, states, events, Replay(order, queues), k);
    }
  }

  /** Two invalid messages in one queue. */
  ghost predicate Twice(ms: seq<Message>, n: nat) {
    exists i, j :: 0 <= i < j < |ms| && Invalid(ms[i], n) && Invalid(ms[j], n)
  }

  ghost predicate SomeSecond(replay: seq<Event>, n: nat) {
    exists k: nat :: SecondInvalid(replay, n, k)
  }

  /** Told from the queues, before any of it is replayed. */
  lemma {:induction false} SecondInvalidExactly(order: seq<Peer>, queues: Queues, n: nat)
    requires NoDuplicates(order) && QueuesOk(queues, n)
    ensures SomeSecond(Replay(order, queues), n) <==> exists pe :: pe in order && Twice(Queue(queues, pe), n)
  {
    if order != [] {
      hide Twice, SomeSecond;
      var front, last := order[..|order| - 1], order[|order| - 1];
      SecondInvalidExactly(front, queues, n);
      ReplayItems(front, queues, n);
      QueuedItems(last, Queue(queues, last));
      assert last !in front;
      SecondSplit(Replay(front, queues), Queued(last, Queue(queues, last)), last, Queue(queues, last), front, n);
      assert forall pe :: pe in order <==> pe in front || pe == last;
    } else {
      assert Replay(order, queues) == [];
    }
  }

  lemma SecondSplit(replay: seq<Event>, more: seq<Event>, pe: Peer, ms: seq<Message>, order: seq<Peer>, n: nat)
    requires Replayable(replay, order) && pe !in order && |more| == |ms|
    requires forall k :: 0 <= k < |ms| ==> more[k] == PeerMessage(pe, ms[k])
    ensures SomeSecond(replay + more, n) <==> SomeSecond(replay, n) || Twice(ms, n)
  {
    hide Invalid;
    var all, a := replay + more, |replay|;
    if SomeSecond(all, n) {
      var k: nat :| SecondInvalid(all, n, k);
      var j :| 0 <= j < k && all[j].PeerMessage? && all[j].pe == all[k].pe && Invalid(all[j].m, n);
      if k < a {
        assert replay[j] == all[j] && SecondInvalid(replay, n, k);
      } else {
        assert all[k] == more[k - a] && all[k].pe == pe;
        if j < a { assert false; }
        assert all[j] == more[j - a];
        assert Invalid(ms[j - a], n) && Invalid(ms[k - a], n);
      }
    }
    if SomeSecond(replay, n) {
      var k: nat :| SecondInvalid(replay, n, k);
      var j :| 0 <= j < k && replay[j].PeerMessage? && replay[j].pe == replay[k].pe && Invalid(replay[j].m, n);
      assert all[j] == replay[j] && all[k] == replay[k] && SecondInvalid(all, n, k);
    }
    if Twice(ms, n) {
      var i, j :| 0 <= i < j < |ms| && Invalid(ms[i], n) && Invalid(ms[j], n);
      assert all[a + i] == more[i] && all[a + j] == more[j] && SecondInvalid(all, n, a + j);
    }
  }

  /** Over a whole replay: some channel is closed again exactly when two messages queued
      for one connected peer are invalid. */
  lemma ReplayClosesAgain(start: State, stop: bool, states: seq<State>, events: seq<Event>, queues: Queues,
                          order: seq<Peer>)
    requires Epoch(start, stop, states, events) && Replay(order, queues) <= events
    requires QueuesOk(queues, states[0].N()) && Enumerates(order, states[0].connected)
    requires Unfolds(states, events, Replay(order, queues))
    ensures (exists k :: 0 <= k < |Replay(order, queues)| && ClosesAgain(states[k], events[k])) <==>
              exists pe :: pe in states[0].connected && Twice(Queue(queues, pe), states[0].N())
  {
    hide ClosesAgain, SecondInvalid, Unfolds, Twice, Prepared, Finish, Step;
    var replay, n := Replay(order, queues), states[0].N();
    forall k: nat | k < |replay| ensures ClosesAgain(states[k], events[k]) <==> SecondInvalid(replay, n, k) {
      ClosesAgainExactly(start, stop, states, events, queues, order, k);
    }
    SecondInvalidExactly(order, queues, n);
    if SomeSecond(replay, n) {
      var k: nat :| SecondInvalid(replay, n, k);
      InReplay(replay, n, k);
      assert ClosesAgain(states[k], events[k]);
    }
    if k: nat :| k < |replay| && ClosesAgain(states[k], events[k]) {
      assert SecondInvalid(replay, n, k);
    }
    assert forall pe :: pe in order <==> pe in states[0].connected;
  }

  lemma InReplay(replay: seq<Event>, n: nat, k: nat)
    requires SecondInvalid(replay, n, k)
    ensures k < |replay|
  {
  }
}
