/** On whose behalf RAM is asked for and used: as long as only connected peers are heard
    of, Request (internal/resourcemanager/resourcemanager.go) is called for connected peers
    only, whose doneC is open, and a grant that comes too late for its peer is given back. */
module Grants {
  import opened Common
  import opened Blocks
  import opened PeerSets
  import opened Pickers
  import opened Engine
  import opened EventLoop
  import opened Connections
  import opened DoubleCloses
  import PD = PieceDownloaders
  import RM = ResourceManagers

  /** Whoever downloads, or is known to have a piece, is connected. */
  ghost predicate Present(s: State) {
    s.downloaders.Keys <= s.connected && (s.picker.Some? ==> Offering(s.picker.value, s.connected))
  }

  ghost predicate Offering(p: Picker, who: set<Peer>) {
    forall i, pe :: 0 <= i < |p.pieces| && p.pieces[i].having.Has(pe) ==> pe in who
  }

  /** From s to t RAM was asked for on behalf of these peers only. */
  ghost predicate Asks(s: State, t: State, who: set<Peer>) {
    s.ram <= t.ram && forall k :: |s.ram| <= k < |t.ram| && t.ram[k].Asked? ==> t.ram[k].data in who
  }

  lemma AsksTwice(s: State, m: State, t: State, who: set<Peer>)
    requires Asks(s, m, who) && Asks(m, t, who)
    ensures Asks(s, t, who)
  {
  }

  lemma AsksMore(s: State, t: State, who: set<Peer>, more: set<Peer>)
    requires Asks(s, t, who) && who <= more
    ensures Asks(s, t, more)
  {
  }

  // ---- the steps handlers share

  /** A start lands on a piece that the peer has, so on a connected peer. */
  lemma StartedPresent(s: State, pe: Peer, t: State)
    requires Present(s) && Started(s, pe, t)
    ensures Present(t) && t.connected == s.connected && Asks(s, t, {})
    ensures pe !in s.connected ==> pe !in t.downloaders
  {
    if s.Status() == Downloading {
      var c :| StartedAs(s, pe, c, t);
      if c.r.Some? {
        FoundSafe(s.picker.value, s.flags, s.peers[pe], pe, c.r.value, c.fast, c.endgame);
        assert s.picker.value.pieces[c.r.value].having.Has(pe);
      }
    }
  }

  lemma AskedForPresent(s: State, pe: Peer, t: State)
    requires Present(s) && AskedFor(s, pe, t) && pe in s.connected
    ensures Present(t) && t.connected == s.connected && Asks(s, t, s.connected)
  {
    if s.Status() == Downloading && t != Acquire(s, pe, false) {
      hide Started;
      var a := Acquire(s, pe, true);
      StartedPresent(a, pe, t);
      AsksMore(a, t, {}, s.connected);
      AsksTwice(s, a, t, s.connected);
    }
  }

  lemma CancelKeepsOffers(p: Picker, pe: Peer, i: nat, who: set<Peer>)
    requires Offering(p, who)
    ensures Offering(Cancel(p, pe, i), who)
  {
  }

  lemma CloseDownloaderPresent(s: State, pe: Peer)
    requires Present(s)
    ensures var t := CloseDownloader(s, pe); Present(t) && t.connected == s.connected && Asks(s, t, {})
  {
    if pe in s.downloaders && s.picker.Some? {
      CancelKeepsOffers(s.picker.value, pe, s.downloaders[pe].piece, s.connected);
    }
  }

  lemma DisconnectRemoves(p: Picker, pe: Peer, who: set<Peer>)
    requires Offering(p, who) && p.Valid()
    ensures Offering(Disconnect(p, pe), who - {pe})
  {
    var t := Disconnect(p, pe);
    forall i, q | 0 <= i < |t.pieces| && t.pieces[i].having.Has(q) ensures q in who - {pe} {
      RemoveCorrect(p.pieces[i].having, pe);
    }
  }

  lemma ClosedPresent(s: State, pe: Peer, t: State)
    requires Present(s) && Core(s) && ClosedPeer(s, pe, t)
    ensures Present(t) && Asks(s, t, {})
  {
    CloseDownloaderPresent(s, pe);
    CloseDownloaderCore(s, pe);
    var m := CloseDownloader(s, pe);
    if m.picker.Some? { DisconnectRemoves(m.picker.value, pe, m.connected); }
  }

  lemma {:induction false} StartEachPresent(s: State, order: seq<Peer>, t: State)
    requires Present(s) && StartEach(s, order, t) && forall pe :: pe in order ==> pe in s.connected
    ensures Present(t) && t.connected == s.connected && Asks(s, t, s.connected)
  {
    if order != [] {
      hide Present, AskedFor, Asks;
      var front, last := order[..|order| - 1], order[|order| - 1];
      var m :| StartEach(s, front, m) && StartOne(m, last, t);
      StartEachPresent(s, front, m);
      if t != m {
        AskedForPresent(m, last, t);
        AsksTwice(s, m, t, s.connected);
      }
    }
  }

  lemma StartAllPresent(s: State, t: State)
    requires Present(s) && StartAll(s, t)
    ensures Present(t) && t.connected == s.connected && Asks(s, t, s.connected)
  {
    if s.Status() == Downloading {
      hide Present, Asks;
      var order: seq<Peer> :| Enumerates(order, s.connected) && StartEach(s, order, t);
      StartEachPresent(s, order, t);
    }
  }

  lemma HaveOnePresent(s: State, pe: Peer, i: nat)
    requires Present(s) && pe in s.connected
    ensures var t := HaveOne(s, pe, i); Present(t) && t.connected == s.connected && t.ram == s.ram
  {
    if HaveOne(s, pe, i) != s {
      var p := s.picker.value;
      var q := Have(p, pe, i);
      forall j, x | 0 <= j < |q.pieces| && q.pieces[j].having.Has(x) ensures x in s.connected {
        assert x != pe ==> p.pieces[j].having.Has(x);
      }
    }
  }

  lemma {:induction false} HaveEachPresent(s: State, pe: Peer, bits: seq<bool>)
    requires Present(s) && pe in s.connected
    ensures var t := HaveEach(s, pe, bits); Present(t) && t.connected == s.connected && t.ram == s.ram
  {
    if bits != [] {
      hide Present, HaveOne;
      var k := |bits| - 1;
      HaveEachPresent(s, pe, bits[..k]);
      HaveOnePresent(HaveEach(s, pe, bits[..k]), pe, k);
    }
  }

  lemma OfferedPresent(s: State, h: State, pe: Peer, t: State)
    requires Present(h) && h.connected == s.connected && h.ram == s.ram && pe in s.connected
    requires AskedFor(Interest(h, pe), pe, t)
    ensures Present(t) && t.connected == s.connected && Asks(s, t, s.connected)
  {
    hide AskedFor;
    AskedForPresent(Interest(h, pe), pe, t);
  }

  // ---- one event

  lemma MessagePresent(s: State, pe: Peer, m: Message, t: State)
    requires Present(s) && Core(s) && pe in s.connected && MessageStep(s, pe, m, t)
    ensures Present(t) && Asks(s, t, s.connected)
  {
    hide AskedFor, ClosedPeer, StartAll, HaveOne, HaveEach, PD.Request, Present, Asks, Core;
    if ClosedPeer(s, pe, t) {
      ClosedPresent(s, pe, t);
      AsksMore(s, t, {}, s.connected);
    } else {
      match m
      case HaveMessage(i) =>
        HaveOnePresent(s, pe, i);
        OfferedPresent(s, HaveOne(s, pe, i), pe, t);
      case BitfieldMessage(size, bits) =>
        HaveEachPresent(s, pe, bits);
        if size != 0 { OfferedPresent(s, HaveEach(s, pe, bits), pe, t); } else { QuietPresent(s, t); }
      case HaveAllMessage =>
        var bits := seq(s.N(), _ => true);
        HaveEachPresent(s, pe, bits);
        OfferedPresent(s, HaveEach(s, pe, bits), pe, t);
      case UnchokeMessage => UnchokePresent(s, pe, t);
      case ChokeMessage => ChokePresent(s, pe, t);
      case _ => QuietPresent(s, t);
    }
  }

  /** Nothing has changed that Present or the ledger looks at. */
  lemma QuietPresent(s: State, t: State)
    requires Present(s) && t.connected == s.connected && t.ram == s.ram && t.picker == s.picker
    requires t.downloaders.Keys == s.downloaders.Keys
    ensures Present(t) && Asks(s, t, s.connected)
  {
  }

  ghost predicate SameOffers(p: Picker, q: Picker) {
    |q.pieces| == |p.pieces| && forall i :: 0 <= i < |p.pieces| ==> q.pieces[i].having == p.pieces[i].having
  }

  lemma OffersPresent(s: State, t: State)
    requires Present(s) && t.connected == s.connected && t.ram == s.ram && t.downloaders.Keys <= s.downloaders.Keys
    requires t.picker.Some? ==> s.picker.Some? && SameOffers(s.picker.value, t.picker.value)
    ensures Present(t) && Asks(s, t, {})
  {
  }

  lemma UnchokePresent(s: State, pe: Peer, t: State)
    requires Present(s) && pe in s.connected && MessageStep(s, pe, UnchokeMessage, t)
    ensures Present(t) && Asks(s, t, s.connected)
  {
    hide AskedFor, PD.Request, Present, Asks;
    var u := SetPeer(s, pe, s.peers[pe].(peerChoking := false));
    OffersPresent(s, u);
    if pe !in u.downloaders {
      AskedForPresent(u, pe, t);
      AsksMore(s, u, {}, s.connected);
      AsksTwice(s, u, t, s.connected);
    } else {
      OffersPresent(s, t);
      AsksMore(s, t, {}, s.connected);
    }
  }

  lemma ChokePresent(s: State, pe: Peer, t: State)
    requires Present(s) && pe in s.connected && MessageStep(s, pe, ChokeMessage, t)
    ensures Present(t) && Asks(s, t, s.connected)
  {
    hide StartAll, Present, Asks;
    var u := SetPeer(s, pe, s.peers[pe].(peerChoking := true));
    OffersPresent(s, u);
    AsksMore(s, u, {}, s.connected);
    if pe in s.downloaders && !s.downloaders[pe].allowedFast {
      var order: seq<nat> :| PD.Enumerates(order, s.downloaders[pe].pending) && StartAll(Choked(u, pe, order), t);
      var c := Choked(u, pe, order);
      OffersPresent(s, c);
      AsksMore(s, c, {}, s.connected);
      StartAllPresent(c, t);
      AsksTwice(s, c, t, s.connected);
    }
  }

  lemma PiecePresent(s: State, pe: Peer, index: nat, begin: nat, data: bytes, t: State)
    requires Present(s) && Core(s) && pe in s.connected && PieceStep(s, pe, index, begin, data, t)
    ensures Present(t) && Asks(s, t, s.connected)
  {
    hide AskedFor, ClosedPeer, Present, Asks, Core, Taken;
    if ClosedPeer(s, pe, t) {
      ClosedPresent(s, pe, t);
      AsksMore(s, t, {}, s.connected);
    } else if Downloads(s, pe, index) {
      TakenPresent(s, pe, FindBlock(s.lengths[index], begin, |data|).value, data, t);
    } else {
      QuietPresent(s, t);
    }
  }

  lemma TakenPresent(s: State, pe: Peer, b: Block, data: bytes, t: State)
    requires Present(s) && pe in s.connected && Taken(s, pe, b, data, t)
    ensures Present(t) && Asks(s, t, s.connected)
  {
    hide Finished, Present, Asks, PD.Request, PD.Receive;
    var d := PD.Receive(s.downloaders[pe], b, data).0;
    if d.Done() {
      var n := SetDownloader(s, pe, d);
      QuietPresent(s, n);
      FinishedPresent(n, pe, t);
      AsksTwice(s, n, t, s.connected);
    } else {
      QuietPresent(s, t);
    }
  }

  lemma FinishedPresent(s: State, pe: Peer, t: State)
    requires Present(s) && pe in s.connected && Finished(s, pe, t)
    ensures Present(t) && Asks(s, t, s.connected)
  {
    hide AskedFor, Present, Asks;
    var d := s.downloaders[pe];
    var c := CloseDownloader(s, pe);
    var n := MarkWriting(c, d.piece);
    var u: State :| AskedFor(n, pe, u) && t == u.(suspended := true, writer := Some(Write(d.piece, pe, d.buffer)));
    CloseDownloaderPresent(s, pe);
    AsksMore(s, c, {}, s.connected);
    QuietPresent(c, n);
    AskedForPresent(n, pe, u);
    QuietPresent(u, t);
    AsksTwice(s, c, n, s.connected);
    AsksTwice(s, n, u, s.connected);
    AsksTwice(s, u, t, s.connected);
  }

  lemma {:induction false} CancelEachPresent(s: State, i: nat, order: seq<Peer>, t: State)
    requires Present(s) && CancelEach(s, i, order, t)
    ensures Present(t) && t.connected == s.connected && Asks(s, t, s.connected)
  {
    if order != [] {
      hide AskedFor, Asks;
      var front, last := order[..|order| - 1], order[|order| - 1];
      var m :| CancelEach(s, i, front, m) && Downloads(m, last, i) && AskedFor(CloseDownloader(m, last), last, t);
      CancelEachPresent(s, i, front, m);
      var c := CloseDownloader(m, last);
      CloseDownloaderPresent(m, last);
      AsksMore(m, c, {}, s.connected);
      AskedForPresent(c, last, t);
      AsksTwice(m, c, t, s.connected);
      AsksTwice(s, m, t, s.connected);
    }
  }

  /** Completion and stopping end all downloads, and ask for nothing. */
  lemma DroppedPresent(s: State, t: State)
    requires t.downloaders == map[] && t.picker == None && t.ram == s.ram + Releases(s)
    ensures Present(t) && Asks(s, t, {})
  {
  }

  lemma StoppedPresent(s: State, t: State)
    requires StoppedAs(s, t)
    ensures Present(t) && Asks(s, t, {})
  {
    DroppedPresent(s, t);
  }

  lemma FinishPresent(s: State, stop: bool)
    requires Present(s)
    ensures Present(Finish(s, stop)) && Asks(s, Finish(s, stop), {})
  {
    var c := CheckCompletion(s);
    if c != s { DroppedPresent(s, c); }
    if c.completed && stop { DroppedPresent(c, Stop(c)); }
  }

  lemma WriteDonePresent(s: State, hashOK: bool, failed: bool, stop: bool, t: State)
    requires Present(s) && Inv(s) && WriteDoneStep(s, hashOK, failed, stop, t)
    ensures Present(t) && Asks(s, t, if hashOK then s.connected else t.connected)
  {
    hide Present, Asks, Inv, AskedFor, ClosedPeer, StartAll, CancelEach, StoppedAs, Finish;
    var (w, u) := (s.writer.value, Unmark(s));
    UnmarkInv(s);
    QuietPresent(s, u);
    if !hashOK {
      var m: State :| ClosedPeer(u, w.source, m) && StartAll(m, t);
      OfInv(u);
      ClosedPresent(u, w.source, m);
      StartAllPresent(m, t);
      QuietAsks(s, u, m.connected);
      AsksMore(u, m, {}, m.connected);
      AsksTwice(s, u, m, m.connected);
      AsksTwice(s, m, t, m.connected);
    } else if failed {
      StoppedPresent(u, t);
      AsksMore(u, t, {}, s.connected);
      AsksTwice(s, u, t, s.connected);
    } else {
      var v := MarkDone(u, w.piece);
      var m: State :| CancelEach(v, w.piece, RequestedPeers(v, w.piece), m) && t == Finish(m, stop);
      QuietPresent(u, v);
      CancelEachPresent(v, w.piece, RequestedPeers(v, w.piece), m);
      FinishPresent(m, stop);
      AsksMore(m, t, {}, s.connected);
      AsksTwice(s, u, v, s.connected);
      AsksTwice(s, v, m, s.connected);
      AsksTwice(s, m, t, s.connected);
    }
  }

  lemma OfInv(s: State)
    requires Inv(s)
    ensures Core(s)
  {
  }

  lemma QuietAsks(s: State, t: State, who: set<Peer>)
    requires t.ram == s.ram
    ensures Asks(s, t, who)
  {
  }

  lemma OpenedPresent(s: State, t: State)
    requires Present(s) && OpenedAs(s, t)
    ensures Present(t) && Asks(s, t, t.connected)
  {
    hide StartAll, Asks;
    var dialled: set<Peer> :|
      dialled !! s.peers.Keys && (s.completed ==> dialled == {}) && StartAll(WithPeers(s, dialled), t);
    var w := WithPeers(s, dialled);
    assert Present(w);
    StartAllPresent(w, t);
    QuietAsks(s, w, t.connected);
    AsksTwice(s, w, t, t.connected);
  }

  /** Whom RAM may be asked for: those connected before the event or, where it closes or
      dials peers first, those connected behind it. */
  ghost function Hearers(s: State, e: Event, t: State): set<Peer> {
    if e.Opened? || (e.WriteDone? && !e.hashOK) then t.connected else s.connected
  }

  lemma StepPresent(s: State, e: Event, t: State)
    requires Present(s) && Safe(s) && Heard(s, e) && Step(s, e, t)
    ensures Present(t) && Asks(s, t, Hearers(s, e, t))
  {
    hide Present, Asks, Inv, Sound, Core, MessageStep, PieceStep, WriteDoneStep, Started, ClosedPeer, OpenedAs,
        StoppedAs;
    OfInv(s);
    match e
    case PeerMessage(pe, m) => MessagePresent(s, pe, m, t);
    case PieceMessage(pe, index, begin, data) => PiecePresent(s, pe, index, begin, data, t);
    case WriteDone(hashOK, failed, stop) => WriteDonePresent(s, hashOK, failed, stop, t);
    case RamNotify(pe) => NotifyPresent(s, pe, t);
    case Disconnected(pe) =>
      ClosedPresent(s, pe, t);
      AsksMore(s, t, {}, s.connected);
    case Incoming(pe) => IncomingPresent(s, pe, t);
    case StopCommand =>
      if s.running { StoppedPresent(s, t); } else { QuietAsks(s, t, {}); }
      AsksMore(s, t, {}, s.connected);
    case Opened => OpenedPresent(s, t);
  }

  /** A late grant starts nothing for a peer that has gone. */
  lemma NotifyPresent(s: State, pe: Peer, t: State)
    requires Present(s) && Started(Grant(s, pe), pe, t)
    ensures Present(t) && Asks(s, t, s.connected)
    ensures pe !in s.connected ==> pe !in t.downloaders
  {
    hide Started;
    StartedPresent(Grant(s, pe), pe, t);
  }

  lemma IncomingPresent(s: State, pe: Peer, t: State)
    requires Present(s) && t == WithPeers(s, {pe})
    ensures Present(t) && Asks(s, t, s.connected)
  {
  }

  // ---- whole runs

  /** In a run that hears of connected peers only, RAM is asked for on behalf of connected
      peers only, and nobody else ever downloads. */
  lemma {:induction false} ConnectedOnly(start: State, stop: bool, states: seq<State>, events: seq<Event>, k: nat)
    requires Epoch(start, stop, states, events) && k <= |events|
    requires forall q :: 0 <= q < |events| ==> Heard(states[q], events[q])
    ensures Present(states[k])
    ensures k < |events| ==> Asks(states[k], states[k + 1], Hearers(states[k], events[k], states[k + 1]))
  {
    hide Present, Asks, Prepared, Finish, Safe, Step, Heard;
    if k == 0 {
      PreparedPresent(start, stop);
    } else {
      ConnectedOnly(start, stop, states, events, k - 1);
      EpochSafe(start, stop, states, events, k - 1);
      assert Step(states[k - 1], events[k - 1], states[k]) && Heard(states[k - 1], events[k - 1]);
      StepPresent(states[k - 1], events[k - 1], states[k]);
    }
    if k < |events| {
      EpochSafe(start, stop, states, events, k);
      assert Step(states[k], events[k], states[k + 1]) && Heard(states[k], events[k]);
      StepPresent(states[k], events[k], states[k + 1]);
    }
  }

  lemma PreparedPresent(start: State, stop: bool)
    requires Prepared(start)
    ensures Present(Finish(start, stop))
  {
    assert Present(start);
    FinishPresent(start, stop);
  }

  /** No message queued for one of these peers is invalid. */
  ghost predicate QueuesValid(order: seq<Peer>, queues: Queues, n: nat) {
    forall pe, k :: pe in order && 0 <= k < |Queue(queues, pe)| ==> !Invalid(Queue(queues, pe)[k], n)
  }

  ghost predicate NoneInvalid(replay: seq<Event>, n: nat) {
    forall k :: 0 <= k < |replay| ==> replay[k].PeerMessage? && !Invalid(replay[k].m, n)
  }

  lemma {:induction false} ReplayValid(order: seq<Peer>, queues: Queues, n: nat)
    requires QueuesValid(order, queues, n)
    ensures NoneInvalid(Replay(order, queues), n)
  {
    if order != [] {
      hide Invalid;
      var front, last := order[..|order| - 1], order[|order| - 1];
      ReplayValid(front, queues, n);
      QueuedItems(last, Queue(queues, last));
      assert forall k :: 0 <= k < |Queue(queues, last)| ==> !Invalid(Queue(queues, last)[k], n);
    }
  }

  lemma FromKnown(s: State, pe: Peer, m: Message, t: State)
    requires Step(s, PeerMessage(pe, m), t)
    ensures s.running && pe in s.peers
  {
  }

  lemma QueuedHeard(states: seq<State>, events: seq<Event>, replay: seq<Event>, order: seq<Peer>, q: nat)
    requires Execution(states, events) && Unfolds(states, events, replay) && Replayable(replay, order)
    requires q < |events| && q < |replay| && forall pe :: pe in order ==> pe in states[0].connected
    requires forall k :: 0 <= k < |events| ==> Keeps(states[k], events[k], states[k + 1])
    requires NoneInvalid(replay, states[0].N())
    ensures Heard(states[q], events[q])
  {
    hide Keeps, Closes, Step, Invalid;
    var pe := replay[q].pe;
    assert events[q] == replay[q] && Step(states[q], events[q], states[q + 1]);
    FromKnown(states[q], pe, replay[q].m, states[q + 1]);
    GoneMeansClosed(states, events, q, pe);
    if ClosedBefore(states, events, q, pe) {
      var j: nat :| j < q && pe in states[j].peers && Closes(states[j], events[j], states[j + 1], pe);
      ReplayCloses(states, events, replay, order, j, pe);
    }
  }

  /** A replay without invalid messages hears of connected peers only, like what follows:
      then RAM is asked for on behalf of connected peers only, and nobody else downloads. */
  lemma AskedForConnected(start: State, stop: bool, states: seq<State>, events: seq<Event>, queues: Queues,
                          order: seq<Peer>, k: nat)
    requires Epoch(start, stop, states, events) && k < |events|
    requires QueuesOk(queues, states[0].N()) && Enumerates(order, states[0].connected)
    requires Unfolds(states, events, Replay(order, queues)) && QueuesValid(order, queues, states[0].N())
    ensures Present(states[k])
    ensures Asks(states[k], states[k + 1], Hearers(states[k], events[k], states[k + 1]))
  {
    hide Prepared, Finish, Safe, Step, Keeps, Closes, NoneInvalid, QueuesValid, Present, Asks;
    var replay := Replay(order, queues);
    ReplayItems(order, queues, states[0].N());
    ReplayValid(order, queues, states[0].N());
    EpochKeeps(start, stop, states, events);
    forall q: nat | q < |events| ensures Heard(states[q], events[q]) {
      if q < |replay| { QueuedHeard(states, events, replay, order, q); }
    }
    ConnectedOnly(start, stop, states, events, k);
  }

  /** Behind an invalid message, a valid one of the same queue asks for RAM on behalf of a
      peer that has been closed. */
  lemma AskedForGone(pe: Peer) returns (states: seq<State>, queues: Queues)
    ensures var events := Replay([pe], queues);
            && queues == map[pe := [HaveMessage(1), HaveMessage(0)]] && QueuesOk(queues, 1) && |events| == 2
            && Epoch(Example(pe), false, states, events) && Enumerates([pe], states[0].connected)
            && Unfolds(states, events, events) && states[1].connected == {}
            && states[2].ram == [RM.Asked(pe, 1, false)]
  {
    hide Step, Example, Prepared, Finish;
    var bad, good := HaveMessage(1), HaveMessage(0);
    queues := map[pe := [bad, good]];
    TwoQueued(pe, bad, good, queues);
    var s := Example(pe);
    ExamplePrepared(pe);
    var m := ClosedFirst(pe);
    var t := AsksNext(m, pe);
    states := [s, m, t];
    assert s.connected == {pe} by { OnlyPeer(pe); }
  }

  lemma OnlyPeer(pe: Peer)
    ensures Example(pe).connected == {pe}
  {
  }

  lemma ClosedFirst(pe: Peer) returns (t: State)
    ensures Step(Example(pe), PeerMessage(pe, HaveMessage(1)), t)
    ensures t.connected == {} && t.ram == [] && t.pieceLength == 1 && t.lengths == [1]
    ensures t.running && !t.completed && pe in t.peers
  {
    hide NewPeer;
    var s := Example(pe);
    t := WithPeers(ClosePeer(s, pe), {});
    assert {} !! s.peers.Keys && ClosedPeer(s, pe, t);
  }

  lemma AsksNext(s: State, pe: Peer) returns (t: State)
    requires s.running && !s.completed && s.ram == [] && s.pieceLength == 1 && s.lengths == [1] && pe in s.peers
    ensures Step(s, PeerMessage(pe, HaveMessage(0)), t) && t.ram == [RM.Asked(pe, 1, false)]
  {
    var u := Interest(HaveOne(s, pe, 0), pe);
    t := Acquire(u, pe, false);
    assert AskedFor(u, pe, t);
  }
}
