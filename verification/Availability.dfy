/** Which peers the picker counts as having a piece: of the connected ones, those that
    announced it. */
module Availability {
  import opened Common
  import opened Blocks
  import opened PeerSets
  import opened Pickers
  import opened Engine
  import opened EventLoop
  import opened PeerRecords
  import PD = PieceDownloaders
  import RM = ResourceManagers

  ghost predicate HasBit(s: State, pe: Peer, i: nat) {
    pe in s.peers && i < |s.peers[pe].bitfield| && s.peers[pe].bitfield[i]
  }

  /** The having set of piece i against the peers' own bitfields. */
  ghost predicate Counted(s: State, p: Picker, pe: Peer, i: nat)
    requires i < |p.pieces|
  {
    && (pe in p.pieces[i].having.live ==> HasBit(s, pe, i))
    && (pe in s.connected && HasBit(s, pe, i) ==> pe in p.pieces[i].having.live)
  }

  ghost predicate Counts(s: State) {
    s.picker.Some? ==> forall i: nat, pe :: i < |s.picker.value.pieces| ==> Counted(s, s.picker.value, pe, i)
  }

  ghost predicate SameHaving(p: Picker, q: Picker) {
    && |q.pieces| == |p.pieces|
    && forall i :: 0 <= i < |p.pieces| ==> q.pieces[i].having == p.pieces[i].having
  }

  /** Nobody announces anything, and whoever joins has nothing. */
  ghost predicate Steady(s: State, t: State) {
    && Kept(s, t)
    && (t.picker.Some? ==> s.picker.Some? && SameHaving(s.picker.value, t.picker.value))
    && (forall pe :: pe in t.connected && pe in s.peers ==> pe in s.connected)
  }

  lemma SteadyCounts(s: State, t: State)
    requires Counts(s) && Steady(s, t)
    ensures Counts(t)
  {
    if t.picker.Some? {
      forall i: nat, pe | i < |t.picker.value.pieces| ensures Counted(t, t.picker.value, pe, i) {
        assert Counted(s, s.picker.value, pe, i);
        assert pe in t.peers ==> Alike(Of(s, pe), t.peers[pe]);
      }
    }
  }

  lemma SteadyTwice(s: State, m: State, t: State)
    requires Steady(s, m) && Steady(m, t)
    ensures Steady(s, t)
  {
    KeptTwice(s, m, t);
  }

  lemma SteadySelf(s: State)
    ensures Steady(s, s)
  {
  }

  // ---- the steps handlers share

  lemma StartedSteady(s: State, pe: Peer, t: State)
    requires Started(s, pe, t)
    ensures Steady(s, t)
  {
    StartedKept(s, pe, t);
    hide Kept;
    if s.Status() == Downloading {
      var c :| StartedAs(s, pe, c, t);
      PickedHaving(s.picker.value, pe, c.r, c.endgame);
    }
  }

  lemma PickedHaving(p: Picker, pe: Peer, r: Option<nat>, e: bool)
    ensures SameHaving(p, Picked(p, pe, r, e))
  {
  }

  lemma AskedForSteady(s: State, pe: Peer, t: State)
    requires AskedFor(s, pe, t)
    ensures Steady(s, t)
  {
    if s.Status() == Downloading {
      hide Started, Kept;
      AcquireSteady(s, pe);
      if t != Acquire(s, pe, false) {
        StartedSteady(Acquire(s, pe, true), pe, t);
        SteadyTwice(s, Acquire(s, pe, true), t);
      }
    }
  }

  lemma AcquireSteady(s: State, pe: Peer)
    ensures Steady(s, Acquire(s, pe, true)) && Steady(s, Acquire(s, pe, false))
  {
  }

  lemma {:induction false} StartEachSteady(s: State, order: seq<Peer>, t: State)
    requires StartEach(s, order, t)
    ensures Steady(s, t)
  {
    hide Steady, AskedFor;
    if order == [] {
      SteadySelf(s);
    } else {
      var front, last := order[..|order| - 1], order[|order| - 1];
      var m :| StartEach(s, front, m) && StartOne(m, last, t);
      StartEachSteady(s, front, m);
      if t != m {
        AskedForSteady(m, last, t);
        SteadyTwice(s, m, t);
      }
    }
  }

  lemma StartAllSteady(s: State, t: State)
    requires StartAll(s, t)
    ensures Steady(s, t)
  {
    hide Steady;
    if s.Status() == Downloading {
      var order: seq<Peer> :| Enumerates(order, s.connected) && StartEach(s, order, t);
      StartEachSteady(s, order, t);
    } else {
      SteadySelf(s);
    }
  }

  lemma CloseDownloaderSteady(s: State, pe: Peer)
    ensures Steady(s, CloseDownloader(s, pe))
  {
    CloseDownloaderKept(s, pe);
    hide Kept;
  }

  lemma WithPeersSteady(s: State, dialled: set<Peer>)
    requires dialled !! s.peers.Keys
    ensures Steady(s, WithPeers(s, dialled))
  {
    WithPeersKept(s, dialled);
    hide Kept;
  }

  lemma {:induction false} CancelEachSteady(s: State, i: nat, order: seq<Peer>, t: State)
    requires CancelEach(s, i, order, t)
    ensures Steady(s, t)
  {
    hide Steady, AskedFor, Downloads;
    if order == [] {
      SteadySelf(s);
    } else {
      var front, last := order[..|order| - 1], order[|order| - 1];
      var m :| CancelEach(s, i, front, m) && Downloads(m, last, i) && AskedFor(CloseDownloader(m, last), last, t);
      CancelEachSteady(s, i, front, m);
      CloseDownloaderSteady(m, last);
      AskedForSteady(CloseDownloader(m, last), last, t);
      SteadyTwice(m, CloseDownloader(m, last), t);
      SteadyTwice(s, m, t);
    }
  }

  lemma FinishSteady(s: State, stop: bool)
    ensures Steady(s, Finish(s, stop))
  {
    FinishKept(s, stop);
    hide Kept, AllSet, Releases;
  }

  /** A peer that is closed leaves all having sets. */
  lemma ClosedCounts(s: State, pe: Peer, t: State)
    requires Counts(s) && Agree(s) && Shape(s) && ClosedPeer(s, pe, t)
    ensures Counts(t)
  {
    hide Kept;
    var dialled: set<Peer> :| dialled !! s.peers.Keys && (s.completed ==> dialled == {})
        && t == WithPeers(ClosePeer(s, pe), dialled);
    CloseDownloaderSteady(s, pe);
    CloseDownloaderAgree(s, pe);
    var m := CloseDownloader(s, pe);
    SteadyCounts(s, m);
    ForgetCounts(m, pe);
    WithPeersSteady(ClosePeer(s, pe), dialled);
    SteadyCounts(ClosePeer(s, pe), t);
  }

  lemma ForgetCounts(s: State, pe: Peer)
    requires Counts(s) && Shape(s)
    ensures Counts(Forget(s, pe))
  {
    var t := Forget(s, pe);
    if s.picker.Some? {
      var p, q := s.picker.value, t.picker.value;
      forall i: nat, pq | i < |q.pieces| ensures Counted(t, q, pq, i) {
        assert Counted(s, p, pq, i);
        RemovedMembers(p.pieces[i].having, pe);
      }
    }
  }

  lemma HaveOneCounts(s: State, pe: Peer, i: nat)
    requires Counts(s)
    ensures Counts(HaveOne(s, pe, i))
  {
    var t := HaveOne(s, pe, i);
    if t != s {
      forall j: nat, q | j < |t.picker.value.pieces| ensures Counted(t, t.picker.value, q, j) {
        assert Counted(s, s.picker.value, q, j);
      }
    }
  }

  lemma {:induction false} HaveEachCounts(s: State, pe: Peer, bits: seq<bool>)
    requires Counts(s)
    ensures Counts(HaveEach(s, pe, bits))
  {
    if bits != [] {
      hide Counts, HaveOne;
      var k := |bits| - 1;
      HaveEachCounts(s, pe, bits[..k]);
      HaveOneCounts(HaveEach(s, pe, bits[..k]), pe, k);
    }
  }

  lemma OfferCounts(h: State, pe: Peer, t: State)
    requires Counts(h) && AskedFor(Interest(h, pe), pe, t)
    ensures Counts(t)
  {
    hide Counts, AskedFor, Steady;
    InterestSteady(h, pe);
    AskedForSteady(Interest(h, pe), pe, t);
    SteadyTwice(h, Interest(h, pe), t);
    SteadyCounts(h, t);
  }

  lemma InterestSteady(s: State, pe: Peer)
    ensures Steady(s, Interest(s, pe))
  {
  }

  lemma HaveCounts(s: State, pe: Peer, m: Message, t: State)
    requires Counts(s) && Agree(s) && Shape(s) && MessageStep(s, pe, m, t)
    requires m.HaveMessage? || m.BitfieldMessage? || m.HaveAllMessage?
    ensures Counts(t)
  {
    hide Counts, AskedFor, ClosedPeer, HaveOne, HaveEach, Interest, Agree, Shape;
    if ClosedPeer(s, pe, t) {
      ClosedCounts(s, pe, t);
    } else {
      match m
      case HaveMessage(i) =>
        HaveOneCounts(s, pe, i);
        OfferCounts(HaveOne(s, pe, i), pe, t);
      case BitfieldMessage(size, bits) =>
        if size == 0 { return; }
        HaveEachCounts(s, pe, bits);
        OfferCounts(HaveEach(s, pe, bits), pe, t);
      case HaveAllMessage =>
        HaveEachCounts(s, pe, seq(s.N(), _ => true));
        OfferCounts(HaveEach(s, pe, seq(s.N(), _ => true)), pe, t);
    }
  }

  /** Records other than bitfields, and downloaders, are not looked at. */
  lemma QuietCounts(s: State, t: State)
    requires Counts(s) && t.connected == s.connected && t.peers.Keys == s.peers.Keys
    requires forall pe :: pe in s.peers ==> t.peers[pe].bitfield == s.peers[pe].bitfield
    requires t.picker.Some? ==> s.picker.Some? && SameHaving(s.picker.value, t.picker.value)
    ensures Counts(t)
  {
    if t.picker.Some? {
      forall i: nat, pe | i < |t.picker.value.pieces| ensures Counted(t, t.picker.value, pe, i) {
        assert Counted(s, s.picker.value, pe, i);
      }
    }
  }

  lemma ChokeCounts(s: State, pe: Peer, t: State)
    requires Counts(s) && MessageStep(s, pe, ChokeMessage, t)
    ensures Counts(t)
  {
    hide Counts, StartAll, Steady;
    var u := SetPeer(s, pe, s.peers[pe].(peerChoking := true));
    QuietCounts(s, u);
    if pe in s.downloaders && !s.downloaders[pe].allowedFast {
      var order: seq<nat> :| PD.Enumerates(order, s.downloaders[pe].pending) && StartAll(Choked(u, pe, order), t);
      QuietCounts(u, Choked(u, pe, order));
      StartAllSteady(Choked(u, pe, order), t);
      SteadyCounts(Choked(u, pe, order), t);
    }
  }

  lemma UnchokeCounts(s: State, pe: Peer, t: State)
    requires Counts(s) && MessageStep(s, pe, UnchokeMessage, t)
    ensures Counts(t)
  {
    hide Counts, AskedFor, Steady;
    var u := SetPeer(s, pe, s.peers[pe].(peerChoking := false));
    QuietCounts(s, u);
    if pe !in u.downloaders {
      AskedForSteady(u, pe, t);
      SteadyCounts(u, t);
    } else if !u.downloaders[pe].allowedFast {
      QuietCounts(u, t);
    }
  }

  lemma MessageCounts(s: State, pe: Peer, m: Message, t: State)
    requires Counts(s) && Agree(s) && Shape(s) && MessageStep(s, pe, m, t)
    ensures Counts(t)
  {
    hide Counts, AskedFor, ClosedPeer, HaveOne, HaveEach, Interest, StartAll, Agree, Shape;
    if ClosedPeer(s, pe, t) { ClosedCounts(s, pe, t); return; }
    if t == s { return; }
    match m
    case AllowedFastMessage(i) => QuietCounts(s, t);
    case UnchokeMessage => UnchokeCounts(s, pe, t);
    case ChokeMessage => ChokeCounts(s, pe, t);
    case RejectMessage(index, begin, length) => QuietCounts(s, t);
    case InterestedMessage => QuietCounts(s, t);
    case NotInterestedMessage => QuietCounts(s, t);
    case ExtensionHandshakeMessage(q) => QuietCounts(s, t);
    case _ => HaveCounts(s, pe, m, t);
  }

  // ---- the other steps

  lemma PieceCounts(s: State, pe: Peer, index: nat, begin: nat, data: bytes, t: State)
    requires Counts(s) && Agree(s) && Shape(s) && PieceStep(s, pe, index, begin, data, t)
    ensures Counts(t)
  {
    hide Counts, ClosedPeer, Taken, Agree, Shape;
    if ClosedPeer(s, pe, t) { ClosedCounts(s, pe, t); return; }
    if t == s { return; }
    TakenCounts(s, pe, FindBlock(s.lengths[index], begin, |data|).value, data, t);
  }

  lemma TakenCounts(s: State, pe: Peer, b: Block, data: bytes, t: State)
    requires Counts(s) && Taken(s, pe, b, data, t)
    ensures Counts(t)
  {
    hide Counts, Finished;
    var d := PD.Receive(s.downloaders[pe], b, data).0;
    if d.Done() {
      QuietCounts(s, SetDownloader(s, pe, d));
      FinishedCounts(SetDownloader(s, pe, d), pe, t);
    } else {
      QuietCounts(s, t);
    }
  }

  lemma FinishedCounts(s: State, pe: Peer, t: State)
    requires Counts(s) && Finished(s, pe, t)
    ensures Counts(t)
  {
    hide Counts, AskedFor, Steady;
    var d := s.downloaders[pe];
    var c := CloseDownloader(s, pe);
    var n := MarkWriting(c, d.piece);
    var u: State :| AskedFor(n, pe, u) && t == u.(suspended := true, writer := Some(Write(d.piece, pe, d.buffer)));
    CloseDownloaderSteady(s, pe);
    SteadyCounts(s, c);
    QuietCounts(c, n);
    AskedForSteady(n, pe, u);
    SteadyCounts(n, u);
    QuietCounts(u, t);
  }

  lemma WriteDoneCounts(s: State, hashOK: bool, failed: bool, stop: bool, t: State)
    requires Counts(s) && Agree(s) && Shape(s) && WriteDoneStep(s, hashOK, failed, stop, t)
    ensures Counts(t)
  {
    hide Counts, ClosedPeer, StartAll, CancelEach, Finish, Steady, Agree, Shape;
    var w, u := s.writer.value, Unmark(s);
    QuietCounts(s, u);
    if !hashOK {
      var m: State :| ClosedPeer(u, w.source, m) && StartAll(m, t);
      UnmarkShape(s);
      ClosedCounts(u, w.source, m);
      StartAllSteady(m, t);
      SteadyCounts(m, t);
    } else if failed {
      StoppedCounts(u, t);
    } else {
      var v := MarkDone(u, w.piece);
      var m: State :| CancelEach(v, w.piece, RequestedPeers(v, w.piece), m) && t == Finish(m, stop);
      QuietCounts(u, v);
      CancelEachSteady(v, w.piece, RequestedPeers(v, w.piece), m);
      SteadyCounts(v, m);
      FinishSteady(m, stop);
      SteadyCounts(m, t);
    }
  }

  lemma UnmarkShape(s: State)
    requires s.writer.Some? && Agree(s) && Shape(s)
    ensures Agree(Unmark(s)) && Shape(Unmark(s))
  {
    var t := Unmark(s);
    forall q | q in t.downloaders ensures DownloaderOk(t, q) { assert DownloaderOk(s, q); }
    assert forall i, q :: 0 <= i < s.N() ==> (Downloads(t, q, i) <==> Downloads(s, q, i));
  }

  lemma StoppedCounts(s: State, t: State)
    requires StoppedAs(s, t)
    ensures Counts(t)
  {
  }

  lemma OpenedCounts(s: State, t: State)
    requires Counts(s) && OpenedAs(s, t)
    ensures Counts(t)
  {
    hide StartAll, Counts, Steady;
    var dialled: set<Peer> :|
      dialled !! s.peers.Keys && (s.completed ==> dialled == {}) && StartAll(WithPeers(s, dialled), t);
    WithPeersSteady(s, dialled);
    StartAllSteady(WithPeers(s, dialled), t);
    SteadyTwice(s, WithPeers(s, dialled), t);
    SteadyCounts(s, t);
  }

  lemma NotifyCounts(s: State, pe: Peer, t: State)
    requires Counts(s) && Started(Grant(s, pe), pe, t)
    ensures Counts(t)
  {
    hide Started, Counts, Steady;
    QuietCounts(s, Grant(s, pe));
    StartedSteady(Grant(s, pe), pe, t);
    SteadyCounts(Grant(s, pe), t);
  }

  lemma IncomingCounts(s: State, pe: Peer)
    requires Counts(s) && pe !in s.peers
    ensures Counts(WithPeers(s, {pe}))
  {
    hide Counts, Steady;
    WithPeersSteady(s, {pe});
    SteadyCounts(s, WithPeers(s, {pe}));
  }

  lemma StepCounts(s: State, e: Event, t: State)
    requires Inv(s) && Counts(s) && Step(s, e, t)
    ensures Counts(t)
  {
    hide MessageStep, PieceStep, WriteDoneStep, Started, ClosedPeer, StoppedAs, OpenedAs, Counts, Agree, Shape;
    match e
    case PeerMessage(pe, m) => MessageCounts(s, pe, m, t);
    case PieceMessage(pe, index, begin, data) => PieceCounts(s, pe, index, begin, data, t);
    case WriteDone(hashOK, failed, stop) => WriteDoneCounts(s, hashOK, failed, stop, t);
    case RamNotify(pe) => NotifyCounts(s, pe, t);
    case Disconnected(pe) => ClosedCounts(s, pe, t);
    case Incoming(pe) => IncomingCounts(s, pe);
    case StopCommand => if s.running { StoppedCounts(s, t); }
    case Opened => OpenedCounts(s, t);
  }

  // ---- whole runs

  lemma {:induction false} EpochCounts(start: State, stop: bool, states: seq<State>, events: seq<Event>, k: nat)
    requires Epoch(start, stop, states, events) && k <= |events|
    requires forall pe, i: nat :: pe in start.peers ==> !HasBit(start, pe, i)
    ensures Counts(states[k])
  {
    hide Inv, Sound, Finish, Step, Counts;
    if k == 0 {
      CountsAtStart(start, stop);
    } else {
      EpochCounts(start, stop, states, events, k - 1);
      EpochSafe(start, stop, states, events, k - 1);
      StepCounts(states[k - 1], events[k - 1], states[k]);
    }
  }

  lemma CountsAtStart(start: State, stop: bool)
    requires Prepared(start) && forall pe, i: nat :: pe in start.peers ==> !HasBit(start, pe, i)
    ensures Counts(Finish(start, stop))
  {
    FinishSteady(start, stop);
    assert Counts(start);
    hide Finish, Counts, Steady;
    SteadyCounts(start, Finish(start, stop));
  }

  /** In every state of every run that begins with empty bitfields, the picker counts a
      connected peer among those that have piece i exactly when the peer has announced it. */
  lemma HavingOfRun(start: State, stop: bool, states: seq<State>, events: seq<Event>, k: nat, pe: Peer, i: nat)
    requires Epoch(start, stop, states, events) && k <= |events|
    requires forall q, j: nat :: q in start.peers ==> !HasBit(start, q, j)
    requires pe in states[k].connected && states[k].picker.Some? && i < |states[k].picker.value.pieces|
    ensures pe in states[k].picker.value.pieces[i].having.live <==>
            Announced(events, Picking(states), k, pe, states[0].N(), i)
  {
    hide Epoch, Announced, Announces;
    EpochCounts(start, stop, states, events, k);
    EpochSafe(start, stop, states, events, k);
    RunLength(start, stop, states, events);
    assert Counted(states[k], states[k].picker.value, pe, i);
    ShapeOf(states[k]);
    EpochLengths(start, stop, states, events, k);
    PiecesOfRun(start, stop, states, events, k, pe, i);
    NoBitAtStart(start, stop, states, events, pe, i);
  }

  lemma ShapeOf(s: State)
    requires Safe(s)
    ensures s.connected <= s.peers.Keys && (s.picker.Some? ==> |s.picker.value.pieces| == s.N())
    ensures forall pe :: pe in s.peers ==> |s.peers[pe].bitfield| == s.N()
  {
  }

  lemma NoBitAtStart(start: State, stop: bool, states: seq<State>, events: seq<Event>, pe: Peer, i: nat)
    requires Epoch(start, stop, states, events)
    requires forall q, j: nat :: q in start.peers ==> !HasBit(start, q, j)
    ensures !HasBit(states[0], pe, i)
  {
    FinishKept(start, stop);
    hide Finish;
    if pe in states[0].peers {
      assert Alike(Of(start, pe), states[0].peers[pe]);
      assert pe in start.peers ==> !HasBit(start, pe, i);
    }
  }

  lemma EpochLengths(start: State, stop: bool, states: seq<State>, events: seq<Event>, k: nat)
    requires Epoch(start, stop, states, events) && k <= |events|
    ensures states[k].N() == states[0].N()
  {
    hide Step, Prepared, Finish, Recorded;
    forall q: nat | q + 1 < |states| ensures states[q + 1].lengths == states[q].lengths {
      RecordedInRun(start, stop, states, events, q);
      RecordedLengths(states[q], events[q], states[q + 1]);
    }
    SameN(states, k);
  }
}
