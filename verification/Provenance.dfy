/** Where the bytes of a piece come from that is handed to the writer: every block of it was
    received, from the peer the piece is charged to, in a Piece message of this run. */
module Provenance {
  import opened Common
  import opened Blocks
  import opened PeerSets
  import opened Engine
  import opened EventLoop
  import PD = PieceDownloaders
  import RM = ResourceManagers

  type Table = map<Peer, PD.Downloader>

  /** The same blocks of the same piece have arrived. */
  ghost predicate SameData(d: PD.Downloader, e: PD.Downloader) {
    e.piece == d.piece && e.length == d.length && e.done == d.done && e.buffer == d.buffer
  }

  /** A downloader of n has received nothing yet, or goes on from m. */
  ghost predicate Goes(m: Table, n: Table, pe: Peer) {
    pe in n ==> n[pe].done == {} || (pe in m && SameData(m[pe], n[pe]))
  }

  ghost predicate NothingNew(m: Table, n: Table) {
    forall pe :: Goes(m, n, pe)
  }

  lemma NothingNewTwice(m: Table, n: Table, o: Table)
    requires NothingNew(m, n) && NothingNew(n, o)
    ensures NothingNew(m, o)
  {
    forall pe ensures Goes(m, o, pe) { assert Goes(m, n, pe) && Goes(n, o, pe); }
  }

  lemma Subset(m: Table, n: Table)
    requires forall pe :: pe in n ==> pe in m && n[pe] == m[pe]
    ensures NothingNew(m, n)
  {
  }

  // ---- the steps handlers share

  lemma RequestData(d: PD.Downloader, q: int)
    requires d.Valid()
    ensures SameData(d, PD.Request(d, q).0)
  {
    PD.RequestCorrect(d, q);
  }

  lemma BeginNothing(s: State, pe: Peer, i: nat, fast: bool, e: bool, buffer: bytes)
    requires pe in s.peers && s.picker.Some? && i < s.N()
    ensures NothingNew(s.downloaders, Begin(s, pe, i, fast, e, buffer).downloaders)
  {
    RequestData(PD.New(i, s.lengths[i], fast, Buffer(buffer, s.lengths[i])), MaxAllowedRequests(s, s.peers[pe]));
  }

  lemma StartedNothing(s: State, pe: Peer, t: State)
    requires Started(s, pe, t)
    ensures NothingNew(s.downloaders, t.downloaders)
  {
    if s.Status() == Downloading {
      var c :| StartedAs(s, pe, c, t);
      if c.r.Some? { BeginNothing(s, pe, c.r.value, c.fast, c.endgame, c.buffer); }
    }
  }

  lemma AskedForNothing(s: State, pe: Peer, t: State)
    requires AskedFor(s, pe, t)
    ensures NothingNew(s.downloaders, t.downloaders)
  {
    hide Started;
    if s.Status() == Downloading && t != Acquire(s, pe, false) { StartedNothing(Acquire(s, pe, true), pe, t); }
  }

  lemma {:induction false} StartEachNothing(s: State, order: seq<Peer>, t: State)
    requires StartEach(s, order, t)
    ensures NothingNew(s.downloaders, t.downloaders)
  {
    if order != [] {
      hide AskedFor, NothingNew;
      var front, last := order[..|order| - 1], order[|order| - 1];
      var m :| StartEach(s, front, m) && StartOne(m, last, t);
      StartEachNothing(s, front, m);
      if t != m {
        AskedForNothing(m, last, t);
        NothingNewTwice(s.downloaders, m.downloaders, t.downloaders);
      }
    }
  }

  lemma StartAllNothing(s: State, t: State)
    requires StartAll(s, t)
    ensures NothingNew(s.downloaders, t.downloaders)
  {
    if s.Status() == Downloading {
      hide NothingNew;
      var order: seq<Peer> :| Enumerates(order, s.connected) && StartEach(s, order, t);
      StartEachNothing(s, order, t);
    }
  }

  lemma {:induction false} CancelEachNothing(s: State, i: nat, order: seq<Peer>, t: State)
    requires CancelEach(s, i, order, t)
    ensures NothingNew(s.downloaders, t.downloaders)
  {
    if order != [] {
      hide AskedFor, NothingNew, Downloads;
      var front, last := order[..|order| - 1], order[|order| - 1];
      var m :| CancelEach(s, i, front, m) && Downloads(m, last, i)
          && AskedFor(CloseDownloader(m, last), last, t);
      var c := CloseDownloader(m, last);
      CancelEachNothing(s, i, front, m);
      Subset(m.downloaders, c.downloaders);
      AskedForNothing(c, last, t);
      NothingNewTwice(m.downloaders, c.downloaders, t.downloaders);
      NothingNewTwice(s.downloaders, m.downloaders, t.downloaders);
    }
  }

  // ---- what was received

  /** One of the first k events brought these bytes, of that piece, from pe. */
  ghost predicate Came(events: seq<Event>, k: nat, pe: Peer, piece: nat, begin: nat, data: bytes)
    requires k <= |events|
  {
    exists l :: 0 <= l < k && events[l] == PieceMessage(pe, piece, begin, data)
  }

  /** Block i as it stands in the buffer came from pe. */
  ghost predicate BlockCame(events: seq<Event>, k: nat, pe: Peer, piece: nat, buffer: bytes, i: nat)
    requires k <= |events|
  {
    match GetBlock(|buffer|, i)
    case None => false
    case Some(b) =>
      b.begin + b.length <= |buffer| && Came(events, k, pe, piece, b.begin, buffer[b.begin..b.begin + b.length])
  }

  ghost predicate DownloadCame(events: seq<Event>, k: nat, pe: Peer, d: PD.Downloader)
    requires k <= |events|
  {
    forall i :: i in d.done ==> BlockCame(events, k, pe, d.piece, d.buffer, i)
  }

  ghost predicate WriteCame(events: seq<Event>, k: nat, w: Write)
    requires k <= |events|
  {
    forall i: nat :: i < NumBlocks(|w.buffer|) ==> BlockCame(events, k, w.source, w.piece, w.buffer, i)
  }

  ghost predicate AllCame(events: seq<Event>, k: nat, s: State)
    requires k <= |events|
  {
    && (forall pe :: pe in s.downloaders ==> DownloadCame(events, k, pe, s.downloaders[pe]))
    && (s.writer.Some? ==> WriteCame(events, k, s.writer.value))
  }

  lemma CameOn(events: seq<Event>, k: nat, pe: Peer, piece: nat, buffer: bytes, i: nat)
    requires k < |events| && BlockCame(events, k, pe, piece, buffer, i)
    ensures BlockCame(events, k + 1, pe, piece, buffer, i)
  {
  }

  lemma DownloadCameOn(events: seq<Event>, k: nat, pe: Peer, d: PD.Downloader)
    requires k < |events| && DownloadCame(events, k, pe, d)
    ensures DownloadCame(events, k + 1, pe, d)
  {
    hide BlockCame;
    forall i | i in d.done ensures BlockCame(events, k + 1, pe, d.piece, d.buffer, i) {
      CameOn(events, k, pe, d.piece, d.buffer, i);
    }
  }

  lemma WriteCameOn(events: seq<Event>, k: nat, w: Write)
    requires k < |events| && WriteCame(events, k, w)
    ensures WriteCame(events, k + 1, w)
  {
    hide BlockCame;
    var z := k + 1;
    forall i: nat | i < NumBlocks(|w.buffer|) ensures BlockCame(events, z, w.source, w.piece, w.buffer, i) {
      CameOn(events, k, w.source, w.piece, w.buffer, i);
    }
  }

  lemma AllCameOn(events: seq<Event>, k: nat, s: State)
    requires k < |events| && AllCame(events, k, s)
    ensures AllCame(events, k + 1, s)
  {
    hide DownloadCame, WriteCame;
    forall pe | pe in s.downloaders ensures DownloadCame(events, k + 1, pe, s.downloaders[pe]) {
      DownloadCameOn(events, k, pe, s.downloaders[pe]);
    }
    if s.writer.Some? { WriteCameOn(events, k, s.writer.value); }
  }

  lemma NothingCame(events: seq<Event>, k: nat, s: State, t: State)
    requires k <= |events| && AllCame(events, k, s) && NothingNew(s.downloaders, t.downloaders)
    requires t.writer.None? || t.writer == s.writer
    ensures AllCame(events, k, t)
  {
    hide BlockCame;
    forall pe | pe in t.downloaders ensures DownloadCame(events, k, pe, t.downloaders[pe]) {
      assert Goes(s.downloaders, t.downloaders, pe);
    }
  }

  // ---- a block arrives

  lemma ReceivedBlock(events: seq<Event>, k: nat, pe: Peer, d: PD.Downloader, b: Block, data: bytes)
    requires k < |events| && events[k] == PieceMessage(pe, d.piece, b.begin, data)
    requires d.Valid() && PD.Enabled(d, PD.OpGot(b, data)) && DownloadCame(events, k + 1, pe, d)
    ensures DownloadCame(events, k + 1, pe, PD.Receive(d, b, data).0)
  {
    hide PD.Downloader.Valid;
    PD.ReceiveExact(d, b, data);
    PD.ValidBuffer(d);
    var e := PD.Receive(d, b, data).0;
    if b.index in d.done { return; }
    hide PD.Receive;
    forall i | i in e.done ensures BlockCame(events, k + 1, pe, e.piece, e.buffer, i) {
      if i == b.index {
        assert Came(events, k + 1, pe, d.piece, b.begin, data);
        NewBlock(d, b, data);
      } else {
        OldBlock(events, k, pe, d, b, data, i);
      }
    }
  }

  lemma NewBlock(d: PD.Downloader, b: Block, data: bytes)
    requires |d.buffer| == d.length && PD.Enabled(d, PD.OpGot(b, data)) && b.begin + b.length <= d.length
    ensures Splice(d.buffer, b.begin, data)[b.begin..b.begin + b.length] == data
  {
  }

  lemma OldBlock(events: seq<Event>, k: nat, pe: Peer, d: PD.Downloader, b: Block, data: bytes, i: nat)
    requires k < |events| && d.Valid() && PD.Enabled(d, PD.OpGot(b, data)) && b.index !in d.done && i != b.index
    requires BlockCame(events, k + 1, pe, d.piece, d.buffer, i)
    ensures BlockCame(events, k + 1, pe, d.piece, PD.Receive(d, b, data).0.buffer, i)
  {
    PD.ReceiveExact(d, b, data);
    PD.GotKeepsOtherBlocks(d, b, data, i);
  }

  lemma AllDone(d: PD.Downloader)
    requires d.Valid() && d.Done()
    ensures forall i: nat :: i < d.N() ==> i in d.done
  {
    var all := UpTo(d.N());
    assert d.done <= all;
    SubsetCardinality(d.done, all);
  }

  lemma FinishedCame(events: seq<Event>, k: nat, s: State, pe: Peer, t: State)
    requires k <= |events| && AllCame(events, k, s) && Finished(s, pe, t)
    requires s.downloaders[pe].Valid() && s.downloaders[pe].Done()
    ensures AllCame(events, k, t)
  {
    hide BlockCame, AskedFor, NothingNew, DownloadCame;
    var d := s.downloaders[pe];
    var n := MarkWriting(CloseDownloader(s, pe), d.piece);
    var u: State :| AskedFor(n, pe, u) && t == u.(suspended := true, writer := Some(Write(d.piece, pe, d.buffer)));
    Subset(s.downloaders, n.downloaders);
    AskedForNothing(n, pe, u);
    NothingNewTwice(s.downloaders, n.downloaders, t.downloaders);
    NothingCame(events, k, s, t.(writer := None));
    WholeCame(events, k, pe, d);
  }

  lemma WholeCame(events: seq<Event>, k: nat, pe: Peer, d: PD.Downloader)
    requires k <= |events| && DownloadCame(events, k, pe, d) && d.Valid() && d.Done()
    ensures WriteCame(events, k, Write(d.piece, pe, d.buffer))
  {
    hide BlockCame;
    AllDone(d);
  }

  lemma TakenCame(events: seq<Event>, k: nat, s: State, b: Block, t: State)
    requires k < |events| && events[k].PieceMessage? && AllCame(events, k + 1, s) && Sound(s)
    requires var e := events[k];
             Taken(s, e.pe, b, e.data, t) && s.downloaders[e.pe].piece == e.index && b.begin == e.begin
    ensures AllCame(events, k + 1, t)
  {
    hide Finished, PD.Receive, PD.Request, DownloadCame, WriteCame, Sound;
    var pe, data := events[k].pe, events[k].data;
    SoundDownloader(s, pe);
    ReceivedBlock(events, k, pe, s.downloaders[pe], b, data);
    ReceivedSound(s, pe, b, data);
    var d := PD.Receive(s.downloaders[pe], b, data).0;
    var r := SetDownloader(s, pe, d);
    assert AllCame(events, k + 1, r);
    if d.Done() {
      FinishedCame(events, k + 1, r, pe, t);
    } else if t != r {
      RequestData(d, MaxAllowedRequests(s, s.peers[pe]));
      OneGoes(r, pe, t);
      NothingCame(events, k + 1, r, t);
    }
  }

  lemma OneGoes(s: State, pe: Peer, t: State)
    requires pe in s.downloaders && pe in t.downloaders && SameData(s.downloaders[pe], t.downloaders[pe])
    requires t.downloaders == s.downloaders[pe := t.downloaders[pe]]
    ensures NothingNew(s.downloaders, t.downloaders)
  {
  }

  lemma SoundDownloader(s: State, pe: Peer)
    requires Sound(s) && pe in s.downloaders
    ensures SoundOne(s.downloaders[pe], s.lengths)
  {
  }

  lemma PieceCame(events: seq<Event>, k: nat, s: State, t: State)
    requires k < |events| && events[k].PieceMessage? && AllCame(events, k + 1, s) && Sound(s)
    requires var e := events[k]; PieceStep(s, e.pe, e.index, e.begin, e.data, t)
    ensures AllCame(events, k + 1, t)
  {
    hide ClosedPeer, Taken, AllCame, Sound;
    var e := events[k];
    if ClosedPeer(s, e.pe, t) {
      ClosedPeerFrame(s, e.pe, t);
      Subset(s.downloaders, t.downloaders);
      NothingCame(events, k + 1, s, t);
    } else if t != s {
      var b := FindBlock(s.lengths[e.index], e.begin, |e.data|).value;
      FindBlockExact(s.lengths[e.index], e.begin, |e.data|, b);
      TakenCame(events, k, s, b, t);
    }
  }

  // ---- messages and the rest bring no bytes

  lemma {:induction false} HaveEachNothing(s: State, pe: Peer, bits: seq<bool>)
    ensures HaveEach(s, pe, bits).downloaders == s.downloaders
  {
    if bits != [] { HaveEachNothing(s, pe, bits[..|bits| - 1]); }
  }

  lemma OfferNothing(s: State, h: State, pe: Peer, t: State)
    requires h.downloaders == s.downloaders && AskedFor(Interest(h, pe), pe, t)
    ensures NothingNew(s.downloaders, t.downloaders)
  {
    hide AskedFor, NothingNew;
    AskedForNothing(Interest(h, pe), pe, t);
  }

  lemma ChokeNothing(s: State, pe: Peer, t: State)
    requires MessageStep(s, pe, ChokeMessage, t)
    ensures NothingNew(s.downloaders, t.downloaders)
  {
    hide StartAll;
    var u := SetPeer(s, pe, s.peers[pe].(peerChoking := true));
    if pe in s.downloaders && !s.downloaders[pe].allowedFast {
      var order: seq<nat> :| PD.Enumerates(order, s.downloaders[pe].pending) && StartAll(Choked(u, pe, order), t);
      OneGoes(s, pe, Choked(u, pe, order));
      StartAllNothing(Choked(u, pe, order), t);
      NothingNewTwice(s.downloaders, Choked(u, pe, order).downloaders, t.downloaders);
    }
  }

  lemma UnchokeNothing(s: State, pe: Peer, t: State)
    requires Sound(s) && MessageStep(s, pe, UnchokeMessage, t)
    ensures NothingNew(s.downloaders, t.downloaders)
  {
    hide AskedFor, PD.Request, NothingNew, Sound;
    var u := SetPeer(s, pe, s.peers[pe].(peerChoking := false));
    if pe !in u.downloaders {
      AskedForNothing(u, pe, t);
    } else if u.downloaders[pe].allowedFast {
      Subset(s.downloaders, t.downloaders);
    } else {
      SoundDownloader(s, pe);
      RequestData(s.downloaders[pe], MaxAllowedRequests(u, u.peers[pe]));
      OneGoes(s, pe, t);
    }
  }

  lemma MessageNothing(s: State, pe: Peer, m: Message, t: State)
    requires Sound(s) && MessageStep(s, pe, m, t)
    ensures NothingNew(s.downloaders, t.downloaders)
  {
    hide AskedFor, ClosedPeer, HaveOne, HaveEach, Interest, StartAll, NothingNew, Sound;
    if ClosedPeer(s, pe, t) {
      ClosedPeerFrame(s, pe, t);
      Subset(s.downloaders, t.downloaders);
      return;
    }
    match m
    case HaveMessage(i) =>
      OneNothing(s, pe, i);
      OfferNothing(s, HaveOne(s, pe, i), pe, t);
    case BitfieldMessage(size, bits) =>
      if size == 0 { Subset(s.downloaders, t.downloaders); return; }
      HaveEachNothing(s, pe, bits);
      OfferNothing(s, HaveEach(s, pe, bits), pe, t);
    case HaveAllMessage =>
      HaveEachNothing(s, pe, seq(s.N(), _ => true));
      OfferNothing(s, HaveEach(s, pe, seq(s.N(), _ => true)), pe, t);
    case UnchokeMessage => UnchokeNothing(s, pe, t);
    case ChokeMessage => ChokeNothing(s, pe, t);
    case RejectMessage(index, begin, length) =>
      if t == s { Subset(s.downloaders, t.downloaders); } else { OneGoes(s, pe, t); }
    case PortMessage(_) =>
    case _ => Subset(s.downloaders, t.downloaders);
  }

  lemma OneNothing(s: State, pe: Peer, i: nat)
    ensures HaveOne(s, pe, i).downloaders == s.downloaders
  {
  }

  lemma WriteDoneNothing(s: State, hashOK: bool, failed: bool, stop: bool, t: State)
    requires WriteDoneStep(s, hashOK, failed, stop, t)
    ensures NothingNew(s.downloaders, t.downloaders) && t.writer.None?
  {
    hide ClosedPeer, StartAll, CancelEach, StoppedAs, NothingNew;
    var w, u := s.writer.value, Unmark(s);
    if !hashOK {
      var m: State :| ClosedPeer(u, w.source, m) && StartAll(m, t);
      ClosedPeerFrame(u, w.source, m);
      Subset(s.downloaders, m.downloaders);
      StartAllNothing(m, t);
      StartAllFrame(m, t);
      NothingNewTwice(s.downloaders, m.downloaders, t.downloaders);
    } else if failed {
      StoppedNothing(u, t);
    } else {
      var v := MarkDone(u, w.piece);
      var m: State :| CancelEach(v, w.piece, RequestedPeers(v, w.piece), m) && t == Finish(m, stop);
      CancelEachNothing(v, w.piece, RequestedPeers(v, w.piece), m);
      CancelEachWriter(v, w.piece, RequestedPeers(v, w.piece), m);
      FinishNothing(m, stop);
      NothingNewTwice(s.downloaders, m.downloaders, t.downloaders);
    }
  }

  lemma {:induction false} CancelEachWriter(s: State, i: nat, order: seq<Peer>, t: State)
    requires CancelEach(s, i, order, t)
    ensures t.writer == s.writer
  {
    if order != [] {
      hide AskedFor;
      var front, last := order[..|order| - 1], order[|order| - 1];
      var m :| CancelEach(s, i, front, m) && Downloads(m, last, i) && AskedFor(CloseDownloader(m, last), last, t);
      CancelEachWriter(s, i, front, m);
      AskedForFrame(CloseDownloader(m, last), last, t);
    }
  }

  lemma FinishNothing(s: State, stop: bool)
    ensures NothingNew(s.downloaders, Finish(s, stop).downloaders) && Finish(s, stop).writer == s.writer
  {
  }

  lemma StoppedNothing(s: State, t: State)
    requires StoppedAs(s, t)
    ensures NothingNew(s.downloaders, t.downloaders) && t.writer == s.writer
  {
  }

  lemma OpenedNothing(s: State, t: State)
    requires OpenedAs(s, t)
    ensures NothingNew(s.downloaders, t.downloaders) && t.writer == s.writer
  {
    hide StartAll;
    var dialled: set<Peer> :|
      dialled !! s.peers.Keys && (s.completed ==> dialled == {}) && StartAll(WithPeers(s, dialled), t);
    StartAllNothing(WithPeers(s, dialled), t);
    StartAllFrame(WithPeers(s, dialled), t);
  }

  lemma NotifyNothing(s: State, pe: Peer, t: State)
    requires Started(Grant(s, pe), pe, t)
    ensures NothingNew(s.downloaders, t.downloaders) && t.writer == s.writer
  {
    hide Started;
    StartedNothing(Grant(s, pe), pe, t);
    StartedFrame(Grant(s, pe), pe, t);
  }

  lemma OtherNothing(s: State, e: Event, t: State)
    requires Sound(s) && Step(s, e, t) && !e.PieceMessage?
    ensures NothingNew(s.downloaders, t.downloaders) && (t.writer.None? || t.writer == s.writer)
  {
    hide MessageStep, WriteDoneStep, Started, ClosedPeer, StoppedAs, OpenedAs, Sound, NothingNew;
    match e
    case PeerMessage(pe, m) =>
      MessageNothing(s, pe, m, t);
      MessageFrame(s, pe, m, t);
    case WriteDone(hashOK, failed, stop) => WriteDoneNothing(s, hashOK, failed, stop, t);
    case RamNotify(pe) => NotifyNothing(s, pe, t);
    case Disconnected(pe) =>
      ClosedPeerFrame(s, pe, t);
      Subset(s.downloaders, t.downloaders);
    case Incoming(pe) => Subset(s.downloaders, t.downloaders);
    case StopCommand => if s.running { StoppedNothing(s, t); } else { Subset(s.downloaders, t.downloaders); }
    case Opened => OpenedNothing(s, t);
  }

  lemma StepCame(events: seq<Event>, k: nat, s: State, t: State)
    requires k < |events| && Sound(s) && AllCame(events, k, s) && Step(s, events[k], t)
    ensures AllCame(events, k + 1, t)
  {
    hide MessageStep, PieceStep, WriteDoneStep, Started, ClosedPeer, StoppedAs, OpenedAs, Sound, NothingNew, AllCame;
    AllCameOn(events, k, s);
    if events[k].PieceMessage? {
      PieceCame(events, k, s, t);
    } else {
      OtherNothing(s, events[k], t);
      NothingCame(events, k + 1, s, t);
    }
  }

  // ---- whole runs

  lemma {:induction false} EpochCame(start: State, stop: bool, states: seq<State>, events: seq<Event>, k: nat)
    requires Epoch(start, stop, states, events) && k <= |events|
    ensures AllCame(events, k, states[k])
  {
    hide Inv, Sound, Finish, Step, AllCame;
    if k == 0 {
      CameAtStart(start, stop, events);
    } else {
      EpochCame(start, stop, states, events, k - 1);
      EpochSafe(start, stop, states, events, k - 1);
      StepCame(events, k - 1, states[k - 1], states[k]);
    }
  }

  lemma CameAtStart(start: State, stop: bool, events: seq<Event>)
    requires Prepared(start)
    ensures AllCame(events, 0, Finish(start, stop))
  {
  }

  /** In every state of every run, each block of a piece that is being written was received from
      the peer it is charged to, in a message that names this piece and the block's place. */
  lemma WrittenOfRun(start: State, stop: bool, states: seq<State>, events: seq<Event>, k: nat, i: nat)
    requires Epoch(start, stop, states, events) && k <= |events| && |states| == |events| + 1
    requires states[k].writer.Some? && i < NumBlocks(|states[k].writer.value.buffer|)
    ensures var w := states[k].writer.value;
            var b := GetBlock(|w.buffer|, i).value;
            && w.piece < states[k].N() && |w.buffer| == states[k].lengths[w.piece]
            && b.begin + b.length <= |w.buffer|
            && exists l :: 0 <= l < k &&
                 events[l] == PieceMessage(w.source, w.piece, b.begin, w.buffer[b.begin..b.begin + b.length])
  {
    hide Epoch;
    EpochSafe(start, stop, states, events, k);
    EpochCame(start, stop, states, events, k);
    var w := states[k].writer.value;
    assert BlockCame(events, k, w.source, w.piece, w.buffer, i);
  }
}
