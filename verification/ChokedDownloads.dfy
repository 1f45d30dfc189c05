/** Downloads from peers that choke us: none but an allowed-fast one begins, and one that
    is interrupted is marked as choked in the picker for as long as the choke lasts. */
module ChokedDownloads {
  import opened Common
  import opened Blocks
  import opened PeerSets
  import opened Pickers
  import opened Engine
  import opened EventLoop
  import opened PeerRecords
  import PD = PieceDownloaders
  import RM = ResourceManagers

  /** A download of an ordinary piece, from a peer that is choking us. */
  ghost predicate Interrupted(s: State, pe: Peer) {
    pe in s.downloaders && pe in s.peers && !s.downloaders[pe].allowedFast && s.peers[pe].peerChoking
  }

  /** The picker counts pe among the choked peers of the piece it downloads. */
  ghost predicate Noted(s: State, pe: Peer) {
    && pe in s.downloaders && s.picker.Some? && s.downloaders[pe].piece < |s.picker.value.pieces|
    && pe in s.picker.value.pieces[s.downloaders[pe].piece].choked.live
  }

  /** What a download that is interrupted in t was in s. */
  ghost predicate Carried(s: State, pe: Peer, t: State) {
    && Interrupted(s, pe) && Interrupted(t, pe)
    && t.downloaders[pe].piece == s.downloaders[pe].piece
    && t.downloaders[pe].pending <= s.downloaders[pe].pending
    && t.peers[pe].fastEnabled == s.peers[pe].fastEnabled
    && (Noted(s, pe) ==> Noted(t, pe))
  }

  /** A download marked as allowed-fast, of a piece that the peer did not allow. */
  ghost predicate Unlisted(s: State, pe: Peer) {
    && pe in s.downloaders && pe in s.peers && s.downloaders[pe].allowedFast
    && s.downloaders[pe].piece !in s.peers[pe].allowedFast
  }

  ghost predicate Calm(s: State, t: State) {
    && (forall pe :: Interrupted(t, pe) ==> Carried(s, pe, t))
    && (forall pe :: Unlisted(t, pe) ==> Unlisted(s, pe))
  }

  lemma CalmTwice(s: State, m: State, t: State)
    requires Calm(s, m) && Calm(m, t)
    ensures Calm(s, t)
  {
    forall pe | Interrupted(t, pe) ensures Carried(s, pe, t) {
      assert Carried(m, pe, t) && Carried(s, pe, m);
    }
  }

  lemma CalmSelf(s: State)
    ensures Calm(s, s)
  {
  }

  ghost predicate SameChoked(p: Picker, q: Picker) {
    && |q.pieces| == |p.pieces|
    && forall i :: 0 <= i < |p.pieces| ==> q.pieces[i].choked == p.pieces[i].choked
  }

  /** Downloaders may go, and no record of a choke does. */
  lemma FewerCalm(s: State, t: State)
    requires forall pe :: pe in t.downloaders ==> pe in s.downloaders && t.downloaders[pe] == s.downloaders[pe]
    requires forall pe :: pe in t.downloaders && pe in t.peers ==> pe in s.peers && Alike(s.peers[pe], t.peers[pe])
    requires s.picker.Some? && t.picker.Some? ==> SameChoked(s.picker.value, t.picker.value)
    requires t.downloaders != map[] && s.picker.Some? ==> t.picker.Some?
    ensures Calm(s, t)
  {
  }

  // ---- the steps handlers share

  lemma BegunDownloader(i: nat, length: nat, fast: bool, buffer: bytes, q: int)
    requires |buffer| == length
    ensures var d := PD.Request(PD.New(i, length, fast, buffer), q).0; d.allowedFast == fast && d.piece == i
  {
    PD.RequestCorrect(PD.New(i, length, fast, buffer), q);
  }

  /** Only pe gets a downloader, and that is not an interrupted one. */
  lemma OneMoreCalm(s: State, pe: Peer, t: State)
    requires !Interrupted(t, pe) && !Unlisted(t, pe)
    requires forall q :: q in t.downloaders && q != pe ==> q in s.downloaders && t.downloaders[q] == s.downloaders[q]
    requires forall q :: q in t.peers && q != pe ==> q in s.peers && t.peers[q] == s.peers[q]
    requires s.picker.Some? && t.picker.Some? && SameChoked(s.picker.value, t.picker.value)
    ensures Calm(s, t)
  {
  }

  lemma BeginCalm(s: State, pe: Peer, i: nat, fast: bool, e: bool, buffer: bytes)
    requires pe in s.peers && s.picker.Some? && i < s.N()
    requires (s.peers[pe].peerChoking ==> fast) && (fast ==> i in s.peers[pe].allowedFast)
    ensures Calm(s, Begin(s, pe, i, fast, e, buffer))
  {
    var t := Begin(s, pe, i, fast, e, buffer);
    BegunDownloader(i, s.lengths[i], fast, Buffer(buffer, s.lengths[i]), MaxAllowedRequests(s, s.peers[pe]));
    RequestedChoked(s.picker.value, pe, i, e);
    hide PD.New, PD.Request, Calm, SameChoked, Picked, Buffer, MaxAllowedRequests;
    OneMoreCalm(s, pe, t);
  }

  lemma RequestedChoked(p: Picker, pe: Peer, i: nat, e: bool)
    ensures SameChoked(p, Picked(p, pe, Some(i), e))
  {
  }

  lemma RemovedChoked(p: Picker, pe: Peer, i: nat)
    ensures SameChoked(p, Cancel(p, pe, i)) && SameChoked(p, Disconnect(p, pe))
  {
  }

  lemma StartedCalm(s: State, pe: Peer, t: State)
    requires Started(s, pe, t)
    ensures Calm(s, t)
  {
    if s.Status() == Downloading {
      hide Calm;
      var c :| StartedAs(s, pe, c, t);
      if c.r.Some? {
        FoundSafe(s.picker.value, s.flags, s.peers[pe], pe, c.r.value, c.fast, c.endgame);
        BeginCalm(s, pe, c.r.value, c.fast, c.endgame, c.buffer);
      } else {
        FewerCalm(s, t);
      }
    } else {
      FewerCalm(s, t);
    }
  }

  lemma AskedForCalm(s: State, pe: Peer, t: State)
    requires AskedFor(s, pe, t)
    ensures Calm(s, t)
  {
    hide Calm, Started;
    if s.Status() == Downloading && t != Acquire(s, pe, false) {
      FewerCalm(s, Acquire(s, pe, true));
      StartedCalm(Acquire(s, pe, true), pe, t);
      CalmTwice(s, Acquire(s, pe, true), t);
    } else {
      FewerCalm(s, t);
    }
  }

  lemma {:induction false} StartEachCalm(s: State, order: seq<Peer>, t: State)
    requires StartEach(s, order, t)
    ensures Calm(s, t)
  {
    hide Calm, AskedFor;
    if order == [] {
      CalmSelf(s);
    } else {
      var front, last := order[..|order| - 1], order[|order| - 1];
      var m :| StartEach(s, front, m) && StartOne(m, last, t);
      StartEachCalm(s, front, m);
      if t != m {
        AskedForCalm(m, last, t);
        CalmTwice(s, m, t);
      }
    }
  }

  lemma StartAllCalm(s: State, t: State)
    requires StartAll(s, t)
    ensures Calm(s, t)
  {
    hide Calm;
    if s.Status() == Downloading {
      var order: seq<Peer> :| Enumerates(order, s.connected) && StartEach(s, order, t);
      StartEachCalm(s, order, t);
    } else {
      CalmSelf(s);
    }
  }

  lemma CloseDownloaderCalm(s: State, pe: Peer)
    ensures Calm(s, CloseDownloader(s, pe))
  {
    if pe in s.downloaders && s.picker.Some? { RemovedChoked(s.picker.value, pe, s.downloaders[pe].piece); }
    hide Calm, Cancel, SameChoked;
    if pe in s.downloaders { FewerCalm(s, CloseDownloader(s, pe)); } else { CalmSelf(s); }
  }

  lemma ForgetCalm(s: State, pe: Peer)
    ensures Calm(s, Forget(s, pe))
  {
    if s.picker.Some? { RemovedChoked(s.picker.value, pe, 0); }
    hide Calm, Disconnect, SameChoked;
    FewerCalm(s, Forget(s, pe));
  }

  lemma ClosedCalm(s: State, pe: Peer, t: State)
    requires ClosedPeer(s, pe, t) && s.downloaders.Keys <= s.peers.Keys
    ensures Calm(s, t)
  {
    hide Calm, SameChoked;
    var dialled: set<Peer> :| dialled !! s.peers.Keys && (s.completed ==> dialled == {})
        && t == WithPeers(ClosePeer(s, pe), dialled);
    CloseDownloaderCalm(s, pe);
    ForgetCalm(CloseDownloader(s, pe), pe);
    CalmTwice(s, CloseDownloader(s, pe), ClosePeer(s, pe));
    WithPeersCalm(ClosePeer(s, pe), dialled);
    CalmTwice(s, ClosePeer(s, pe), t);
  }

  lemma WithPeersCalm(s: State, dialled: set<Peer>)
    requires dialled !! s.peers.Keys && s.downloaders.Keys <= s.peers.Keys
    ensures Calm(s, WithPeers(s, dialled))
  {
  }

  lemma {:induction false} CancelEachCalm(s: State, i: nat, order: seq<Peer>, t: State)
    requires CancelEach(s, i, order, t)
    ensures Calm(s, t)
  {
    hide Calm, AskedFor, Downloads;
    if order == [] {
      CalmSelf(s);
    } else {
      var front, last := order[..|order| - 1], order[|order| - 1];
      var m :| CancelEach(s, i, front, m) && Downloads(m, last, i) && AskedFor(CloseDownloader(m, last), last, t);
      CancelEachCalm(s, i, front, m);
      CloseDownloaderCalm(m, last);
      AskedForCalm(CloseDownloader(m, last), last, t);
      CalmTwice(m, CloseDownloader(m, last), t);
      CalmTwice(s, m, t);
    }
  }

  lemma FinishCalm(s: State, stop: bool)
    ensures Calm(s, Finish(s, stop))
  {
  }

  lemma StoppedCalm(s: State, t: State)
    requires StoppedAs(s, t)
    ensures Calm(s, t)
  {
  }

  // ---- messages

  lemma HaveOneCalm(s: State, pe: Peer, i: nat)
    ensures Calm(s, HaveOne(s, pe, i))
  {
  }

  lemma {:induction false} HaveEachCalm(s: State, pe: Peer, bits: seq<bool>)
    ensures Calm(s, HaveEach(s, pe, bits))
  {
    hide Calm, HaveOne;
    if bits == [] {
      CalmSelf(s);
    } else {
      var k := |bits| - 1;
      var m := HaveEach(s, pe, bits[..k]);
      HaveEachCalm(s, pe, bits[..k]);
      HaveOneCalm(m, pe, k);
      if bits[k] { CalmTwice(s, m, HaveOne(m, pe, k)); }
    }
  }

  lemma OfferCalm(s: State, h: State, pe: Peer, t: State)
    requires Calm(s, h) && AskedFor(Interest(h, pe), pe, t)
    ensures Calm(s, t)
  {
    hide Calm, AskedFor;
    InterestCalm(h, pe);
    AskedForCalm(Interest(h, pe), pe, t);
    CalmTwice(s, h, Interest(h, pe));
    CalmTwice(s, Interest(h, pe), t);
  }

  lemma InterestCalm(s: State, pe: Peer)
    ensures Calm(s, Interest(s, pe))
  {
  }

  lemma UnchokeCalm(s: State, pe: Peer, t: State)
    requires MessageStep(s, pe, UnchokeMessage, t)
    ensures Calm(s, t)
  {
    hide Calm, AskedFor;
    var u := SetPeer(s, pe, s.peers[pe].(peerChoking := false));
    ClearedCalm(s, pe);
    if pe !in u.downloaders {
      AskedForCalm(u, pe, t);
    } else if !u.downloaders[pe].allowedFast {
      RequestKeepsPiece(u.downloaders[pe], MaxAllowedRequests(u, u.peers[pe]));
      ResumedCalm(u, pe, t);
    } else {
      CalmSelf(u);
    }
    CalmTwice(s, u, t);
  }

  lemma ClearedCalm(s: State, pe: Peer)
    requires pe in s.peers
    ensures Calm(s, SetPeer(s, pe, s.peers[pe].(peerChoking := false)))
  {
  }

  /** A change to the downloader of a peer that does not choke us. */
  lemma ResumedCalm(s: State, pe: Peer, t: State)
    requires pe in s.peers && !s.peers[pe].peerChoking && pe in t.downloaders
    requires !t.downloaders[pe].allowedFast
    requires t == s.(downloaders := s.downloaders[pe := t.downloaders[pe]], picker := t.picker)
    requires s.picker.Some? == t.picker.Some?
    requires s.picker.Some? ==>
               t.picker.value == s.picker.value || exists i :: t.picker.value == Unchoke(s.picker.value, pe, i)
    ensures Calm(s, t)
  {
    forall q | Interrupted(t, q) ensures Carried(s, q, t) {
      if s.picker.Some? {
        UnchokeKeeps(s.picker.value, t.picker.value, pe, q);
      }
    }
  }

  lemma UnchokeKeeps(p: Picker, r: Picker, pe: Peer, q: Peer)
    requires q != pe && (r == p || exists i :: r == Unchoke(p, pe, i))
    ensures |r.pieces| == |p.pieces|
    ensures forall j :: 0 <= j < |p.pieces| && q in p.pieces[j].choked.live ==> q in r.pieces[j].choked.live
  {
    forall j | 0 <= j < |p.pieces| && q in p.pieces[j].choked.live ensures q in r.pieces[j].choked.live {
      OthersStay(p.pieces[j].choked, pe, q);
    }
  }

  lemma OthersStay(s: Slice, pe: Peer, q: Peer)
    requires q != pe && q in s.live
    ensures q in s.Remove(pe).live
  {
    if pe in s.live {
      var i, n := IndexOf(s.live, pe), |s.live| - 1;
      var j := IndexOf(s.live, q);
      assert s.Remove(pe).live[if j == n then i else j] == q;
    }
  }

  lemma ChokeCalm(s: State, pe: Peer, t: State)
    requires Agree(s) && Shape(s) && MessageStep(s, pe, ChokeMessage, t)
    ensures forall q :: Interrupted(t, q) && q != pe ==> Carried(s, q, t)
    ensures Interrupted(t, pe) ==> Hushed(s, pe, t)
    ensures forall q :: Unlisted(t, q) ==> Unlisted(s, q)
  {
    var u := SetPeer(s, pe, s.peers[pe].(peerChoking := true));
    if pe in s.downloaders { assert DownloaderOk(s, pe); }
    if pe in s.downloaders && !s.downloaders[pe].allowedFast {
      var order: seq<nat> :| PD.Enumerates(order, s.downloaders[pe].pending) && StartAll(Choked(u, pe, order), t);
      NowChoked(s, pe, order);
      StartAllCalm(Choked(u, pe, order), t);
      HushedOn(s, pe, Choked(u, pe, order), t);
    }
  }

  /** The choke that interrupts a download: it is marked, and without the Fast Extension its
      requests are dropped. */
  ghost predicate Hushed(s: State, pe: Peer, t: State) {
    && pe in s.downloaders && pe in s.peers && !s.downloaders[pe].allowedFast && Interrupted(t, pe)
    && t.downloaders[pe].piece == s.downloaders[pe].piece && Noted(t, pe)
    && t.peers[pe].fastEnabled == s.peers[pe].fastEnabled
    && (!t.peers[pe].fastEnabled ==> t.downloaders[pe].pending == {})
  }

  lemma HushedOn(s: State, pe: Peer, c: State, t: State)
    requires Hushed(s, pe, c) && Calm(c, t) && forall q :: Interrupted(c, q) && q != pe ==> Carried(s, q, c)
    ensures Interrupted(t, pe) ==> Hushed(s, pe, t)
    ensures forall q :: Interrupted(t, q) && q != pe ==> Carried(s, q, t)
    ensures forall q :: Unlisted(t, q) ==> Unlisted(c, q)
  {
    forall q | Interrupted(t, q) && q != pe ensures Carried(s, q, t) {
      assert Carried(c, q, t);
    }
    assert Interrupted(t, pe) ==> Carried(c, pe, t);
  }

  lemma NowChoked(s: State, pe: Peer, order: seq<nat>)
    requires pe in s.peers && pe in s.downloaders && !s.downloaders[pe].allowedFast
    requires s.picker.Some? && s.downloaders[pe].piece < |s.picker.value.pieces|
    ensures var c := Choked(SetPeer(s, pe, s.peers[pe].(peerChoking := true)), pe, order);
            && Hushed(s, pe, c) && (forall q :: Interrupted(c, q) && q != pe ==> Carried(s, q, c))
            && forall q :: Unlisted(c, q) ==> Unlisted(s, q)
  {
  }

  lemma FastCalm(s: State, pe: Peer, i: nat)
    requires pe in s.peers
    ensures Calm(s, SetPeer(s, pe, AddFast(s.peers[pe], i)))
  {
  }

  lemma RejectCalm(s: State, pe: Peer, i: nat)
    requires pe in s.downloaders
    ensures Calm(s, SetDownloader(s, pe, PD.Reject(s.downloaders[pe], i)))
  {
  }

  /** Only the interest or the queue length of the sender changes. */
  lemma RecordCalm(s: State, pe: Peer, st: PeerState)
    requires pe in s.peers
    requires st == s.peers[pe].(peerInterested := st.peerInterested, requestQueue := st.requestQueue)
    ensures Calm(s, SetPeer(s, pe, st))
  {
  }

  lemma HaveCalm(s: State, pe: Peer, m: Message, t: State)
    requires s.downloaders.Keys <= s.peers.Keys && MessageStep(s, pe, m, t)
    requires m.HaveMessage? || m.BitfieldMessage? || m.HaveAllMessage?
    ensures Calm(s, t)
  {
    hide Calm, AskedFor, ClosedPeer, HaveOne, HaveEach, Interest;
    if ClosedPeer(s, pe, t) {
      ClosedCalm(s, pe, t);
    } else {
      match m
      case HaveMessage(i) =>
        HaveOneCalm(s, pe, i);
        OfferCalm(s, HaveOne(s, pe, i), pe, t);
      case BitfieldMessage(size, bits) =>
        if size == 0 { CalmSelf(s); return; }
        HaveEachCalm(s, pe, bits);
        OfferCalm(s, HaveEach(s, pe, bits), pe, t);
      case HaveAllMessage =>
        HaveEachCalm(s, pe, seq(s.N(), _ => true));
        OfferCalm(s, HaveEach(s, pe, seq(s.N(), _ => true)), pe, t);
    }
  }

  lemma MessageCalm(s: State, pe: Peer, m: Message, t: State)
    requires s.downloaders.Keys <= s.peers.Keys && MessageStep(s, pe, m, t) && !m.ChokeMessage?
    ensures Calm(s, t)
  {
    hide Calm, AskedFor, ClosedPeer, HaveOne, HaveEach, Interest, StartAll;
    if ClosedPeer(s, pe, t) { ClosedCalm(s, pe, t); return; }
    if t == s { CalmSelf(s); return; }
    match m
    case AllowedFastMessage(i) => FastCalm(s, pe, i);
    case UnchokeMessage => UnchokeCalm(s, pe, t);
    case RejectMessage(index, begin, length) =>
      RejectCalm(s, pe, FindBlock(s.lengths[index], begin, length).value.index);
    case InterestedMessage => RecordCalm(s, pe, s.peers[pe].(peerInterested := true));
    case NotInterestedMessage => RecordCalm(s, pe, s.peers[pe].(peerInterested := false));
    case ExtensionHandshakeMessage(q) => RecordCalm(s, pe, s.peers[pe].(requestQueue := Some(q)));
    case _ => HaveCalm(s, pe, m, t);
  }

  // ---- blocks, writes and the rest

  lemma ReceiveCalm(s: State, pe: Peer, b: Block, data: bytes)
    requires pe in s.downloaders && |s.downloaders[pe].buffer| == s.downloaders[pe].length
    requires GetBlock(s.downloaders[pe].length, b.index) == Some(b) && |data| == b.length
    ensures Calm(s, SetDownloader(s, pe, PD.Receive(s.downloaders[pe], b, data).0))
  {
    var d := PD.Receive(s.downloaders[pe], b, data).0;
    assert d.piece == s.downloaders[pe].piece && d.allowedFast == s.downloaders[pe].allowedFast;
    assert d.pending <= s.downloaders[pe].pending;
    SetCalm(s, pe, d);
  }

  lemma SetCalm(s: State, pe: Peer, d: PD.Downloader)
    requires pe in s.downloaders && d.piece == s.downloaders[pe].piece
    requires d.allowedFast == s.downloaders[pe].allowedFast
    requires d.pending <= s.downloaders[pe].pending || d.allowedFast || (pe in s.peers && !s.peers[pe].peerChoking)
    ensures Calm(s, SetDownloader(s, pe, d))
  {
  }

  lemma FinishedCalm(s: State, pe: Peer, t: State)
    requires Finished(s, pe, t)
    ensures Calm(s, t)
  {
    hide Calm, AskedFor, MarkWriting;
    var d := s.downloaders[pe];
    var c := CloseDownloader(s, pe);
    var n := MarkWriting(c, d.piece);
    var u: State :| AskedFor(n, pe, u) && t == u.(suspended := true, writer := Some(Write(d.piece, pe, d.buffer)));
    CloseDownloaderCalm(s, pe);
    MarkCalm(c, d.piece);
    AskedForCalm(n, pe, u);
    CalmTwice(s, c, n);
    CalmTwice(s, n, u);
    WriterCalm(u, t);
    CalmTwice(s, u, t);
  }

  lemma MarkCalm(s: State, i: nat)
    ensures Calm(s, MarkWriting(s, i)) && Calm(s, MarkDone(s, i))
  {
  }

  lemma WriterCalm(s: State, t: State)
    requires t == s.(suspended := t.suspended, writer := t.writer, flags := t.flags)
    ensures Calm(s, t)
  {
  }

  lemma TakenCalm(s: State, pe: Peer, b: Block, data: bytes, t: State)
    requires Sound(s) && Taken(s, pe, b, data, t)
    ensures Calm(s, t)
  {
    hide Calm, Finished, PD.Receive, PD.Request;
    var d := PD.Receive(s.downloaders[pe], b, data).0;
    var r := SetDownloader(s, pe, d);
    ReceiveCalm(s, pe, b, data);
    if d.Done() {
      FinishedCalm(r, pe, t);
      CalmTwice(s, r, t);
    } else if d.allowedFast || !s.peers[pe].peerChoking {
      ReceivedSound(s, pe, b, data);
      AgainCalm(r, pe, MaxAllowedRequests(s, s.peers[pe]));
      SetTwice(s, pe, d, PD.Request(d, MaxAllowedRequests(s, s.peers[pe])).0);
      CalmTwice(s, r, t);
    }
  }

  lemma SetTwice(s: State, pe: Peer, d: PD.Downloader, e: PD.Downloader)
    ensures SetDownloader(SetDownloader(s, pe, d), pe, e) == SetDownloader(s, pe, e)
  {
  }

  lemma AgainCalm(s: State, pe: Peer, q: int)
    requires pe in s.downloaders && pe in s.peers && s.downloaders[pe].Valid()
    requires s.downloaders[pe].allowedFast || !s.peers[pe].peerChoking
    ensures Calm(s, SetDownloader(s, pe, PD.Request(s.downloaders[pe], q).0))
  {
    hide Calm;
    PD.RequestCorrect(s.downloaders[pe], q);
    SetCalm(s, pe, PD.Request(s.downloaders[pe], q).0);
  }

  lemma PieceCalm(s: State, pe: Peer, index: nat, begin: nat, data: bytes, t: State)
    requires Sound(s) && s.downloaders.Keys <= s.peers.Keys && PieceStep(s, pe, index, begin, data, t)
    ensures Calm(s, t)
  {
    hide Calm, ClosedPeer, Taken, Sound;
    if ClosedPeer(s, pe, t) { ClosedCalm(s, pe, t); return; }
    if t == s { CalmSelf(s); return; }
    TakenCalm(s, pe, FindBlock(s.lengths[index], begin, |data|).value, data, t);
  }

  lemma WriteDoneCalm(s: State, hashOK: bool, failed: bool, stop: bool, t: State)
    requires s.downloaders.Keys <= s.peers.Keys && WriteDoneStep(s, hashOK, failed, stop, t)
    ensures Calm(s, t)
  {
    hide Calm, ClosedPeer, StartAll, CancelEach, Finish, StoppedAs, MarkDone;
    var w, u := s.writer.value, Unmark(s);
    WriterCalm(s, u);
    if !hashOK {
      var m: State :| ClosedPeer(u, w.source, m) && StartAll(m, t);
      ClosedCalm(u, w.source, m);
      StartAllCalm(m, t);
      CalmTwice(u, m, t);
    } else if failed {
      StoppedCalm(u, t);
    } else {
      var v := MarkDone(u, w.piece);
      var m: State :| CancelEach(v, w.piece, RequestedPeers(v, w.piece), m) && t == Finish(m, stop);
      MarkCalm(u, w.piece);
      CancelEachCalm(v, w.piece, RequestedPeers(v, w.piece), m);
      CalmTwice(u, v, m);
      FinishCalm(m, stop);
      CalmTwice(u, m, t);
    }
    CalmTwice(s, u, t);
  }

  lemma OpenedCalm(s: State, t: State)
    requires OpenedAs(s, t) && s.downloaders.Keys <= s.peers.Keys
    ensures Calm(s, t)
  {
    hide StartAll, Calm;
    var dialled: set<Peer> :|
      dialled !! s.peers.Keys && (s.completed ==> dialled == {}) && StartAll(WithPeers(s, dialled), t);
    WithPeersCalm(s, dialled);
    StartAllCalm(WithPeers(s, dialled), t);
    CalmTwice(s, WithPeers(s, dialled), t);
  }

  lemma NotifyCalm(s: State, pe: Peer, t: State)
    requires Started(Grant(s, pe), pe, t)
    ensures Calm(s, t)
  {
    hide Started, Calm;
    FewerCalm(s, Grant(s, pe));
    StartedCalm(Grant(s, pe), pe, t);
    CalmTwice(s, Grant(s, pe), t);
  }

  lemma StepCalm(s: State, e: Event, t: State)
    requires Safe(s) && Step(s, e, t) && !(e.PeerMessage? && e.m.ChokeMessage?)
    ensures Calm(s, t)
  {
    hide MessageStep, PieceStep, WriteDoneStep, Started, ClosedPeer, StoppedAs, OpenedAs, Calm, Safe;
    KnownDownloaders(s);
    match e
    case PeerMessage(pe, m) => MessageCalm(s, pe, m, t);
    case PieceMessage(pe, index, begin, data) => PieceCalm(s, pe, index, begin, data, t);
    case WriteDone(hashOK, failed, stop) => WriteDoneCalm(s, hashOK, failed, stop, t);
    case RamNotify(pe) => NotifyCalm(s, pe, t);
    case Disconnected(pe) => ClosedCalm(s, pe, t);
    case Incoming(pe) => WithPeersCalm(s, {pe});
    case StopCommand => if s.running { StoppedCalm(s, t); } else { CalmSelf(s); }
    case Opened => OpenedCalm(s, t);
  }

  lemma KnownDownloaders(s: State)
    requires Safe(s)
    ensures Sound(s) && Agree(s) && Shape(s) && s.downloaders.Keys <= s.peers.Keys
  {
    forall pe | pe in s.downloaders ensures pe in s.peers { assert DownloaderOk(s, pe); }
  }

  // ---- whole runs

  /** Every interrupted download is noted in the picker, and without the Fast Extension has no
      request out; every other download of a choking peer is of a piece it allowed. */
  ghost predicate ChokesNoted(s: State) {
    && (forall pe :: Interrupted(s, pe) ==>
          Noted(s, pe) && (!s.peers[pe].fastEnabled ==> s.downloaders[pe].pending == {}))
    && (forall pe :: !Unlisted(s, pe))
  }

  lemma CalmNoted(s: State, t: State)
    requires ChokesNoted(s) && Calm(s, t)
    ensures ChokesNoted(t)
  {
    forall pe | Interrupted(t, pe)
      ensures Noted(t, pe) && (!t.peers[pe].fastEnabled ==> t.downloaders[pe].pending == {})
    {
      assert Carried(s, pe, t);
    }
  }

  lemma ChokeNoted(s: State, pe: Peer, t: State)
    requires Safe(s) && ChokesNoted(s) && MessageStep(s, pe, ChokeMessage, t)
    ensures ChokesNoted(t)
  {
    hide MessageStep, Safe;
    KnownDownloaders(s);
    ChokeCalm(s, pe, t);
    forall q | Interrupted(t, q)
      ensures Noted(t, q) && (!t.peers[q].fastEnabled ==> t.downloaders[q].pending == {})
    {
      if q != pe { assert Carried(s, q, t); }
    }
  }

  lemma StepNoted(s: State, e: Event, t: State)
    requires Safe(s) && ChokesNoted(s) && Step(s, e, t)
    ensures ChokesNoted(t)
  {
    hide MessageStep, PieceStep, WriteDoneStep, Started, ClosedPeer, StoppedAs, OpenedAs, Calm, Safe, ChokesNoted;
    if e.PeerMessage? && e.m.ChokeMessage? {
      ChokeNoted(s, e.pe, t);
    } else {
      StepCalm(s, e, t);
      CalmNoted(s, t);
    }
  }

  lemma {:induction false} EpochNoted(start: State, stop: bool, states: seq<State>, events: seq<Event>, k: nat)
    requires Epoch(start, stop, states, events) && k <= |events|
    ensures ChokesNoted(states[k])
  {
    hide Safe, Finish, Step, ChokesNoted;
    if k == 0 {
      NotedAtStart(start, stop);
    } else {
      EpochNoted(start, stop, states, events, k - 1);
      EpochSafe(start, stop, states, events, k - 1);
      StepNoted(states[k - 1], events[k - 1], states[k]);
    }
  }

  lemma NotedAtStart(start: State, stop: bool)
    requires Prepared(start)
    ensures ChokesNoted(Finish(start, stop))
  {
  }

  /** In every state of every run: a download from a peer whose last word is Choke is of a
      piece that the peer allowed, or it is noted as choked in the picker, and then without the
      Fast Extension nothing is requested. */
  lemma ChokedOfRun(start: State, stop: bool, states: seq<State>, events: seq<Event>, k: nat, pe: Peer)
    requires Epoch(start, stop, states, events) && k <= |events| && pe in states[k].downloaders
    requires LastSaid(events, k, pe, ChokeMessage, UnchokeMessage)
    ensures pe in states[k].peers
    ensures var d := states[k].downloaders[pe];
            if d.allowedFast then d.piece in states[k].peers[pe].allowedFast
            else
              && states[k].picker.Some? && d.piece < |states[k].picker.value.pieces|
              && pe in states[k].picker.value.pieces[d.piece].choked.live
              && (!states[k].peers[pe].fastEnabled ==> d.pending == {})
  {
    hide Epoch, LastSaid;
    EpochSafe(start, stop, states, events, k);
    RunLength(start, stop, states, events);
    KnownDownloaders(states[k]);
    FlagsOfRun(start, stop, states, events, k, pe);
    EpochNoted(start, stop, states, events, k);
    assert !Unlisted(states[k], pe);
    assert !states[k].downloaders[pe].allowedFast ==> Interrupted(states[k], pe);
  }

  /** What a step begins for a choking peer is an allowed-fast download: any other download
      of that peer went on from before, with the same piece. */
  lemma BegunWhileChoking(s: State, e: Event, t: State, pe: Peer)
    requires Safe(s) && Step(s, e, t) && pe in t.downloaders && pe in t.peers && t.peers[pe].peerChoking
    ensures || t.downloaders[pe].allowedFast
            || (pe in s.downloaders && !s.downloaders[pe].allowedFast
                && s.downloaders[pe].piece == t.downloaders[pe].piece)
  {
    hide MessageStep, PieceStep, WriteDoneStep, Started, ClosedPeer, StoppedAs, OpenedAs, Safe;
    if !t.downloaders[pe].allowedFast {
      assert Interrupted(t, pe);
      if e.PeerMessage? && e.m.ChokeMessage? {
        KnownDownloaders(s);
        ChokeCalm(s, e.pe, t);
        assert pe != e.pe ==> Carried(s, pe, t);
      } else {
        StepCalm(s, e, t);
        assert Carried(s, pe, t);
      }
    }
  }
}
