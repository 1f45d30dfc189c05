/** Whose turn it is to be asked for a piece: after which events RAM is requested for whom,
    and what comes of it. Nobody who could go on downloading is passed over. */
module Turns {
  import opened Common
  import opened Blocks
  import opened PeerSets
  import opened Pickers
  import opened Engine
  import opened EventLoop
  import opened Connections
  import opened Sessions
  import PD = PieceDownloaders
  import RM = ResourceManagers

  /** From s to t RAM was requested for pe. */
  ghost predicate Asked(s: State, pe: Peer, t: State) {
    s.ram <= t.ram && exists k :: |s.ram| <= k < |t.ram| && t.ram[k].Asked? && t.ram[k].data == pe
  }

  lemma AskedMore(s: State, m: State, pe: Peer, t: State)
    requires s.ram <= m.ram <= t.ram && (Asked(s, pe, m) || Asked(m, pe, t))
    ensures Asked(s, pe, t)
  {
    if Asked(s, pe, m) {
      var k :| |s.ram| <= k < |m.ram| && m.ram[k].Asked? && m.ram[k].data == pe;
      assert t.ram[k] == m.ram[k];
    }
  }

  lemma AskedForAsks(s: State, pe: Peer, t: State)
    requires s.Status() == Downloading && AskedFor(s, pe, t)
    ensures Asked(s, pe, t)
  {
    hide Started;
    AskedForGrows(s, pe, t);
    var k := |s.ram|;
    if t != Acquire(s, pe, false) { StartedGrows(Acquire(s, pe, true), pe, t); }
    assert t.ram[k].Asked? && t.ram[k].data == pe;
  }

  /** Starting for one peer leaves the others' records alone. */
  lemma AskedForOthers(s: State, pe: Peer, t: State, q: Peer)
    requires AskedFor(s, pe, t) && q in s.peers && q != pe
    ensures q in t.peers && t.peers[q] == s.peers[q]
  {
  }

  lemma {:induction false} StartEachOthers(s: State, order: seq<Peer>, t: State, q: Peer)
    requires StartEach(s, order, t) && q in s.peers && q !in order
    ensures q in t.peers && t.peers[q] == s.peers[q]
  {
    if order != [] {
      hide AskedFor;
      var front, last := order[..|order| - 1], order[|order| - 1];
      var m :| StartEach(s, front, m) && StartOne(m, last, t);
      StartEachOthers(s, front, m, q);
      if t != m { AskedForOthers(m, last, t, q); }
    }
  }

  lemma {:induction false} StartEachAsks(s: State, order: seq<Peer>, t: State, pe: Peer)
    requires StartEach(s, order, t) && s.Status() == Downloading
    requires pe in order && pe in s.peers && !s.peers[pe].downloading
    ensures Asked(s, pe, t)
  {
    hide AskedFor, Asked;
    var front, last := order[..|order| - 1], order[|order| - 1];
    var m :| StartEach(s, front, m) && StartOne(m, last, t);
    StartEachSame(s, front, m);
    StartEachGrows(s, front, m);
    if pe in front {
      StartEachAsks(s, front, m, pe);
      OneGrows(m, last, t);
    } else {
      StartEachOthers(s, front, m, pe);
      AskedForAsks(m, pe, t);
      AskedForGrows(m, pe, t);
    }
    AskedMore(s, m, pe, t);
  }

  lemma OneGrows(s: State, pe: Peer, t: State)
    requires StartOne(s, pe, t)
    ensures s.ram <= t.ram
  {
    hide AskedFor;
    if t != s { AskedForGrows(s, pe, t); }
  }

  lemma StartAllAsks(s: State, t: State, pe: Peer)
    requires StartAll(s, t) && s.Status() == Downloading
    requires pe in s.connected && pe in s.peers && !s.peers[pe].downloading
    ensures Asked(s, pe, t)
  {
    var order: seq<Peer> :| Enumerates(order, s.connected) && StartEach(s, order, t);
    hide StartEach, Asked;
    StartEachAsks(s, order, t, pe);
  }

  lemma {:induction false} CancelEachAsks(s: State, i: nat, order: seq<Peer>, t: State, pe: Peer)
    requires CancelEach(s, i, order, t) && s.Status() == Downloading && pe in order
    ensures Asked(s, pe, t)
  {
    hide AskedFor, Asked, Downloads, Same;
    var front, last := order[..|order| - 1], order[|order| - 1];
    var m :| CancelEach(s, i, front, m) && Downloads(m, last, i) && AskedFor(CloseDownloader(m, last), last, t);
    var c := CloseDownloader(m, last);
    CancelEachGrows(s, i, front, m);
    AskedForGrows(c, last, t);
    ClosedLedger(m, last);
    if pe in front {
      CancelEachAsks(s, i, front, m, pe);
    } else {
      CancelEachSame(s, i, front, m);
      SameStatus(s, m);
      AskedForAsks(c, pe, t);
      AskedMore(m, c, pe, t);
    }
    AskedMore(s, m, pe, t);
  }

  lemma ClosedLedger(s: State, pe: Peer)
    ensures s.ram <= CloseDownloader(s, pe).ram && CloseDownloader(s, pe).Status() == s.Status()
  {
  }

  lemma SameStatus(s: State, t: State)
    requires Same(s, t)
    ensures t.Status() == s.Status()
  {
  }

  // ---- one event

  /** The event makes it pe's turn. */
  ghost predicate TurnOf(s: State, e: Event, t: State, pe: Peer) {
    match e
    case PeerMessage(from, m) =>
      (match m
       case HaveMessage(i) => from == pe && i < s.N()
       case BitfieldMessage(size, _) => from == pe && size != 0 && size == (s.N() + 7) / 8
       case HaveAllMessage => from == pe
       case UnchokeMessage => from == pe && pe !in s.downloaders
       case ChokeMessage =>  // whose download is interrupted
         && from in s.downloaders && !s.downloaders[from].allowedFast
         && pe in s.connected && pe !in s.downloaders
       case _ => false)
    case PieceMessage(from, _, _, _) => from == pe && s.writer.None? && t.writer.Some?  // the last block
    case WriteDone(hashOK, failed, _) =>
      if !hashOK then pe in t.connected && pe !in s.downloaders
      else !failed && s.writer.Some? && Downloads(s, pe, s.writer.value.piece)
    case Opened => pe in t.connected && pe !in s.downloaders
    case _ => false
  }

  lemma Idle(s: State, pe: Peer)
    requires Agree(s) && pe in s.peers && pe !in s.downloaders
    ensures !s.peers[pe].downloading
  {
  }

  lemma OfferAsks(s: State, h: State, pe: Peer, t: State)
    requires h.Status() == Downloading && h.ram == s.ram && AskedFor(Interest(h, pe), pe, t)
    ensures Asked(s, pe, t)
  {
    hide AskedFor, Asked;
    AskedForAsks(Interest(h, pe), pe, t);
    AskedForGrows(Interest(h, pe), pe, t);
    AskedMore(s, Interest(h, pe), pe, t);
  }

  lemma HaveAsks(s: State, pe: Peer, m: Message, t: State)
    requires s.Status() == Downloading && MessageStep(s, pe, m, t) && TurnOf(s, PeerMessage(pe, m), t, pe)
    requires m.HaveMessage? || m.BitfieldMessage? || m.HaveAllMessage?
    ensures Asked(s, pe, t)
  {
    hide AskedFor, Asked, ClosedPeer, HaveOne, HaveEach, Interest;
    match m
    case HaveMessage(i) =>
      OneStays(s, pe, i);
      OneLedger(s, pe, i);
      OfferAsks(s, HaveOne(s, pe, i), pe, t);
    case BitfieldMessage(_, bits) =>
      HaveEachSame(s, pe, bits);
      HaveEachLedger(s, pe, bits);
      OfferAsks(s, HaveEach(s, pe, bits), pe, t);
    case HaveAllMessage =>
      var bits := seq(s.N(), _ => true);
      HaveEachSame(s, pe, bits);
      HaveEachLedger(s, pe, bits);
      OfferAsks(s, HaveEach(s, pe, bits), pe, t);
  }

  lemma ChokeAsks(s: State, from: Peer, t: State, pe: Peer)
    requires Agree(s) && Shape(s) && s.Status() == Downloading && MessageStep(s, from, ChokeMessage, t)
    requires from in s.downloaders && !s.downloaders[from].allowedFast && pe in s.connected && pe !in s.downloaders
    ensures Asked(s, pe, t)
  {
    hide StartAll, Asked;
    var u := SetPeer(s, from, s.peers[from].(peerChoking := true));
    var order: seq<nat> :| PD.Enumerates(order, s.downloaders[from].pending) && StartAll(Choked(u, from, order), t);
    Idle(s, pe);
    StartAllAsks(Choked(u, from, order), t, pe);
    StartAllGrows(Choked(u, from, order), t);
    AskedMore(s, Choked(u, from, order), pe, t);
  }

  lemma UnchokeAsks(s: State, pe: Peer, t: State)
    requires s.Status() == Downloading && MessageStep(s, pe, UnchokeMessage, t) && pe !in s.downloaders
    ensures Asked(s, pe, t)
  {
    hide AskedFor, Asked;
    var u := SetPeer(s, pe, s.peers[pe].(peerChoking := false));
    AskedForAsks(u, pe, t);
    AskedForGrows(u, pe, t);
    AskedMore(s, u, pe, t);
  }

  lemma MessageAsks(s: State, from: Peer, m: Message, t: State, pe: Peer)
    requires Agree(s) && Shape(s) && s.Status() == Downloading && MessageStep(s, from, m, t)
    requires TurnOf(s, PeerMessage(from, m), t, pe)
    ensures Asked(s, pe, t)
  {
    hide MessageStep, Asked, Agree, Shape;
    match m
    case ChokeMessage => ChokeAsks(s, from, t, pe);
    case UnchokeMessage => UnchokeAsks(s, pe, t);
    case _ => HaveAsks(s, pe, m, t);
  }

  lemma PieceAsks(s: State, pe: Peer, index: nat, begin: nat, data: bytes, t: State)
    requires s.Status() == Downloading && PieceStep(s, pe, index, begin, data, t)
    requires s.writer.None? && t.writer.Some?
    ensures Asked(s, pe, t)
  {
    hide ClosedPeer, Taken, Asked;
    if ClosedPeer(s, pe, t) {
      ClosedPeerFrame(s, pe, t);
    } else {
      TakenAsks(s, pe, FindBlock(s.lengths[index], begin, |data|).value, data, t);
    }
  }

  lemma TakenAsks(s: State, pe: Peer, b: Block, data: bytes, t: State)
    requires s.Status() == Downloading && Taken(s, pe, b, data, t) && s.writer.None? && t.writer.Some?
    ensures Asked(s, pe, t)
  {
    hide AskedFor, Asked, PD.Receive, PD.Request;
    var r := SetDownloader(s, pe, PD.Receive(s.downloaders[pe], b, data).0);
    var d := r.downloaders[pe];
    var n := MarkWriting(CloseDownloader(r, pe), d.piece);
    var u: State :| AskedFor(n, pe, u) && t == u.(suspended := true, writer := Some(Write(d.piece, pe, d.buffer)));
    ClosedLedger(r, pe);
    AskedForAsks(n, pe, u);
    AskedForGrows(n, pe, u);
    AskedMore(s, n, pe, u);
    SameLedger(s, pe, u, t);
  }

  lemma SameLedger(s: State, pe: Peer, u: State, t: State)
    requires Asked(s, pe, u) && t.ram == u.ram
    ensures Asked(s, pe, t)
  {
    var k :| |s.ram| <= k < |u.ram| && u.ram[k].Asked? && u.ram[k].data == pe;
    assert t.ram[k] == u.ram[k];
  }

  lemma CorruptAsks(s: State, m: State, t: State, pe: Peer)
    requires Inv(s) && s.writer.Some? && s.Status() == Downloading
    requires ClosedPeer(Unmark(s), s.writer.value.source, m) && StartAll(m, t)
    requires pe in t.connected && pe !in s.downloaders
    ensures Asked(s, pe, t)
  {
    hide StartAll, Asked, Inv, ClosedPeer;
    UnmarkInv(s);
    var u, w := Unmark(s), s.writer.value;
    ClosedPeerGrows(u, w.source, m);
    ClosedPeerFrame(u, w.source, m);
    ClosedPeerInv(u, w.source, m);
    StartAllSame(m, t);
    StartAllGrows(m, t);
    OfInvariant(m);
    Idle(m, pe);
    StartAllAsks(m, t, pe);
    AskedMore(s, m, pe, t);
  }

  lemma OfInvariant(s: State)
    requires Inv(s)
    ensures Agree(s) && Shape(s) && s.connected <= s.peers.Keys
  {
  }

  lemma WrittenAsks(s: State, m: State, stop: bool, pe: Peer)
    requires Inv(s) && s.writer.Some? && s.Status() == Downloading
    requires var i := s.writer.value.piece;
             var v := MarkDone(Unmark(s), i);
             CancelEach(v, i, RequestedPeers(v, i), m) && Downloads(s, pe, i)
    ensures Asked(s, pe, Finish(m, stop))
  {
    var i := s.writer.value.piece;
    var v := MarkDone(Unmark(s), i);
    assert s.picker.value.pieces[i].requested.Has(pe) <==> Downloads(s, pe, i);
    hide CancelEach, Asked, Finish, Inv;
    CancelEachAsks(v, i, RequestedPeers(v, i), m, pe);
    CancelEachGrows(v, i, RequestedPeers(v, i), m);
    AskedMore(s, v, pe, m);
    FinishGrows(m, stop);
    AskedMore(s, m, pe, Finish(m, stop));
  }

  lemma FinishGrows(s: State, stop: bool)
    ensures s.ram <= Finish(s, stop).ram
  {
  }

  lemma WriteDoneAsks(s: State, hashOK: bool, failed: bool, stop: bool, t: State, pe: Peer)
    requires Inv(s) && s.Status() == Downloading && WriteDoneStep(s, hashOK, failed, stop, t)
    requires TurnOf(s, WriteDone(hashOK, failed, stop), t, pe)
    ensures Asked(s, pe, t)
  {
    hide StartAll, Asked, Inv, ClosedPeer, CancelEach, Finish, StoppedAs, MarkDone;
    var w, u := s.writer.value, Unmark(s);
    if !hashOK {
      var m: State :| ClosedPeer(u, w.source, m) && StartAll(m, t);
      CorruptAsks(s, m, t, pe);
    } else {
      var v := MarkDone(u, w.piece);
      var m: State :| CancelEach(v, w.piece, RequestedPeers(v, w.piece), m) && t == Finish(m, stop);
      WrittenAsks(s, m, stop, pe);
    }
  }

  lemma OpenedAsks(s: State, t: State, pe: Peer)
    requires Inv(s) && s.Status() == Downloading && OpenedAs(s, t) && pe in t.connected && pe !in s.downloaders
    ensures Asked(s, pe, t)
  {
    hide StartAll, Asked, Inv;
    var dialled: set<Peer> :|
      dialled !! s.peers.Keys && (s.completed ==> dialled == {}) && StartAll(WithPeers(s, dialled), t);
    var m := WithPeers(s, dialled);
    DialledInv(s, dialled);
    OfInvariant(m);
    StartAllSame(m, t);
    StartAllGrows(m, t);
    Idle(m, pe);
    StartAllAsks(m, t, pe);
    AskedMore(s, m, pe, t);
  }

  /** Whoever's turn it is while the torrent downloads is asked for: the sender of new
      pieces, of an Unchoke without a download to go on with, or of a last block; the others
      that downloaded a piece now written; and after a choke, a corrupt piece or at the
      start every connected peer without a download. */
  lemma TurnsTaken(s: State, e: Event, t: State, pe: Peer)
    requires Inv(s) && s.running && !s.completed && Step(s, e, t) && TurnOf(s, e, t, pe)
    ensures Asked(s, pe, t)
  {
    hide MessageStep, PieceStep, WriteDoneStep, OpenedAs, Asked, Inv;
    OfInvariant(s);
    match e
    case PeerMessage(from, m) => MessageAsks(s, from, m, t, pe);
    case PieceMessage(from, index, begin, data) => PieceAsks(s, from, index, begin, data, t);
    case WriteDone(hashOK, failed, stop) => WriteDoneAsks(s, hashOK, failed, stop, t, pe);
    case Opened => OpenedAsks(s, t, pe);
  }

  // ---- what a grant comes to

  /** A download of piece i begins, with as many requests as the peer may have out. */
  ghost predicate Began(s: State, pe: Peer, i: nat, t: State) {
    && pe in s.peers && pe in t.peers && t.peers[pe].downloading && t.ram == s.ram
    && pe in t.downloaders && t.downloaders == s.downloaders[pe := t.downloaders[pe]]
    && var d := t.downloaders[pe];
    && d.piece == i < |s.lengths| && d.length == s.lengths[i] && d.Valid() && d.done == {}
    && (d.remaining == [] || |d.pending| >= MaxAllowedRequests(s, s.peers[pe]))
    && (d.pending == {} || |d.pending| <= MaxAllowedRequests(s, s.peers[pe]))
    && (s.peers[pe].peerChoking ==> d.allowedFast)
  }

  lemma BeginBegan(s: State, pe: Peer, i: nat, fast: bool, e: bool, buffer: bytes)
    requires pe in s.peers && s.picker.Some? && i < s.N() && (s.peers[pe].peerChoking ==> fast)
    ensures Began(s, pe, i, Begin(s, pe, i, fast, e, buffer))
  {
    PD.RequestCorrect(PD.New(i, s.lengths[i], fast, Buffer(buffer, s.lengths[i])), MaxAllowedRequests(s, s.peers[pe]));
    hide PD.New, PD.Request, Picked, MaxAllowedRequests, PD.Downloader.Valid;
  }

  /** RAM in hand for a peer of a downloading torrent. Either a download begins, of a piece
      that is neither done nor being written and that the peer has; or the RAM goes back
      because the peer is busy, or choking without an allowed-fast piece to give, or because
      each piece it has that may be asked once more is still being delivered by somebody. */
  lemma GrantOutcome(s: State, pe: Peer, t: State)
    requires Shape(s) && s.Status() == Downloading && s.picker.Some? && pe in s.peers && Started(s, pe, t)
    ensures if s.ram == t.ram then
              && pe in t.downloaders && !s.peers[pe].downloading
              && var i := t.downloaders[pe].piece;
              && Began(s, pe, i, t) && i < |s.flags| && !s.flags[i].done && !s.flags[i].writing
              && i < |s.picker.value.pieces| && pe in s.picker.value.pieces[i].having.live
            else
              && t.ram == s.ram + [RM.Released(s.pieceLength)] && t.downloaders == s.downloaders && t.peers == s.peers
              && (!s.peers[pe].downloading && !s.peers[pe].peerChoking ==> NothingLeft(s.picker.value, s.flags, pe))
  {
    var c :| StartedAs(s, pe, c, t);
    var p := s.picker.value;
    hide Shape, Found;
    JustFits(s);
    if c.r.Some? {
      FoundSafe(p, s.flags, s.peers[pe], pe, c.r.value, c.fast, c.endgame);
      BeginBegan(s, pe, c.r.value, c.fast, c.endgame, c.buffer);
      hide Begin;
    } else if !s.peers[pe].downloading && !s.peers[pe].peerChoking {
      NoneMeans(p, s.flags, s.peers[pe], pe, c.fast, c.endgame);
      LeftOf(p, s.flags, pe);
    }
  }

  lemma JustFits(s: State)
    requires Shape(s) && s.picker.Some?
    ensures Fits(s.picker.value, s.flags)
  {
  }

  ghost predicate NothingLeft(p: Picker, flags: seq<PieceState>, pe: Peer) {
    forall i: nat :: (i < |p.pieces| && i < |flags| && !flags[i].done && !flags[i].writing
                      && pe in p.pieces[i].having.live && |p.pieces[i].requested.live| < p.maxDuplicate) ==>
      exists q :: q in p.pieces[i].requested.live && q !in p.pieces[i].snubbed.live && q !in p.pieces[i].choked.live
  }

  lemma LeftOf(p: Picker, flags: seq<PieceState>, pe: Peer)
    requires |p.pieces| == |flags|
    requires forall i: nat :: (i < |p.pieces| && !flags[i].done && !flags[i].writing && pe in p.pieces[i].having.live
                               && |p.pieces[i].requested.live| < p.maxDuplicate) ==>
               exists q :: q in p.pieces[i].requested.live
                        && q !in p.pieces[i].snubbed.live && q !in p.pieces[i].choked.live
    ensures NothingLeft(p, flags, pe)
  {
  }

  /** Asking takes exactly one entry of the ledger when it is refused for now, and is
      followed by the outcome of a grant otherwise. */
  lemma AskOutcome(s: State, pe: Peer, t: State)
    requires Shape(s) && Phase(s) && s.Status() == Downloading && pe in s.peers && AskedFor(s, pe, t)
    ensures || t == s.(ram := s.ram + [RM.Asked(pe, s.pieceLength, false)])
            || (pe in t.downloaders && Began(Acquire(s, pe, true), pe, t.downloaders[pe].piece, t))
            || (t.downloaders == s.downloaders
                && t.ram == s.ram + [RM.Asked(pe, s.pieceLength, true), RM.Released(s.pieceLength)])
  {
    if t != Acquire(s, pe, false) {
      var a := Acquire(s, pe, true);
      AcquireShape(s, pe);
      hide Started, Began, NothingLeft, Shape;
      GrantOutcome(a, pe, t);
      assert a.ram == s.ram + [RM.Asked(pe, s.pieceLength, true)];
    }
  }

  lemma AcquireShape(s: State, pe: Peer)
    requires Shape(s)
    ensures Shape(Acquire(s, pe, true))
  {
  }

  /** How many requests a peer may have out: what its handshake names, or the default
      when that is nothing positive, but never more than the limit. */
  lemma RequestLimit(s: State, peer: PeerState)
    ensures MaxAllowedRequests(s, peer) <= s.maxRequestsOut
    ensures peer.requestQueue.Some? && 0 < peer.requestQueue.value <= s.maxRequestsOut ==>
              MaxAllowedRequests(s, peer) == peer.requestQueue.value
    ensures peer.requestQueue.Some? && 0 < peer.requestQueue.value && s.maxRequestsOut < peer.requestQueue.value ==>
              MaxAllowedRequests(s, peer) == s.maxRequestsOut
    ensures (peer.requestQueue.None? || peer.requestQueue.value <= 0) && s.defaultRequestsOut <= s.maxRequestsOut ==>
              MaxAllowedRequests(s, peer) == s.defaultRequestsOut
  {
  }
}
