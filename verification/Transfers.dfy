/** What single messages do to the download they belong to, told by its blocks. */
module Transfers {
  import opened Common
  import opened Blocks
  import opened PeerSets
  import opened Pickers
  import opened Engine
  import opened EventLoop
  import PD = PieceDownloaders
  import RM = ResourceManagers

  /** A rejected block goes back behind those that are still to be requested. */
  lemma RejectedExactly(s: State, pe: Peer, index: nat, begin: nat, length: nat, b: Block, t: State)
    requires MessageStep(s, pe, RejectMessage(index, begin, length), t) && Downloads(s, pe, index) && index < s.N()
    requires b.begin == begin && b.length == length && GetBlock(s.lengths[index], b.index) == Some(b)
    ensures var d := s.downloaders[pe];
            t == s.(downloaders := s.downloaders[pe := d.(pending := d.pending - {b.index},
                                                         remaining := d.remaining + [b.index])])
  {
    FindBlockExact(s.lengths[index], begin, length, b);
  }

  /** The piece with one more block in it. */
  ghost predicate Grown(before: bytes, b: Block, data: bytes, after: bytes) {
    && |after| == |before| && b.begin + b.length <= |before| && after[b.begin..b.begin + b.length] == data
    && forall k :: 0 <= k < |before| && !(b.begin <= k < b.begin + b.length) ==> after[k] == before[k]
  }

  lemma SpliceGrown(before: bytes, b: Block, data: bytes)
    requires b.begin + b.length <= |before| && |data| == b.length
    ensures Grown(before, b, data, Splice(before, b.begin, data))
  {
  }

  /** The last block hands the whole piece to the writer, charged to its sender. */
  ghost predicate HandedOver(d: PD.Downloader, pe: Peer, b: Block, data: bytes, t: State) {
    && t.suspended && t.writer.Some? && t.writer.value.piece == d.piece && t.writer.value.source == pe
    && Grown(d.buffer, b, data, t.writer.value.buffer)
  }

  /** Any other joins those that are done; unless the peer chokes an ordinary download,
      requests go on to the limit. */
  ghost predicate WentOn(d: PD.Downloader, choking: bool, limit: int, b: Block, data: bytes, e: PD.Downloader) {
    && e.done == d.done + {b.index} && e.piece == d.piece && Grown(d.buffer, b, data, e.buffer)
    && if d.allowedFast || !choking then e.remaining == [] || |e.pending| >= limit
       else e.remaining == d.remaining && e.pending == d.pending - {b.index}
  }

  /** A new block of the piece being downloaded. */
  lemma ReceivedExactly(s: State, pe: Peer, index: nat, data: bytes, b: Block, t: State)
    requires Sound(s) && PieceStep(s, pe, index, b.begin, data, t) && Downloads(s, pe, index)
    requires index < s.N() && GetBlock(s.lengths[index], b.index) == Some(b) && |data| == b.length
    requires b.index !in s.downloaders[pe].done
    ensures pe in s.peers
    ensures var d := s.downloaders[pe];
            if |d.done| + 1 == NumBlocks(s.lengths[index]) then HandedOver(d, pe, b, data, t)
            else
              && pe in t.downloaders && t == SetDownloader(s, pe, t.downloaders[pe])
              && WentOn(d, s.peers[pe].peerChoking, MaxAllowedRequests(s, s.peers[pe]), b, data, t.downloaders[pe])
  {
    hide ClosedPeer, Sound, Finished, Grown;
    FindBlockExact(s.lengths[index], b.begin, |data|, b);
    SoundOf(s, pe);
    var d := s.downloaders[pe];
    PD.ReceiveExact(d, b, data);
    SpliceGrown(d.buffer, b, data);
    var r := PD.Receive(d, b, data).0;
    if r.Done() {
      LastBlock(SetDownloader(s, pe, r), pe, t);
    } else {
      PD.RequestCorrect(r, MaxAllowedRequests(s, s.peers[pe]));
    }
  }

  lemma SoundOf(s: State, pe: Peer)
    requires Sound(s) && pe in s.downloaders
    ensures SoundOne(s.downloaders[pe], s.lengths)
  {
  }

  lemma LastBlock(s: State, pe: Peer, t: State)
    requires Finished(s, pe, t)
    ensures t.suspended && t.writer == Some(Write(s.downloaders[pe].piece, pe, s.downloaders[pe].buffer))
  {
  }

  /** A choke leaves the downloader of its sender alone but for what Choke does to it:
      whoever is downloading is passed over by the start of further downloads. */
  lemma {:induction false} StartEachBusy(s: State, order: seq<Peer>, t: State, pe: Peer)
    requires StartEach(s, order, t) && pe in s.peers && s.peers[pe].downloading && pe in s.downloaders
    ensures pe in t.peers && t.peers[pe].downloading && pe in t.downloaders && t.downloaders[pe] == s.downloaders[pe]
  {
    if order != [] {
      hide AskedFor;
      var front, last := order[..|order| - 1], order[|order| - 1];
      var m :| StartEach(s, front, m) && StartOne(m, last, t);
      StartEachBusy(s, front, m, pe);
      if t != m { OthersBusy(m, last, t, pe); }
    }
  }

  lemma OthersBusy(s: State, last: Peer, t: State, pe: Peer)
    requires AskedFor(s, last, t) && pe != last && pe in s.peers && pe in s.downloaders
    ensures pe in t.peers && t.peers[pe] == s.peers[pe] && pe in t.downloaders && t.downloaders[pe] == s.downloaders[pe]
  {
  }

  lemma StartAllBusy(s: State, t: State, pe: Peer)
    requires StartAll(s, t) && pe in s.peers && s.peers[pe].downloading && pe in s.downloaders
    ensures pe in t.downloaders && t.downloaders[pe] == s.downloaders[pe]
  {
    if s.Status() == Downloading {
      hide StartEach;
      var order: seq<Peer> :| Enumerates(order, s.connected) && StartEach(s, order, t);
      StartEachBusy(s, order, t, pe);
    }
  }

  /** A choke of an ordinary download. Without the Fast Extension nothing is in flight any
      more and every block that has not arrived is to be requested again; with it the
      download stays as it is, as the peer will reject what it does not send. */
  lemma ChokedExactly(s: State, pe: Peer, t: State)
    requires Inv(s) && Sound(s) && MessageStep(s, pe, ChokeMessage, t)
    requires pe in s.downloaders && !s.downloaders[pe].allowedFast
    ensures pe in t.downloaders
    ensures var d, e := s.downloaders[pe], t.downloaders[pe];
            && e.piece == d.piece && e.done == d.done && e.buffer == d.buffer
            && if s.peers[pe].fastEnabled then e == d
               else e.pending == {}
                    && forall i: nat :: i < NumBlocks(s.lengths[d.piece]) && i !in d.done ==> i in e.remaining
  {
    hide StartAll, Inv, Sound;
    SoundOf(s, pe);
    BusyOf(s, pe);
    var u := SetPeer(s, pe, s.peers[pe].(peerChoking := true));
    var order: seq<nat> :| PD.Enumerates(order, s.downloaders[pe].pending) && StartAll(Choked(u, pe, order), t);
    StartAllBusy(Choked(u, pe, order), t, pe);
  }

  lemma BusyOf(s: State, pe: Peer)
    requires Inv(s) && pe in s.downloaders
    ensures pe in s.peers && s.peers[pe].downloading && s.picker.Some? && s.downloaders[pe].piece < s.N()
    ensures s.picker.value.Valid() && |s.picker.value.pieces| == s.N()
  {
    assert DownloaderOk(s, pe);
  }

  /** An unchoke of an ordinary download: requests go on to the limit, and the peer no
      longer counts as choked for the piece. */
  lemma ResumedExactly(s: State, pe: Peer, t: State)
    requires Inv(s) && Sound(s) && MessageStep(s, pe, UnchokeMessage, t)
    requires pe in s.downloaders && !s.downloaders[pe].allowedFast
    ensures pe in t.downloaders && t.picker.Some?
    ensures var d, e := s.downloaders[pe], t.downloaders[pe];
            && e.piece == d.piece < |t.picker.value.pieces| && e.done == d.done && e.buffer == d.buffer
            && d.pending <= e.pending
            && (e.remaining == [] || |e.pending| >= MaxAllowedRequests(s, s.peers[pe]))
            && pe !in t.picker.value.pieces[d.piece].choked.live
  {
    hide Inv, Sound, PD.Request;
    SoundOf(s, pe);
    BusyOf(s, pe);
    var d := s.downloaders[pe];
    PD.RequestCorrect(d, MaxAllowedRequests(s, s.peers[pe]));
    RemovedMembers(s.picker.value.pieces[d.piece].choked, pe);
  }
}
