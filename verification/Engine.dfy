/** The download engine of one torrent (filechain/torrent_*.go) as a state machine over
    the messages its event loop receives, for one epoch: from the creation of the piece
    picker until completion or stop. The class in Torrents.dfy implements these steps. */
module Engine {
  import opened Common
  import opened Blocks
  import opened PeerSets
  import opened Pickers
  import RM = ResourceManagers
  import PD = PieceDownloaders

  datatype Status = Stopped | DownloadingMetadata | Allocating | Verifying | Downloading | Seeding | Stopping

  /** The piece being hashed and written by the PieceWriter goroutine. */
  datatype Write = Write(piece: nat, source: Peer, buffer: bytes)

  datatype State = State(
    running: bool,                        // errC != nil
    completed: bool,
    pieceLength: nat,
    lengths: seq<nat>,                    // Piece.Length
    flags: seq<PieceState>,               // Piece.Done, Piece.Writing
    bitfield: seq<bool>,
    picker: Option<Picker>,
    downloaders: map<Peer, PD.Downloader>,
    peers: map<Peer, PeerState>,          // every peer seen in this epoch
    connected: set<Peer>,
    suspended: bool,                      // pieceMessagesC
    writer: Option<Write>,
    maxRequestsOut: int,
    defaultRequestsOut: int,
    ram: seq<RM.RamEvent>)                // what passed between this torrent and the manager
  {
    function N(): nat {
      |lengths|
    }

    /** status() with the allocator and verifier gone and the info known. */
    function Status(): Status {
      if !running then Stopped else if completed then Seeding else Downloading
    }
  }

  function AllSet(bits: seq<bool>): bool {
    forall i :: 0 <= i < |bits| ==> bits[i]
  }

  function MaxAllowedRequests(s: State, peer: PeerState): int {
    var ret := if peer.requestQueue.Some? && peer.requestQueue.value > 0 then peer.requestQueue.value
               else s.defaultRequestsOut;
    Min(ret, s.maxRequestsOut)
  }

  function NewPeer(n: nat): PeerState {
    PeerState(false, false, false, false, true, seq(n, _ => false), [], None)
  }

  // ---- what holds between any two handlers

  ghost predicate Shape(s: State) {
    && |s.flags| == |s.bitfield| == s.N()
    && (s.picker.Some? ==> Fits(s.picker.value, s.flags))
    && s.connected <= s.peers.Keys
    && (forall pe :: pe in s.peers ==>
          |s.peers[pe].bitfield| == s.N()
          && forall k :: 0 <= k < |s.peers[pe].allowedFast| ==> s.peers[pe].allowedFast[k] < s.N())
  }

  ghost predicate DownloaderOk(s: State, pe: Peer) {
    && pe in s.downloaders && pe in s.peers && s.peers[pe].downloading
    && s.downloaders[pe].piece < |s.flags|
  }

  /** pieceDownloaders, Peer.Downloading and the picker's Requested sets agree. */
  ghost predicate Agree(s: State) {
    && (forall pe :: pe in s.downloaders ==> DownloaderOk(s, pe))
    && (forall pe :: pe in s.peers && s.peers[pe].downloading ==> pe in s.downloaders)
    && (s.picker.None? ==> s.downloaders == map[])
    && (s.picker.Some? ==> forall i, pe :: 0 <= i < |s.picker.value.pieces| ==>
          (s.picker.value.pieces[i].requested.Has(pe) <==> Downloads(s, pe, i)))
  }

  /** A done piece has no downloader; `but` is a piece still being cleaned up, or -1. */
  ghost predicate DoneFree(s: State, but: int) {
    forall pe :: pe in s.downloaders && s.downloaders[pe].piece < |s.flags| && s.downloaders[pe].piece != but ==>
      !s.flags[s.downloaders[pe].piece].done
  }

  /** Every downloader collects the blocks of a piece of this torrent, and a whole piece
      is written. */
  ghost predicate Sound(s: State) {
    && (forall pe :: pe in s.downloaders ==> SoundOne(s.downloaders[pe], s.lengths))
    && (s.writer.Some? ==>
          s.writer.value.piece < |s.lengths| && |s.writer.value.buffer| == s.lengths[s.writer.value.piece])
  }

  ghost predicate SoundOne(d: PD.Downloader, lengths: seq<nat>) {
    d.Valid() && d.piece < |lengths| && d.length == lengths[d.piece]
  }

  ghost predicate Downloads(s: State, pe: Peer, i: nat) {
    pe in s.downloaders && s.downloaders[pe].piece == i
  }

  /** At most one piece is being written, it is not done, and the piece channel is
      suspended exactly then; Done and the bitfield agree. */
  ghost predicate Writing(s: State) {
    && (forall i :: 0 <= i < |s.flags| && i < |s.bitfield| ==> s.flags[i].done == s.bitfield[i])
    && (s.suspended <==> s.writer.Some?)
    && (forall i :: 0 <= i < |s.flags| ==> (s.flags[i].writing <==> s.writer.Some? && s.writer.value.piece == i))
    && (s.writer.Some? ==>
          var w := s.writer.value;
          w.piece < s.N() && w.piece < |s.flags| && !s.flags[w.piece].done && w.source in s.peers)
  }

  ghost predicate Duplicates(s: State) {
    s.picker.Some? ==> forall i :: 0 <= i < |s.picker.value.pieces| ==>
      || |s.picker.value.pieces[i].requested.live| <= 1
      || |s.picker.value.pieces[i].requested.live| <= s.picker.value.maxDuplicate
  }

  /** One object of pieceLength bytes is held for each live downloader, and nothing was
      ever given back that was not held. */
  ghost predicate Balanced(s: State) {
    Owes(s.ram, s.pieceLength) && RM.Live(s.ram) == |s.downloaders|
  }

  ghost predicate Owes(ram: seq<RM.RamEvent>, n: nat) {
    && (forall k :: 0 <= k < |ram| ==> ram[k].n == n)
    && (forall k :: 0 <= k <= |ram| ==> RM.Live(ram[..k]) >= 0)
  }

  ghost predicate Phase(s: State) {
    s.running && !s.completed <==> s.picker.Some?
  }

  ghost predicate Complete(s: State) {
    s.running ==> (s.completed <==> AllSet(s.bitfield))
  }

  /** The part that also holds in the middle of a handler. */
  ghost predicate Core(s: State) {
    Shape(s) && Agree(s) && Duplicates(s) && Balanced(s) && Phase(s)
  }

  ghost predicate Inv(s: State) {
    Core(s) && DoneFree(s, -1) && Writing(s) && Complete(s)
  }

  // ---- the steps the handlers are made of

  function Flag(peers: map<Peer, PeerState>, pe: Peer, downloading: bool): map<Peer, PeerState> {
    if pe in peers then peers[pe := peers[pe].(downloading := downloading)] else peers
  }

  function CloseDownloader(s: State, pe: Peer): State {
    if pe !in s.downloaders then s
    else
      s.(downloaders := s.downloaders - {pe},
         picker := match s.picker
                   case None => None
                   case Some(p) => Some(Cancel(p, pe, s.downloaders[pe].piece)),
         peers := Flag(s.peers, pe, false),
         ram := s.ram + [RM.Released(s.pieceLength)])
  }

  lemma OwesSnoc(ram: seq<RM.RamEvent>, n: nat, e: RM.RamEvent)
    requires Owes(ram, n) && e.n == n && RM.Live(ram) + RM.Live([e]) >= 0
    ensures Owes(ram + [e], n) && RM.Live(ram + [e]) == RM.Live(ram) + RM.Live([e])
  {
    RM.HeldSnoc(ram, e);
    forall k | 0 <= k <= |ram| + 1 ensures RM.Live((ram + [e])[..k]) >= 0 {
      if k <= |ram| { assert (ram + [e])[..k] == ram[..k]; } else { assert (ram + [e])[..k] == ram + [e]; }
    }
  }

  lemma LiveOne(e: RM.RamEvent)
    ensures RM.Live([e])
              == match e case Asked(_, _, a) => (if a then 1 else 0) case Granted(_, _) => 1 case Released(_) => -1
  {
    assert [e][..0] == [];
  }

  lemma CloseDownloaderAgree(s: State, pe: Peer)
    requires Shape(s) && Agree(s)
    ensures Shape(CloseDownloader(s, pe)) && Agree(CloseDownloader(s, pe))
  {
    if pe in s.downloaders {
      assert DownloaderOk(s, pe);
      var i := s.downloaders[pe].piece;
      var t := CloseDownloader(s, pe);
      CancelPieceCorrect(s.picker.value.pieces[i], pe);
      var p := t.picker.value;
      assert Shape(t);
      forall q | q in t.downloaders ensures DownloaderOk(t, q) { assert DownloaderOk(s, q); }
      forall j, q | 0 <= j < t.N() ensures p.pieces[j].requested.Has(q) <==> Downloads(t, q, j) {
        assert s.picker.value.pieces[j].requested.Has(q) <==> Downloads(s, q, j);
      }
    }
  }

  lemma CloseDownloaderRest(s: State, pe: Peer)
    requires Shape(s) && Duplicates(s)
    ensures Duplicates(CloseDownloader(s, pe))
  {
    if pe in s.downloaders && s.picker.Some? {
      var p, i := s.picker.value, s.downloaders[pe].piece;
      if i < |p.pieces| { CancelPieceCorrect(p.pieces[i], pe); }
    }
  }

  lemma CloseDownloaderBalanced(s: State, pe: Peer)
    requires Balanced(s)
    ensures Balanced(CloseDownloader(s, pe))
  {
    if pe in s.downloaders {
      var t := CloseDownloader(s, pe);
      assert t.downloaders.Keys == s.downloaders.Keys - {pe};
      LiveOne(RM.Released(s.pieceLength));
      OwesSnoc(s.ram, s.pieceLength, RM.Released(s.pieceLength));
    }
  }

  lemma CloseDownloaderDoneFree(s: State, pe: Peer, but: int)
    requires DoneFree(s, but)
    ensures DoneFree(CloseDownloader(s, pe), but)
  {
  }

  lemma CloseDownloaderCore(s: State, pe: Peer)
    requires Core(s)
    ensures Core(CloseDownloader(s, pe))
  {
    CloseDownloaderAgree(s, pe);
    CloseDownloaderRest(s, pe);
    CloseDownloaderBalanced(s, pe);
  }

  /** closePeer without the redial. */
  function ClosePeer(s: State, pe: Peer): State {
    Forget(CloseDownloader(s, pe), pe)
  }

  /** A peer without a downloader leaves the picker's indexes. */
  function Forget(s: State, pe: Peer): State {
    s.(connected := s.connected - {pe},
       picker := match s.picker case None => None case Some(p) => Some(Disconnect(p, pe)))
  }

  lemma ForgetPieces(s: State, pe: Peer, i: nat)
    requires Shape(s) && s.picker.Some? && i < s.N()
    ensures var p, q := s.picker.value, Forget(s, pe).picker.value;
            && q.pieces[i].Valid()
            && |q.pieces[i].requested.live| <= |p.pieces[i].requested.live|
            && (forall pq :: q.pieces[i].requested.Has(pq) <==> p.pieces[i].requested.Has(pq) && pq != pe)
  {
    CancelPieceCorrect(s.picker.value.pieces[i], pe);
  }

  lemma ForgetAgree(s: State, pe: Peer)
    requires Shape(s) && Agree(s) && pe !in s.downloaders
    ensures Shape(Forget(s, pe)) && Agree(Forget(s, pe))
  {
    var t := Forget(s, pe);
    if s.picker.Some? {
      forall i | 0 <= i < s.N() ensures t.picker.value.pieces[i].Valid() { ForgetPieces(s, pe, i); }
    }
    assert Shape(t);
    forall pq | pq in t.downloaders ensures DownloaderOk(t, pq) { assert DownloaderOk(s, pq); }
    if s.picker.Some? {
      forall i, pq | 0 <= i < t.N() ensures t.picker.value.pieces[i].requested.Has(pq) <==> Downloads(t, pq, i) {
        ForgetPieces(s, pe, i);
        assert s.picker.value.pieces[i].requested.Has(pq) <==> Downloads(s, pq, i);
      }
    }
  }

  lemma ClosePeerCore(s: State, pe: Peer)
    requires Core(s)
    ensures Core(ClosePeer(s, pe))
  {
    CloseDownloaderCore(s, pe);
    var m := CloseDownloader(s, pe);
    ForgetAgree(m, pe);
    assert ClosePeer(s, pe) == Forget(m, pe);
    if m.picker.Some? {
      var t := Forget(m, pe);
      forall i | 0 <= i < m.N()
        ensures |t.picker.value.pieces[i].requested.live| <= |m.picker.value.pieces[i].requested.live|
      {
        ForgetPieces(m, pe, i);
      }
    }
  }

  /** Peers that dialAddresses or an incoming stream add. */
  ghost function WithPeers(s: State, dialled: set<Peer>): State {
    s.(peers := s.peers + (map pe | pe in dialled :: NewPeer(s.N())), connected := s.connected + dialled)
  }

  ghost predicate ClosedPeer(s: State, pe: Peer, t: State) {
    exists dialled: set<Peer> ::
      && dialled !! s.peers.Keys && (s.completed ==> dialled == {})
      && t == WithPeers(ClosePeer(s, pe), dialled)
  }

  lemma WithPeersAgree(s: State, dialled: set<Peer>)
    requires Shape(s) && Agree(s) && dialled !! s.peers.Keys
    ensures Shape(WithPeers(s, dialled)) && Agree(WithPeers(s, dialled))
  {
    var t := WithPeers(s, dialled);
    forall pe | pe in t.downloaders ensures DownloaderOk(t, pe) { assert DownloaderOk(s, pe); }
    assert forall i, pe :: 0 <= i < s.N() ==> (Downloads(t, pe, i) <==> Downloads(s, pe, i));
  }

  lemma WithPeersCore(s: State, dialled: set<Peer>)
    requires Core(s) && dialled !! s.peers.Keys
    ensures Core(WithPeers(s, dialled))
  {
    WithPeersAgree(s, dialled);
  }

  /** What starting, cancelling or closing leaves alone. */
  ghost predicate SameButDownloads(s: State, t: State) {
    t == s.(picker := t.picker, downloaders := t.downloaders, peers := t.peers, connected := t.connected, ram := t.ram)
    && s.peers.Keys <= t.peers.Keys
  }

  lemma ClosedPeerFrame(s: State, pe: Peer, t: State)
    requires ClosedPeer(s, pe, t)
    ensures SameButDownloads(s, t)
    ensures t.downloaders == s.downloaders - {pe}
  {
  }

  lemma ClosedPeerCore(s: State, pe: Peer, t: State)
    requires Core(s) && ClosedPeer(s, pe, t)
    ensures Core(t)
  {
    var dialled: set<Peer> :| dialled !! s.peers.Keys && (s.completed ==> dialled == {})
        && t == WithPeers(ClosePeer(s, pe), dialled);
    ClosePeerCore(s, pe);
    WithPeersCore(ClosePeer(s, pe), dialled);
  }

  /** A step that leaves flags, bitfield and writer alone keeps what relates them. */
  lemma WritingFrame(s: State, t: State)
    requires Writing(s) && SameButDownloads(s, t)
    ensures Writing(t)
  {
  }

  lemma RestFrame(s: State, t: State)
    requires Writing(s) && Complete(s) && SameButDownloads(s, t)
    ensures Writing(t) && Complete(t)
  {
  }

  // ---- starting downloads

  /** What a start may choose: the picker's answer and the stale pool buffer. */
  datatype Choice = Choice(r: Option<nat>, fast: bool, endgame: bool, buffer: bytes)

  function Buffer(b: bytes, length: nat): (r: bytes)
    ensures |r| == length
  {
    if |b| == length then b else seq(length, _ => 0)
  }

  /** A new downloader of piece i; `buffer` is whatever the pool hands out. */
  ghost function Begin(s: State, pe: Peer, i: nat, fast: bool, e: bool, buffer: bytes): State
    requires pe in s.peers && s.picker.Some? && i < s.N()
  {
    var d := PD.New(i, s.lengths[i], fast, Buffer(buffer, s.lengths[i]));
    s.(picker := Some(Picked(s.picker.value, pe, Some(i), e)),
       downloaders := s.downloaders[pe := PD.Request(d, MaxAllowedRequests(s, s.peers[pe])).0],
       peers := Flag(s.peers, pe, true))
  }

  ghost predicate StartedAs(s: State, pe: Peer, c: Choice, t: State) {
    && pe in s.peers && s.picker.Some?
    && Found(s.picker.value, s.flags, s.peers[pe], pe, c.r, c.fast, c.endgame)
    && match c.r
       case None =>
         t == s.(picker := Some(s.picker.value.(endgame := c.endgame)), ram := s.ram + [RM.Released(s.pieceLength)])
       case Some(i) =>
         i < s.N() && t == Begin(s, pe, i, c.fast, c.endgame, c.buffer)
  }

  /** startSinglePieceDownloader, entered with one object of RAM in hand. */
  ghost predicate Started(s: State, pe: Peer, t: State)
  {
    if s.Status() != Downloading then t == s.(ram := s.ram + [RM.Released(s.pieceLength)])
    else exists c: Choice :: StartedAs(s, pe, c, t)
  }

  ghost function Acquire(s: State, pe: Peer, acquired: bool): State {
    s.(ram := s.ram + [RM.Asked(pe, s.pieceLength, acquired)])
  }

  /** startPieceDownloaderFor: the RAM manager may refuse. */
  ghost predicate AskedFor(s: State, pe: Peer, t: State)
  {
    if s.Status() != Downloading then t == s
    else t == Acquire(s, pe, false) || Started(Acquire(s, pe, true), pe, t)
  }

  /** Holding one more object than there are downloaders. */
  ghost predicate CoreWithRam(s: State) {
    && Shape(s) && Agree(s) && Duplicates(s) && Phase(s)
    && Owes(s.ram, s.pieceLength) && RM.Live(s.ram) == |s.downloaders| + 1
  }

  /** "peer already has a piece downloader" is unreachable. */
  lemma NotDownloading(s: State, pe: Peer)
    requires Agree(s) && pe in s.peers
    ensures pe in s.downloaders <==> s.peers[pe].downloading
  {
    assert pe in s.downloaders ==> DownloaderOk(s, pe);
  }

  lemma BeginAgree(s: State, pe: Peer, i: nat, fast: bool, e: bool, buffer: bytes)
    requires Shape(s) && Agree(s) && pe in s.peers && s.picker.Some?
    requires i < s.N() && !s.peers[pe].downloading
    ensures Shape(Begin(s, pe, i, fast, e, buffer)) && Agree(Begin(s, pe, i, fast, e, buffer))
  {
    var t := Begin(s, pe, i, fast, e, buffer);
    var p, q := s.picker.value, t.picker.value;
    NotDownloading(s, pe);
    AddCorrect(p.pieces[i].requested, pe);
    BeginPiece(s, pe, i, fast, buffer);
    assert Shape(t);
    forall pq | pq in t.downloaders ensures DownloaderOk(t, pq) {
      if pq != pe { assert DownloaderOk(s, pq); }
    }
    forall j, pq | 0 <= j < t.N() ensures q.pieces[j].requested.Has(pq) <==> Downloads(t, pq, j) {
      assert p.pieces[j].requested.Has(pq) <==> Downloads(s, pq, j);
    }
  }

  lemma BeginPiece(s: State, pe: Peer, i: nat, fast: bool, buffer: bytes)
    requires pe in s.peers && i < s.N()
    ensures var d0 := PD.New(i, s.lengths[i], fast, Buffer(buffer, s.lengths[i]));
            var d := PD.Request(d0, MaxAllowedRequests(s, s.peers[pe])).0;
            d.piece == i && SoundOne(d, s.lengths)
  {
    PD.RequestCorrect(PD.New(i, s.lengths[i], fast, Buffer(buffer, s.lengths[i])), MaxAllowedRequests(s, s.peers[pe]));
  }

  lemma BeginRest(s: State, pe: Peer, i: nat, fast: bool, e: bool, buffer: bytes)
    requires Shape(s) && Duplicates(s) && pe in s.peers && s.picker.Some? && i < s.N()
    requires var n := |s.picker.value.pieces[i].requested.live|; n == 0 || n < s.picker.value.maxDuplicate
    ensures var t := Begin(s, pe, i, fast, e, buffer); Duplicates(t)
  {
    AddCorrect(s.picker.value.pieces[i].requested, pe);
    BeginPiece(s, pe, i, fast, buffer);
  }

  lemma BeginBalanced(s: State, pe: Peer, i: nat, fast: bool, e: bool, buffer: bytes)
    requires pe in s.peers && s.picker.Some? && i < s.N() && pe !in s.downloaders
    requires Owes(s.ram, s.pieceLength) && RM.Live(s.ram) == |s.downloaders| + 1
    ensures Balanced(Begin(s, pe, i, fast, e, buffer))
  {
    assert Begin(s, pe, i, fast, e, buffer).downloaders.Keys == s.downloaders.Keys + {pe};
  }

  lemma BeginCore(s: State, pe: Peer, i: nat, fast: bool, e: bool, buffer: bytes)
    requires CoreWithRam(s) && pe in s.peers && s.picker.Some?
    requires i < s.N() && !s.peers[pe].downloading
    requires var n := |s.picker.value.pieces[i].requested.live|; n == 0 || n < s.picker.value.maxDuplicate
    ensures Core(Begin(s, pe, i, fast, e, buffer))
  {
    NotDownloading(s, pe);
    BeginAgree(s, pe, i, fast, e, buffer);
    BeginRest(s, pe, i, fast, e, buffer);
    BeginBalanced(s, pe, i, fast, e, buffer);
  }

  /** Starting a download for pe touches no other downloader, and never one of a done
      piece. */
  ghost predicate StartFrame(s: State, pe: Peer, t: State) {
    && SameButDownloads(s, t) && t.peers.Keys == s.peers.Keys && t.connected == s.connected
    && t.downloaders - {pe} == s.downloaders - {pe}
    && (pe in t.downloaders && t.downloaders[pe].piece < |s.flags| && s.flags[t.downloaders[pe].piece].done ==>
          pe in s.downloaders && s.downloaders[pe] == t.downloaders[pe])
  }

  lemma BeginFrame(s: State, pe: Peer, i: nat, fast: bool, e: bool, buffer: bytes)
    requires pe in s.peers && s.picker.Some? && i < s.N()
    requires i < |s.flags| && !s.flags[i].done
    ensures StartFrame(s, pe, Begin(s, pe, i, fast, e, buffer))
  {
    BeginPiece(s, pe, i, fast, buffer);
    var t := Begin(s, pe, i, fast, e, buffer);
    assert t.downloaders - {pe} == s.downloaders - {pe};
  }

  lemma StartedFrame(s: State, pe: Peer, t: State)
    requires Started(s, pe, t)
    ensures StartFrame(s, pe, t)
  {
    if s.Status() == Downloading {
      var c :| StartedAs(s, pe, c, t);
      if c.r.Some? {
        FoundSafe(s.picker.value, s.flags, s.peers[pe], pe, c.r.value, c.fast, c.endgame);
        BeginFrame(s, pe, c.r.value, c.fast, c.endgame, c.buffer);
      }
    }
  }

  lemma FrameDoneFree(s: State, pe: Peer, t: State, but: int)
    requires StartFrame(s, pe, t) && DoneFree(s, but)
    ensures DoneFree(t, but)
  {
    forall q | q in t.downloaders && t.downloaders[q].piece < |t.flags| && t.downloaders[q].piece != but
      ensures !t.flags[t.downloaders[q].piece].done
    {
      if q != pe {
        assert q in t.downloaders - {pe};
        assert q in s.downloaders && s.downloaders[q] == (t.downloaders - {pe})[q];
      }
    }
  }

  lemma StartedAsCore(s: State, pe: Peer, c: Choice, t: State)
    requires CoreWithRam(s) && StartedAs(s, pe, c, t)
    ensures Core(t)
  {
    if c.r.Some? {
      FoundSafe(s.picker.value, s.flags, s.peers[pe], pe, c.r.value, c.fast, c.endgame);
      BeginCore(s, pe, c.r.value, c.fast, c.endgame, c.buffer);
    } else {
      ReleaseCore(s, t);
    }
  }

  lemma StartedCore(s: State, pe: Peer, t: State)
    requires CoreWithRam(s) && pe in s.peers && Started(s, pe, t)
    ensures Core(t)
  {
    if s.Status() == Downloading {
      var c :| StartedAs(s, pe, c, t);
      StartedAsCore(s, pe, c, t);
    } else {
      ReleaseCore(s, t);
    }
  }

  lemma ReleaseCore(s: State, t: State)
    requires CoreWithRam(s)
    requires t == s.(ram := s.ram + [RM.Released(s.pieceLength)], picker := t.picker)
    requires s.picker.Some? <==> t.picker.Some?
    requires s.picker.Some? ==> t.picker.value == s.picker.value.(endgame := t.picker.value.endgame)
    ensures Core(t)
  {
    LiveOne(RM.Released(s.pieceLength));
    OwesSnoc(s.ram, s.pieceLength, RM.Released(s.pieceLength));
    SameDownloads(s, t);
  }

  /** Nothing that Inv relates has changed but the ledger and the endgame flag. */
  lemma SameDownloads(s: State, t: State)
    requires Shape(s) && Agree(s) && Duplicates(s) && Phase(s)
    requires t == s.(ram := t.ram, picker := t.picker)
    requires s.picker.Some? <==> t.picker.Some?
    requires s.picker.Some? ==> t.picker.value == s.picker.value.(endgame := t.picker.value.endgame)
    requires Balanced(t)
    ensures Core(t)
  {
    assert Shape(t);
    forall pe | pe in t.downloaders ensures DownloaderOk(t, pe) { assert DownloaderOk(s, pe); }
    assert forall i, pe :: 0 <= i < s.N() ==> (Downloads(t, pe, i) <==> Downloads(s, pe, i));
  }

  /** One more piece length is owed: an immediate grant or a deferred one. */
  lemma LedgerUp(s: State, e: RM.RamEvent)
    requires Core(s) && e.n == s.pieceLength && RM.Live([e]) == 1
    ensures CoreWithRam(s.(ram := s.ram + [e]))
  {
    var t := s.(ram := s.ram + [e]);
    OwesSnoc(s.ram, s.pieceLength, e);
    forall q | q in t.downloaders ensures DownloaderOk(t, q) { assert DownloaderOk(s, q); }
    assert forall i, q :: 0 <= i < s.N() ==> (Downloads(t, q, i) <==> Downloads(s, q, i));
  }

  lemma LedgerSame(s: State, e: RM.RamEvent)
    requires Core(s) && e.n == s.pieceLength && RM.Live([e]) == 0
    ensures Core(s.(ram := s.ram + [e]))
  {
    OwesSnoc(s.ram, s.pieceLength, e);
    SameDownloads(s, s.(ram := s.ram + [e]));
  }

  lemma AcquireCore(s: State, pe: Peer)
    requires Core(s)
    ensures Core(Acquire(s, pe, false)) && CoreWithRam(Acquire(s, pe, true))
  {
    LiveOne(RM.Asked(pe, s.pieceLength, false));
    LiveOne(RM.Asked(pe, s.pieceLength, true));
    LedgerSame(s, RM.Asked(pe, s.pieceLength, false));
    LedgerUp(s, RM.Asked(pe, s.pieceLength, true));
  }

  lemma AskedForCore(s: State, pe: Peer, t: State)
    requires Core(s) && pe in s.peers && AskedFor(s, pe, t)
    ensures Core(t)
  {
    if s.Status() == Downloading {
      AcquireCore(s, pe);
      if t != Acquire(s, pe, false) { StartedCore(Acquire(s, pe, true), pe, t); }
    }
  }

  lemma AskedForFrame(s: State, pe: Peer, t: State)
    requires AskedFor(s, pe, t)
    ensures StartFrame(s, pe, t)
  {
    if s.Status() == Downloading && t != Acquire(s, pe, false) {
      StartedFrame(Acquire(s, pe, true), pe, t);
    }
  }

  lemma StartedSound(s: State, pe: Peer, t: State)
    requires Started(s, pe, t) && Sound(s)
    ensures Sound(t)
  {
    if s.Status() == Downloading {
      var c :| StartedAs(s, pe, c, t);
      if c.r.Some? { BeginPiece(s, pe, c.r.value, c.fast, c.buffer); }
    }
  }

  lemma AskedForSound(s: State, pe: Peer, t: State)
    requires AskedFor(s, pe, t) && Sound(s)
    ensures Sound(t)
  {
    if s.Status() == Downloading && t != Acquire(s, pe, false) {
      StartedSound(Acquire(s, pe, true), pe, t);
    }
  }
}
