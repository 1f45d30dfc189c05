/** The cases of torrent.run (filechain/torrent_run.go) as a transition relation, and the
    safety of every run of one epoch. */
module EventLoop {
  import opened Common
  import opened Blocks
  import opened PeerSets
  import opened Pickers
  import opened Engine
  import RM = ResourceManagers
  import PD = PieceDownloaders

  datatype Message =
    | HaveMessage(index: nat)
    | BitfieldMessage(size: nat, bits: seq<bool>)  // len(Data) and its bits, once it fits
    | HaveAllMessage
    | HaveNoneMessage
    | AllowedFastMessage(index: nat)
    | UnchokeMessage
    | ChokeMessage
    | InterestedMessage
    | NotInterestedMessage
    | RejectMessage(index: nat, begin: nat, length: nat)
    | RequestMessage(index: nat, begin: nat, length: nat)
    | CancelMessage(index: nat, begin: nat, length: nat)
    | ExtensionHandshakeMessage(requestQueue: int)
    | PassiveMessage  // BlockUploaded, and extension messages once the info is known
    | PortMessage(port: nat)

  datatype Event =
    | PeerMessage(pe: Peer, m: Message)
    | PieceMessage(pe: Peer, index: nat, begin: nat, data: bytes)
    | WriteDone(hashOK: bool, failed: bool, stop: bool)  // stop: StopAfterDownload or a failing resume write
    | RamNotify(pe: Peer)
    | Disconnected(pe: Peer)
    | Incoming(pe: Peer)
    | StopCommand
    | Opened  // the announcers and the downloads are started, once queued messages are through

  // ---- small state changes

  function SetPeer(s: State, pe: Peer, st: PeerState): State {
    s.(peers := s.peers[pe := st])
  }

  function SetDownloader(s: State, pe: Peer, d: PD.Downloader): State {
    s.(downloaders := s.downloaders[pe := d])
  }

  function SetFlags(s: State, i: nat, f: PieceState): State {
    if i < |s.flags| then s.(flags := s.flags[i := f]) else s
  }

  /** HandleHave, skipped when there is no picker. */
  function HaveOne(s: State, pe: Peer, i: nat): State {
    if s.picker.None? || pe !in s.peers || i >= |s.peers[pe].bitfield| then s
    else
      s.(picker := Some(Have(s.picker.value, pe, i)),
         peers := s.peers[pe := s.peers[pe].(bitfield := s.peers[pe].bitfield[i := true])])
  }

  function HaveEach(s: State, pe: Peer, bits: seq<bool>): State {
    if bits == [] then s
    else
      var k := |bits| - 1;
      var m := HaveEach(s, pe, bits[..k]);
      if bits[k] then HaveOne(m, pe, k) else m
  }

  predicate Wants(s: State, pe: Peer) {
    !s.completed && pe in s.peers &&
    exists i :: 0 <= i < |s.bitfield| && i < |s.peers[pe].bitfield| && !s.bitfield[i] && s.peers[pe].bitfield[i]
  }

  /** updateInterestedState */
  function Interest(s: State, pe: Peer): State {
    if pe in s.peers then SetPeer(s, pe, s.peers[pe].(clientInterested := Wants(s, pe))) else s
  }

  function AddFast(peer: PeerState, i: nat): PeerState {
    if i in peer.allowedFast then peer else peer.(allowedFast := peer.allowedFast + [i])
  }

  // ---- startPieceDownloaders, in the order the map iteration happens to give

  ghost predicate StartOne(s: State, pe: Peer, t: State) {
    pe in s.peers && if s.peers[pe].downloading then t == s else AskedFor(s, pe, t)
  }

  ghost predicate StartEach(s: State, order: seq<Peer>, t: State) {
    if order == [] then t == s
    else
      var front, last := order[..|order| - 1], order[|order| - 1];
      exists m: State :: StartEach(s, front, m) && StartOne(m, last, t)
  }

  ghost predicate Enumerates(order: seq<Peer>, s: set<Peer>) {
    NoDuplicates(order) && forall pe :: pe in order <==> pe in s
  }

  ghost predicate StartAll(s: State, t: State) {
    if s.Status() != Downloading then t == s
    else exists order: seq<Peer> :: Enumerates(order, s.connected) && StartEach(s, order, t)
  }

  // ---- completion and stop

  function Idle(peers: map<Peer, PeerState>): map<Peer, PeerState> {
    map pe | pe in peers :: peers[pe].(downloading := false)
  }

  function Releases(s: State): seq<RM.RamEvent> {
    seq(|s.downloaders|, _ => RM.Released(s.pieceLength))
  }

  /** checkCompletion, once every bit is set. */
  function Completed(s: State): State {
    s.(completed := true,
       connected := (set pe | pe in s.connected && pe in s.peers && s.peers[pe].peerInterested),
       downloaders := map[], picker := None, peers := Idle(s.peers), ram := s.ram + Releases(s))
  }

  function CheckCompletion(s: State): State {
    if s.completed || !AllSet(s.bitfield) then s else Completed(s)
  }

  function Stop(s: State): State {
    s.(running := false, connected := {},
       downloaders := map[], picker := None, peers := Idle(s.peers), ram := s.ram + Releases(s))
  }

  /** Closing the peers one by one may dial others in their place, and the loop that closes
      them may come to those as well. A completed torrent dials nobody. */
  ghost predicate StoppedAs(s: State, t: State) {
    exists dialled: set<Peer>, left: set<Peer> ::
      && dialled !! s.peers.Keys && left <= dialled && (s.completed ==> dialled == {})
      && t == Redialled(Stop(s), dialled, left)
  }

  ghost function Redialled(s: State, dialled: set<Peer>, left: set<Peer>): State {
    WithPeers(s, dialled).(connected := left)
  }

  function Finish(s: State, stop: bool): State {
    var c := CheckCompletion(s);
    if c.completed && stop then Stop(c) else c
  }

  // ---- the handlers

  ghost predicate MessageStep(s: State, pe: Peer, m: Message, t: State) {
    pe in s.peers &&
    var peer := s.peers[pe];
    match m
    case HaveMessage(i) =>
      if i >= s.N() then ClosedPeer(s, pe, t)
      else AskedFor(Interest(HaveOne(s, pe, i), pe), pe, t)
    case BitfieldMessage(size, bits) =>
      if size == 0 then t == s
      else if size != (s.N() + 7) / 8 then ClosedPeer(s, pe, t)
      else |bits| == s.N() && AskedFor(Interest(HaveEach(s, pe, bits), pe), pe, t)
    case HaveAllMessage =>
      AskedFor(Interest(HaveEach(s, pe, seq(s.N(), _ => true)), pe), pe, t)
    case HaveNoneMessage => t == s
    case AllowedFastMessage(i) =>
      if i >= s.N() then ClosedPeer(s, pe, t)
      else t == if s.picker.Some? then SetPeer(s, pe, AddFast(peer, i)) else s
    case UnchokeMessage =>
      Unchoked(SetPeer(s, pe, peer.(peerChoking := false)), pe, t)
    case ChokeMessage =>
      var u := SetPeer(s, pe, peer.(peerChoking := true));
      if pe !in s.downloaders || s.downloaders[pe].allowedFast then t == u
      else
        exists order: seq<nat> :: PD.Enumerates(order, s.downloaders[pe].pending) && StartAll(Choked(u, pe, order), t)
    case InterestedMessage => t == SetPeer(s, pe, peer.(peerInterested := true))
    case NotInterestedMessage => t == SetPeer(s, pe, peer.(peerInterested := false))
    case RequestMessage(index, begin, length) =>
      if BadRequest(s, index, begin, length) then ClosedPeer(s, pe, t) else t == s
    case CancelMessage(_, _, _) => t == s
    case ExtensionHandshakeMessage(q) =>
      t == if peer.requestQueue.None? then SetPeer(s, pe, peer.(requestQueue := Some(q))) else s
    case PassiveMessage => t == s
    case PortMessage(_) => false  // "unhandled peer message type": the handler panics
    case RejectMessage(index, begin, length) =>
      if index >= s.N() then ClosedPeer(s, pe, t)
      else if !Downloads(s, pe, index) then t == s
      else
        match FindBlock(s.lengths[index], begin, length)
        case None => ClosedPeer(s, pe, t)
        case Some(b) => t == SetDownloader(s, pe, PD.Reject(s.downloaders[pe], b.index))
  }

  predicate BadRequest(s: State, index: nat, begin: nat, length: nat) {
    index >= s.N() || Overruns(s.lengths[index], begin, length)
  }

  /** The sum is taken modulo 2^32. */
  predicate Overruns(pieceLength: nat, begin: nat, length: nat) {
    (begin + length) % UINT32 > pieceLength
  }

  datatype Reply = CloseSender | SendReject | SendPiece | NoReply

  ghost predicate Unchoked(u: State, pe: Peer, t: State) {
    pe in u.peers &&
    if pe !in u.downloaders then AskedFor(u, pe, t)
    else if u.downloaders[pe].allowedFast then t == u
    else
      var d := u.downloaders[pe];
      t == SetDownloader(u, pe, PD.Request(d, MaxAllowedRequests(u, u.peers[pe])).0)
           .(picker := match u.picker case None => None case Some(p) => Some(Unchoke(p, pe, d.piece)))
  }

  function Choked(s: State, pe: Peer, order: seq<nat>): State {
    if pe !in s.downloaders || pe !in s.peers then s
    else
      var d := s.downloaders[pe];
      SetDownloader(s, pe, PD.Choke(d, s.peers[pe].fastEnabled, order))
      .(picker := match s.picker case None => None case Some(p) => Some(Pickers.Choke(p, pe, d.piece)))
  }

  /** handlePieceMessage; only runs while the piece channel is not suspended. */
  ghost predicate PieceStep(s: State, pe: Peer, index: nat, begin: nat, data: bytes, t: State) {
    pe in s.peers &&
    if index >= s.N() then ClosedPeer(s, pe, t)
    else if !Downloads(s, pe, index) then t == s
    else
      match FindBlock(s.lengths[index], begin, |data|)
      case None => ClosedPeer(s, pe, t)
      case Some(b) => Taken(s, pe, b, data, t)
  }

  /** A block of the piece being downloaded from pe. */
  ghost predicate Taken(s: State, pe: Peer, b: Block, data: bytes, t: State) {
    pe in s.downloaders && pe in s.peers &&
    var d0 := s.downloaders[pe];
    && |d0.buffer| == d0.length && GetBlock(d0.length, b.index) == Some(b) && |data| == b.length
    && var d := PD.Receive(d0, b, data).0;
    if d.Done() then Finished(SetDownloader(s, pe, d), pe, t)
    else
      t == SetDownloader(s, pe,
        if d.allowedFast || !s.peers[pe].peerChoking then PD.Request(d, MaxAllowedRequests(s, s.peers[pe])).0 else d)
  }

  function MarkWriting(s: State, i: nat): State {
    if i < |s.flags| then SetFlags(s, i, s.flags[i].(writing := true)) else s
  }

  /** The last block arrived: write the piece and go on with the next one. */
  ghost predicate Finished(s: State, pe: Peer, t: State) {
    pe in s.downloaders &&
    var d := s.downloaders[pe];
    exists u: State ::
      && AskedFor(MarkWriting(CloseDownloader(s, pe), d.piece), pe, u)
      && t == u.(suspended := true, writer := Some(Write(d.piece, pe, d.buffer)))
  }

  /** The loop over RequestedPeers in handlePieceWriteDone. */
  ghost predicate CancelEach(s: State, i: nat, order: seq<Peer>, t: State) {
    if order == [] then t == s
    else
      var front, last := order[..|order| - 1], order[|order| - 1];
      exists m: State :: CancelEach(s, i, front, m) && Downloads(m, last, i)
          && AskedFor(CloseDownloader(m, last), last, t)
  }

  function Unmark(s: State): State
    requires s.writer.Some?
  {
    var i := s.writer.value.piece;
    var u := s.(suspended := false, writer := None);
    if i < |s.flags| then SetFlags(u, i, s.flags[i].(writing := false)) else u
  }

  function MarkDone(s: State, i: nat): State {
    if i < |s.flags| && i < |s.bitfield|
    then SetFlags(s, i, s.flags[i].(done := true)).(bitfield := s.bitfield[i := true])
    else s
  }

  ghost function RequestedPeers(s: State, i: nat): seq<Peer> {
    if s.picker.Some? && i < |s.picker.value.pieces| then s.picker.value.pieces[i].requested.live else []
  }

  ghost predicate WriteDoneStep(s: State, hashOK: bool, failed: bool, stop: bool, t: State) {
    s.writer.Some? &&
    var w := s.writer.value;
    var u := Unmark(s);
    if !hashOK then exists m: State :: ClosedPeer(u, w.source, m) && StartAll(m, t)
    else if failed then StoppedAs(u, t)
    else
      var v := MarkDone(u, w.piece);
      exists m: State :: CancelEach(v, w.piece, RequestedPeers(v, w.piece), m) && t == Finish(m, stop)
  }

  /** Whoever answers the announcers is dialled before the downloads start. */
  ghost predicate OpenedAs(s: State, t: State) {
    exists dialled: set<Peer> ::
      dialled !! s.peers.Keys && (s.completed ==> dialled == {}) && StartAll(WithPeers(s, dialled), t)
  }

  /** A grant and a command to stop may still arrive when the torrent has stopped. */
  ghost predicate Step(s: State, e: Event, t: State) {
    (s.running || e.RamNotify? || e.StopCommand?) &&
    match e
    case PeerMessage(pe, m) => MessageStep(s, pe, m, t)
    case PieceMessage(pe, index, begin, data) => !s.suspended && PieceStep(s, pe, index, begin, data, t)
    case WriteDone(hashOK, failed, stop) => WriteDoneStep(s, hashOK, failed, stop, t)
    case RamNotify(pe) => pe in s.peers && Started(Grant(s, pe), pe, t)
    case Disconnected(pe) => ClosedPeer(s, pe, t)
    case Incoming(pe) => pe !in s.peers && t == WithPeers(s, {pe})
    case StopCommand => if s.running then StoppedAs(s, t) else t == s
    case Opened => OpenedAs(s, t)
  }

  // ---- each part keeps the invariant

  lemma PeerCore(s: State, pe: Peer, st: PeerState)
    requires Core(s) && pe in s.peers && st.downloading == s.peers[pe].downloading && |st.bitfield| == s.N()
    requires forall k :: 0 <= k < |st.allowedFast| ==> st.allowedFast[k] < s.N()
    ensures Core(SetPeer(s, pe, st))
  {
    var t := SetPeer(s, pe, st);
    forall q | q in t.downloaders ensures DownloaderOk(t, q) { assert DownloaderOk(s, q); }
    assert forall i, q :: 0 <= i < s.N() ==> (Downloads(t, q, i) <==> Downloads(s, q, i));
  }

  lemma PeerInv(s: State, pe: Peer, st: PeerState)
    requires Inv(s) && pe in s.peers && st.downloading == s.peers[pe].downloading && |st.bitfield| == s.N()
    requires forall k :: 0 <= k < |st.allowedFast| ==> st.allowedFast[k] < s.N()
    ensures Inv(SetPeer(s, pe, st))
  {
    PeerCore(s, pe, st);
    RestFrame(s, SetPeer(s, pe, st));
  }

  ghost predicate SameRequested(p: Picker, q: Picker) {
    && |q.pieces| == |p.pieces| && q.maxDuplicate == p.maxDuplicate
    && forall i :: 0 <= i < |p.pieces| ==> q.pieces[i].requested == p.pieces[i].requested
  }

  lemma PickerInv(s: State, q: Picker)
    requires Inv(s) && s.picker.Some? && SameRequested(s.picker.value, q) && q.Valid()
    ensures Inv(s.(picker := Some(q)))
  {
    var t := s.(picker := Some(q));
    forall pe | pe in t.downloaders ensures DownloaderOk(t, pe) { assert DownloaderOk(s, pe); }
    forall i, pe | 0 <= i < |q.pieces| ensures q.pieces[i].requested.Has(pe) <==> Downloads(t, pe, i) {
      assert s.picker.value.pieces[i].requested.Has(pe) <==> Downloads(s, pe, i);
    }
    RestFrame(s, t);
  }

  lemma DownloaderAgree(s: State, pe: Peer, d: PD.Downloader)
    requires Shape(s) && Agree(s) && pe in s.downloaders && d.piece == s.downloaders[pe].piece
    ensures Agree(SetDownloader(s, pe, d)) && |SetDownloader(s, pe, d).downloaders| == |s.downloaders|
  {
    var t := SetDownloader(s, pe, d);
    forall q | q in t.downloaders ensures DownloaderOk(t, q) { assert DownloaderOk(s, q); }
    assert forall i, q :: 0 <= i < s.N() ==> (Downloads(t, q, i) <==> Downloads(s, q, i));
    assert t.downloaders.Keys == s.downloaders.Keys;
  }

  lemma DownloaderInv(s: State, pe: Peer, d: PD.Downloader)
    requires Inv(s) && pe in s.downloaders && d.piece == s.downloaders[pe].piece
    ensures Inv(SetDownloader(s, pe, d))
  {
    DownloaderAgree(s, pe, d);
    RestFrame(s, SetDownloader(s, pe, d));
  }

  lemma HaveOneInv(s: State, pe: Peer, i: nat)
    requires Inv(s)
    ensures Inv(HaveOne(s, pe, i))
    ensures HaveOne(s, pe, i) == s.(picker := HaveOne(s, pe, i).picker, peers := HaveOne(s, pe, i).peers)
    ensures HaveOne(s, pe, i).peers.Keys == s.peers.Keys
  {
    if s.picker.Some? && pe in s.peers && i < |s.peers[pe].bitfield| {
      var p := s.picker.value;
      AddCorrect(p.pieces[i].having, pe);
      PickerInv(s, Have(p, pe, i));
      var m := s.(picker := Some(Have(p, pe, i)));
      PeerInv(m, pe, s.peers[pe].(bitfield := s.peers[pe].bitfield[i := true]));
      assert HaveOne(s, pe, i) == SetPeer(m, pe, s.peers[pe].(bitfield := s.peers[pe].bitfield[i := true]));
    }
  }

  lemma {:induction false} HaveEachInv(s: State, pe: Peer, bits: seq<bool>)
    requires Inv(s)
    ensures Inv(HaveEach(s, pe, bits))
    ensures HaveEach(s, pe, bits).peers.Keys == s.peers.Keys && HaveEach(s, pe, bits).bitfield == s.bitfield
  {
    if bits != [] {
      var k := |bits| - 1;
      HaveEachInv(s, pe, bits[..k]);
      HaveOneInv(HaveEach(s, pe, bits[..k]), pe, k);
    }
  }

  lemma InterestInv(s: State, pe: Peer)
    requires Inv(s) && pe in s.peers
    ensures Inv(Interest(s, pe))
  {
    PeerInv(s, pe, s.peers[pe].(clientInterested := Wants(s, pe)));
  }

  lemma AskedForInv(s: State, pe: Peer, t: State)
    requires Inv(s) && pe in s.peers && AskedFor(s, pe, t)
    ensures Inv(t) && t.bitfield == s.bitfield
  {
    AskedForCore(s, pe, t);
    AskedForFrame(s, pe, t);
    FrameDoneFree(s, pe, t, -1);
    RestFrame(s, t);
  }

  lemma ClosedPeerInv(s: State, pe: Peer, t: State)
    requires Inv(s) && ClosedPeer(s, pe, t)
    ensures Inv(t) && t.bitfield == s.bitfield
  {
    ClosedPeerCore(s, pe, t);
    ClosedPeerFrame(s, pe, t);
    RestFrame(s, t);
  }

  lemma {:induction false} StartEachInv(s: State, order: seq<Peer>, t: State)
    requires Inv(s) && StartEach(s, order, t)
    ensures Inv(t) && t.bitfield == s.bitfield
  {
    if order != [] {
      var m :| StartEach(s, order[..|order| - 1], m) && StartOne(m, order[|order| - 1], t);
      StartEachInv(s, order[..|order| - 1], m);
      if t != m { AskedForInv(m, order[|order| - 1], t); }
    }
  }

  lemma StartAllInv(s: State, t: State)
    requires Inv(s) && StartAll(s, t)
    ensures Inv(t) && t.bitfield == s.bitfield
  {
    if s.Status() == Downloading {
      var order: seq<Peer> :| Enumerates(order, s.connected) && StartEach(s, order, t);
      StartEachInv(s, order, t);
    }
  }

  lemma {:induction false} ReleaseAll(ram: seq<RM.RamEvent>, n: nat, k: nat)
    requires Owes(ram, n) && RM.Live(ram) >= k
    ensures Owes(ram + seq(k, _ => RM.Released(n)), n)
    ensures RM.Live(ram + seq(k, _ => RM.Released(n))) == RM.Live(ram) - k
  {
    if k == 0 {
      assert ram + seq(k, _ => RM.Released(n)) == ram;
    } else {
      ReleaseAll(ram, n, k - 1);
      LiveOne(RM.Released(n));
      OwesSnoc(ram + seq(k - 1, _ => RM.Released(n)), n, RM.Released(n));
      assert ram + seq(k, _ => RM.Released(n)) == ram + seq(k - 1, _ => RM.Released(n)) + [RM.Released(n)];
    }
  }

  /** Dropping the picker and all downloaders pays back all RAM. */
  lemma DroppedCore(s: State, t: State)
    requires Core(s)
    requires t == s.(running := t.running, completed := t.completed, connected := t.connected,
                     downloaders := map[], picker := None, peers := Idle(s.peers), ram := s.ram + Releases(s))
    requires t.connected <= s.connected && !(t.running && !t.completed)
    ensures Core(t) && DoneFree(t, -1) && RM.Live(t.ram) == 0
  {
    ReleaseAll(s.ram, s.pieceLength, |s.downloaders|);
    assert |t.downloaders| == 0;
  }

  lemma FinishInv(s: State, stop: bool)
    requires Core(s) && DoneFree(s, -1) && Writing(s) && s.running
    requires s.completed ==> AllSet(s.bitfield)
    ensures Inv(Finish(s, stop)) && Finish(s, stop).bitfield == s.bitfield
  {
    var c := CheckCompletion(s);
    if c != s { DroppedCore(s, c); }
    if c.completed && stop { DroppedCore(c, Stop(c)); }
  }

  lemma StopInv(s: State)
    requires Core(s) && Writing(s)
    ensures Inv(Stop(s)) && RM.Live(Stop(s).ram) == 0
  {
    DroppedCore(s, Stop(s));
  }

  lemma StoppedInv(s: State, t: State)
    requires Core(s) && Writing(s) && StoppedAs(s, t)
    ensures Inv(t) && RM.Live(t.ram) == 0 && t.bitfield == s.bitfield
  {
    var dialled: set<Peer>, left: set<Peer> :|
      dialled !! s.peers.Keys && left <= dialled && (s.completed ==> dialled == {})
          && t == Redialled(Stop(s), dialled, left);
    StopInv(s);
    WithPeersCore(Stop(s), dialled);
    ConnectedCore(WithPeers(Stop(s), dialled), left);
    RestFrame(Stop(s), t);
  }

  lemma ConnectedCore(s: State, connected: set<Peer>)
    requires Core(s) && connected <= s.peers.Keys
    ensures Core(s.(connected := connected))
  {
    var t := s.(connected := connected);
    forall q | q in t.downloaders ensures DownloaderOk(t, q) { assert DownloaderOk(s, q); }
    assert forall i, q :: 0 <= i < s.N() ==> (Downloads(t, q, i) <==> Downloads(s, q, i));
  }

  /** Core does not look at the flags, the bits, the channel or the writer. */
  lemma FlagsCore(s: State, t: State)
    requires Core(s) && |t.flags| == |s.flags| && |t.bitfield| == |s.bitfield|
    requires t == s.(flags := t.flags, bitfield := t.bitfield, suspended := t.suspended, writer := t.writer)
    ensures Core(t)
  {
    forall q | q in t.downloaders ensures DownloaderOk(t, q) { assert DownloaderOk(s, q); }
    assert forall i, q :: 0 <= i < s.N() ==> (Downloads(t, q, i) <==> Downloads(s, q, i));
  }

  lemma MarkedCore(s: State, pe: Peer, i: nat)
    requires Core(s) && DoneFree(s, -1)
    ensures var n := MarkWriting(CloseDownloader(s, pe), i); Core(n) && DoneFree(n, -1)
  {
    CloseDownloaderCore(s, pe);
    CloseDownloaderDoneFree(s, pe, -1);
    var m := CloseDownloader(s, pe);
    MarkWritingDoneFree(m, i);
    FlagsCore(m, MarkWriting(m, i));
  }

  lemma MarkWritingDoneFree(m: State, i: nat)
    requires DoneFree(m, -1)
    ensures DoneFree(MarkWriting(m, i), -1)
  {
  }

  lemma WritingStarted(s: State, i: nat, pe: Peer, t: State)
    requires Writing(s) && s.writer.None? && |s.flags| == |s.bitfield| == s.N()
    requires i < s.N() && !s.flags[i].done && pe in t.peers
    requires t.flags == s.flags[i := s.flags[i].(writing := true)] && t.bitfield == s.bitfield && t.lengths == s.lengths
    requires t.suspended && t.writer.Some? && t.writer.value.piece == i && t.writer.value.source == pe
    ensures Writing(t)
  {
  }

  /** The panic "piece is already writing" is unreachable, and the piece is not done. */
  lemma FinishedWriting(s: State, pe: Peer, t: State)
    requires Inv(s) && !s.suspended && pe in s.downloaders && Finished(s, pe, t)
    ensures !s.flags[s.downloaders[pe].piece].writing
    ensures Writing(t) && Complete(t) && t.bitfield == s.bitfield
  {
    assert DownloaderOk(s, pe);
    var i := s.downloaders[pe].piece;
    var n := MarkWriting(CloseDownloader(s, pe), i);
    var u :| AskedFor(n, pe, u) && t == u.(suspended := true, writer := Some(Write(i, pe, s.downloaders[pe].buffer)));
    AskedForFrame(n, pe, u);
    WritingStarted(s, i, pe, t);
  }

  lemma FinishedInv(s: State, pe: Peer, t: State)
    requires Inv(s) && !s.suspended && pe in s.downloaders && Finished(s, pe, t)
    ensures Inv(t) && t.bitfield == s.bitfield
  {
    FinishedWriting(s, pe, t);
    var n := MarkWriting(CloseDownloader(s, pe), s.downloaders[pe].piece);
    MarkedCore(s, pe, s.downloaders[pe].piece);
    var u :| AskedFor(n, pe, u) && t == u.(suspended := true, writer := t.writer);
    AskedForCore(n, pe, u);
    AskedForFrame(n, pe, u);
    FrameDoneFree(n, pe, u, -1);
    FlagsCore(u, t);
  }

  /** What receiving a block makes of its downloader, before it is closed or asked on. */
  lemma ReceivedSound(s: State, pe: Peer, b: Block, data: bytes)
    requires Sound(s) && pe in s.downloaders
    requires var d := s.downloaders[pe]; GetBlock(d.length, b.index) == Some(b) && |data| == b.length
    ensures var d := PD.Receive(s.downloaders[pe], b, data).0;
            && d.piece == s.downloaders[pe].piece && SoundOne(d, s.lengths)
            && forall q: int :: PD.Request(d, q).0.piece == d.piece && SoundOne(PD.Request(d, q).0, s.lengths)
  {
    assert SoundOne(s.downloaders[pe], s.lengths);
    PD.ApplyValid(s.downloaders[pe], PD.OpGot(b, data));
    var d := PD.Receive(s.downloaders[pe], b, data).0;
    forall q: int ensures PD.Request(d, q).0.piece == d.piece && SoundOne(PD.Request(d, q).0, s.lengths) {
      PD.RequestCorrect(d, q);
    }
  }

  lemma PieceStepInv(s: State, pe: Peer, index: nat, begin: nat, data: bytes, t: State)
    requires Inv(s) && Sound(s) && !s.suspended && PieceStep(s, pe, index, begin, data, t)
    ensures Inv(t) && t.bitfield == s.bitfield
  {
    if index >= s.N() { ClosedPeerInv(s, pe, t); return; }
    if !Downloads(s, pe, index) { return; }
    match FindBlock(s.lengths[index], begin, |data|)
    case None => ClosedPeerInv(s, pe, t);
    case Some(b) =>
      ReceivedSound(s, pe, b, data);
      var d := PD.Receive(s.downloaders[pe], b, data).0;
      if d.Done() {
        DownloaderInv(s, pe, d);
        FinishedInv(SetDownloader(s, pe, d), pe, t);
      } else {
        DownloaderInv(s, pe, t.downloaders[pe]);
      }
  }

  lemma SplitLast(order: seq<Peer>, rest: seq<Peer>)
    requires order != []
    ensures var pe, front := order[|order| - 1], order[..|order| - 1];
            && front + ([pe] + rest) == order + rest
            && (forall q :: q in [pe] + rest <==> q == pe || q in rest)
            && (NoDuplicates(order + rest) ==> pe !in rest)
  {
    assert (order + rest)[|order| - 1] == order[|order| - 1];
    forall j | 0 <= j < |rest| ensures NoDuplicates(order + rest) ==> rest[j] != order[|order| - 1] {
      assert (order + rest)[|order| + j] == rest[j];
    }
  }

  /** Every one of the listed peers still has its downloader when its turn comes, is
      cancelled once, and nobody downloads piece i afterwards. */
  lemma {:induction false} CancelEachInv(s: State, i: nat, order: seq<Peer>, rest: seq<Peer>, t: State)
    requires Core(s) && DoneFree(s, i) && Writing(s) && i < s.N() && s.flags[i].done
    requires forall pe :: Downloads(s, pe, i) <==> pe in order + rest
    requires NoDuplicates(order + rest)
    requires CancelEach(s, i, order, t)
    ensures Core(t) && DoneFree(t, i) && Writing(t)
    ensures t == s.(picker := t.picker, downloaders := t.downloaders, peers := t.peers, ram := t.ram)
    ensures forall pe :: Downloads(t, pe, i) <==> pe in rest
    decreases |order|
  {
    if order == [] {
      SameMembers(order, rest);
    } else {
      var pe, front := order[|order| - 1], order[..|order| - 1];
      var m :| CancelEach(s, i, front, m) && Downloads(m, pe, i) && AskedFor(CloseDownloader(m, pe), pe, t);
      SplitLast(order, rest);
      CancelEachInv(s, i, front, [pe] + rest, m);
      CancelOne(m, i, pe, t);
    }
  }

  lemma SameMembers(order: seq<Peer>, rest: seq<Peer>)
    ensures order == [] ==> order + rest == rest
    ensures rest == [] ==> order + rest == order
  {
  }

  lemma FrameDownloads(n: State, pe: Peer, t: State, i: nat)
    requires StartFrame(n, pe, t) && pe !in n.downloaders && i < |n.flags| && n.flags[i].done
    ensures forall q :: Downloads(t, q, i) <==> Downloads(n, q, i)
  {
    forall q ensures Downloads(t, q, i) <==> Downloads(n, q, i) {
      assert q in t.downloaders - {pe} <==> q in n.downloaders - {pe};
      if q != pe && q in t.downloaders { assert (t.downloaders - {pe})[q] == (n.downloaders - {pe})[q]; }
    }
  }

  lemma CancelOne(m: State, i: nat, pe: Peer, t: State)
    requires Core(m) && DoneFree(m, i) && Writing(m) && i < m.N() && m.flags[i].done
    requires Downloads(m, pe, i) && AskedFor(CloseDownloader(m, pe), pe, t)
    ensures Core(t) && DoneFree(t, i) && Writing(t)
    ensures t == m.(picker := t.picker, downloaders := t.downloaders, peers := t.peers, ram := t.ram)
    ensures forall q :: Downloads(t, q, i) <==> Downloads(m, q, i) && q != pe
  {
    assert DownloaderOk(m, pe);
    var n := CloseDownloader(m, pe);
    CloseDownloaderCore(m, pe);
    AskedForFrame(n, pe, t);
    FrameDownloads(n, pe, t, i);
    FrameDoneFree(n, pe, t, i);
    AskedForCore(n, pe, t);
    WritingFrame(m, t);
  }

  lemma UnmarkInv(s: State)
    requires Inv(s) && s.writer.Some?
    ensures Inv(Unmark(s))
  {
    FlagsCore(s, Unmark(s));
  }

  lemma MarkDoneCore(u: State, i: nat)
    requires Inv(u) && i < u.N()
    ensures var v := MarkDone(u, i); Core(v) && DoneFree(v, i) && v.flags[i].done
    ensures u.writer.None? ==> Writing(MarkDone(u, i))
  {
    FlagsCore(u, MarkDone(u, i));
  }

  lemma CleanedUp(m: State, i: nat)
    requires DoneFree(m, i) && forall pe :: !Downloads(m, pe, i)
    ensures DoneFree(m, -1)
  {
    assert forall pe :: pe in m.downloaders ==> !Downloads(m, pe, i);
  }

  lemma WrittenInv(u: State, i: nat, m: State, stop: bool)
    requires Inv(u) && u.running && i < u.N() && u.writer.None?
    requires var v := MarkDone(u, i); CancelEach(v, i, RequestedPeers(v, i), m)
    ensures Inv(Finish(m, stop)) && Finish(m, stop).bitfield == u.bitfield[i := true]
  {
    var v := MarkDone(u, i);
    MarkDoneCore(u, i);
    var order := RequestedPeers(v, i);
    forall pe ensures Downloads(v, pe, i) <==> pe in order {
      assert v.picker.Some? ==> (v.picker.value.pieces[i].requested.Has(pe) <==> Downloads(v, pe, i));
    }
    SameMembers(order, []);
    assert v.picker.Some? ==> v.picker.value.pieces[i].Valid();
    CancelEachInv(v, i, order, [], m);
    CleanedUp(m, i);
    FinishInv(m, stop);
  }

  lemma WriteDoneInv(s: State, hashOK: bool, failed: bool, stop: bool, t: State)
    requires Inv(s) && s.running && WriteDoneStep(s, hashOK, failed, stop, t)
    ensures Inv(t)
    ensures var i := s.writer.value.piece;
            && i < s.N() && !s.bitfield[i]  // "already have the piece"
            && t.bitfield == if hashOK && !failed then s.bitfield[i := true] else s.bitfield
  {
    var i := s.writer.value.piece;
    var u := Unmark(s);
    UnmarkInv(s);
    if !hashOK {
      var m :| ClosedPeer(u, s.writer.value.source, m) && StartAll(m, t);
      ClosedPeerInv(u, s.writer.value.source, m);
      StartAllInv(m, t);
    } else if failed {
      StoppedInv(u, t);
    } else {
      var v := MarkDone(u, i);
      var m :| CancelEach(v, i, RequestedPeers(v, i), m) && t == Finish(m, stop);
      WrittenInv(u, i, m, stop);
    }
  }

  lemma UnchokeInv(s: State, pe: Peer, t: State)
    requires Inv(s) && MessageStep(s, pe, UnchokeMessage, t)
    ensures Inv(t) && t.bitfield == s.bitfield
  {
    var peer := s.peers[pe];
    var u := SetPeer(s, pe, peer.(peerChoking := false));
    PeerInv(s, pe, peer.(peerChoking := false));
    if pe !in s.downloaders {
      AskedForInv(u, pe, t);
    } else if !s.downloaders[pe].allowedFast {
      var d := s.downloaders[pe];
      var e := PD.Request(d, MaxAllowedRequests(u, u.peers[pe])).0;
      RequestKeepsPiece(d, MaxAllowedRequests(u, u.peers[pe]));
      DownloaderInv(u, pe, e);
      UnchokePiece(SetDownloader(u, pe, e), pe, d.piece);
    }
  }

  lemma UnchokePiece(s: State, pe: Peer, i: nat)
    requires Inv(s)
    ensures Inv(s.(picker := match s.picker case None => None case Some(p) => Some(Unchoke(p, pe, i))))
  {
    if s.picker.Some? {
      var p := s.picker.value;
      if i < |p.pieces| { RemoveCorrect(p.pieces[i].choked, pe); }
      PickerInv(s, Unchoke(p, pe, i));
    }
  }

  lemma ChokePiece(s: State, pe: Peer, i: nat)
    requires Inv(s)
    ensures Inv(s.(picker := match s.picker case None => None case Some(p) => Some(Pickers.Choke(p, pe, i))))
  {
    if s.picker.Some? {
      var p := s.picker.value;
      if i < |p.pieces| {
        RemoveCorrect(p.pieces[i].snubbed, pe);
        AddCorrect(p.pieces[i].choked, pe);
      }
      PickerInv(s, Pickers.Choke(p, pe, i));
    }
  }

  lemma {:induction false} RequestKeepsPiece(d: PD.Downloader, q: int)
    ensures PD.Request(d, q).0.piece == d.piece && PD.Request(d, q).0.allowedFast == d.allowedFast
    decreases |d.remaining|
  {
    if d.remaining != [] && |d.pending| < q {
      RequestKeepsPiece(d.(remaining := d.remaining[1..], pending := d.pending + {d.remaining[0]}), q);
    }
  }

  lemma ChokedInv(s: State, pe: Peer, order: seq<nat>)
    requires Inv(s) && pe in s.downloaders
    ensures Inv(Choked(s, pe, order)) && Choked(s, pe, order).bitfield == s.bitfield
  {
    assert DownloaderOk(s, pe);
    var d := s.downloaders[pe];
    var e := PD.Choke(d, s.peers[pe].fastEnabled, order);
    DownloaderInv(s, pe, e);
    ChokePiece(SetDownloader(s, pe, e), pe, d.piece);
  }

  lemma ChokeInv(s: State, pe: Peer, t: State)
    requires Inv(s) && MessageStep(s, pe, ChokeMessage, t)
    ensures Inv(t) && t.bitfield == s.bitfield
  {
    var u := SetPeer(s, pe, s.peers[pe].(peerChoking := true));
    PeerInv(s, pe, s.peers[pe].(peerChoking := true));
    if pe in s.downloaders && !s.downloaders[pe].allowedFast {
      var order: seq<nat> :| PD.Enumerates(order, s.downloaders[pe].pending) && StartAll(Choked(u, pe, order), t);
      ChokedInv(u, pe, order);
      StartAllInv(Choked(u, pe, order), t);
    }
  }

  lemma RejectInv(s: State, pe: Peer, index: nat, begin: nat, length: nat, t: State)
    requires Inv(s) && MessageStep(s, pe, RejectMessage(index, begin, length), t)
    ensures Inv(t) && t.bitfield == s.bitfield
  {
    if index >= s.N() { ClosedPeerInv(s, pe, t); return; }
    if !Downloads(s, pe, index) { return; }
    match FindBlock(s.lengths[index], begin, length)
    case None => ClosedPeerInv(s, pe, t);
    case Some(b) => DownloaderInv(s, pe, PD.Reject(s.downloaders[pe], b.index));
  }

  lemma HaveInv(s: State, pe: Peer, m: Message, t: State)
    requires Inv(s) && MessageStep(s, pe, m, t) && (m.HaveMessage? || m.BitfieldMessage? || m.HaveAllMessage?)
    ensures Inv(t) && t.bitfield == s.bitfield
  {
    match m
    case HaveMessage(i) =>
      if i >= s.N() { ClosedPeerInv(s, pe, t); return; }
      HaveOneInv(s, pe, i);
      OfferedInv(s, HaveOne(s, pe, i), pe, t);
    case BitfieldMessage(size, bits) =>
      if size == 0 { return; }
      if size != (s.N() + 7) / 8 { ClosedPeerInv(s, pe, t); return; }
      HaveEachInv(s, pe, bits);
      OfferedInv(s, HaveEach(s, pe, bits), pe, t);
    case HaveAllMessage =>
      HaveEachInv(s, pe, seq(s.N(), _ => true));
      OfferedInv(s, HaveEach(s, pe, seq(s.N(), _ => true)), pe, t);
  }

  lemma OfferedInv(s: State, h: State, pe: Peer, t: State)
    requires Inv(h) && h.bitfield == s.bitfield && pe in h.peers && AskedFor(Interest(h, pe), pe, t)
    ensures Inv(t) && t.bitfield == s.bitfield
  {
    InterestInv(h, pe);
    AskedForInv(Interest(h, pe), pe, t);
  }

  lemma KnownPeer(s: State, pe: Peer)
    requires Inv(s) && pe in s.peers
    ensures |s.peers[pe].bitfield| == s.N()
    ensures forall k :: 0 <= k < |s.peers[pe].allowedFast| ==> s.peers[pe].allowedFast[k] < s.N()
  {
  }

  lemma MessageInv(s: State, pe: Peer, m: Message, t: State)
    requires Inv(s) && MessageStep(s, pe, m, t)
    ensures Inv(t) && t.bitfield == s.bitfield
  {
    hide Inv;
    KnownPeer(s, pe);
    match m
    case HaveNoneMessage =>
    case AllowedFastMessage(i) =>
      if i >= s.N() { ClosedPeerInv(s, pe, t); return; }
      PeerInv(s, pe, AddFast(s.peers[pe], i));
    case UnchokeMessage => UnchokeInv(s, pe, t);
    case ChokeMessage => ChokeInv(s, pe, t);
    case InterestedMessage => PeerInv(s, pe, s.peers[pe].(peerInterested := true));
    case NotInterestedMessage => PeerInv(s, pe, s.peers[pe].(peerInterested := false));
    case RejectMessage(index, begin, length) => RejectInv(s, pe, index, begin, length, t);
    case RequestMessage(index, begin, length) => if BadRequest(s, index, begin, length) { ClosedPeerInv(s, pe, t); }
    case CancelMessage(_, _, _) =>
    case ExtensionHandshakeMessage(q) => PeerInv(s, pe, s.peers[pe].(requestQueue := Some(q)));
    case PassiveMessage =>
    case PortMessage(_) =>
    case _ => HaveInv(s, pe, m, t);
  }

  /** A grant arrives, possibly for a peer that has gone or found something meanwhile. */
  lemma NotifyInv(s: State, pe: Peer, t: State)
    requires Inv(s) && pe in s.peers && Started(Grant(s, pe), pe, t)
    ensures Inv(t) && t.bitfield == s.bitfield
  {
    var u := Grant(s, pe);
    LiveOne(RM.Granted(pe, s.pieceLength));
    OwesSnoc(s.ram, s.pieceLength, RM.Granted(pe, s.pieceLength));
    GrantCore(s, pe);
    StartedCore(u, pe, t);
    StartedFrame(u, pe, t);
    FrameDoneFree(u, pe, t, -1);
    RestFrame(s, t);
  }

  function Grant(s: State, pe: Peer): State {
    s.(ram := s.ram + [RM.Granted(pe, s.pieceLength)])
  }

  lemma GrantCore(s: State, pe: Peer)
    requires Core(s)
    ensures CoreWithRam(Grant(s, pe))
  {
    LiveOne(RM.Granted(pe, s.pieceLength));
    LedgerUp(s, RM.Granted(pe, s.pieceLength));
  }

  lemma IncomingInv(s: State, pe: Peer)
    requires Inv(s) && pe !in s.peers
    ensures Inv(WithPeers(s, {pe}))
  {
    DialledInv(s, {pe});
  }

  /** The bit of a piece is set by its successful write and by nothing else. */
  ghost predicate BitsStep(s: State, e: Event, t: State) {
    if e.WriteDone? && e.hashOK && !e.failed then
      && s.writer.Some? && s.writer.value.piece < |s.bitfield| && !s.bitfield[s.writer.value.piece]
      && t.bitfield == s.bitfield[s.writer.value.piece := true]
    else t.bitfield == s.bitfield
  }

  lemma StepInv(s: State, e: Event, t: State)
    requires Inv(s) && Sound(s) && Step(s, e, t)
    ensures Inv(t) && BitsStep(s, e, t)
  {
    match e
    case PeerMessage(pe, m) => MessageInv(s, pe, m, t);
    case PieceMessage(pe, index, begin, data) => PieceStepInv(s, pe, index, begin, data, t);
    case WriteDone(hashOK, failed, stop) => WriteDoneInv(s, hashOK, failed, stop, t);
    case RamNotify(pe) => NotifyInv(s, pe, t);
    case Disconnected(pe) => ClosedPeerInv(s, pe, t);
    case Incoming(pe) => IncomingInv(s, pe);
    case StopCommand => if s.running { StoppedInv(s, t); }
    case Opened => OpenedInv(s, t);
  }

  lemma OpenedInv(s: State, t: State)
    requires Inv(s) && OpenedAs(s, t)
    ensures Inv(t) && t.bitfield == s.bitfield
  {
    hide Inv, StartAll;
    var dialled: set<Peer> :|
      dialled !! s.peers.Keys && (s.completed ==> dialled == {}) && StartAll(WithPeers(s, dialled), t);
    DialledInv(s, dialled);
    StartAllInv(WithPeers(s, dialled), t);
  }

  lemma DialledInv(s: State, dialled: set<Peer>)
    requires Inv(s) && dialled !! s.peers.Keys
    ensures Inv(WithPeers(s, dialled))
  {
    WithPeersCore(s, dialled);
    RestFrame(s, WithPeers(s, dialled));
  }

  // ---- the downloaders' own invariant, kept apart because it never interferes

  lemma SubsetSound(s: State, t: State)
    requires Sound(s) && t.lengths == s.lengths
    requires t.writer == s.writer || t.writer.None?
    requires forall pe :: pe in t.downloaders ==> pe in s.downloaders && t.downloaders[pe] == s.downloaders[pe]
    ensures Sound(t)
  {
  }

  lemma ClosedPeerSound(s: State, pe: Peer, t: State)
    requires Sound(s) && ClosedPeer(s, pe, t)
    ensures Sound(t)
  {
    ClosedPeerFrame(s, pe, t);
    SubsetSound(s, t);
  }

  lemma SetDownloaderSound(s: State, pe: Peer, d: PD.Downloader)
    requires Sound(s) && SoundOne(d, s.lengths)
    ensures Sound(SetDownloader(s, pe, d))
  {
  }

  lemma {:induction false} StartEachSound(s: State, order: seq<Peer>, t: State)
    requires Sound(s) && StartEach(s, order, t)
    ensures Sound(t)
  {
    if order != [] {
      var front, last := order[..|order| - 1], order[|order| - 1];
      var m :| StartEach(s, front, m) && StartOne(m, last, t);
      StartEachSound(s, front, m);
      if t != m { AskedForSound(m, last, t); }
    }
  }

  lemma StartAllSound(s: State, t: State)
    requires Sound(s) && StartAll(s, t)
    ensures Sound(t)
  {
    if s.Status() == Downloading {
      var order: seq<Peer> :| Enumerates(order, s.connected) && StartEach(s, order, t);
      StartEachSound(s, order, t);
    }
  }

  lemma {:induction false} CancelEachSound(s: State, i: nat, order: seq<Peer>, t: State)
    requires Sound(s) && CancelEach(s, i, order, t)
    ensures Sound(t)
  {
    if order != [] {
      var front, last := order[..|order| - 1], order[|order| - 1];
      var m :| CancelEach(s, i, front, m) && Downloads(m, last, i) && AskedFor(CloseDownloader(m, last), last, t);
      CancelEachSound(s, i, front, m);
      SubsetSound(m, CloseDownloader(m, last));
      AskedForSound(CloseDownloader(m, last), last, t);
    }
  }

  lemma {:induction false} HaveEachSound(s: State, pe: Peer, bits: seq<bool>)
    requires Sound(s)
    ensures Sound(HaveEach(s, pe, bits))
  {
    if bits != [] {
      HaveEachSound(s, pe, bits[..|bits| - 1]);
      SubsetSound(HaveEach(s, pe, bits[..|bits| - 1]), HaveEach(s, pe, bits));
    }
  }

  lemma OpSound(d: PD.Downloader, lengths: seq<nat>, op: PD.Op)
    requires SoundOne(d, lengths) && PD.Enabled(d, op)
    ensures SoundOne(PD.Apply(d, op), lengths)
  {
    PD.ApplyValid(d, op);
    match op
    case OpRequest(q) => RequestKeepsPiece(d, q);
    case _ =>
  }

  lemma HaveSound(s: State, pe: Peer, m: Message, t: State)
    requires Sound(s) && MessageStep(s, pe, m, t) && (m.HaveMessage? || m.BitfieldMessage? || m.HaveAllMessage?)
    ensures Sound(t)
  {
    match m
    case HaveMessage(i) =>
      if i >= s.N() { ClosedPeerSound(s, pe, t); return; }
      SubsetSound(s, HaveOne(s, pe, i));
      OfferedSound(HaveOne(s, pe, i), pe, t);
    case BitfieldMessage(size, bits) =>
      if size == 0 { return; }
      if size != (s.N() + 7) / 8 { ClosedPeerSound(s, pe, t); return; }
      HaveEachSound(s, pe, bits);
      OfferedSound(HaveEach(s, pe, bits), pe, t);
    case HaveAllMessage =>
      HaveEachSound(s, pe, seq(s.N(), _ => true));
      OfferedSound(HaveEach(s, pe, seq(s.N(), _ => true)), pe, t);
  }

  lemma OfferedSound(h: State, pe: Peer, t: State)
    requires Sound(h) && AskedFor(Interest(h, pe), pe, t)
    ensures Sound(t)
  {
    SubsetSound(h, Interest(h, pe));
    AskedForSound(Interest(h, pe), pe, t);
  }

  lemma ChokeSound(s: State, pe: Peer, t: State)
    requires Sound(s) && MessageStep(s, pe, ChokeMessage, t)
    ensures Sound(t)
  {
    var u := SetPeer(s, pe, s.peers[pe].(peerChoking := true));
    SubsetSound(s, u);
    if pe in s.downloaders && !s.downloaders[pe].allowedFast {
      var order: seq<nat> :| PD.Enumerates(order, s.downloaders[pe].pending) && StartAll(Choked(u, pe, order), t);
      OpSound(s.downloaders[pe], s.lengths, PD.OpChoked(u.peers[pe].fastEnabled, order));
      SetDownloaderSound(u, pe, Choked(u, pe, order).downloaders[pe]);
      SubsetSound(SetDownloader(u, pe, Choked(u, pe, order).downloaders[pe]), Choked(u, pe, order));
      StartAllSound(Choked(u, pe, order), t);
    }
  }

  lemma UnchokeSound(s: State, pe: Peer, t: State)
    requires Sound(s) && MessageStep(s, pe, UnchokeMessage, t)
    ensures Sound(t)
  {
    var u := SetPeer(s, pe, s.peers[pe].(peerChoking := false));
    SubsetSound(s, u);
    if pe !in s.downloaders {
      AskedForSound(u, pe, t);
    } else if !s.downloaders[pe].allowedFast {
      OpSound(s.downloaders[pe], s.lengths, PD.OpRequest(MaxAllowedRequests(u, u.peers[pe])));
      SetDownloaderSound(u, pe, t.downloaders[pe]);
      SubsetSound(SetDownloader(u, pe, t.downloaders[pe]), t);
    }
  }

  lemma RejectSound(s: State, pe: Peer, index: nat, begin: nat, length: nat, t: State)
    requires Sound(s) && MessageStep(s, pe, RejectMessage(index, begin, length), t)
    ensures Sound(t)
  {
    if index >= s.N() { ClosedPeerSound(s, pe, t); return; }
    if !Downloads(s, pe, index) { return; }
    match FindBlock(s.lengths[index], begin, length)
    case None => ClosedPeerSound(s, pe, t);
    case Some(b) =>
      assert SoundOne(s.downloaders[pe], s.lengths);
      OpSound(s.downloaders[pe], s.lengths, PD.OpRejected(b.index));
  }

  lemma MessageSound(s: State, pe: Peer, m: Message, t: State)
    requires Sound(s) && MessageStep(s, pe, m, t)
    ensures Sound(t)
  {
    hide Sound, AskedFor, ClosedPeer, StartAll, HaveEach, PD.Request;
    match m
    case AllowedFastMessage(i) =>
      if i >= s.N() { ClosedPeerSound(s, pe, t); } else { SubsetSound(s, t); }
    case UnchokeMessage => UnchokeSound(s, pe, t);
    case ChokeMessage => ChokeSound(s, pe, t);
    case RejectMessage(index, begin, length) => RejectSound(s, pe, index, begin, length, t);
    case HaveNoneMessage =>
    case InterestedMessage => SubsetSound(s, t);
    case NotInterestedMessage => SubsetSound(s, t);
    case RequestMessage(index, begin, length) => if BadRequest(s, index, begin, length) { ClosedPeerSound(s, pe, t); }
    case CancelMessage(_, _, _) =>
    case ExtensionHandshakeMessage(_) => SubsetSound(s, t);
    case PassiveMessage =>
    case PortMessage(_) =>
    case _ => HaveSound(s, pe, m, t);
  }

  lemma PieceSound(s: State, pe: Peer, index: nat, begin: nat, data: bytes, t: State)
    requires Sound(s) && PieceStep(s, pe, index, begin, data, t)
    ensures Sound(t)
  {
    if index >= s.N() { ClosedPeerSound(s, pe, t); return; }
    if !Downloads(s, pe, index) { return; }
    match FindBlock(s.lengths[index], begin, |data|)
    case None => ClosedPeerSound(s, pe, t);
    case Some(b) =>
      ReceivedSound(s, pe, b, data);
      var d := PD.Receive(s.downloaders[pe], b, data).0;
      if d.Done() {
        SetDownloaderSound(s, pe, d);
        FinishedSound(SetDownloader(s, pe, d), pe, t);
      }
  }

  lemma FinishedSound(s: State, pe: Peer, t: State)
    requires Sound(s) && Finished(s, pe, t)
    ensures Sound(t)
  {
    assert SoundOne(s.downloaders[pe], s.lengths);
    var i := s.downloaders[pe].piece;
    var n := MarkWriting(CloseDownloader(s, pe), i);
    SubsetSound(s, n);
    var u :| AskedFor(n, pe, u) && t == u.(suspended := true, writer := Some(Write(i, pe, s.downloaders[pe].buffer)));
    AskedForSound(n, pe, u);
    AskedForFrame(n, pe, u);
  }

  lemma WriteDoneSound(s: State, hashOK: bool, failed: bool, stop: bool, t: State)
    requires Sound(s) && WriteDoneStep(s, hashOK, failed, stop, t)
    ensures Sound(t)
  {
    var i := s.writer.value.piece;
    var u := Unmark(s);
    SubsetSound(s, u);
    if !hashOK {
      var m :| ClosedPeer(u, s.writer.value.source, m) && StartAll(m, t);
      ClosedPeerSound(u, s.writer.value.source, m);
      StartAllSound(m, t);
    } else if failed {
      SubsetSound(u, t);
    } else {
      var v := MarkDone(u, i);
      SubsetSound(u, v);
      var m :| CancelEach(v, i, RequestedPeers(v, i), m) && t == Finish(m, stop);
      CancelEachSound(v, i, RequestedPeers(v, i), m);
      FinishSound(m, stop);
    }
  }

  lemma FinishSound(s: State, stop: bool)
    requires Sound(s)
    ensures Sound(Finish(s, stop))
  {
    SubsetSound(s, CheckCompletion(s));
    SubsetSound(CheckCompletion(s), Finish(s, stop));
  }

  lemma StepSound(s: State, e: Event, t: State)
    requires Sound(s) && Step(s, e, t)
    ensures Sound(t)
  {
    match e
    case PeerMessage(pe, m) => MessageSound(s, pe, m, t);
    case PieceMessage(pe, index, begin, data) => PieceSound(s, pe, index, begin, data, t);
    case WriteDone(hashOK, failed, stop) => WriteDoneSound(s, hashOK, failed, stop, t);
    case RamNotify(pe) => StartedSound(Grant(s, pe), pe, t);
    case Disconnected(pe) => ClosedPeerSound(s, pe, t);
    case Incoming(pe) =>
    case StopCommand => SubsetSound(s, t);
    case Opened => OpenedSound(s, t);
  }

  lemma OpenedSound(s: State, t: State)
    requires Sound(s) && OpenedAs(s, t)
    ensures Sound(t)
  {
    hide Sound, StartAll;
    var dialled: set<Peer> :|
      dialled !! s.peers.Keys && (s.completed ==> dialled == {}) && StartAll(WithPeers(s, dialled), t);
    SubsetSound(s, WithPeers(s, dialled));
    StartAllSound(WithPeers(s, dialled), t);
  }

  // ---- whole runs

  ghost predicate Safe(s: State) {
    Inv(s) && Sound(s)
  }

  /** What handleAllocationDone or handleVerificationDone leave when they reach their
      last lines: a picker that knows of nobody yet, Done flags copied from the
      resumed, empty or verified bitfield, and RAM all returned. */
  ghost predicate Prepared(s: State) {
    && Shape(s) && s.running && !s.completed && s.picker.Some? && s.downloaders == map[]
    && (forall i :: 0 <= i < s.N() ==>
          s.picker.value.pieces[i].requested.live == [] && s.picker.value.pieces[i].having.live == [])
    && (forall i :: 0 <= i < s.N() ==> s.flags[i] == PieceState(s.bitfield[i], false))
    && (forall pe :: pe in s.peers ==> !s.peers[pe].downloading)
    && !s.suspended && s.writer.None?
    && Owes(s.ram, s.pieceLength) && RM.Live(s.ram) == 0
  }

  ghost predicate Execution(states: seq<State>, events: seq<Event>) {
    && |states| == |events| + 1
    && forall k :: 0 <= k < |events| ==> Step(states[k], events[k], states[k + 1])
  }

  /** A run of one epoch: completion is checked, then come the messages queued before the
      bitfield existed, the start of the downloads, and whatever happens later. Nothing
      below needs the events to come in this order; see Torrents and Connections. */
  ghost predicate Epoch(start: State, stop: bool, states: seq<State>, events: seq<Event>) {
    Prepared(start) && Execution(states, events) && states[0] == Finish(start, stop)
  }

  lemma CheckedSafe(start: State, stop: bool)
    requires Prepared(start)
    ensures Safe(Finish(start, stop))
  {
    assert |start.downloaders| == 0;
    FinishInv(start, stop);
    assert Sound(start);
    FinishSound(start, stop);
  }

  lemma StepSafe(s: State, e: Event, t: State)
    requires Safe(s) && Step(s, e, t)
    ensures Safe(t)
  {
    StepInv(s, e, t);
    StepSound(s, e, t);
  }

  /** Every state of every run of one epoch is safe. */
  lemma {:induction false} EpochSafe(start: State, stop: bool, states: seq<State>, events: seq<Event>, k: nat)
    requires Epoch(start, stop, states, events) && k <= |events|
    ensures Safe(states[k])
  {
    hide Safe, Prepared, Finish, Step;
    if k == 0 {
      CheckedSafe(start, stop);
    } else {
      EpochSafe(start, stop, states, events, k - 1);
      StepSafe(states[k - 1], events[k - 1], states[k]);
    }
  }

  // ---- how an epoch begins

  /** What is queued for a peer before the bitfield exists. */
  predicate Queueable(m: Message) {
    m.HaveMessage? || m.BitfieldMessage? || m.HaveAllMessage? || m.AllowedFastMessage?
  }

  /** A bitfield of the right size has a bit for every piece. */
  predicate WellFormed(m: Message, n: nat) {
    m.BitfieldMessage? && m.size != 0 && m.size == (n + 7) / 8 ==> |m.bits| == n
  }

  type Queues = map<Peer, seq<Message>>

  ghost predicate QueuesOk(queues: Queues, n: nat) {
    forall pe, k :: pe in queues && 0 <= k < |queues[pe]| ==> Queueable(queues[pe][k]) && WellFormed(queues[pe][k], n)
  }

  function Queue(queues: Queues, pe: Peer): seq<Message> {
    if pe in queues then queues[pe] else []
  }

  function Queued(pe: Peer, ms: seq<Message>): seq<Event> {
    if ms == [] then [] else Queued(pe, ms[..|ms| - 1]) + [PeerMessage(pe, ms[|ms| - 1])]
  }

  /** processQueuedMessages: one queue after the other, in the order of the map. */
  function Replay(order: seq<Peer>, queues: Queues): seq<Event> {
    if order == [] then []
    else Replay(order[..|order| - 1], queues) + Queued(order[|order| - 1], Queue(queues, order[|order| - 1]))
  }

  /** The events take s to t, one after the other. */
  ghost predicate Leads(s: State, events: seq<Event>, t: State) {
    if events == [] then t == s
    else
      var front, last := events[..|events| - 1], events[|events| - 1];
      exists m: State :: Leads(s, front, m) && Step(m, last, t)
  }

  /** handleAllocationDone and handleVerificationDone, from the completion check on. */
  ghost predicate EpochStart(s: State, stop: bool, queues: Queues, t: State) {
    var f := Finish(s, stop);
    if !f.running then t == f
    else exists order: seq<Peer> :: Enumerates(order, f.connected) && Leads(f, Replay(order, queues) + [Opened], t)
  }

  lemma LeadsSnoc(s: State, events: seq<Event>, m: State, e: Event, t: State)
    requires Leads(s, events, m) && Step(m, e, t)
    ensures Leads(s, events + [e], t)
  {
    assert (events + [e])[..|events|] == events;
  }

  lemma {:induction false} LeadsSafe(s: State, events: seq<Event>, t: State)
    requires Safe(s) && Leads(s, events, t)
    ensures Safe(t)
  {
    if events != [] {
      hide Safe, Step;
      var m :| Leads(s, events[..|events| - 1], m) && Step(m, events[|events| - 1], t);
      LeadsSafe(s, events[..|events| - 1], m);
      StepSafe(m, events[|events| - 1], t);
    }
  }

  lemma EpochStartSafe(s: State, stop: bool, queues: Queues, t: State)
    requires Prepared(s) && EpochStart(s, stop, queues, t)
    ensures Safe(t)
  {
    hide Safe, Prepared, Finish, Leads;
    CheckedSafe(s, stop);
    var f := Finish(s, stop);
    if f.running {
      var order: seq<Peer> :| Enumerates(order, f.connected) && Leads(f, Replay(order, queues) + [Opened], t);
      LeadsSafe(f, Replay(order, queues) + [Opened], t);
    }
  }

  /** What EpochStart leads to is reached by a run of the epoch. */
  lemma {:induction false} LeadsRun(s: State, events: seq<Event>, t: State) returns (states: seq<State>)
    requires Leads(s, events, t)
    ensures RunFrom(s, states, events, t)
  {
    hide Step, RunFrom;
    if events == [] {
      states := [s];
      EmptyRun(s);
    } else {
      var front, e := events[..|events| - 1], events[|events| - 1];
      var m :| Leads(s, front, m) && Step(m, e, t);
      states := LeadsRun(s, front, m);
      RunSnoc(s, states, front, m, e, t);
      states := states + [t];
      assert events == front + [e];
    }
  }

  ghost predicate RunFrom(s: State, states: seq<State>, events: seq<Event>, t: State) {
    Execution(states, events) && states[0] == s && states[|events|] == t
  }

  lemma EmptyRun(s: State)
    ensures RunFrom(s, [s], [], s)
  {
  }

  lemma RunSnoc(s: State, states: seq<State>, events: seq<Event>, m: State, e: Event, t: State)
    requires RunFrom(s, states, events, m) && Step(m, e, t)
    ensures RunFrom(s, states + [t], events + [e], t)
  {
    hide Step;
    var (ss, es) := (states + [t], events + [e]);
    forall k | 0 <= k < |es| ensures Step(ss[k], es[k], ss[k + 1]) {
      if k < |events| { assert ss[k] == states[k] && ss[k + 1] == states[k + 1] && es[k] == events[k]; }
    }
  }

  // ---- what a message leaves alone

  lemma {:induction false} StartEachFrame(s: State, order: seq<Peer>, t: State)
    requires StartEach(s, order, t)
    ensures SameButDownloads(s, t)
  {
    if order != [] {
      var front, last := order[..|order| - 1], order[|order| - 1];
      var m :| StartEach(s, front, m) && StartOne(m, last, t);
      StartEachFrame(s, front, m);
      if t != m { AskedForFrame(m, last, t); }
    }
  }

  lemma StartAllFrame(s: State, t: State)
    requires StartAll(s, t)
    ensures SameButDownloads(s, t)
  {
    if s.Status() == Downloading {
      var order: seq<Peer> :| Enumerates(order, s.connected) && StartEach(s, order, t);
      StartEachFrame(s, order, t);
    }
  }

  lemma {:induction false} HaveEachFrame(s: State, pe: Peer, bits: seq<bool>)
    ensures SameButDownloads(s, HaveEach(s, pe, bits))
  {
    if bits != [] { HaveEachFrame(s, pe, bits[..|bits| - 1]); }
  }

  lemma OfferedFrame(s: State, h: State, pe: Peer, t: State)
    requires SameButDownloads(s, h) && AskedFor(Interest(h, pe), pe, t)
    ensures SameButDownloads(s, t)
  {
    AskedForFrame(Interest(h, pe), pe, t);
  }

  /** A message changes neither the pieces nor the phase of the torrent, nor a write under way. */
  lemma MessageFrame(s: State, pe: Peer, m: Message, t: State)
    requires MessageStep(s, pe, m, t)
    ensures SameButDownloads(s, t)
  {
    hide AskedFor, ClosedPeer, StartAll, HaveEach, PD.Request;
    if ClosedPeer(s, pe, t) {
      ClosedPeerFrame(s, pe, t);
    } else {
      match m
      case HaveMessage(i) => OfferedFrame(s, HaveOne(s, pe, i), pe, t);
      case BitfieldMessage(size, bits) =>
        if size != 0 { OfferedFrame(s, HaveEach(s, pe, bits), pe, t) by { HaveEachFrame(s, pe, bits); } }
      case HaveAllMessage =>
        var bits := seq(s.N(), _ => true);
        OfferedFrame(s, HaveEach(s, pe, bits), pe, t) by { HaveEachFrame(s, pe, bits); }
      case UnchokeMessage => UnchokedFrame(s, pe, t);
      case ChokeMessage => ChokedFrame(s, pe, t);
      case _ =>
    }
  }

  lemma ChokedFrame(s: State, pe: Peer, t: State)
    requires MessageStep(s, pe, ChokeMessage, t)
    ensures SameButDownloads(s, t)
  {
    hide StartAll;
    forall u: State | StartAll(u, t) ensures SameButDownloads(u, t) { StartAllFrame(u, t); }
  }

  lemma UnchokedFrame(s: State, pe: Peer, t: State)
    requires MessageStep(s, pe, UnchokeMessage, t)
    ensures SameButDownloads(s, t)
  {
    hide AskedFor, PD.Request;
    var u := SetPeer(s, pe, s.peers[pe].(peerChoking := false));
    if pe !in u.downloaders { AskedForFrame(u, pe, t); }
  }

  // ---- pieces are completed once

  /** Event k reports piece i as hashed and written. */
  ghost predicate Completes(states: seq<State>, events: seq<Event>, k: nat, i: nat) {
    && k < |events| && k < |states| && events[k].WriteDone? && events[k].hashOK && !events[k].failed
    && states[k].writer.Some? && states[k].writer.value.piece == i
  }

  lemma BitsStep1(s: State, e: Event, t: State, i: nat)
    requires BitsStep(s, e, t) && i < |s.bitfield| && s.bitfield[i]
    ensures i < |t.bitfield| && t.bitfield[i]
  {
  }

  lemma {:induction false} BitsStay(states: seq<State>, events: seq<Event>, j: nat, k: nat, i: nat)
    requires |states| == |events| + 1 && j <= k <= |events|
    requires forall q :: 0 <= q < |events| ==> BitsStep(states[q], events[q], states[q + 1])
    requires i < |states[j].bitfield| && states[j].bitfield[i]
    ensures i < |states[k].bitfield| && states[k].bitfield[i]
    decreases k
  {
    if j < k {
      BitsStay(states, events, j, k - 1, i);
      BitsStep1(states[k - 1], events[k - 1], states[k], i);
    }
  }

  lemma StepOfRun(start: State, stop: bool, states: seq<State>, events: seq<Event>, k: nat)
    requires Epoch(start, stop, states, events) && k < |events|
    ensures BitsStep(states[k], events[k], states[k + 1])
  {
    EpochSafe(start, stop, states, events, k);
    StepInv(states[k], events[k], states[k + 1]);
  }

  /** Each piece becomes done at most once in an epoch. */
  lemma DoneOnce(start: State, stop: bool, states: seq<State>, events: seq<Event>, j: nat, k: nat, i: nat, i': nat)
    requires Epoch(start, stop, states, events) && j < k
    requires Completes(states, events, j, i) && Completes(states, events, k, i')
    ensures i != i'
  {
    forall q: nat | q < |events| ensures BitsStep(states[q], events[q], states[q + 1]) {
      StepOfRun(start, stop, states, events, q);
    }
    DoneOnceBits(states, events, j, k, i, i');
  }

  lemma DoneOnceBits(states: seq<State>, events: seq<Event>, j: nat, k: nat, i: nat, i': nat)
    requires |states| == |events| + 1 && j < k
    requires forall q :: 0 <= q < |events| ==> BitsStep(states[q], events[q], states[q + 1])
    requires Completes(states, events, j, i) && Completes(states, events, k, i')
    ensures i != i'
  {
    assert BitsStep(states[j], events[j], states[j + 1]) && BitsStep(states[k], events[k], states[k + 1]);
    BitsStay(states, events, j + 1, k, i);
  }
}
