/** What is recorded of each peer (external/peer/peer.go), told from the events of a run
    alone; and what a choking peer's records mean for its download. */
module PeerRecords {
  import opened Common
  import opened Blocks
  import opened PeerSets
  import opened Pickers
  import opened Engine
  import opened EventLoop
  import PD = PieceDownloaders
  import RM = ResourceManagers

  /** The two flags that the event loop itself sets are left out. */
  ghost predicate Alike(p: PeerState, q: PeerState) {
    q == p.(downloading := q.downloading, clientInterested := q.clientInterested)
  }

  /** What s records of a peer; whoever it does not know yet would begin like this. */
  ghost function Of(s: State, pe: Peer): PeerState {
    if pe in s.peers then s.peers[pe] else NewPeer(s.N())
  }

  /** Nothing is heard of anybody. */
  ghost predicate Kept(s: State, t: State) {
    && s.peers.Keys <= t.peers.Keys && t.lengths == s.lengths
    && (forall pe :: pe in t.peers ==> Alike(Of(s, pe), t.peers[pe]))
  }

  /** And only `pe` is heard of. */
  ghost predicate KeptBut(s: State, pe: Peer, t: State) {
    && s.peers.Keys <= t.peers.Keys && t.lengths == s.lengths
    && (forall q :: q in t.peers && q != pe ==> Alike(Of(s, q), t.peers[q]))
  }

  lemma KeptSelf(s: State)
    ensures Kept(s, s)
  {
  }

  lemma KeptTwice(s: State, m: State, t: State)
    requires Kept(s, m) && Kept(m, t)
    ensures Kept(s, t)
  {
    forall pe | pe in t.peers ensures Alike(Of(s, pe), t.peers[pe]) {
      assert Alike(Of(m, pe), t.peers[pe]);
      assert pe in m.peers ==> Alike(Of(s, pe), m.peers[pe]);
    }
  }

  // ---- the steps handlers share

  lemma StartedKept(s: State, pe: Peer, t: State)
    requires Started(s, pe, t)
    ensures Kept(s, t)
  {
  }

  lemma AskedForKept(s: State, pe: Peer, t: State)
    requires AskedFor(s, pe, t)
    ensures Kept(s, t)
  {
    if s.Status() == Downloading && t != Acquire(s, pe, false) {
      hide Started;
      StartedKept(Acquire(s, pe, true), pe, t);
    }
  }

  lemma {:induction false} StartEachKept(s: State, order: seq<Peer>, t: State)
    requires StartEach(s, order, t)
    ensures Kept(s, t)
  {
    if order != [] {
      hide Kept, AskedFor;
      var front, last := order[..|order| - 1], order[|order| - 1];
      var m :| StartEach(s, front, m) && StartOne(m, last, t);
      StartEachKept(s, front, m);
      if t != m {
        AskedForKept(m, last, t);
        KeptTwice(s, m, t);
      }
    }
  }

  lemma StartAllKept(s: State, t: State)
    requires StartAll(s, t)
    ensures Kept(s, t)
  {
    if s.Status() == Downloading {
      hide Kept;
      var order: seq<Peer> :| Enumerates(order, s.connected) && StartEach(s, order, t);
      StartEachKept(s, order, t);
    }
  }

  lemma CloseDownloaderKept(s: State, pe: Peer)
    ensures Kept(s, CloseDownloader(s, pe))
  {
  }

  lemma WithPeersKept(s: State, dialled: set<Peer>)
    requires dialled !! s.peers.Keys
    ensures Kept(s, WithPeers(s, dialled))
  {
  }

  lemma ClosedKept(s: State, pe: Peer, t: State)
    requires ClosedPeer(s, pe, t)
    ensures Kept(s, t)
  {
    hide Kept;
    var dialled: set<Peer> :| dialled !! s.peers.Keys && (s.completed ==> dialled == {})
        && t == WithPeers(ClosePeer(s, pe), dialled);
    CloseDownloaderKept(s, pe);
    ForgetKept(CloseDownloader(s, pe), pe);
    KeptTwice(s, CloseDownloader(s, pe), ClosePeer(s, pe));
    WithPeersKept(ClosePeer(s, pe), dialled);
    KeptTwice(s, ClosePeer(s, pe), t);
  }

  lemma ForgetKept(s: State, pe: Peer)
    ensures Kept(s, Forget(s, pe))
  {
  }

  lemma {:induction false} CancelEachKept(s: State, i: nat, order: seq<Peer>, t: State)
    requires CancelEach(s, i, order, t)
    ensures Kept(s, t)
  {
    if order != [] {
      hide Kept, Downloads, AskedFor;
      var front, last := order[..|order| - 1], order[|order| - 1];
      var m :| CancelEach(s, i, front, m) && Downloads(m, last, i) && AskedFor(CloseDownloader(m, last), last, t);
      CancelEachKept(s, i, front, m);
      CloseDownloaderKept(m, last);
      AskedForKept(CloseDownloader(m, last), last, t);
      KeptTwice(m, CloseDownloader(m, last), t);
      KeptTwice(s, m, t);
    } else {
      KeptSelf(s);
    }
  }

  lemma FinishKept(s: State, stop: bool)
    ensures Kept(s, Finish(s, stop))
  {
    hide AllSet, Releases;
  }

  lemma StoppedKept(s: State, t: State)
    requires StoppedAs(s, t)
    ensures Kept(s, t)
  {
    hide Kept;
    var dialled: set<Peer>, left: set<Peer> :|
      dialled !! s.peers.Keys && left <= dialled && (s.completed ==> dialled == {})
          && t == Redialled(Stop(s), dialled, left);
    StopKept(s);
    WithPeersKept(Stop(s), dialled);
    KeptTwice(s, Stop(s), WithPeers(Stop(s), dialled));
    ConnectedKept(WithPeers(Stop(s), dialled), left);
    KeptTwice(s, WithPeers(Stop(s), dialled), t);
  }

  lemma StopKept(s: State)
    ensures Kept(s, Stop(s)) && Stop(s).peers.Keys == s.peers.Keys
  {
    hide Releases;
  }

  lemma ConnectedKept(s: State, left: set<Peer>)
    ensures Kept(s, s.(connected := left))
  {
  }

  // ---- what one event adds

  /** The event announces piece i on behalf of its peer. */
  predicate Announces(e: Event, pe: Peer, n: nat, i: nat) {
    e.PeerMessage? && e.pe == pe && i < n &&
    match e.m
    case HaveMessage(j) => j == i
    case BitfieldMessage(size, bits) => size == (n + 7) / 8 && i < |bits| && bits[i]
    case HaveAllMessage => true
    case _ => false
  }

  predicate Says(e: Event, pe: Peer, m: Message) {
    e == PeerMessage(pe, m)
  }

  /** From p to q, what is known of peer pe took up event e; pieces are recorded while
      there is a picker. */
  ghost predicate Heard(e: Event, pe: Peer, picking: bool, n: nat, p: PeerState, q: PeerState) {
    && (q.peerChoking <==> Says(e, pe, ChokeMessage) || (p.peerChoking && !Says(e, pe, UnchokeMessage)))
    && (q.peerInterested <==>
          Says(e, pe, InterestedMessage) || (p.peerInterested && !Says(e, pe, NotInterestedMessage)))
    && q.fastEnabled == p.fastEnabled
    && q.requestQueue == (match p.requestQueue
                          case Some(_) => p.requestQueue
                          case None =>
                            match e
                            case PeerMessage(from, ExtensionHandshakeMessage(r)) => if from == pe then Some(r) else None
                            case _ => None)
    && |q.bitfield| == |p.bitfield|
    && (forall i :: 0 <= i < |p.bitfield| ==> (q.bitfield[i] <==> p.bitfield[i] || (picking && Announces(e, pe, n, i))))
    && (forall i: nat :: i in q.allowedFast <==>
          i in p.allowedFast || (picking && i < n && Says(e, pe, AllowedFastMessage(i))))
  }

  ghost predicate Recorded(s: State, e: Event, t: State) {
    && s.peers.Keys <= t.peers.Keys && t.lengths == s.lengths
    && (forall pe :: pe in t.peers ==> Heard(e, pe, s.picker.Some?, s.N(), Of(s, pe), t.peers[pe]))
  }

  /** An event that is no message, or one that tells nothing to be recorded. */
  ghost predicate Silent(s: State, e: Event) {
    if !e.PeerMessage? then true
    else
      e.pe in s.peers &&
      match e.m
      case HaveMessage(i) => i >= s.N()
      case BitfieldMessage(size, _) => size == 0 || size != (s.N() + 7) / 8
      case AllowedFastMessage(i) => i >= s.N()
      case RejectMessage(_, _, _) => true
      case RequestMessage(_, _, _) => true
      case CancelMessage(_, _, _) => true
      case HaveNoneMessage => true
      case PassiveMessage => true
      case _ => false
  }

  lemma SilentRecorded(s: State, e: Event, t: State)
    requires Silent(s, e) && Kept(s, t)
    ensures Recorded(s, e, t)
  {
    hide Heard, Alike, Silent, Of;
    forall pe | pe in t.peers ensures Heard(e, pe, s.picker.Some?, s.N(), Of(s, pe), t.peers[pe]) {
      assert Alike(Of(s, pe), t.peers[pe]);
      NothingHeard(s, e, pe, t.peers[pe]);
    }
  }

  lemma NothingHeard(s: State, e: Event, pe: Peer, st: PeerState)
    requires Silent(s, e) && Alike(Of(s, pe), st)
    ensures Heard(e, pe, s.picker.Some?, s.N(), Of(s, pe), st)
  {
  }

  lemma HeardAlike(e: Event, pe: Peer, picking: bool, n: nat, p: PeerState, q: PeerState, r: PeerState)
    requires Heard(e, pe, picking, n, p, q) && Alike(q, r)
    ensures Heard(e, pe, picking, n, p, r)
  {
    hide Announces;
  }

  /** The sender's record changed as it should, and nobody is heard of afterwards. */
  lemma ToldRecorded(s: State, pe: Peer, m: Message, st: PeerState, u: State, t: State)
    requires pe in s.peers && u.peers == s.peers[pe := st] && u.lengths == s.lengths && Kept(u, t)
    requires Heard(PeerMessage(pe, m), pe, s.picker.Some?, s.N(), s.peers[pe], st)
    ensures Recorded(s, PeerMessage(pe, m), t)
  {
    hide Heard, Alike;
    var e := PeerMessage(pe, m);
    forall q | q in t.peers ensures Heard(e, q, s.picker.Some?, s.N(), Of(s, q), t.peers[q]) {
      assert Alike(Of(u, q), t.peers[q]);
      if q == pe {
        HeardAlike(e, pe, s.picker.Some?, s.N(), s.peers[pe], st, t.peers[q]);
      } else {
        OthersUnheard(s, pe, m, q, t.peers[q]);
      }
    }
  }

  lemma OthersUnheard(s: State, pe: Peer, m: Message, q: Peer, st: PeerState)
    requires q != pe && Alike(Of(s, q), st)
    ensures Heard(PeerMessage(pe, m), q, s.picker.Some?, s.N(), Of(s, q), st)
  {
  }

  /** The bits that HaveEach sets, and nothing else of the record. */
  lemma {:induction false} HaveEachRecord(s: State, pe: Peer, bits: seq<bool>)
    requires pe in s.peers
    ensures var h := HaveEach(s, pe, bits);
            && h.lengths == s.lengths && h.picker.Some? == s.picker.Some?
            && pe in h.peers && h.peers == s.peers[pe := h.peers[pe]]
            && Marked(s.peers[pe], h.peers[pe], bits, s.picker.Some?)
  {
    if bits != [] {
      var k := |bits| - 1;
      HaveEachRecord(s, pe, bits[..k]);
      HaveOneRecord(HaveEach(s, pe, bits[..k]), pe, k);
    }
  }

  lemma HaveOneRecord(s: State, pe: Peer, i: nat)
    requires pe in s.peers
    ensures var h := HaveOne(s, pe, i);
            && h.lengths == s.lengths && h.picker.Some? == s.picker.Some?
            && pe in h.peers && h.peers == s.peers[pe := h.peers[pe]]
            && h.peers[pe] == s.peers[pe].(bitfield :=
                 if s.picker.Some? && i < |s.peers[pe].bitfield| then s.peers[pe].bitfield[i := true]
                 else s.peers[pe].bitfield)
  {
  }

  ghost predicate Marked(p: PeerState, q: PeerState, bits: seq<bool>, picking: bool) {
    && q == p.(bitfield := q.bitfield) && |q.bitfield| == |p.bitfield|
    && forall i :: 0 <= i < |p.bitfield| ==>
         (q.bitfield[i] <==> p.bitfield[i] || (picking && i < |bits| && bits[i]))
  }

  lemma OfferRecorded(s: State, pe: Peer, m: Message, h: State, t: State)
    requires pe in s.peers && h.lengths == s.lengths && pe in h.peers && h.peers == s.peers[pe := h.peers[pe]]
    requires Heard(PeerMessage(pe, m), pe, s.picker.Some?, s.N(), s.peers[pe], h.peers[pe])
    requires AskedFor(Interest(h, pe), pe, t)
    ensures Recorded(s, PeerMessage(pe, m), t)
  {
    hide AskedFor, Heard, Announces;
    InterestKept(h, pe);
    AskedForKept(Interest(h, pe), pe, t);
    KeptTwice(h, Interest(h, pe), t);
    ToldRecorded(s, pe, m, h.peers[pe], h, t);
  }

  lemma InterestKept(s: State, pe: Peer)
    ensures Kept(s, Interest(s, pe))
  {
  }

  lemma HaveRecorded(s: State, pe: Peer, i: nat, t: State)
    requires MessageStep(s, pe, HaveMessage(i), t) && i < s.N()
    ensures Recorded(s, PeerMessage(pe, HaveMessage(i)), t)
  {
    hide AskedFor, ClosedPeer, Interest, HaveOne, Recorded;
    HaveOneRecord(s, pe, i);
    OfferRecorded(s, pe, HaveMessage(i), HaveOne(s, pe, i), t);
  }

  lemma BitsRecorded(s: State, pe: Peer, m: Message, bits: seq<bool>, t: State)
    requires pe in s.peers && AskedFor(Interest(HaveEach(s, pe, bits), pe), pe, t)
    requires forall i :: 0 <= i < |s.peers[pe].bitfield| ==>
               (Announces(PeerMessage(pe, m), pe, s.N(), i) <==> i < |bits| && bits[i])
    requires m.BitfieldMessage? || m.HaveAllMessage?
    ensures Recorded(s, PeerMessage(pe, m), t)
  {
    hide AskedFor, Interest, HaveEach, Recorded, Announces;
    HaveEachRecord(s, pe, bits);
    OfferRecorded(s, pe, m, HaveEach(s, pe, bits), t);
  }

  lemma AllRecorded(s: State, pe: Peer, t: State)
    requires MessageStep(s, pe, HaveAllMessage, t) && |s.peers[pe].bitfield| == s.N()
    ensures Recorded(s, PeerMessage(pe, HaveAllMessage), t)
  {
    hide AskedFor, Interest, HaveEach, Recorded;
    BitsRecorded(s, pe, HaveAllMessage, seq(s.N(), _ => true), t);
  }

  lemma BitfieldRecorded(s: State, pe: Peer, size: nat, bits: seq<bool>, t: State)
    requires MessageStep(s, pe, BitfieldMessage(size, bits), t) && |s.peers[pe].bitfield| == s.N()
    requires size != 0 && size == (s.N() + 7) / 8
    ensures Recorded(s, PeerMessage(pe, BitfieldMessage(size, bits)), t)
  {
    hide AskedFor, Interest, HaveEach, Recorded, ClosedPeer;
    BitsRecorded(s, pe, BitfieldMessage(size, bits), bits, t);
  }

  lemma ChokeRecorded(s: State, pe: Peer, t: State)
    requires MessageStep(s, pe, ChokeMessage, t)
    ensures Recorded(s, PeerMessage(pe, ChokeMessage), t)
  {
    hide StartAll;
    var st := s.peers[pe].(peerChoking := true);
    var u := SetPeer(s, pe, st);
    if pe !in s.downloaders || s.downloaders[pe].allowedFast {
      KeptSelf(u);
      ToldRecorded(s, pe, ChokeMessage, st, u, t);
    } else {
      var order: seq<nat> :| PD.Enumerates(order, s.downloaders[pe].pending) && StartAll(Choked(u, pe, order), t);
      StartAllKept(Choked(u, pe, order), t);
      ToldRecorded(s, pe, ChokeMessage, st, Choked(u, pe, order), t);
    }
  }

  lemma UnchokeRecorded(s: State, pe: Peer, t: State)
    requires MessageStep(s, pe, UnchokeMessage, t)
    ensures Recorded(s, PeerMessage(pe, UnchokeMessage), t)
  {
    hide AskedFor, PD.Request;
    var st := s.peers[pe].(peerChoking := false);
    var u := SetPeer(s, pe, st);
    if pe !in u.downloaders { AskedForKept(u, pe, t); }
    ToldRecorded(s, pe, UnchokeMessage, st, u, t);
  }

  /** A message that only changes the record of its sender. */
  lemma PlainRecorded(s: State, pe: Peer, m: Message, st: PeerState)
    requires pe in s.peers && Heard(PeerMessage(pe, m), pe, s.picker.Some?, s.N(), s.peers[pe], st)
    ensures Recorded(s, PeerMessage(pe, m), SetPeer(s, pe, st))
  {
    hide Recorded, Heard, Kept;
    KeptSelf(SetPeer(s, pe, st));
    ToldRecorded(s, pe, m, st, SetPeer(s, pe, st), SetPeer(s, pe, st));
  }

  lemma FastRecorded(s: State, pe: Peer, i: nat, t: State)
    requires MessageStep(s, pe, AllowedFastMessage(i), t) && i < s.N()
    ensures Recorded(s, PeerMessage(pe, AllowedFastMessage(i)), t)
  {
    hide Recorded, ClosedPeer;
    var st := if s.picker.Some? then AddFast(s.peers[pe], i) else s.peers[pe];
    PlainRecorded(s, pe, AllowedFastMessage(i), st);
    SamePeers(s, pe, t);
  }

  lemma SamePeers(s: State, pe: Peer, t: State)
    ensures pe in s.peers && t == s ==> SetPeer(s, pe, s.peers[pe]) == t
  {
  }

  lemma InterestRecorded(s: State, pe: Peer, m: Message, t: State)
    requires MessageStep(s, pe, m, t) && (m.InterestedMessage? || m.NotInterestedMessage?)
    ensures Recorded(s, PeerMessage(pe, m), t)
  {
    hide Recorded;
    PlainRecorded(s, pe, m, s.peers[pe].(peerInterested := m.InterestedMessage?));
  }

  lemma HandshakeRecorded(s: State, pe: Peer, q: int, t: State)
    requires MessageStep(s, pe, ExtensionHandshakeMessage(q), t)
    ensures Recorded(s, PeerMessage(pe, ExtensionHandshakeMessage(q)), t)
  {
    hide Recorded;
    var st := if s.peers[pe].requestQueue.None? then s.peers[pe].(requestQueue := Some(q)) else s.peers[pe];
    PlainRecorded(s, pe, ExtensionHandshakeMessage(q), st);
    SamePeers(s, pe, t);
  }

  lemma MessageRecorded(s: State, pe: Peer, m: Message, t: State)
    requires MessageStep(s, pe, m, t) && |s.peers[pe].bitfield| == s.N()
    ensures Recorded(s, PeerMessage(pe, m), t)
  {
    if Silent(s, PeerMessage(pe, m)) {
      hide MessageStep, Recorded;
      SilentMessage(s, pe, m, t);
      SilentRecorded(s, PeerMessage(pe, m), t);
    } else {
      hide AskedFor, ClosedPeer, StartAll, HaveEach, HaveOne, Recorded;
      match m
      case ChokeMessage => ChokeRecorded(s, pe, t);
      case UnchokeMessage => UnchokeRecorded(s, pe, t);
      case HaveMessage(i) => HaveRecorded(s, pe, i, t);
      case HaveAllMessage => AllRecorded(s, pe, t);
      case BitfieldMessage(size, bits) => BitfieldRecorded(s, pe, size, bits, t);
      case PortMessage(_) =>
      case AllowedFastMessage(i) => FastRecorded(s, pe, i, t);
      case ExtensionHandshakeMessage(q) => HandshakeRecorded(s, pe, q, t);
      case _ => InterestRecorded(s, pe, m, t);
    }
  }

  lemma SilentMessage(s: State, pe: Peer, m: Message, t: State)
    requires MessageStep(s, pe, m, t) && Silent(s, PeerMessage(pe, m))
    ensures Kept(s, t)
  {
    hide AskedFor, ClosedPeer, StartAll, HaveEach, HaveOne, Kept;
    if ClosedPeer(s, pe, t) {
      ClosedKept(s, pe, t);
    } else if t == s {
      KeptSelf(s);
    } else {
      assert m.RejectMessage?;
      DownloaderKept(s, t);
    }
  }

  lemma DownloaderKept(s: State, t: State)
    requires t == s.(downloaders := t.downloaders)
    ensures Kept(s, t)
  {
  }

  // ---- one step

  lemma PieceKept(s: State, pe: Peer, index: nat, begin: nat, data: bytes, t: State)
    requires PieceStep(s, pe, index, begin, data, t)
    ensures Kept(s, t)
  {
    hide AskedFor, ClosedPeer, Taken, Kept;
    if ClosedPeer(s, pe, t) {
      ClosedKept(s, pe, t);
    } else if t == s {
      KeptSelf(s);
    } else {
      TakenKept(s, pe, FindBlock(s.lengths[index], begin, |data|).value, data, t);
    }
  }

  lemma TakenKept(s: State, pe: Peer, b: Block, data: bytes, t: State)
    requires Taken(s, pe, b, data, t)
    ensures Kept(s, t)
  {
    hide Finished, Kept;
    var d := PD.Receive(s.downloaders[pe], b, data).0;
    if d.Done() {
      DownloaderKept(s, SetDownloader(s, pe, d));
      FinishedKept(SetDownloader(s, pe, d), pe, t);
      KeptTwice(s, SetDownloader(s, pe, d), t);
    } else {
      DownloaderKept(s, t);
    }
  }

  lemma FinishedKept(s: State, pe: Peer, t: State)
    requires Finished(s, pe, t)
    ensures Kept(s, t)
  {
    hide AskedFor;
    var d := s.downloaders[pe];
    var n := MarkWriting(CloseDownloader(s, pe), d.piece);
    var u: State :| AskedFor(n, pe, u) && t == u.(suspended := true, writer := Some(Write(d.piece, pe, d.buffer)));
    AskedForKept(n, pe, u);
    CloseDownloaderKept(s, pe);
    KeptTwice(s, n, t);
  }

  lemma WriteDoneKept(s: State, hashOK: bool, failed: bool, stop: bool, t: State)
    requires WriteDoneStep(s, hashOK, failed, stop, t)
    ensures Kept(s, t)
  {
    hide ClosedPeer, StartAll, CancelEach, Finish, StoppedAs, Kept;
    var w, u := s.writer.value, Unmark(s);
    UnmarkKept(s);
    if !hashOK {
      var m: State :| ClosedPeer(u, w.source, m) && StartAll(m, t);
      ClosedKept(u, w.source, m);
      StartAllKept(m, t);
      KeptTwice(u, m, t);
    } else if failed {
      StoppedKept(u, t);
    } else {
      var v := MarkDone(u, w.piece);
      var m: State :| CancelEach(v, w.piece, RequestedPeers(v, w.piece), m) && t == Finish(m, stop);
      MarkDoneKept(u, w.piece);
      CancelEachKept(v, w.piece, RequestedPeers(v, w.piece), m);
      KeptTwice(u, v, m);
      FinishKept(m, stop);
      KeptTwice(u, m, t);
    }
    KeptTwice(s, u, t);
  }

  lemma UnmarkKept(s: State)
    requires s.writer.Some?
    ensures Kept(s, Unmark(s))
  {
  }

  lemma MarkDoneKept(s: State, i: nat)
    ensures Kept(s, MarkDone(s, i))
  {
  }

  lemma OtherKept(s: State, e: Event, t: State)
    requires Step(s, e, t) && !e.PeerMessage?
    ensures Kept(s, t)
  {
    hide MessageStep, PieceStep, WriteDoneStep, Started, ClosedPeer, StoppedAs, OpenedAs, Kept;
    match e
    case PieceMessage(pe, index, begin, data) => PieceKept(s, pe, index, begin, data, t);
    case WriteDone(hashOK, failed, stop) => WriteDoneKept(s, hashOK, failed, stop, t);
    case RamNotify(pe) => NotifyKept(s, pe, t);
    case Disconnected(pe) => ClosedKept(s, pe, t);
    case Incoming(pe) => WithPeersKept(s, {pe});
    case StopCommand => if s.running { StoppedKept(s, t); } else { KeptSelf(s); }
    case Opened => OpenedKept(s, t);
  }

  /** Each step of the loop takes up in every peer's record what the peer said, and
      nothing else. */
  lemma StepRecorded(s: State, e: Event, t: State)
    requires Inv(s) && Step(s, e, t)
    ensures Recorded(s, e, t)
  {
    hide MessageStep, Kept, Recorded, Inv;
    match e
    case PeerMessage(pe, m) =>
      KnownSender(s, pe, m, t);
      MessageRecorded(s, pe, m, t);
    case _ =>
      OtherKept(s, e, t);
      SilentRecorded(s, e, t);
  }

  lemma KnownSender(s: State, pe: Peer, m: Message, t: State)
    requires Inv(s) && MessageStep(s, pe, m, t)
    ensures pe in s.peers && |s.peers[pe].bitfield| == s.N()
  {
  }

  lemma NotifyKept(s: State, pe: Peer, t: State)
    requires Started(Grant(s, pe), pe, t)
    ensures Kept(s, t)
  {
    hide Started;
    StartedKept(Grant(s, pe), pe, t);
  }

  lemma OpenedKept(s: State, t: State)
    requires OpenedAs(s, t)
    ensures Kept(s, t)
  {
    hide StartAll, Kept;
    var dialled: set<Peer> :|
      dialled !! s.peers.Keys && (s.completed ==> dialled == {}) && StartAll(WithPeers(s, dialled), t);
    WithPeersKept(s, dialled);
    StartAllKept(WithPeers(s, dialled), t);
    KeptTwice(s, WithPeers(s, dialled), t);
  }

  lemma OneRecorded(s: State, pe: Peer, m: Message, t: State)
    requires Recorded(s, PeerMessage(pe, m), t) && pe in s.peers
    ensures pe in t.peers
    ensures m.ChokeMessage? || m.UnchokeMessage? ==> t.peers[pe].peerChoking == m.ChokeMessage?
    ensures m.InterestedMessage? || m.NotInterestedMessage? ==> t.peers[pe].peerInterested == m.InterestedMessage?
  {
    assert Heard(PeerMessage(pe, m), pe, s.picker.Some?, s.N(), Of(s, pe), t.peers[pe]);
  }

  // ---- our own interest

  lemma AskedForInterest(s: State, pe: Peer, t: State)
    requires AskedFor(s, pe, t) && pe in s.peers
    ensures pe in t.peers && t.peers[pe].clientInterested == s.peers[pe].clientInterested
    ensures t.bitfield == s.bitfield && t.completed == s.completed && t.peers[pe].bitfield == s.peers[pe].bitfield
  {
  }

  lemma OfferInterest(h: State, pe: Peer, t: State)
    requires pe in h.peers && AskedFor(Interest(h, pe), pe, t)
    ensures pe in t.peers
    ensures t.peers[pe].clientInterested <==>
              !t.completed && exists i :: 0 <= i < |t.bitfield| && i < |t.peers[pe].bitfield|
                                       && !t.bitfield[i] && t.peers[pe].bitfield[i]
  {
    hide AskedFor;
    AskedForInterest(Interest(h, pe), pe, t);
  }

  /** After each announcement we are interested in the peer exactly when it has a piece that
      is still missing. */
  lemma InterestExactly(s: State, pe: Peer, m: Message, t: State)
    requires MessageStep(s, pe, m, t) && !Silent(s, PeerMessage(pe, m))
    requires m.HaveMessage? || m.BitfieldMessage? || m.HaveAllMessage?
    ensures pe in t.peers
    ensures t.peers[pe].clientInterested <==>
              !t.completed && exists i :: 0 <= i < |t.bitfield| && i < |t.peers[pe].bitfield|
                                       && !t.bitfield[i] && t.peers[pe].bitfield[i]
  {
    hide AskedFor, ClosedPeer, HaveOne, HaveEach, Interest;
    match m
    case HaveMessage(i) =>
      HaveOneRecord(s, pe, i);
      OfferInterest(HaveOne(s, pe, i), pe, t);
    case BitfieldMessage(_, bits) =>
      HaveEachRecord(s, pe, bits);
      OfferInterest(HaveEach(s, pe, bits), pe, t);
    case HaveAllMessage =>
      var bits := seq(s.N(), _ => true);
      HaveEachRecord(s, pe, bits);
      OfferInterest(HaveEach(s, pe, bits), pe, t);
  }

  // ---- whole runs

  /** The record of any peer, known or not yet known. */
  lemma OneHeard(s: State, e: Event, t: State, pe: Peer)
    requires Recorded(s, e, t) && (e.PeerMessage? ==> e.pe in s.peers)
    ensures Heard(e, pe, s.picker.Some?, s.N(), Of(s, pe), Of(t, pe)) && t.N() == s.N()
  {
    if pe !in t.peers { Unheard(e, pe, s.picker.Some?, s.N(), NewPeer(s.N())); }
  }

  lemma Unheard(e: Event, pe: Peer, picking: bool, n: nat, p: PeerState)
    requires e.PeerMessage? ==> e.pe != pe
    ensures Heard(e, pe, picking, n, p, p)
  {
  }

  /** What is recorded of pe over a run, state by state. */
  ghost predicate Chronicle(ps: seq<PeerState>, events: seq<Event>, picking: seq<bool>, pe: Peer, n: nat) {
    && |ps| == |picking| == |events| + 1
    && forall k :: 0 <= k < |events| ==> Heard(events[k], pe, picking[k], n, ps[k], ps[k + 1])
  }

  /** One of the first k events says `on`, and none after it says `off`. */
  ghost predicate LastSaid(events: seq<Event>, k: nat, pe: Peer, on: Message, off: Message)
    requires k <= |events|
  {
    exists j :: 0 <= j < k && SaidLast(events, j, k, pe, on, off)
  }

  ghost predicate SaidLast(events: seq<Event>, j: nat, k: nat, pe: Peer, on: Message, off: Message)
    requires j < k <= |events|
  {
    events[j] == PeerMessage(pe, on) && Unsaid(events, j + 1, k, pe, off)
  }

  /** None of the events from a to z says m. */
  ghost predicate Unsaid(events: seq<Event>, a: nat, z: nat, pe: Peer, m: Message)
    requires z <= |events|
  {
    forall l :: a <= l < z ==> events[l] != PeerMessage(pe, m)
  }

  ghost predicate NeverSaid(events: seq<Event>, k: nat, pe: Peer, m: Message)
    requires k <= |events|
  {
    Unsaid(events, 0, k, pe, m)
  }

  lemma UnsaidStep(events: seq<Event>, a: nat, k: nat, pe: Peer, m: Message)
    requires a <= k < |events|
    ensures Unsaid(events, a, k + 1, pe, m) <==> Unsaid(events, a, k, pe, m) && events[k] != PeerMessage(pe, m)
  {
  }

  lemma SaidLastStep(events: seq<Event>, j: nat, k: nat, pe: Peer, on: Message, off: Message)
    requires j < k < |events|
    ensures SaidLast(events, j, k + 1, pe, on, off) <==>
            SaidLast(events, j, k, pe, on, off) && events[k] != PeerMessage(pe, off)
  {
    UnsaidStep(events, j + 1, k, pe, off);
  }

  lemma LastSaidStep(events: seq<Event>, k: nat, pe: Peer, on: Message, off: Message)
    requires k < |events|
    ensures LastSaid(events, k + 1, pe, on, off) <==>
            events[k] == PeerMessage(pe, on)
            || (LastSaid(events, k, pe, on, off) && events[k] != PeerMessage(pe, off))
  {
    SaidNow(events, k, pe, on, off);
    hide SaidLast;
    var z := k + 1;
    if j :| 0 <= j < z && SaidLast(events, j, z, pe, on, off) {
      if j < k { SaidLastStep(events, j, k, pe, on, off); }
    }
    if j :| 0 <= j < k && SaidLast(events, j, k, pe, on, off) { SaidLastStep(events, j, k, pe, on, off); }
  }

  lemma SaidNow(events: seq<Event>, k: nat, pe: Peer, on: Message, off: Message)
    requires k < |events|
    ensures SaidLast(events, k, k + 1, pe, on, off) <==> events[k] == PeerMessage(pe, on)
  {
  }

  lemma {:induction false} FlagsTold(ps: seq<PeerState>, events: seq<Event>, picking: seq<bool>, pe: Peer, n: nat,
                                     k: nat)
    requires Chronicle(ps, events, picking, pe, n) && k <= |events|
    ensures ps[k].peerChoking <==>
              || LastSaid(events, k, pe, ChokeMessage, UnchokeMessage)
              || (ps[0].peerChoking && NeverSaid(events, k, pe, UnchokeMessage))
    ensures ps[k].peerInterested <==>
              || LastSaid(events, k, pe, InterestedMessage, NotInterestedMessage)
              || (ps[0].peerInterested && NeverSaid(events, k, pe, NotInterestedMessage))
    ensures ps[k].fastEnabled == ps[0].fastEnabled && |ps[k].bitfield| == |ps[0].bitfield|
  {
    if k > 0 {
      FlagsTold(ps, events, picking, pe, n, k - 1);
      assert Heard(events[k - 1], pe, picking[k - 1], n, ps[k - 1], ps[k]);
      LastSaidStep(events, k - 1, pe, ChokeMessage, UnchokeMessage);
      LastSaidStep(events, k - 1, pe, InterestedMessage, NotInterestedMessage);
      NeverSaidStep(events, k - 1, pe, UnchokeMessage);
      NeverSaidStep(events, k - 1, pe, NotInterestedMessage);
      hide LastSaid, NeverSaid, Announces, Chronicle;
    }
  }

  lemma NeverSaidStep(events: seq<Event>, k: nat, pe: Peer, m: Message)
    requires k < |events|
    ensures NeverSaid(events, k + 1, pe, m) <==> NeverSaid(events, k, pe, m) && events[k] != PeerMessage(pe, m)
  {
  }

  ghost predicate Announced(events: seq<Event>, picking: seq<bool>, k: nat, pe: Peer, n: nat, i: nat)
    requires k <= |events| && k <= |picking|
  {
    exists j :: 0 <= j < k && picking[j] && Announces(events[j], pe, n, i)
  }

  ghost predicate Allowed(events: seq<Event>, picking: seq<bool>, k: nat, pe: Peer, i: nat)
    requires k <= |events| && k <= |picking|
  {
    exists j :: 0 <= j < k && picking[j] && events[j] == PeerMessage(pe, AllowedFastMessage(i))
  }

  lemma {:induction false} PiecesTold(ps: seq<PeerState>, events: seq<Event>, picking: seq<bool>, pe: Peer, n: nat,
                                      k: nat, i: nat)
    requires Chronicle(ps, events, picking, pe, n) && k <= |events| && i < n
    ensures |ps[k].bitfield| == |ps[0].bitfield|
    ensures i < |ps[0].bitfield| ==>
              (ps[k].bitfield[i] <==> ps[0].bitfield[i] || Announced(events, picking, k, pe, n, i))
    ensures i in ps[k].allowedFast <==> i in ps[0].allowedFast || Allowed(events, picking, k, pe, i)
  {
    if k > 0 {
      PiecesTold(ps, events, picking, pe, n, k - 1, i);
      hide Announces;
      assert Heard(events[k - 1], pe, picking[k - 1], n, ps[k - 1], ps[k]);
      assert Announced(events, picking, k, pe, n, i) <==>
             Announced(events, picking, k - 1, pe, n, i) || (picking[k - 1] && Announces(events[k - 1], pe, n, i));
      assert Allowed(events, picking, k, pe, i) <==>
             || Allowed(events, picking, k - 1, pe, i)
             || (picking[k - 1] && events[k - 1] == PeerMessage(pe, AllowedFastMessage(i)));
    }
  }

  /** The first extension handshake counts. */
  ghost predicate FirstHandshake(events: seq<Event>, k: nat, pe: Peer, r: int)
    requires k <= |events|
  {
    exists j :: 0 <= j < k && events[j] == PeerMessage(pe, ExtensionHandshakeMessage(r)) && NoHandshake(events, j, pe)
  }

  ghost predicate NoHandshake(events: seq<Event>, k: nat, pe: Peer)
    requires k <= |events|
  {
    forall j :: 0 <= j < k ==>
      !(events[j].PeerMessage? && events[j].pe == pe && events[j].m.ExtensionHandshakeMessage?)
  }

  lemma {:induction false} QueueTold(ps: seq<PeerState>, events: seq<Event>, picking: seq<bool>, pe: Peer, n: nat,
                                     k: nat)
    requires Chronicle(ps, events, picking, pe, n) && k <= |events| && ps[0].requestQueue.None?
    ensures ps[k].requestQueue.None? <==> NoHandshake(events, k, pe)
    ensures ps[k].requestQueue.Some? ==> FirstHandshake(events, k, pe, ps[k].requestQueue.value)
  {
    if k > 0 {
      QueueTold(ps, events, picking, pe, n, k - 1);
      hide Announces;
      assert Heard(events[k - 1], pe, picking[k - 1], n, ps[k - 1], ps[k]);
      if ps[k].requestQueue.Some? { KeepsFirst(events, k, pe, ps[k].requestQueue.value); }
    }
  }

  lemma KeepsFirst(events: seq<Event>, k: nat, pe: Peer, r: int)
    requires 0 < k <= |events|
    requires || FirstHandshake(events, k - 1, pe, r)
             || (NoHandshake(events, k - 1, pe) && events[k - 1] == PeerMessage(pe, ExtensionHandshakeMessage(r)))
    ensures FirstHandshake(events, k, pe, r)
  {
  }

  ghost function Records(states: seq<State>, pe: Peer): seq<PeerState> {
    seq(|states|, k requires 0 <= k < |states| => Of(states[k], pe))
  }

  ghost function Picking(states: seq<State>): seq<bool> {
    seq(|states|, k requires 0 <= k < |states| => states[k].running && !states[k].completed)
  }

  lemma {:induction false} SameN(states: seq<State>, k: nat)
    requires k < |states| && forall q: nat :: q + 1 < |states| ==> states[q + 1].lengths == states[q].lengths
    ensures states[k].N() == states[0].N()
  {
    if k > 0 {
      var q := k - 1;
      SameN(states, q);
      assert states[q + 1].lengths == states[q].lengths;
    }
  }

  lemma RecordedInRun(start: State, stop: bool, states: seq<State>, events: seq<Event>, k: nat)
    requires Epoch(start, stop, states, events) && k < |events|
    ensures RecordedAt(states, events, k)
  {
    hide Prepared, Finish, Recorded;
    EpochSafe(start, stop, states, events, k);
    SafeStep(states[k], events[k], states[k + 1]);
  }

  ghost predicate RecordedAt(states: seq<State>, events: seq<Event>, k: nat)
    requires |states| == |events| + 1 && k < |events|
  {
    && Recorded(states[k], events[k], states[k + 1])
    && (events[k].PeerMessage? ==> events[k].pe in states[k].peers)
    && (states[k].picker.Some? <==> states[k].running && !states[k].completed)
  }

  lemma SafeStep(s: State, e: Event, t: State)
    requires Safe(s) && Step(s, e, t)
    ensures Recorded(s, e, t) && (e.PeerMessage? ==> e.pe in s.peers)
    ensures s.picker.Some? <==> s.running && !s.completed
  {
    hide PieceStep, WriteDoneStep, Started, ClosedPeer, StoppedAs, OpenedAs, Recorded;
    StepRecorded(s, e, t);
  }

  lemma RunLength(start: State, stop: bool, states: seq<State>, events: seq<Event>)
    requires Epoch(start, stop, states, events)
    ensures |states| == |events| + 1
  {
  }

  lemma RunChronicle(start: State, stop: bool, states: seq<State>, events: seq<Event>, pe: Peer)
    requires Epoch(start, stop, states, events)
    ensures Chronicle(Records(states, pe), events, Picking(states), pe, states[0].N())
  {
    hide Step, Prepared, Finish, Safe, RecordedAt;
    forall k: nat | k < |events| ensures RecordedAt(states, events, k) {
      RecordedInRun(start, stop, states, events, k);
    }
    ChronicleOf(states, events, pe);
  }

  lemma ChronicleOf(states: seq<State>, events: seq<Event>, pe: Peer)
    requires |states| == |events| + 1 && forall k :: 0 <= k < |events| ==> RecordedAt(states, events, k)
    ensures Chronicle(Records(states, pe), events, Picking(states), pe, states[0].N())
  {
    hide Recorded, Heard, Of;
    forall q: nat | q + 1 < |states| ensures states[q + 1].lengths == states[q].lengths {
      assert RecordedAt(states, events, q);
      RecordedLengths(states[q], events[q], states[q + 1]);
    }
    forall k | 0 <= k < |events|
      ensures Heard(events[k], pe, Picking(states)[k], states[0].N(), Of(states[k], pe), Of(states[k + 1], pe))
    {
      SameN(states, k);
      assert RecordedAt(states, events, k);
      OneHeard(states[k], events[k], states[k + 1], pe);
    }
  }

  lemma RecordedLengths(s: State, e: Event, t: State)
    requires Recorded(s, e, t)
    ensures t.lengths == s.lengths
  {
  }

  /** Over every run of an epoch, a known peer counts as choking exactly when the last
      Choke or Unchoke message it sent is Choke; the same with its interest. A peer that
      joins begins with neither. */
  lemma FlagsOfRun(start: State, stop: bool, states: seq<State>, events: seq<Event>, k: nat, pe: Peer)
    requires Epoch(start, stop, states, events) && k <= |events| && pe in states[k].peers
    ensures states[k].peers[pe].peerChoking <==>
              || LastSaid(events, k, pe, ChokeMessage, UnchokeMessage)
              || (pe in states[0].peers && states[0].peers[pe].peerChoking && NeverSaid(events, k, pe, UnchokeMessage))
    ensures states[k].peers[pe].peerInterested <==>
              || LastSaid(events, k, pe, InterestedMessage, NotInterestedMessage)
              || (pe in states[0].peers && states[0].peers[pe].peerInterested
                  && NeverSaid(events, k, pe, NotInterestedMessage))
    ensures pe in states[0].peers ==> states[k].peers[pe].fastEnabled == states[0].peers[pe].fastEnabled
    ensures pe !in states[0].peers ==> states[k].peers[pe].fastEnabled
  {
    hide Step, Prepared, Finish, LastSaid, NeverSaid, Heard, Recorded;
    RunChronicle(start, stop, states, events, pe);
    FlagsTold(Records(states, pe), events, Picking(states), pe, states[0].N(), k);
  }

  /** Piece i counts as held by a known peer exactly when the peer announced it while there was
      something to download; and as allowed-fast exactly when the peer said so then. */
  lemma PiecesOfRun(start: State, stop: bool, states: seq<State>, events: seq<Event>, k: nat, pe: Peer, i: nat)
    requires Epoch(start, stop, states, events) && k <= |events| && pe in states[k].peers && i < states[0].N()
    ensures i < |states[k].peers[pe].bitfield|
    ensures states[k].peers[pe].bitfield[i] <==>
              || (pe in states[0].peers && i < |states[0].peers[pe].bitfield| && states[0].peers[pe].bitfield[i])
              || Announced(events, Picking(states), k, pe, states[0].N(), i)
    ensures i in states[k].peers[pe].allowedFast <==>
              || (pe in states[0].peers && i in states[0].peers[pe].allowedFast)
              || Allowed(events, Picking(states), k, pe, i)
  {
    hide Step, Prepared, Finish, Announced, Allowed, Heard, Recorded;
    RunChronicle(start, stop, states, events, pe);
    EpochSafe(start, stop, states, events, 0);
    BitfieldLength(states[0], pe);
    PiecesTold(Records(states, pe), events, Picking(states), pe, states[0].N(), k, i);
  }

  lemma BitfieldLength(s: State, pe: Peer)
    requires Safe(s)
    ensures |Of(s, pe).bitfield| == s.N()
  {
  }

  /** The queue length of a peer is that of its first extension handshake. */
  lemma QueueOfRun(start: State, stop: bool, states: seq<State>, events: seq<Event>, k: nat, pe: Peer)
    requires Epoch(start, stop, states, events) && k <= |events| && pe in states[k].peers
    requires pe in states[0].peers ==> states[0].peers[pe].requestQueue.None?
    ensures states[k].peers[pe].requestQueue.None? <==> NoHandshake(events, k, pe)
    ensures states[k].peers[pe].requestQueue.Some? ==>
              FirstHandshake(events, k, pe, states[k].peers[pe].requestQueue.value)
  {
    hide Step, Prepared, Finish, NoHandshake, FirstHandshake, Heard, Recorded;
    RunChronicle(start, stop, states, events, pe);
    QueueTold(Records(states, pe), events, Picking(states), pe, states[0].N(), k);
  }
}
