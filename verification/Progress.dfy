/** The loop of torrent.run always gets through: in every safe state each event has a
    step, but for a Port message, on which handlePeerMessage panics. */
module Progress {
  import opened Common
  import opened Blocks
  import opened PeerSets
  import opened Pickers
  import opened Engine
  import opened EventLoop
  import PD = PieceDownloaders
  import RM = ResourceManagers

  /** What may reach the loop in this state. */
  ghost predicate Possible(s: State, e: Event) {
    match e
    case PeerMessage(pe, m) => s.running && pe in s.peers && WellFormed(m, s.N())
    case PieceMessage(pe, _, _, _) => s.running && pe in s.peers && !s.suspended
    case WriteDone(_, _, _) => s.running && s.writer.Some?
    case RamNotify(pe) => pe in s.peers
    case Disconnected(pe) => s.running
    case Incoming(pe) => s.running && pe !in s.peers
    case StopCommand => true
    case Opened => s.running
  }

  predicate Panics(e: Event) {
    e.PeerMessage? && e.m.PortMessage?
  }

  // ---- the steps handlers share

  lemma RefusedRam(s: State, pe: Peer) returns (t: State)
    ensures AskedFor(s, pe, t)
  {
    t := if s.Status() != Downloading then s else Acquire(s, pe, false);
  }

  lemma ClosedAlone(s: State, pe: Peer) returns (t: State)
    ensures ClosedPeer(s, pe, t)
  {
    t := WithPeers(ClosePeer(s, pe), {});
    assert {} !! s.peers.Keys;
  }

  lemma StoppedAlone(s: State) returns (t: State)
    ensures StoppedAs(s, t)
  {
    t := Redialled(Stop(s), {}, {});
    assert {} !! s.peers.Keys;
  }

  lemma {:induction false} InSomeOrder(s: set<Peer>) returns (order: seq<Peer>)
    ensures Enumerates(order, s)
    decreases s
  {
    if s == {} {
      order := [];
    } else {
      var pe :| pe in s;
      var front := InSomeOrder(s - {pe});
      order := front + [pe];
      forall q ensures q in order <==> q in s {}
    }
  }

  lemma {:induction false} EachStarts(s: State, order: seq<Peer>) returns (t: State)
    requires forall pe :: pe in order ==> pe in s.peers
    ensures StartEach(s, order, t) && s.peers.Keys <= t.peers.Keys
  {
    if order == [] {
      t := s;
    } else {
      var front, last := order[..|order| - 1], order[|order| - 1];
      var m := EachStarts(s, front);
      if m.peers[last].downloading {
        t := m;
      } else {
        t := RefusedRam(m, last);
        AskedForFrame(m, last, t);
      }
    }
  }

  lemma AllStart(s: State) returns (t: State)
    requires s.connected <= s.peers.Keys
    ensures StartAll(s, t)
  {
    if s.Status() != Downloading {
      t := s;
    } else {
      var order := InSomeOrder(s.connected);
      t := EachStarts(s, order);
    }
  }

  lemma {:induction false} SomeBest(from: set<nat>, key: seq<int>) returns (r: Option<nat>)
    requires forall i :: i in from ==> i < |key|
    ensures Best(from, key, r)
    decreases from
  {
    if from == {} {
      r := None;
    } else {
      var i :| i in from;
      var rest := SomeBest(from - {i}, key);
      r := if rest.Some? && key[rest.value] <= key[i] then rest else Some(i);
      forall j | j in from ensures key[r.value] <= key[j] {
        if j != i { assert j in from - {i}; }
      }
    }
  }

  /** Every branch of findPiece comes to an answer. */
  lemma SomethingFound(p: Picker, flags: seq<PieceState>, peer: PeerState, pe: Peer)
    returns (r: Option<nat>, fast: bool, e: bool)
    requires Pickers.Fits(p, flags)
    ensures Found(p, flags, peer, pe, r, fast, e) && (r.Some? ==> r.value < |flags|)
  {
    r, fast, e := None, false, p.endgame;
    if peer.downloading { return; }
    if k: nat :| FastChoice(p, flags, peer, pe, k) { return Some(peer.allowedFast[k]), true, p.endgame; }
    if peer.peerChoking { return; }
    if p.endgame {
      r := SomeBest(Duplicable(p, flags, pe), Running(p));
    } else if Unrequested(p, flags, pe) != {} {
      r := SomeBest(Unrequested(p, flags, pe), Rarity(p));
    } else if EverythingRequested(p, flags) {
      e := true;
      r := SomeBest(Duplicable(p, flags, pe), Running(p));
    } else {
      r := SomeBest(Stalled(p, flags, pe), Stalling(p));
    }
  }

  lemma GrantUsed(s: State, pe: Peer) returns (t: State)
    requires Shape(s) && Phase(s) && pe in s.peers
    ensures Started(s, pe, t)
  {
    if s.Status() != Downloading {
      t := s.(ram := s.ram + [RM.Released(s.pieceLength)]);
    } else {
      var r, fast, e := SomethingFound(s.picker.value, s.flags, s.peers[pe], pe);
      var c := Choice(r, fast, e, []);
      t := if r.Some? then Begin(s, pe, r.value, fast, e, [])
           else s.(picker := Some(s.picker.value.(endgame := e)), ram := s.ram + [RM.Released(s.pieceLength)]);
      assert StartedAs(s, pe, c, t);
    }
  }

  // ---- one event

  lemma OfferAsked(h: State, pe: Peer) returns (t: State)
    ensures AskedFor(Interest(h, pe), pe, t)
  {
    t := RefusedRam(Interest(h, pe), pe);
  }

  lemma ChokePasses(s: State, pe: Peer) returns (t: State)
    requires Inv(s) && pe in s.peers
    ensures MessageStep(s, pe, ChokeMessage, t)
  {
    hide Inv, StartAll;
    var u := SetPeer(s, pe, s.peers[pe].(peerChoking := true));
    if pe !in s.downloaders || s.downloaders[pe].allowedFast {
      t := u;
    } else {
      var order := PD.Listing(s.downloaders[pe].pending);
      KnowsConnected(s);
      t := AllStart(Choked(u, pe, order));
    }
  }

  lemma KnowsConnected(s: State)
    requires Inv(s)
    ensures s.connected <= s.peers.Keys
  {
  }

  lemma UnchokePasses(s: State, pe: Peer) returns (t: State)
    requires pe in s.peers
    ensures MessageStep(s, pe, UnchokeMessage, t)
  {
    var u := SetPeer(s, pe, s.peers[pe].(peerChoking := false));
    if pe !in u.downloaders {
      t := RefusedRam(u, pe);
    } else if u.downloaders[pe].allowedFast {
      t := u;
    } else {
      var d := u.downloaders[pe];
      t := SetDownloader(u, pe, PD.Request(d, MaxAllowedRequests(u, u.peers[pe])).0)
           .(picker := match u.picker case None => None case Some(p) => Some(Unchoke(p, pe, d.piece)));
    }
  }

  lemma RejectPasses(s: State, pe: Peer, index: nat, begin: nat, length: nat) returns (t: State)
    requires pe in s.peers
    ensures MessageStep(s, pe, RejectMessage(index, begin, length), t)
  {
    if index >= s.N() {
      t := ClosedAlone(s, pe);
    } else if !Downloads(s, pe, index) {
      t := s;
    } else {
      match FindBlock(s.lengths[index], begin, length)
      case None => t := ClosedAlone(s, pe);
      case Some(b) => t := SetDownloader(s, pe, PD.Reject(s.downloaders[pe], b.index));
    }
  }

  lemma HavePasses(s: State, pe: Peer, m: Message) returns (t: State)
    requires pe in s.peers && (m.HaveMessage? || m.BitfieldMessage? || m.HaveAllMessage?) && WellFormed(m, s.N())
    ensures MessageStep(s, pe, m, t)
  {
    hide AskedFor, ClosedPeer, HaveEach, HaveOne;
    match m
    case HaveMessage(i) =>
      if i >= s.N() { t := ClosedAlone(s, pe); } else { t := OfferAsked(HaveOne(s, pe, i), pe); }
    case BitfieldMessage(size, bits) =>
      if size == 0 { t := s; }
      else if size != (s.N() + 7) / 8 { t := ClosedAlone(s, pe); }
      else { t := OfferAsked(HaveEach(s, pe, bits), pe); }
    case HaveAllMessage => t := OfferAsked(HaveEach(s, pe, seq(s.N(), _ => true)), pe);
  }

  lemma MessagePasses(s: State, pe: Peer, m: Message) returns (t: State)
    requires Inv(s) && pe in s.peers && WellFormed(m, s.N()) && !m.PortMessage?
    ensures MessageStep(s, pe, m, t)
  {
    hide Inv, AskedFor, ClosedPeer, HaveEach, HaveOne;
    var peer := s.peers[pe];
    match m
    case AllowedFastMessage(i) =>
      if i >= s.N() { t := ClosedAlone(s, pe); }
      else { t := if s.picker.Some? then SetPeer(s, pe, AddFast(peer, i)) else s; }
    case UnchokeMessage => t := UnchokePasses(s, pe);
    case ChokeMessage => t := ChokePasses(s, pe);
    case InterestedMessage => t := SetPeer(s, pe, peer.(peerInterested := true));
    case NotInterestedMessage => t := SetPeer(s, pe, peer.(peerInterested := false));
    case RejectMessage(index, begin, length) => t := RejectPasses(s, pe, index, begin, length);
    case RequestMessage(index, begin, length) =>
      if BadRequest(s, index, begin, length) { t := ClosedAlone(s, pe); } else { t := s; }
    case ExtensionHandshakeMessage(q) =>
      t := if peer.requestQueue.None? then SetPeer(s, pe, peer.(requestQueue := Some(q))) else s;
    case HaveNoneMessage => t := s;
    case CancelMessage(_, _, _) => t := s;
    case PassiveMessage => t := s;
    case _ => t := HavePasses(s, pe, m);
  }

  lemma PiecePasses(s: State, pe: Peer, index: nat, begin: nat, data: bytes) returns (t: State)
    requires Sound(s) && pe in s.peers
    ensures PieceStep(s, pe, index, begin, data, t)
  {
    hide ClosedPeer, AskedFor, PD.Request;
    if index >= s.N() {
      t := ClosedAlone(s, pe);
    } else if !Downloads(s, pe, index) {
      t := s;
    } else {
      match FindBlock(s.lengths[index], begin, |data|)
      case None => t := ClosedAlone(s, pe);
      case Some(b) =>
        assert SoundOne(s.downloaders[pe], s.lengths);
        FindBlockExact(s.lengths[index], begin, |data|, b);
        t := TakenOne(s, pe, b, data);
    }
  }

  lemma TakenOne(s: State, pe: Peer, b: Block, data: bytes) returns (t: State)
    requires pe in s.downloaders && pe in s.peers
    requires var d := s.downloaders[pe]; |d.buffer| == d.length && GetBlock(d.length, b.index) == Some(b)
    requires |data| == b.length
    ensures Taken(s, pe, b, data, t)
  {
    hide AskedFor, PD.Request;
    var d := PD.Receive(s.downloaders[pe], b, data).0;
    if d.Done() {
      var n := SetDownloader(s, pe, d);
      var u := RefusedRam(MarkWriting(CloseDownloader(n, pe), d.piece), pe);
      t := u.(suspended := true, writer := Some(Write(d.piece, pe, d.buffer)));
    } else {
      t := SetDownloader(s, pe,
        if d.allowedFast || !s.peers[pe].peerChoking then PD.Request(d, MaxAllowedRequests(s, s.peers[pe])).0 else d);
    }
  }

  /** Each requested peer still has its downloader when its turn comes. */
  lemma {:induction false} CancelPasses(s: State, i: nat, order: seq<Peer>, rest: seq<Peer>) returns (t: State)
    requires Core(s) && DoneFree(s, i) && Writing(s) && i < s.N() && s.flags[i].done
    requires forall pe :: Downloads(s, pe, i) <==> pe in order + rest
    requires NoDuplicates(order + rest)
    ensures CancelEach(s, i, order, t)
    decreases |order|
  {
    if order == [] {
      t := s;
    } else {
      hide Core, DoneFree, Writing, AskedFor, Downloads;
      var pe, front := order[|order| - 1], order[..|order| - 1];
      SplitLast(order, rest);
      var m := CancelPasses(s, i, front, [pe] + rest);
      CancelEachInv(s, i, front, [pe] + rest, m);
      assert pe in [pe] + rest;
      t := RefusedRam(CloseDownloader(m, pe), pe);
    }
  }

  lemma WriteDonePasses(s: State, hashOK: bool, failed: bool, stop: bool) returns (t: State)
    requires Inv(s) && s.writer.Some?
    ensures WriteDoneStep(s, hashOK, failed, stop, t)
  {
    hide Inv, ClosedPeer, StartAll, CancelEach, StoppedAs, Finish;
    var (w, u) := (s.writer.value, Unmark(s));
    UnmarkInv(s);
    if !hashOK {
      var m := ClosedAlone(u, w.source);
      ClosedPeerInv(u, w.source, m);
      KnowsConnected(m);
      t := AllStart(m);
    } else if failed {
      t := StoppedAlone(u);
    } else {
      PieceKnown(s);
      var m := WrittenPasses(u, w.piece);
      t := Finish(m, stop);
    }
  }

  lemma PieceKnown(s: State)
    requires Inv(s) && s.writer.Some?
    ensures s.writer.value.piece < s.N()
  {
  }

  lemma WrittenPasses(u: State, i: nat) returns (m: State)
    requires Inv(u) && i < u.N() && u.writer.None?
    ensures CancelEach(MarkDone(u, i), i, RequestedPeers(MarkDone(u, i), i), m)
  {
    var v := MarkDone(u, i);
    MarkDoneCore(u, i);
    var order := RequestedPeers(v, i);
    forall pe ensures Downloads(v, pe, i) <==> pe in order {
      assert v.picker.Some? ==> (v.picker.value.pieces[i].requested.Has(pe) <==> Downloads(v, pe, i));
    }
    SameMembers(order, []);
    assert v.picker.Some? ==> v.picker.value.pieces[i].Valid();
    m := CancelPasses(v, i, order, []);
  }

  lemma OpenPasses(s: State) returns (t: State)
    requires Inv(s)
    ensures OpenedAs(s, t)
  {
    hide Inv, StartAll;
    DialledInv(s, {});
    KnowsConnected(WithPeers(s, {}));
    t := AllStart(WithPeers(s, {}));
    assert {} !! s.peers.Keys;
  }

  lemma Passes(s: State, e: Event) returns (t: State)
    requires Safe(s) && Possible(s, e) && !Panics(e)
    ensures Step(s, e, t)
  {
    hide Inv, Sound, MessageStep, PieceStep, WriteDoneStep, Started, ClosedPeer, StoppedAs, OpenedAs;
    match e
    case PeerMessage(pe, m) => t := MessagePasses(s, pe, m);
    case PieceMessage(pe, index, begin, data) => t := PiecePasses(s, pe, index, begin, data);
    case WriteDone(hashOK, failed, stop) => t := WriteDonePasses(s, hashOK, failed, stop);
    case RamNotify(pe) =>
      GrantShape(s, pe);
      t := GrantUsed(Grant(s, pe), pe);
    case Disconnected(pe) => t := ClosedAlone(s, pe);
    case Incoming(pe) => t := WithPeers(s, {pe});
    case StopCommand => if s.running { t := StoppedAlone(s); } else { t := s; }
    case Opened => t := OpenPasses(s);
  }

  lemma GrantShape(s: State, pe: Peer)
    requires Inv(s) && pe in s.peers
    ensures Shape(Grant(s, pe)) && Phase(Grant(s, pe)) && pe in Grant(s, pe).peers
  {
    GrantCore(s, pe);
  }

  /** In every safe state, and so in every state of every run of an epoch, an event gets
      through if and only if it is not a Port message. */
  lemma ProgressExactly(s: State, e: Event)
    requires Safe(s) && Possible(s, e)
    ensures (exists t :: Step(s, e, t)) <==> !Panics(e)
  {
    hide Safe, Possible;
    if !Panics(e) { var t := Passes(s, e); }
  }
}
