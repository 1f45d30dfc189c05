/** external/piecepicker/piecepicker.go: which piece to download next from a peer. */
module Pickers {
  import opened Common
  import opened PeerSets

  /** The flags of piece.Piece that the picker reads. */
  datatype PieceState = PieceState(done: bool, writing: bool)

  /** The fields of peer.Peer that the download engine reads or writes. */
  datatype PeerState = PeerState(
    downloading: bool,
    peerChoking: bool,
    peerInterested: bool,
    clientInterested: bool,
    fastEnabled: bool,
    bitfield: seq<bool>,
    allowedFast: seq<nat>,   // ReceivedAllowedFast
    requestQueue: Option<int>)  // reqq of the first extension handshake

  datatype MyPiece = MyPiece(having: Slice, requested: Slice, snubbed: Slice, choked: Slice) {
    ghost predicate Valid() {
      having.Valid() && requested.Valid() && snubbed.Valid() && choked.Valid()
    }

    /** Go ints: both may be off, since a cancelled download leaves `choked` behind. */
    function StalledDownloads(): int {
      |snubbed.live| + |choked.live|
    }

    function RunningDownloads(): int {
      |requested.live| - StalledDownloads()
    }
  }

  const NEW_PIECE := MyPiece(EMPTY, EMPTY, EMPTY, EMPTY)

  /** Everything about a picker that a pick depends on. */
  datatype Picker = Picker(pieces: seq<MyPiece>, maxDuplicate: int, endgame: bool) {
    ghost predicate Valid() {
      forall i :: 0 <= i < |pieces| ==> pieces[i].Valid()
    }
  }

  function CountAvailable(pieces: seq<MyPiece>): nat {
    if pieces == [] then 0
    else CountAvailable(pieces[..|pieces| - 1]) + (if |pieces[|pieces| - 1].having.live| > 0 then 1 else 0)
  }

  lemma {:induction false} CountAvailableUpdate(pieces: seq<MyPiece>, i: nat, mp: MyPiece)
    requires i < |pieces|
    ensures CountAvailable(pieces[i := mp]) ==
            CountAvailable(pieces)
            + (if |mp.having.live| > 0 then 1 else 0) - (if |pieces[i].having.live| > 0 then 1 else 0)
    ensures CountAvailable(pieces) >= if |pieces[i].having.live| > 0 then 1 else 0
  {
    var n := |pieces| - 1;
    if i == n {
      assert pieces[i := mp][..n] == pieces[..n];
    } else {
      assert pieces[i := mp][..n] == pieces[..n][i := mp];
      CountAvailableUpdate(pieces[..n], i, mp);
    }
  }

  ghost function AvailablePieces(pieces: seq<MyPiece>): set<nat> {
    set i: nat | i < |pieces| && pieces[i].having.live != []
  }

  lemma {:induction false} AvailableCounted(pieces: seq<MyPiece>)
    ensures CountAvailable(pieces) == |AvailablePieces(pieces)|
  {
    if pieces != [] {
      var n := |pieces| - 1;
      AvailableCounted(pieces[..n]);
      var last := if pieces[n].having.live != [] then {n} else {};
      assert AvailablePieces(pieces) == AvailablePieces(pieces[..n]) + last;
    }
  }

  // ---- the bookkeeping handlers as functions

  function Have(p: Picker, pe: Peer, i: nat): Picker
  {
    if i >= |p.pieces| then p else
    var mp := p.pieces[i];
    p.(pieces := p.pieces[i := mp.(having := mp.having.Add(pe))])
  }

  function Choke(p: Picker, pe: Peer, i: nat): Picker
  {
    if i >= |p.pieces| then p else
    var mp := p.pieces[i];
    p.(pieces := p.pieces[i := mp.(snubbed := mp.snubbed.Remove(pe), choked := mp.choked.Add(pe))])
  }

  function Unchoke(p: Picker, pe: Peer, i: nat): Picker
  {
    if i >= |p.pieces| then p else
    var mp := p.pieces[i];
    p.(pieces := p.pieces[i := mp.(choked := mp.choked.Remove(pe))])
  }

  function CancelPiece(mp: MyPiece, pe: Peer): MyPiece {
    mp.(requested := mp.requested.Remove(pe), snubbed := mp.snubbed.Remove(pe))
  }

  function Cancel(p: Picker, pe: Peer, i: nat): Picker {
    if i >= |p.pieces| then p else
    p.(pieces := p.pieces[i := CancelPiece(p.pieces[i], pe)])
  }

  ghost predicate Without(t: Slice, s: Slice, pe: Peer) {
    forall q :: q in t.live <==> q in s.live && q != pe
  }

  function DropPiece(mp: MyPiece, pe: Peer): MyPiece {
    CancelPiece(mp, pe).(having := mp.having.Remove(pe))
  }

  function Disconnect(p: Picker, pe: Peer): Picker {
    p.(pieces := seq(|p.pieces|, i requires 0 <= i < |p.pieces| => DropPiece(p.pieces[i], pe)))
  }

  function Requested(p: Picker, pe: Peer, i: nat): Picker
  {
    if i >= |p.pieces| then p else
    var mp := p.pieces[i];
    p.(pieces := p.pieces[i := mp.(requested := mp.requested.Add(pe))])
  }

  lemma CancelPieceCorrect(mp: MyPiece, pe: Peer)
    requires mp.Valid()
    ensures CancelPiece(mp, pe).Valid() && DropPiece(mp, pe).Valid()
    ensures forall q :: CancelPiece(mp, pe).requested.Has(q) <==> mp.requested.Has(q) && q != pe
    ensures |CancelPiece(mp, pe).requested.live| <= |mp.requested.live|
    ensures !DropPiece(mp, pe).having.Has(pe)
  {
    RemoveCorrect(mp.requested, pe);
    RemoveCorrect(mp.snubbed, pe);
    RemoveCorrect(mp.having, pe);
  }

  lemma RemovedMembers(s: Slice, pe: Peer)
    requires s.Valid()
    ensures Without(s.Remove(pe), s, pe)
  {
    RemoveCorrect(s, pe);
    forall q ensures q in s.Remove(pe).live <==> q in s.live && q != pe {
      assert s.Remove(pe).Has(q) <==> s.Has(q) && q != pe;
    }
  }

  lemma AddedMembers(s: Slice, pe: Peer)
    requires s.Valid()
    ensures forall q :: q in s.Add(pe).live <==> q in s.live || q == pe
  {
  }

  lemma Dropped(mp: MyPiece, pe: Peer)
    requires mp.Valid()
    ensures Without(DropPiece(mp, pe).having, mp.having, pe) && Without(DropPiece(mp, pe).requested, mp.requested, pe)
    ensures Without(DropPiece(mp, pe).snubbed, mp.snubbed, pe)
  {
    RemovedMembers(mp.requested, pe);
    RemovedMembers(mp.snubbed, pe);
    RemovedMembers(mp.having, pe);
  }

  // ---- what a pick may return

  predicate Open(flags: seq<PieceState>, i: nat) {
    i < |flags| && !flags[i].done && !flags[i].writing
  }

  ghost predicate Fits(p: Picker, flags: seq<PieceState>) {
    p.Valid() && |p.pieces| == |flags|
  }

  /** Unfinished, not being written, and offered by the peer. */
  ghost predicate Candidate(p: Picker, flags: seq<PieceState>, pe: Peer, i: nat)
  {
    Open(flags, i) && i < |p.pieces| && p.pieces[i].having.Has(pe)
  }

  ghost function Unrequested(p: Picker, flags: seq<PieceState>, pe: Peer): set<nat>
  {
    set i: nat | i < |flags| && Candidate(p, flags, pe, i) && |p.pieces[i].requested.live| == 0
  }

  ghost function Duplicable(p: Picker, flags: seq<PieceState>, pe: Peer): set<nat>
  {
    set i: nat | i < |flags| && Candidate(p, flags, pe, i) && |p.pieces[i].requested.live| < p.maxDuplicate
  }

  ghost function Stalled(p: Picker, flags: seq<PieceState>, pe: Peer): set<nat>
  {
    set i: nat | i < |flags| && i in Duplicable(p, flags, pe) && p.pieces[i].RunningDownloads() <= 0
  }

  ghost predicate EverythingRequested(p: Picker, flags: seq<PieceState>)
  {
    forall i: nat :: Open(flags, i) && i < |p.pieces| ==> |p.pieces[i].requested.live| > 0
  }

  function Rarity(p: Picker): (key: seq<int>)
    ensures |key| == |p.pieces| && forall i :: 0 <= i < |key| ==> key[i] == |p.pieces[i].having.live|
  {
    seq(|p.pieces|, i requires 0 <= i < |p.pieces| => |p.pieces[i].having.live|)
  }

  function Running(p: Picker): (key: seq<int>)
    ensures |key| == |p.pieces| && forall i :: 0 <= i < |key| ==> key[i] == p.pieces[i].RunningDownloads()
  {
    seq(|p.pieces|, i requires 0 <= i < |p.pieces| => p.pieces[i].RunningDownloads())
  }

  function Stalling(p: Picker): (key: seq<int>)
    ensures |key| == |p.pieces| && forall i :: 0 <= i < |key| ==> key[i] == p.pieces[i].StalledDownloads()
  {
    seq(|p.pieces|, i requires 0 <= i < |p.pieces| => p.pieces[i].StalledDownloads())
  }

  /** r is an element of `from` with the least key; None only when there is none. */
  ghost predicate Best(from: set<nat>, key: seq<int>, r: Option<nat>) {
    if from == {} then r == None
    else r.Some? && r.value in from && r.value < |key|
         && forall j :: j in from && j < |key| ==> key[r.value] <= key[j]
  }

  /** The first piece of the peer's allowed-fast list that nobody was asked for. */
  ghost predicate FastChoice(p: Picker, flags: seq<PieceState>, peer: PeerState, pe: Peer, k: nat)
  {
    && k < |peer.allowedFast| && peer.allowedFast[k] in Unrequested(p, flags, pe)
    && forall j :: 0 <= j < k ==> peer.allowedFast[j] !in Unrequested(p, flags, pe)
  }

  /** The pick order of findPiece: allowed-fast first, then rarest, then endgame
      duplicates or stalled ones; `e` is the endgame flag afterwards. */
  ghost predicate Found(p: Picker, flags: seq<PieceState>, peer: PeerState, pe: Peer, r: Option<nat>, fast: bool,
                        e: bool)
  {
    if peer.downloading then r == None && !fast && e == p.endgame
    else if exists k: nat :: FastChoice(p, flags, peer, pe, k) then
      fast && e == p.endgame && exists k: nat :: FastChoice(p, flags, peer, pe, k) && r == Some(peer.allowedFast[k])
    else
      && !fast
      && (if peer.peerChoking then r == None && e == p.endgame
          else if p.endgame then e && Best(Duplicable(p, flags, pe), Running(p), r)
          else if Unrequested(p, flags, pe) != {} then !e && Best(Unrequested(p, flags, pe), Rarity(p), r)
          else if EverythingRequested(p, flags) then e && Best(Duplicable(p, flags, pe), Running(p), r)
          else !e && Best(Stalled(p, flags, pe), Stalling(p), r))
  }

  /** Whatever the branch, the piece is unfinished, not being written, held by the
      peer, and asked from fewer than max(1, maxDuplicate) peers; a downloading peer
      gets nothing. */
  lemma FoundSafe(p: Picker, flags: seq<PieceState>, peer: PeerState, pe: Peer, i: nat, fast: bool, e: bool)
    requires Found(p, flags, peer, pe, Some(i), fast, e)
    ensures i < |flags| && Candidate(p, flags, pe, i) && !peer.downloading
    ensures |p.pieces[i].requested.live| == 0 || |p.pieces[i].requested.live| < p.maxDuplicate
    ensures fast ==> i in peer.allowedFast
    ensures !fast ==> !peer.peerChoking
    ensures !fast && !e && |p.pieces[i].requested.live| > 0 ==>
              |p.pieces[i].requested.live| <= |p.pieces[i].snubbed.live| + |p.pieces[i].choked.live|
  {
  }

  /** Who is counted as stalled: a peer asked for the piece of whom all are in `snubbed`
      or `choked` leaves no running download, whatever else these two sets contain. */
  lemma AllStalled(mp: MyPiece)
    requires mp.Valid()
    requires forall q :: q in mp.requested.live ==> q in mp.snubbed.live || q in mp.choked.live
    ensures |mp.requested.live| <= |mp.snubbed.live| + |mp.choked.live|
  {
    var r, s, c := Members(mp.requested.live), Members(mp.snubbed.live), Members(mp.choked.live);
    SubsetCardinality(r, s + c);
  }

  /** The elements of a slice without duplicates. */
  ghost function {:induction false} Members(s: seq<Peer>): (m: set<Peer>)
    requires NoDuplicates(s)
    ensures |m| == |s| && forall q :: q in m <==> q in s
  {
    if s == [] then {} else
      var m := Members(s[..|s| - 1]);
      var last := s[|s| - 1];
      assert forall q :: q in s <==> q in s[..|s| - 1] || q == last;
      m + {last}
  }

  /** Nobody who was asked for the piece still delivers. */
  ghost function Delivering(mp: MyPiece): set<Peer>
    requires mp.Valid()
  {
    Members(mp.requested.live) - Members(mp.snubbed.live) - Members(mp.choked.live)
  }

  /** The number of running downloads is never above the number of requested peers that
      are neither snubbed nor choked, and equals it exactly when these two sets are
      disjoint and hold requested peers only. A cancelled download leaves its peer in
      `choked`, which makes it smaller. */
  lemma RunningExactly(mp: MyPiece)
    requires mp.Valid()
    ensures mp.RunningDownloads() <= |Delivering(mp)|
    ensures mp.RunningDownloads() == |Delivering(mp)| <==>
            && (forall q :: q in mp.snubbed.live ==> q in mp.requested.live && q !in mp.choked.live)
            && (forall q :: q in mp.choked.live ==> q in mp.requested.live)
  {
    CountRest(Members(mp.requested.live), Members(mp.snubbed.live), Members(mp.choked.live));
  }

  lemma CountRest(r: set<Peer>, s: set<Peer>, c: set<Peer>)
    ensures |r| - |s| - |c| <= |r - s - c|
    ensures |r| - |s| - |c| == |r - s - c| <==> s !! c && s + c <= r
  {
    var hit := r * (s + c);
    assert |s + c| == |s| + |c| - |s * c|;
    assert r == (r - s - c) + hit && (r - s - c) !! hit;
    assert |r| == |r - s - c| + |hit|;
    SubsetCardinality(hit, s + c);
  }

  /** Two peers are asked for a piece; one chokes us and is cancelled. The other delivers, and
      yet the piece counts as stalled. */
  lemma CancelledCounts(p: Picker, a: Peer, b: Peer)
    requires a != b && p.pieces == [MyPiece(Slice([a, b], []), Slice([a, b], []), EMPTY, EMPTY)]
    ensures var mp := Cancel(Choke(p, a, 0), a, 0).pieces[0];
            mp.Valid() && mp.RunningDownloads() == 0 && Delivering(mp) == {b}
  {
    var mp := Cancel(Choke(p, a, 0), a, 0).pieces[0];
    assert IndexOf([a, b], a) == 0;
    assert [a, b][0 := b][..1] == [b];
    assert mp.requested.live == [b] && mp.choked.live == [a] && mp.snubbed.live == [];
  }

  /** The choice in the fields' own terms. Only an idle peer gets a piece, and only an
      allowed-fast one while it is choking; what it gets is neither done nor being
      written, and the peer has it. */
  lemma FoundNeeds(p: Picker, flags: seq<PieceState>, peer: PeerState, pe: Peer, i: nat, fast: bool, e: bool)
    requires Fits(p, flags) && Found(p, flags, peer, pe, Some(i), fast, e)
    ensures i < |p.pieces| && !flags[i].done && !flags[i].writing && pe in p.pieces[i].having.live
    ensures !peer.downloading && (peer.peerChoking ==> fast)
    ensures fast ==> |p.pieces[i].requested.live| == 0 && i in peer.allowedFast
    ensures |p.pieces[i].requested.live| > 0 ==> |p.pieces[i].requested.live| < p.maxDuplicate
  {
  }

  /** An idle peer gets an allowed-fast piece whenever there is one that it has, that is
      neither done nor being written and that nobody is asked for, even while it chokes; and
      it gets the first such piece of its list. */
  lemma {:induction false} FoundFast(p: Picker, flags: seq<PieceState>, peer: PeerState, pe: Peer, r: Option<nat>,
                                     fast: bool, e: bool, k: nat)
    requires Fits(p, flags) && Found(p, flags, peer, pe, r, fast, e) && !peer.downloading
    requires k < |peer.allowedFast| && peer.allowedFast[k] < |flags|
    requires var i := peer.allowedFast[k];
             && !flags[i].done && !flags[i].writing && pe in p.pieces[i].having.live
             && |p.pieces[i].requested.live| == 0
    ensures fast && r.Some? && exists m: nat :: m <= k && peer.allowedFast[m] == r.value
  {
    assert peer.allowedFast[k] in Unrequested(p, flags, pe);
    if j: nat :| j < k && peer.allowedFast[j] in Unrequested(p, flags, pe) {
      FoundFast(p, flags, peer, pe, r, fast, e, j);
    } else {
      assert FastChoice(p, flags, peer, pe, k);
      var m: nat :| FastChoice(p, flags, peer, pe, m) && r == Some(peer.allowedFast[m]);
      assert m <= k;
    }
  }

  /** A second peer for a piece, outside endgame: at most as many are asked as are snubbed
      and choked, no piece nobody is asked for is left for this peer, and no other such
      piece has fewer snubbed and choked peers. */
  lemma FoundStalled(p: Picker, flags: seq<PieceState>, peer: PeerState, pe: Peer, i: nat, j: nat, fast: bool)
    requires Fits(p, flags) && Found(p, flags, peer, pe, Some(i), fast, false)
    requires i < |p.pieces| && |p.pieces[i].requested.live| > 0
    requires j < |p.pieces| && !flags[j].done && !flags[j].writing && pe in p.pieces[j].having.live
    requires |p.pieces[j].requested.live| < p.maxDuplicate
    ensures |p.pieces[i].requested.live| <= |p.pieces[i].snubbed.live| + |p.pieces[i].choked.live|
    ensures |p.pieces[j].requested.live| > 0
    ensures |p.pieces[j].requested.live| <= |p.pieces[j].snubbed.live| + |p.pieces[j].choked.live| ==>
              |p.pieces[i].snubbed.live| + |p.pieces[i].choked.live|
              <= |p.pieces[j].snubbed.live| + |p.pieces[j].choked.live|
  {
    assert j in Duplicable(p, flags, pe);
    assert j in Unrequested(p, flags, pe) <==> |p.pieces[j].requested.live| == 0;
  }

  /** A piece nobody is asked for, outside endgame: no other one that the peer has is had by fewer
      peers. */
  lemma FoundRarest(p: Picker, flags: seq<PieceState>, peer: PeerState, pe: Peer, i: nat, j: nat, e: bool)
    requires Fits(p, flags) && Found(p, flags, peer, pe, Some(i), false, e) && !e
    requires j < |p.pieces| && !flags[j].done && !flags[j].writing && pe in p.pieces[j].having.live
    requires |p.pieces[j].requested.live| == 0
    ensures i < |p.pieces| && |p.pieces[i].requested.live| == 0
    ensures |p.pieces[i].having.live| <= |p.pieces[j].having.live|
  {
    assert j in Unrequested(p, flags, pe);
  }

  /** A pick in endgame: fewest running downloads among what may be asked once more. */
  lemma FoundEndgame(p: Picker, flags: seq<PieceState>, peer: PeerState, pe: Peer, i: nat, j: nat)
    requires Fits(p, flags) && Found(p, flags, peer, pe, Some(i), false, true)
    requires j < |p.pieces| && !flags[j].done && !flags[j].writing && pe in p.pieces[j].having.live
    requires |p.pieces[j].requested.live| < p.maxDuplicate
    ensures i < |p.pieces| && |p.pieces[i].requested.live| < p.maxDuplicate
    ensures |p.pieces[i].requested.live| - |p.pieces[i].snubbed.live| - |p.pieces[i].choked.live|
         <= |p.pieces[j].requested.live| - |p.pieces[j].snubbed.live| - |p.pieces[j].choked.live|
  {
    assert j in Duplicable(p, flags, pe);
  }

  /** No piece for an idle peer that does not choke us: of what it has, everything is asked of
      somebody, and outside endgame each piece with fewer than maxDuplicate requests
      has a requested peer that is neither snubbed nor choked. */
  lemma FoundNone(p: Picker, flags: seq<PieceState>, peer: PeerState, pe: Peer, j: nat, fast: bool, e: bool)
    requires Fits(p, flags) && Found(p, flags, peer, pe, None, fast, e)
    requires !peer.downloading && !peer.peerChoking
    requires j < |p.pieces| && !flags[j].done && !flags[j].writing && pe in p.pieces[j].having.live
    ensures |p.pieces[j].requested.live| > 0 || p.maxDuplicate <= 0
    ensures |p.pieces[j].requested.live| < p.maxDuplicate ==>
              !e && exists q :: q in p.pieces[j].requested.live
                             && q !in p.pieces[j].snubbed.live && q !in p.pieces[j].choked.live
  {
    if |p.pieces[j].requested.live| < p.maxDuplicate {
      assert j in Duplicable(p, flags, pe);
      assert j !in Stalled(p, flags, pe);
      if forall q :: q in p.pieces[j].requested.live ==> q in p.pieces[j].snubbed.live || q in p.pieces[j].choked.live {
        AllStalled(p.pieces[j]);
      }
    }
  }

  lemma NoneMeans(p: Picker, flags: seq<PieceState>, peer: PeerState, pe: Peer, fast: bool, e: bool)
    requires Fits(p, flags) && Found(p, flags, peer, pe, None, fast, e) && !peer.downloading && !peer.peerChoking
    ensures !e ==> Unrequested(p, flags, pe) == {} && Stalled(p, flags, pe) == {}
    ensures forall i: nat :: (i < |p.pieces| && !flags[i].done && !flags[i].writing && pe in p.pieces[i].having.live
                              && |p.pieces[i].requested.live| < p.maxDuplicate) ==>
              && !e
              && exists q :: q in p.pieces[i].requested.live
                          && q !in p.pieces[i].snubbed.live && q !in p.pieces[i].choked.live
  {
    forall i: nat | i < |p.pieces| && !flags[i].done && !flags[i].writing && pe in p.pieces[i].having.live
      && |p.pieces[i].requested.live| < p.maxDuplicate
      ensures && !e
              && exists q :: q in p.pieces[i].requested.live
                          && q !in p.pieces[i].snubbed.live && q !in p.pieces[i].choked.live
    {
      FoundNone(p, flags, peer, pe, i, fast, e);
    }
  }

  /** Endgame begins only when every unfinished, unwritten piece is requested. */
  lemma EndgameOnlyWhenAllRequested(p: Picker, flags: seq<PieceState>, peer: PeerState, pe: Peer, r: Option<nat>,
                                    fast: bool)
    requires Found(p, flags, peer, pe, r, fast, true) && !p.endgame
    ensures EverythingRequested(p, flags)
  {
  }

  function Picked(p: Picker, pe: Peer, r: Option<nat>, e: bool): Picker {
    match r
    case None => p.(endgame := e)
    case Some(i) => Requested(p, pe, i).(endgame := e)
  }

  // ---- sorting, as sort.Slice: some permutation in key order

  ghost predicate SortedBy(s: seq<nat>, key: seq<int>) {
    && (forall i :: 0 <= i < |s| ==> s[i] < |key|)
    && (forall i, j :: 0 <= i < j < |s| ==> key[s[i]] <= key[s[j]])
  }

  ghost predicate Covers(s: seq<nat>, n: nat) {
    forall i: nat :: i in s <==> i < n
  }

  method InsertByKey(r: seq<nat>, key: seq<int>, x: nat) returns (t: seq<nat>)
    requires SortedBy(r, key) && x < |key|
    ensures SortedBy(t, key) && multiset(t) == multiset(r) + multiset{x}
  {
    var at := 0;
    while at < |r| && key[r[at]] <= key[x]
      invariant at <= |r| && forall j :: 0 <= j < at ==> key[r[j]] <= key[x]
    {
      at := at + 1;
    }
    InsertSorted(r, key, x, at);
    assert r == r[..at] + r[at..];
    t := r[..at] + [x] + r[at..];
  }

  lemma InsertSorted(r: seq<nat>, key: seq<int>, x: nat, at: nat)
    requires SortedBy(r, key) && x < |key| && at <= |r|
    requires forall j :: 0 <= j < at ==> key[r[j]] <= key[x]
    requires at < |r| ==> key[x] < key[r[at]]
    ensures SortedBy(r[..at] + [x] + r[at..], key)
  {
    var t := r[..at] + [x] + r[at..];
    forall i, j | 0 <= i < j < |t| ensures key[t[i]] <= key[t[j]] {
      var i' := if i <= at then i else i - 1;
      var j' := if j <= at then j else j - 1;
      assert at < |r| ==> forall k :: at <= k < |r| ==> key[r[at]] <= key[r[k]];
    }
  }

  method SortByKey(s: seq<nat>, key: seq<int>) returns (r: seq<nat>)
    requires Covers(s, |key|)
    ensures Covers(r, |key|) && SortedBy(r, key) && multiset(r) == multiset(s)
  {
    r := [];
    for k := 0 to |s|
      invariant multiset(r) == multiset(s[..k])
      invariant SortedBy(r, key)
    {
      assert s[k] in s && s[..k + 1] == s[..k] + [s[k]];
      r := InsertByKey(r, key, s[k]);
    }
    assert s[..|s|] == s;
    SameElements(r, s);
  }

  lemma SameElements(r: seq<nat>, s: seq<nat>)
    requires multiset(r) == multiset(s)
    ensures forall i: nat :: i in r <==> i in s
  {
    forall i: nat ensures i in r <==> i in s {
      assert i in r <==> i in multiset(r);
      assert i in s <==> i in multiset(s);
    }
  }

  /** A scan in key order that stops at the first element of `from` has its minimum. */
  lemma FirstIsBest(order: seq<nat>, key: seq<int>, from: set<nat>, k: nat)
    requires SortedBy(order, key) && Covers(order, |key|)
    requires k < |order| && order[k] in from
    requires forall j :: 0 <= j < k ==> order[j] !in from
    ensures Best(from, key, Some(order[k]))
  {
    forall i | i in from && i < |key| ensures key[order[k]] <= key[i] {
      assert i in order;
      var j :| 0 <= j < |order| && order[j] == i;
    }
  }

  lemma NoneIsBest(order: seq<nat>, key: seq<int>, from: set<nat>)
    requires Covers(order, |key|) && forall i :: i in from ==> i < |key|
    requires forall j :: 0 <= j < |order| ==> order[j] !in from
    ensures Best(from, key, None)
  {
    assert forall i :: i in from ==> i in order;
  }

  class PiecePicker {
    var pieces: seq<MyPiece>
    var piecesByAvailability: seq<nat>
    var piecesByStalled: seq<nat>
    const maxDuplicateDownload: int
    var available: int
    var endgame: bool

    ghost predicate Valid()
      reads this
    {
      && View().Valid()
      && available == CountAvailable(pieces)
      && Covers(piecesByAvailability, |pieces|)
      && Covers(piecesByStalled, |pieces|)
    }

    ghost function View(): Picker
      reads this
    {
      Picker(pieces, maxDuplicateDownload, endgame)
    }

    constructor (n: nat, maxDuplicate: int)
      ensures Valid()
      ensures View() == Picker(seq(n, _ => NEW_PIECE), maxDuplicate, false)
    {
      pieces := seq(n, _ => NEW_PIECE);
      maxDuplicateDownload := maxDuplicate;
      available := 0;
      endgame := false;
      var order: seq<nat> := [];
      for k := 0 to n
        invariant Covers(order, k)
      {
        order := order + [k];
      }
      piecesByAvailability, piecesByStalled := order, order;
      NoneAvailable(n);
    }

    method HandleHave(pe: Peer, i: nat)
      requires Valid() && i < |pieces|
      modifies this`pieces, this`available
      ensures Valid() && View() == Have(old(View()), pe, i)
      ensures pieces == old(pieces)[i := old(pieces)[i].(having := pieces[i].having)]
      ensures forall q :: q in pieces[i].having.live <==> q in old(pieces)[i].having.live || q == pe
    {
      var mp := pieces[i];
      AddCorrect(mp.having, pe);
      AddedMembers(mp.having, pe);
      var ok := !mp.having.Has(pe);
      var mp' := mp.(having := mp.having.Add(pe));
      CountAvailableUpdate(pieces, i, mp');
      pieces := pieces[i := mp'];
      if ok && |mp'.having.live| == 1 {
        available := available + 1;
      }
    }

    method HandleChoke(pe: Peer, i: nat)
      requires Valid() && i < |pieces|
      modifies this`pieces
      ensures Valid() && View() == Choke(old(View()), pe, i)
      ensures pieces == old(pieces)[i := old(pieces)[i].(snubbed := pieces[i].snubbed, choked := pieces[i].choked)]
      ensures forall q :: q in pieces[i].choked.live <==> q in old(pieces)[i].choked.live || q == pe
      ensures Without(pieces[i].snubbed, old(pieces)[i].snubbed, pe)
    {
      var mp := pieces[i];
      RemoveCorrect(mp.snubbed, pe);
      AddCorrect(mp.choked, pe);
      RemovedMembers(mp.snubbed, pe);
      AddedMembers(mp.choked, pe);
      var mp' := mp.(snubbed := mp.snubbed.Remove(pe), choked := mp.choked.Add(pe));
      CountAvailableUpdate(pieces, i, mp');
      pieces := pieces[i := mp'];
    }

    method HandleUnchoke(pe: Peer, i: nat)
      requires Valid() && i < |pieces|
      modifies this`pieces
      ensures Valid() && View() == Unchoke(old(View()), pe, i)
      ensures pieces == old(pieces)[i := old(pieces)[i].(choked := pieces[i].choked)]
      ensures Without(pieces[i].choked, old(pieces)[i].choked, pe)
    {
      var mp := pieces[i];
      RemoveCorrect(mp.choked, pe);
      RemovedMembers(mp.choked, pe);
      var mp' := mp.(choked := mp.choked.Remove(pe));
      CountAvailableUpdate(pieces, i, mp');
      pieces := pieces[i := mp'];
    }

    method HandleCancelDownload(pe: Peer, i: nat)
      requires Valid() && i < |pieces|
      modifies this`pieces
      ensures Valid() && View() == Cancel(old(View()), pe, i)
      ensures var mp := old(pieces)[i].(requested := pieces[i].requested, snubbed := pieces[i].snubbed);
              pieces == old(pieces)[i := mp]
      ensures Without(pieces[i].requested, old(pieces)[i].requested, pe)
      ensures Without(pieces[i].snubbed, old(pieces)[i].snubbed, pe)
    {
      var mp := pieces[i];
      CancelPieceCorrect(mp, pe);
      RemovedMembers(mp.requested, pe);
      RemovedMembers(mp.snubbed, pe);
      var mp' := mp.(requested := mp.requested.Remove(pe), snubbed := mp.snubbed.Remove(pe));
      CountAvailableUpdate(pieces, i, mp');
      pieces := pieces[i := mp'];
    }

    method RemoveHavingPeer(i: nat, pe: Peer)
      requires Valid() && i < |pieces|
      modifies this`pieces, this`available
      ensures Valid()
      ensures pieces == old(pieces)[i := old(pieces)[i].(having := old(pieces)[i].having.Remove(pe))]
    {
      var mp := pieces[i];
      RemoveCorrect(mp.having, pe);
      var ok := mp.having.Has(pe);
      var mp' := mp.(having := mp.having.Remove(pe));
      CountAvailableUpdate(pieces, i, mp');
      pieces := pieces[i := mp'];
      if ok && |mp'.having.live| == 0 {
        available := available - 1;
      }
    }

    method HandleDisconnect(pe: Peer)
      requires Valid()
      modifies this`pieces, this`available
      ensures Valid() && View() == Disconnect(old(View()), pe)
      ensures |pieces| == |old(pieces)| && forall i :: 0 <= i < |pieces| ==>
                && Without(pieces[i].having, old(pieces)[i].having, pe)
                && Without(pieces[i].requested, old(pieces)[i].requested, pe)
                && Without(pieces[i].snubbed, old(pieces)[i].snubbed, pe)
                && pieces[i].choked == old(pieces)[i].choked
    {
      ghost var before := pieces;
      for i := 0 to |pieces|
        invariant Valid() && |pieces| == |before|
        invariant forall j :: 0 <= j < i ==> pieces[j] == DropPiece(before[j], pe)
        invariant forall j :: i <= j < |pieces| ==> pieces[j] == before[j]
      {
        HandleCancelDownload(pe, i);
        RemoveHavingPeer(i, pe);
      }
      forall i | 0 <= i < |before| ensures
        && Without(pieces[i].having, before[i].having, pe) && Without(pieces[i].requested, before[i].requested, pe)
        && Without(pieces[i].snubbed, before[i].snubbed, pe)
      {
        Dropped(before[i], pe);
      }
      assert pieces == Disconnect(Picker(before, maxDuplicateDownload, endgame), pe).pieces;
    }

    /** Selects and marks a piece; the caller passes the piece flags and the peer. */
    method PickFor(pe: Peer, peer: PeerState, flags: seq<PieceState>) returns (r: Option<nat>, fast: bool)
      requires Valid() && |flags| == |pieces|
      requires forall k :: 0 <= k < |peer.allowedFast| ==> peer.allowedFast[k] < |flags|
      modifies this
      ensures Valid()
      ensures Found(old(View()), flags, peer, pe, r, fast, endgame)
      ensures View() == Picked(old(View()), pe, r, endgame)
      ensures r.Some? ==>
                && Candidate(old(View()), flags, pe, r.value) && !peer.downloading
                && (|| |old(pieces)[r.value].requested.live| == 0
                    || |old(pieces)[r.value].requested.live| < maxDuplicateDownload)
                && (if fast then r.value in peer.allowedFast else !peer.peerChoking)
      ensures endgame && !old(endgame) ==> EverythingRequested(old(View()), flags)
      ensures r.Some? ==>
                && !flags[r.value].done && !flags[r.value].writing && pe in old(pieces)[r.value].having.live
                && pieces == old(pieces)[r.value := old(pieces)[r.value].(requested := pieces[r.value].requested)]
                && forall q :: q in pieces[r.value].requested.live <==>
                               q in old(pieces)[r.value].requested.live || q == pe
      ensures r.None? ==> pieces == old(pieces)
      ensures r.None? && !endgame && !peer.downloading && !peer.peerChoking ==>
                Unrequested(old(View()), flags, pe) == {} && Stalled(old(View()), flags, pe) == {}
      ensures r.Some? && !fast && !endgame && |old(pieces)[r.value].requested.live| > 0 ==>
                |old(pieces)[r.value].requested.live|
                <= |old(pieces)[r.value].snubbed.live| + |old(pieces)[r.value].choked.live|
      ensures r.None? && !peer.downloading && !peer.peerChoking ==>
                forall i: nat :: (i < |pieces| && !flags[i].done && !flags[i].writing && pe in pieces[i].having.live
                                  && |pieces[i].requested.live| < maxDuplicateDownload) ==>
                  && !endgame
                  && exists q :: q in pieces[i].requested.live
                              && q !in pieces[i].snubbed.live && q !in pieces[i].choked.live
    {
      hide Found, Stalled, Unrequested, EverythingRequested;
      r, fast := FindPiece(pe, peer, flags);
      if r.None? && !peer.downloading && !peer.peerChoking {
        NoneMeans(old(View()), flags, peer, pe, fast, endgame);
      }
      if endgame && !old(endgame) { EndgameOnlyWhenAllRequested(old(View()), flags, peer, pe, r, fast); }
      if r.Some? {
        FoundSafe(old(View()), flags, peer, pe, r.value, fast, endgame);
        AddRequested(pe, r.value);
      }
    }

    /** pi.Requested.Add(pe) */
    method AddRequested(pe: Peer, i: nat)
      requires Valid() && i < |pieces|
      modifies this`pieces
      ensures Valid() && View() == Requested(old(View()), pe, i)
      ensures pieces == old(pieces)[i := old(pieces)[i].(requested := pieces[i].requested)]
      ensures forall q :: q in pieces[i].requested.live <==> q in old(pieces)[i].requested.live || q == pe
    {
      var mp := pieces[i];
      AddCorrect(mp.requested, pe);
      AddedMembers(mp.requested, pe);
      var mp' := mp.(requested := mp.requested.Add(pe));
      CountAvailableUpdate(pieces, i, mp');
      pieces := pieces[i := mp'];
    }

    method FindPiece(pe: Peer, peer: PeerState, flags: seq<PieceState>) returns (r: Option<nat>, fast: bool)
      requires Valid() && |flags| == |pieces|
      requires forall k :: 0 <= k < |peer.allowedFast| ==> peer.allowedFast[k] < |flags|
      modifies this`endgame, this`piecesByAvailability, this`piecesByStalled
      ensures Valid()
      ensures Found(old(View()), flags, peer, pe, r, fast, endgame)
    {
      if peer.downloading { return None, false; }
      r := PickAllowedFast(pe, peer, flags);
      if r.Some? { return r, true; }
      fast := false;
      if peer.peerChoking { return None, false; }
      if endgame {
        r := PickEndgame(pe, flags);
        return;
      }
      r := PickRarest(pe, flags);
      if r.Some? { return; }
      if endgame {
        r := PickEndgame(pe, flags);
        return;
      }
      r := PickStalled(pe, flags);
    }

    method PickAllowedFast(pe: Peer, peer: PeerState, flags: seq<PieceState>) returns (r: Option<nat>)
      requires Valid() && |flags| == |pieces|
      requires forall k :: 0 <= k < |peer.allowedFast| ==> peer.allowedFast[k] < |flags|
      ensures r.Some? ==> exists k: nat :: FastChoice(View(), flags, peer, pe, k) && r == Some(peer.allowedFast[k])
      ensures r.None? ==> forall k: nat :: !FastChoice(View(), flags, peer, pe, k)
    {
      for k := 0 to |peer.allowedFast|
        invariant forall j :: 0 <= j < k ==> peer.allowedFast[j] !in Unrequested(View(), flags, pe)
      {
        var i := peer.allowedFast[k];
        var mp := pieces[i];
        if !flags[i].done && !flags[i].writing && |mp.requested.live| == 0 && mp.having.Has(pe) {
          assert FastChoice(View(), flags, peer, pe, k);
          return Some(i);
        }
      }
      return None;
    }

    method PickRarest(pe: Peer, flags: seq<PieceState>) returns (picked: Option<nat>)
      requires Valid() && |flags| == |pieces|
      modifies this`endgame, this`piecesByAvailability
      ensures Valid()
      ensures Best(Unrequested(View(), flags, pe), Rarity(View()), picked)
      ensures endgame == (old(endgame) || (picked.None? && EverythingRequested(View(), flags)))
    {
      var key := seq(|pieces|, i requires 0 <= i < |pieces| reads this => |pieces[i].having.live|);
      assert key == Rarity(View());
      piecesByAvailability := SortByKey(piecesByAvailability, key);
      picked := None;
      var hasUnrequested := false;
      ghost var from := Unrequested(View(), flags, pe);
      for k := 0 to |piecesByAvailability|
        invariant forall j :: 0 <= j < k ==> piecesByAvailability[j] !in from
        invariant hasUnrequested <==>
          exists j :: 0 <= j < k && Open(flags, piecesByAvailability[j])
              && |pieces[piecesByAvailability[j]].requested.live| == 0
      {
        var i := piecesByAvailability[k];
        var mp := pieces[i];
        if flags[i].done || flags[i].writing { continue; }
        if |mp.requested.live| == 0 && mp.having.Has(pe) {
          picked := Some(i);
          FirstIsBest(piecesByAvailability, key, from, k);
          break;
        }
        if |mp.requested.live| == 0 { hasUnrequested := true; }
      }
      if picked.None? { NoneIsBest(piecesByAvailability, key, from); }
      if picked.None? && !hasUnrequested {
        assert EverythingRequested(View(), flags) by {
          forall i: nat | i < |flags| && Open(flags, i) ensures |pieces[i].requested.live| > 0 {
            assert i in piecesByAvailability;
          }
        }
        endgame := true;
      }
    }

    method PickEndgame(pe: Peer, flags: seq<PieceState>) returns (picked: Option<nat>)
      requires Valid() && |flags| == |pieces|
      modifies this`piecesByAvailability
      ensures Valid()
      ensures Best(Duplicable(View(), flags, pe), Running(View()), picked)
    {
      var key := seq(|pieces|, i requires 0 <= i < |pieces| reads this => pieces[i].RunningDownloads());
      assert key == Running(View());
      piecesByAvailability := SortByKey(piecesByAvailability, key);
      ghost var from := Duplicable(View(), flags, pe);
      for k := 0 to |piecesByAvailability|
        invariant forall j :: 0 <= j < k ==> piecesByAvailability[j] !in from
      {
        var i := piecesByAvailability[k];
        var mp := pieces[i];
        if flags[i].done || flags[i].writing { continue; }
        if |mp.requested.live| < maxDuplicateDownload && mp.having.Has(pe) {
          FirstIsBest(piecesByAvailability, key, from, k);
          return Some(i);
        }
      }
      NoneIsBest(piecesByAvailability, key, from);
      return None;
    }

    method PickStalled(pe: Peer, flags: seq<PieceState>) returns (picked: Option<nat>)
      requires Valid() && |flags| == |pieces|
      modifies this`piecesByStalled
      ensures Valid()
      ensures Best(Stalled(View(), flags, pe), Stalling(View()), picked)
    {
      var key := seq(|pieces|, i requires 0 <= i < |pieces| reads this => pieces[i].StalledDownloads());
      assert key == Stalling(View());
      piecesByStalled := SortByKey(piecesByStalled, key);
      ghost var from := Stalled(View(), flags, pe);
      for k := 0 to |piecesByStalled|
        invariant forall j :: 0 <= j < k ==> piecesByStalled[j] !in from
      {
        var i := piecesByStalled[k];
        var mp := pieces[i];
        if flags[i].done || flags[i].writing { continue; }
        if mp.RunningDownloads() > 0 { continue; }
        if |mp.requested.live| < maxDuplicateDownload && mp.having.Has(pe) {
          FirstIsBest(piecesByStalled, key, from, k);
          return Some(i);
        }
      }
      NoneIsBest(piecesByStalled, key, from);
      return None;
    }
  }

  lemma {:induction false} NoneAvailable(n: nat)
    ensures CountAvailable(seq(n, _ => NEW_PIECE)) == 0
  {
    if n > 0 {
      assert seq(n, _ => NEW_PIECE)[..n - 1] == seq(n - 1, _ => NEW_PIECE);
      NoneAvailable(n - 1);
    }
  }
}
