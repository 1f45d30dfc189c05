/** The torrent object (filechain/torrent_*.go): its handlers update fields in place and
    are proved to be exactly the steps of EventLoop. */
module Torrents {
  import opened Common
  import opened Blocks
  import opened PeerSets
  import opened Pickers
  import opened Engine
  import opened EventLoop
  import RM = ResourceManagers
  import PD = PieceDownloaders
  import PR = PeerRecords

  /** Some peers were closed and their downloaders with them. */
  ghost predicate Drained(s: State, t: State) {
    && t == s.(connected := t.connected, downloaders := t.downloaders, picker := t.picker, peers := t.peers,
               ram := t.ram)
    && Idle(t.peers) == Idle(s.peers)
    && t.downloaders.Keys <= s.downloaders.Keys && |t.downloaders| <= |s.downloaders|
    && t.ram == s.ram + seq(|s.downloaders| - |t.downloaders|, _ => RM.Released(s.pieceLength))
    && (s.picker.Some? <==> t.picker.Some?)
  }

  lemma ReleasesSnoc(n: nat, k: nat)
    ensures seq(k + 1, _ => RM.Released(n)) == seq(k, _ => RM.Released(n)) + [RM.Released(n)]
  {
  }

  lemma DrainedClose(s: State, m: State, pe: Peer)
    requires Drained(s, m)
    ensures Drained(s, CloseDownloader(m, pe))
    ensures pe !in CloseDownloader(m, pe).downloaders
  {
    if pe in m.downloaders {
      assert CloseDownloader(m, pe).downloaders.Keys == m.downloaders.Keys - {pe};
      ReleasesSnoc(s.pieceLength, |s.downloaders| - |m.downloaders|);
      IdleFlag(m.peers, pe);
    }
  }

  lemma ClosePeerDrains(s: State, m: State, pe: Peer)
    requires Drained(s, m) && Shape(m) && Agree(m)
    ensures var t := Engine.ClosePeer(m, pe); Shape(t) && Agree(t) && Drained(s, t) && t.connected == m.connected - {pe}
  {
    CloseDownloaderAgree(m, pe);
    DrainedClose(s, m, pe);
    ForgetAgree(CloseDownloader(m, pe), pe);
  }

  lemma DrainedStart(s: State)
    ensures Drained(WithPeers(s, {}), s)
  {
    assert WithPeers(s, {}).peers == s.peers;
    assert seq(0, _ => RM.Released(s.pieceLength)) == [];
  }

  ghost function NewPeers(n: nat, dialled: set<Peer>): map<Peer, PeerState> {
    map pe | pe in dialled :: NewPeer(n)
  }

  lemma NewPeersTwice(peers: map<Peer, PeerState>, n: nat, dialled: set<Peer>, more: set<Peer>)
    ensures peers + NewPeers(n, dialled + more) == peers + NewPeers(n, dialled) + NewPeers(n, more)
  {
    hide NewPeer;
  }

  lemma IdleNewPeers(peers: map<Peer, PeerState>, n: nat, dialled: set<Peer>)
    ensures Idle(peers + NewPeers(n, dialled)) == Idle(peers) + NewPeers(n, dialled)
  {
    var added := NewPeer(n);
    assert !added.downloading;
    hide NewPeer;
  }

  lemma WithNewPeers(s: State, dialled: set<Peer>)
    ensures WithPeers(s, dialled) == s.(peers := s.peers + NewPeers(s.N(), dialled), connected := s.connected + dialled)
  {
  }

  lemma DialDrains(s: State, dialled: set<Peer>, c: State, more: set<Peer>)
    requires Drained(WithPeers(s, dialled), c)
    ensures Drained(WithPeers(s, dialled + more), WithPeers(c, more))
  {
    hide WithPeers, NewPeers, Idle;
    var n := s.N();
    WithNewPeers(s, dialled);
    WithNewPeers(s, dialled + more);
    WithNewPeers(c, more);
    NewPeersTwice(s.peers, n, dialled, more);
    IdleNewPeers(s.peers + NewPeers(n, dialled), n, more);
    IdleNewPeers(c.peers, n, more);
  }

  lemma DrainedKnows(s: State, c: State)
    requires Drained(s, c)
    ensures c.peers.Keys == s.peers.Keys
  {
    assert Idle(c.peers).Keys == c.peers.Keys && Idle(s.peers).Keys == s.peers.Keys;
  }

  lemma StoppedBy(s: State, dialled: set<Peer>, t: State)
    requires dialled !! s.peers.Keys && (s.completed ==> dialled == {}) && t.connected <= dialled
    requires t == s.(running := false, connected := t.connected, downloaders := map[], picker := None,
                     peers := Idle(WithPeers(s, dialled).peers), ram := s.ram + Releases(s))
    ensures StoppedAs(s, t)
  {
    hide WithPeers, NewPeers, Idle, Releases;
    WithNewPeers(s, dialled);
    WithNewPeers(EventLoop.Stop(s), dialled);
    IdleNewPeers(s.peers, s.N(), dialled);
    assert t == Redialled(EventLoop.Stop(s), dialled, t.connected);
  }

  lemma NobodyDialled(s: State, t: State)
    requires s.completed && StoppedAs(s, t)
    ensures t == EventLoop.Stop(s)
  {
    assert WithPeers(EventLoop.Stop(s), {}).peers == EventLoop.Stop(s).peers;
  }

  lemma IdleFlag(peers: map<Peer, PeerState>, pe: Peer)
    ensures Idle(Flag(peers, pe, false)) == Idle(peers)
  {
  }

  lemma DrainedAll(s: State, t: State)
    requires Drained(s, t) && Agree(t) && t.downloaders == map[]
    ensures t.peers == Idle(s.peers) && t.ram == s.ram + Releases(s)
  {
    assert |t.downloaders| == 0;
    forall pe | pe in t.peers ensures t.peers[pe] == t.peers[pe].(downloading := false) {
      assert pe !in t.downloaders;
    }
    assert t.peers == Idle(t.peers);
  }

  /** A pick never marks a finished piece, so its Requested set stays as it is. */
  lemma AskedForKeepsRequested(n: State, pe: Peer, t: State, i: nat)
    requires AskedFor(n, pe, t) && i < |n.flags| && n.flags[i].done
    requires n.picker.Some? && i < |n.picker.value.pieces|
    ensures t.picker.Some? && i < |t.picker.value.pieces|
    ensures t.picker.value.pieces[i].requested == n.picker.value.pieces[i].requested
  {
    if n.Status() == Downloading && t != Acquire(n, pe, false) {
      var m := Acquire(n, pe, true);
      var c :| StartedAs(m, pe, c, t);
      if c.r.Some? {
        FoundSafe(m.picker.value, m.flags, m.peers[pe], pe, c.r.value, c.fast, c.endgame);
      }
    }
  }

  class Torrent {
    const pieceLength: nat
    const lengths: seq<nat>
    const maxRequestsOut: int
    const defaultRequestsOut: int
    const picker0: PiecePicker
    var running: bool
    var completed: bool
    var flags: seq<PieceState>
    var bitfield: seq<bool>
    var picker: PiecePicker?
    var pieceDownloaders: map<Peer, PD.Downloader>
    var peers: map<Peer, PeerState>
    var connectedPeers: set<Peer>
    var suspended: bool
    var writer: Option<Write>
    ghost var ram: seq<RM.RamEvent>

    ghost function View(): State
      reads this, picker0
    {
      State(running, completed, pieceLength, lengths, flags, bitfield,
            if picker == null then None else Some(picker0.View()),
            pieceDownloaders, peers, connectedPeers, suspended, writer, maxRequestsOut, defaultRequestsOut, ram)
    }

    /** The picker is only ever dropped, never replaced, within an epoch. */
    ghost predicate PickerOk()
      reads this, picker0
    {
      (picker == null || picker == picker0) && picker0.Valid()
    }

    ghost predicate Valid()
      reads this, picker0
    {
      PickerOk() && Safe(View())
    }

    /** A prepared torrent: see EventLoop.Prepared. */
    constructor (pieceLength: nat, lengths: seq<nat>, maxDuplicate: int, maxOut: int, defaultOut: int,
                 connected: set<Peer>)
      ensures PickerOk() && picker != null && fresh(picker0)
      ensures View() == State(true, false, pieceLength, lengths,
                seq(|lengths|, _ => PieceState(false, false)), seq(|lengths|, _ => false),
                Some(Picker(seq(|lengths|, _ => NEW_PIECE), maxDuplicate, false)),
                map[], map pe | pe in connected :: NewPeer(|lengths|), connected, false, None, maxOut, defaultOut, [])
    {
      this.pieceLength, this.lengths := pieceLength, lengths;
      maxRequestsOut, defaultRequestsOut := maxOut, defaultOut;
      running, completed := true, false;
      flags := seq(|lengths|, _ => PieceState(false, false));
      bitfield := seq(|lengths|, _ => false);
      var p := new PiecePicker(|lengths|, maxDuplicate);
      picker0 := p;
      picker := p;
      pieceDownloaders := map[];
      peers := map pe | pe in connected :: NewPeer(|lengths|);
      connectedPeers := connected;
      suspended, writer := false, None;
      ram := [];
    }

    /** The tail of handleAllocationDone and handleVerificationDone: take over the
        resumed, empty or verified bitfield, check for completion, catch up with the
        queued messages and start downloading. */
    method Begin(have: seq<bool>, stop: bool, queues: Queues) returns (ghost prepared: State)
      requires PickerOk() && picker != null && |have| == |lengths| && QueuesOk(queues, |lengths|)
      requires Prepared(View()) && forall i :: 0 <= i < |bitfield| ==> !bitfield[i]
      modifies this, picker0
      ensures Valid() && prepared == old(View()).(flags := prepared.flags, bitfield := have)
      ensures Prepared(prepared) && EpochStart(prepared, stop, queues, View())
    {
      ghost var s := View();
      bitfield := have;
      for i := 0 to |have|
        invariant PickerOk() && |flags| == |have|
        invariant View() == s.(flags := flags, bitfield := have)
        invariant forall j :: 0 <= j < |have| ==> flags[j] == PieceState(if j < i then have[j] else false, false)
      {
        flags := flags[i := flags[i].(done := have[i])];
      }
      prepared := View();
      PreparedBegins(s, prepared, stop);
      FinishDownload(stop);
      CheckedSafe(prepared, stop);
      if running { CatchUp(queues); }
      EpochStartSafe(prepared, stop, queues, View());
    }

    /** processQueuedMessages, startAnnouncers and startPieceDownloaders. Peers dialled
        meanwhile have nothing queued. */
    method CatchUp(queues: Queues)
      requires Valid() && running && QueuesOk(queues, |lengths|)
      modifies this, picker0
      ensures Valid()
      ensures exists order: seq<Peer> ::
                Enumerates(order, old(connectedPeers)) && Leads(old(View()), Replay(order, queues) + [Opened], View())
    {
      hide Safe, Step;
      ghost var f := View();
      var todo := connectedPeers;
      ghost var order: seq<Peer> := [];
      assert todo <= peers.Keys by { ConnectedPeers(f); }
      while todo != {}
        invariant Valid() && running && todo <= peers.Keys && todo <= f.connected
        invariant Enumerates(order, f.connected - todo) && Leads(f, Replay(order, queues), View())
        decreases todo
      {
        var pe :| pe in todo;
        EnumeratesSnoc(order, f.connected, todo, pe);
        todo := todo - {pe};
        ProcessQueue(pe, Queue(queues, pe), f, Replay(order, queues));
        ReplaySnoc(order, queues, pe);
        order := order + [pe];
      }
      assert f.connected - {} == f.connected;
      ghost var m := View();
      Open();
      LeadsSnoc(f, Replay(order, queues), m, Opened, View());
    }

    /** The inner loop, over what is queued for one peer, closed or not. */
    method ProcessQueue(pe: Peer, messages: seq<Message>, ghost f: State, ghost before: seq<Event>)
      requires Valid() && running && pe in peers && Leads(f, before, View())
      requires forall k :: 0 <= k < |messages| ==> Queueable(messages[k]) && WellFormed(messages[k], |lengths|)
      modifies this, picker0
      ensures Valid() && running && old(peers.Keys) <= peers.Keys
      ensures Leads(f, before + Queued(pe, messages), View())
    {
      hide Safe, Step, Leads;
      assert before + Queued(pe, messages[..0]) == before;
      for k := 0 to |messages|
        invariant Valid() && running && pe in peers && old(peers.Keys) <= peers.Keys
        invariant Leads(f, before + Queued(pe, messages[..k]), View())
      {
        ghost var m := View();
        var panicked := HandlePeerMessage(pe, messages[k]);
        StillRunning(m, pe, messages[k], View());
        LeadsSnoc(f, before + Queued(pe, messages[..k]), m, PeerMessage(pe, messages[k]), View());
        QueuedSnoc(pe, messages, k, before);
      }
      assert messages[..|messages|] == messages;
    }

    method Open()
      requires Valid() && running
      modifies this, picker0
      ensures Valid() && Step(old(View()), Opened, View())
    {
      ghost var s := View();
      var addresses: nat := *;
      var dialled := DialAddresses(addresses);
      DialledInv(s, dialled);
      StartPieceDownloaders();
      StepSafe(s, Opened, View());
    }

    function Status(): Status
      reads this
    {
      if !running then Stopped else if completed then Seeding else Downloading
    }

    // ---- the RAM manager, seen from this torrent

    /** The answer depends on the other torrents. */
    method RamRequest(pe: Peer) returns (acquired: bool)
      modifies this`ram
      ensures ram == old(ram) + [RM.Asked(pe, pieceLength, acquired)]
    {
      acquired := *;
      ram := ram + [RM.Asked(pe, pieceLength, acquired)];
    }

    method RamRelease()
      modifies this`ram
      ensures ram == old(ram) + [RM.Released(pieceLength)]
    {
      ram := ram + [RM.Released(pieceLength)];
    }

    // ---- filechain/torrent_start.go

    method StartSinglePieceDownloader(pe: Peer)
      requires PickerOk() && CoreWithRam(View()) && pe in peers
      modifies this, picker0
      ensures PickerOk() && Started(old(View()), pe, View())
    {
      hide Owes, Duplicates, PD.Request, Found;
      ghost var s := View();
      if Status() != Downloading {
        RamRelease();
        return;
      }
      assert FastOk(s, pe);
      var pi, allowedFast := picker.PickFor(pe, peers[pe], flags);
      if pi.None? {
        RamRelease();
        assert StartedAs(s, pe, Choice(None, allowedFast, picker0.endgame, []), View());
        return;
      }
      var i := pi.value;
      FoundSafe(s.picker.value, flags, peers[pe], pe, i, allowedFast, picker0.endgame);
      NotDownloading(s, pe);
      var buffer := AddDownloader(pe, i, allowedFast);
      assert StartedAs(s, pe, Choice(pi, allowedFast, picker0.endgame, buffer), View());
    }

    method AddDownloader(pe: Peer, i: nat, allowedFast: bool) returns (buffer: bytes)
      requires pe in peers && i < |lengths|
      requires pe !in pieceDownloaders  // "peer already has a piece downloader"
      modifies this`pieceDownloaders, this`peers
      ensures |buffer| == lengths[i] && peers == Flag(old(peers), pe, true)
      ensures pieceDownloaders == old(pieceDownloaders)[pe :=
                PD.Request(PD.New(i, lengths[i], allowedFast, buffer), old(MaxAllowed(pe))).0]
    {
      buffer := PoolGet(lengths[i]);
      var pd := PD.New(i, lengths[i], allowedFast, buffer);
      pieceDownloaders := pieceDownloaders[pe := PD.Request(pd, MaxAllowed(pe)).0];
      peers := peers[pe := peers[pe].(downloading := true)];
    }

    /** A pool buffer keeps what an earlier piece left in it. */
    method PoolGet(n: nat) returns (b: bytes)
      ensures |b| == n
    {
      assert |seq<byte>(n, _ => 0)| == n;
      b :| |b| == n;
    }

    function MaxAllowed(pe: Peer): int
      requires pe in peers
      reads this
    {
      var ret := if peers[pe].requestQueue.Some? && peers[pe].requestQueue.value > 0 then peers[pe].requestQueue.value
                 else defaultRequestsOut;
      Min(ret, maxRequestsOut)
    }

    method StartPieceDownloaderFor(pe: Peer)
      requires PickerOk() && Core(View()) && pe in peers
      modifies this, picker0
      ensures PickerOk() && AskedFor(old(View()), pe, View())
    {
      ghost var s := View();
      if Status() != Downloading { return; }
      AcquireCore(s, pe);
      var ok := RamRequest(pe);
      assert View() == Acquire(s, pe, ok);
      if ok { StartSinglePieceDownloader(pe); }
    }

    method StartPieceDownloaders()
      requires PickerOk() && Inv(View())
      modifies this, picker0
      ensures PickerOk() && StartAll(old(View()), View())
    {
      ghost var s := View();
      if Status() != Downloading { return; }
      var todo := connectedPeers;
      ghost var order: seq<Peer> := [];
      while todo != {}
        invariant PickerOk() && Inv(View()) && StartEach(s, order, View())
        invariant connectedPeers == s.connected && todo <= connectedPeers
        invariant Enumerates(order, s.connected - todo)
        decreases todo
      {
        ghost var m := View();
        var pe :| pe in todo;
        EnumeratesSnoc(order, s.connected, todo, pe);
        todo := todo - {pe};
        ConnectedKnown(m, pe);
        if !peers[pe].downloading { StartPieceDownloaderFor(pe); }
        StartEachSnoc(s, order, m, pe, View());
        order := order + [pe];
      }
    }

    // ---- filechain/torrent_close.go

    method ClosePieceDownloader(pe: Peer)
      requires PickerOk() && Shape(View()) && Agree(View())
      modifies this, picker0
      ensures PickerOk() && View() == CloseDownloader(old(View()), pe)
    {
      if pe !in pieceDownloaders { return; }
      assert DownloaderOk(View(), pe);
      var pd := pieceDownloaders[pe];
      pieceDownloaders := pieceDownloaders - {pe};
      if picker != null { picker.HandleCancelDownload(pe, pd.piece); }
      peers := peers[pe := peers[pe].(downloading := false)];
      RamRelease();
    }

    method RemovePeer(pe: Peer)
      requires PickerOk() && Shape(View()) && Agree(View())
      modifies this, picker0
      ensures PickerOk() && View() == Engine.ClosePeer(old(View()), pe)
    {
      ghost var s := View();
      CloseDownloaderAgree(s, pe);
      ClosePieceDownloader(pe);
      connectedPeers := connectedPeers - {pe};
      if picker != null { picker.HandleDisconnect(pe); }
    }

    /** dialAddresses: which peers answer is up to the network, and each of them takes at
        least one of the n waiting addresses. */
    method DialAddresses(n: nat) returns (dialled: set<Peer>)
      requires PickerOk()
      modifies this`peers, this`connectedPeers
      ensures PickerOk() && |dialled| <= n && dialled !! old(peers).Keys && (completed ==> dialled == {})
      ensures View() == WithPeers(old(View()), dialled)
    {
      dialled := {};
      if !completed {
        dialled :| |dialled| <= n && dialled !! peers.Keys;
      }
      peers := peers + (map pe | pe in dialled :: NewPeer(|lengths|));
      connectedPeers := connectedPeers + dialled;
    }

    method ClosePeer(pe: Peer)
      requires PickerOk() && Shape(View()) && Agree(View())
      modifies this, picker0
      ensures PickerOk() && ClosedPeer(old(View()), pe, View())
    {
      ghost var s := View();
      RemovePeer(pe);
      assert peers.Keys == s.peers.Keys by { if pe in s.downloaders { assert DownloaderOk(s, pe); } }
      var addresses: nat := *;
      var dialled := DialAddresses(addresses);
      assert View() == WithPeers(Engine.ClosePeer(s, pe), dialled);
    }

    method ClosePeers(which: set<Peer>)
      requires PickerOk() && Shape(View()) && Agree(View())
      modifies this, picker0
      ensures PickerOk() && Shape(View()) && Agree(View())
      ensures Drained(old(View()), View()) && connectedPeers == old(connectedPeers) - which
    {
      ghost var s := View();
      var todo := which;
      while todo != {}
        invariant PickerOk() && Shape(View()) && Agree(View()) && Drained(s, View())
        invariant todo <= which && connectedPeers == s.connected - (which - todo)
        decreases todo
      {
        ghost var m := View();
        var pe :| pe in todo;
        SetStep(s.connected, which, todo, pe);
        todo := todo - {pe};
        ClosePeerDrains(s, m, pe);
        RemovePeer(pe);
      }
    }

    method CloseAllDownloaders()
      requires PickerOk() && Shape(View()) && Agree(View())
      modifies this, picker0
      ensures PickerOk() && Shape(View()) && Agree(View())
      ensures Drained(old(View()), View()) && pieceDownloaders == map[] && connectedPeers == old(connectedPeers)
    {
      ghost var s := View();
      while pieceDownloaders.Keys != {}
        invariant PickerOk() && Shape(View()) && Agree(View()) && Drained(s, View())
        invariant connectedPeers == s.connected
        decreases pieceDownloaders.Keys
      {
        ghost var m := View();
        var pe :| pe in pieceDownloaders.Keys;
        CloseDownloaderAgree(m, pe);
        DrainedClose(s, m, pe);
        ClosePieceDownloader(pe);
      }
    }

    // ---- filechain/torrent_pieces.go and torrent_stop.go

    method CheckCompletion() returns (done: bool)
      requires PickerOk() && Shape(View()) && Agree(View())
      modifies this, picker0
      ensures PickerOk() && View() == EventLoop.CheckCompletion(old(View())) && done == completed
    {
      ghost var s := View();
      if completed { return true; }
      if !AllSet(bitfield) { return false; }
      CompleteDownload();
      done := true;
    }

    method CompleteDownload()
      requires PickerOk() && Shape(View()) && Agree(View()) && !completed
      modifies this, picker0
      ensures PickerOk() && View() == EventLoop.Completed(old(View()))
    {
      hide Shape, Agree, Idle;
      ghost var s := View();
      completed := true;
      ghost var t := View();
      CompletedFlagAgree(s);
      ClosePeers(set pe | pe in connectedPeers && pe in peers && !peers[pe].peerInterested);
      ghost var m := View();
      CloseAllDownloaders();
      DrainedTwice(t, m, View());
      DrainedAll(t, View());
      picker := null;
      Interested(s);
    }

    method FinishDownload(stop: bool)
      requires PickerOk() && Shape(View()) && Agree(View())
      modifies this, picker0
      ensures PickerOk() && View() == Finish(old(View()), stop)
    {
      ghost var s := View();
      var done := CheckCompletion();
      if done && stop {
        CheckedAgree(s);
        ghost var c := View();
        Stop();
        NobodyDialled(c, View());
      }
    }

    method Stop()
      requires PickerOk() && Shape(View()) && Agree(View())
      modifies this, picker0
      ensures PickerOk() && StoppedAs(old(View()), View())
    {
      ghost var s := View();
      ghost var dialled := StopPeers();
      ghost var m := View();
      CloseAllDownloaders();
      DrainedTwice(WithPeers(s, dialled), m, View());
      DrainedAll(WithPeers(s, dialled), View());
      picker := null;
      running := false;
      StoppedBy(s, dialled, View());
    }

    /** stopPeers ranges over a map to which closePeer adds whom it dials instead: whether
        the loop comes to them is up to the iteration. */
    method StopPeers() returns (ghost dialled: set<Peer>)
      requires PickerOk() && Shape(View()) && Agree(View())
      modifies this, picker0
      ensures PickerOk() && Shape(View()) && Agree(View())
      ensures dialled !! old(peers).Keys && (completed ==> dialled == {}) && connectedPeers <= dialled
      ensures Drained(WithPeers(old(View()), dialled), View())
    {
      hide Shape, Agree, Drained, WithPeers;
      ghost var s := View();
      DrainedStart(s);
      dialled := {};
      var todo := connectedPeers;
      var addresses: nat := *;  // waiting to be dialled
      while todo != {}
        invariant PickerOk() && Shape(View()) && Agree(View()) && Drained(WithPeers(s, dialled), View())
        invariant dialled !! s.peers.Keys && completed == s.completed && (completed ==> dialled == {})
        invariant connectedPeers <= dialled + todo
        decreases addresses, |todo|
      {
        var pe :| pe in todo;
        var more := StopPeer(pe, addresses, s, dialled);
        var visited :| visited <= more;
        dialled := dialled + more;
        todo := todo - {pe} + visited;
        addresses := addresses - |more|;
      }
    }

    method StopPeer(pe: Peer, addresses: nat, ghost s: State, ghost dialled: set<Peer>) returns (more: set<Peer>)
      requires PickerOk() && Shape(View()) && Agree(View()) && Drained(WithPeers(s, dialled), View())
      modifies this, picker0
      ensures PickerOk() && Shape(View()) && Agree(View()) && Drained(WithPeers(s, dialled + more), View())
      ensures |more| <= addresses && more !! s.peers.Keys && (completed ==> more == {})
      ensures completed == old(completed) && connectedPeers == old(connectedPeers) - {pe} + more
    {
      ClosePeerDrains(WithPeers(s, dialled), View(), pe);
      RemovePeer(pe);
      hide Shape, Agree, Drained;
      ghost var c := View();
      DrainedKnows(WithPeers(s, dialled), c);
      more := DialAddresses(addresses);
      DialDrains(s, dialled, c, more);
      WithPeersAgree(c, more);
    }

    // ---- filechain/torrent_messagehandler.go

    method HandleHave(pe: Peer, i: nat)
      requires PickerOk() && Inv(View()) && pe in peers && i < |lengths|
      modifies this`peers, picker0
      ensures PickerOk() && View() == HaveOne(old(View()), pe, i) && peers.Keys == old(peers.Keys)
    {
      if picker != null {
        peers := peers[pe := peers[pe].(bitfield := peers[pe].bitfield[i := true])];
        picker.HandleHave(pe, i);
      }
    }

    method HandleHaves(pe: Peer, bits: seq<bool>)
      requires PickerOk() && Inv(View()) && pe in peers && |bits| == |lengths|
      modifies this`peers, picker0
      ensures PickerOk() && View() == HaveEach(old(View()), pe, bits) && Inv(View()) && pe in peers
    {
      hide Inv;
      ghost var s := View();
      for i := 0 to |bits|
        invariant PickerOk() && Inv(View()) && pe in peers
        invariant View() == HaveEach(s, pe, bits[..i])
      {
        assert bits[..i + 1][..i] == bits[..i];
        HaveOneInv(View(), pe, i);
        if bits[i] { HandleHave(pe, i); }
      }
      assert bits[..|bits|] == bits;
    }

    method ComputeInterest(pe: Peer) returns (interested: bool)
      requires Shape(View()) && pe in peers
      ensures interested == Wants(View(), pe)
    {
      interested := false;
      if completed { return; }
      var peer := peers[pe];
      for i := 0 to |bitfield|
        invariant !interested && forall j :: 0 <= j < i ==> bitfield[j] || !peer.bitfield[j]
      {
        if !bitfield[i] && peer.bitfield[i] { return true; }
      }
    }

    /** The two branches that send a message; otherwise the flag is already right. */
    method UpdateInterestedState(pe: Peer)
      requires PickerOk() && Shape(View()) && pe in peers
      modifies this`peers
      ensures PickerOk() && View() == Interest(old(View()), pe)
    {
      var interested := ComputeInterest(pe);
      if !peers[pe].clientInterested && interested {
        peers := peers[pe := peers[pe].(clientInterested := true)];
      } else if peers[pe].clientInterested && !interested {
        peers := peers[pe := peers[pe].(clientInterested := false)];
      } else {
        assert peers == peers[pe := peers[pe].(clientInterested := interested)];
      }
    }

    /** What Have, Bitfield and HaveAll end with. */
    method Offered(pe: Peer)
      requires PickerOk() && Inv(View()) && pe in peers
      modifies this, picker0
      ensures PickerOk() && AskedFor(Interest(old(View()), pe), pe, View())
    {
      InterestInv(View(), pe);
      UpdateInterestedState(pe);
      StartPieceDownloaderFor(pe);
    }

    /** Whatever the state, the handler panics on Port messages and on nothing else. */
    method HandlePeerMessage(pe: Peer, m: Message) returns (panicked: bool)
      requires Valid() && running && pe in peers && WellFormed(m, |lengths|)
      modifies this, picker0
      ensures panicked <==> m.PortMessage?
      ensures Valid() && (panicked ==> View() == old(View()))
      ensures !panicked ==> Step(old(View()), PeerMessage(pe, m), View())
      ensures !panicked ==> PR.Recorded(old(View()), PeerMessage(pe, m), View())
      ensures m.ChokeMessage? || m.UnchokeMessage? ==> pe in peers && peers[pe].peerChoking == m.ChokeMessage?
      ensures m.InterestedMessage? || m.NotInterestedMessage? ==>
                pe in peers && peers[pe].peerInterested == m.InterestedMessage?
    {
      hide MessageStep, PR.Recorded, Inv, Sound;
      ghost var s := View();
      panicked := Dispatch(pe, m);
      if !panicked {
        StepSafe(s, PeerMessage(pe, m), View());
        PR.StepRecorded(s, PeerMessage(pe, m), View());
        PR.OneRecorded(s, pe, m, View());
      }
    }

    method Dispatch(pe: Peer, m: Message) returns (panicked: bool)
      requires PickerOk() && Inv(View()) && pe in peers && WellFormed(m, |lengths|)
      modifies this, picker0
      ensures PickerOk() && (panicked <==> m.PortMessage?)
      ensures if panicked then View() == old(View()) else MessageStep(old(View()), pe, m, View())
    {
      hide AskedFor, ClosedPeer, StartAll, HaveOne, HaveEach, PD.Request;
      panicked := false;
      match m {
        case HaveMessage(i) => HandleHaveMessage(pe, i);
        case BitfieldMessage(size, bits) => HandleBitfieldMessage(pe, size, bits);
        case HaveAllMessage => HandleHaveAll(pe);
        case HaveNoneMessage =>
        case AllowedFastMessage(i) => HandleAllowedFast(pe, i);
        case UnchokeMessage => HandleUnchoke(pe);
        case ChokeMessage => HandleChoke(pe);
        case InterestedMessage => SetInterested(pe, true);
        case NotInterestedMessage => SetInterested(pe, false);
        case RejectMessage(index, begin, length) => HandleReject(pe, index, begin, length);
        case RequestMessage(index, begin, length) =>
          var choking: bool, offered: bool := *, *;
          var reply := HandleRequest(pe, index, begin, length, choking, offered);
        case CancelMessage(_, _, _) =>
        case ExtensionHandshakeMessage(q) => HandleExtensionHandshake(pe, q);
        case PassiveMessage =>
        case _ => panicked := true;  // "unhandled peer message type"
      }
    }

    /** `choking` and `offered`: whether the peer is choked by us and was offered the piece
        as allowed-fast, which is decided elsewhere. */
    method HandleRequest(pe: Peer, index: nat, begin: nat, length: nat, choking: bool, offered: bool)
      returns (reply: Reply)
      requires PickerOk() && Inv(View()) && pe in peers
      modifies this, picker0
      ensures PickerOk() && MessageStep(old(View()), pe, RequestMessage(index, begin, length), View())
      ensures reply == CloseSender <==> index >= |lengths| || (begin + length) % 0x1_0000_0000 > lengths[index]
      ensures reply == SendPiece <==>
                && !BadRequest(old(View()), index, begin, length) && old(bitfield)[index]
                && (!choking || (old(peers)[pe].fastEnabled && offered))
      ensures reply == SendReject <==>
                && !BadRequest(old(View()), index, begin, length)
                && (!old(bitfield)[index] || (choking && old(peers)[pe].fastEnabled && !offered))
    {
      if index >= |lengths| || (begin + length) % UINT32 > lengths[index] {
        ClosePeer(pe);
        return CloseSender;
      }
      if !flags[index].done { return SendReject; }
      if choking {
        if !peers[pe].fastEnabled { return NoReply; }
        if !offered { return SendReject; }
      }
      return SendPiece;
    }

    method HandleExtensionHandshake(pe: Peer, requestQueue: int)
      requires PickerOk() && pe in peers
      modifies this`peers
      ensures PickerOk() && MessageStep(old(View()), pe, ExtensionHandshakeMessage(requestQueue), View())
    {
      if peers[pe].requestQueue.Some? { return; }
      peers := peers[pe := peers[pe].(requestQueue := Some(requestQueue))];
    }

    method SetInterested(pe: Peer, interested: bool)
      requires PickerOk() && pe in peers
      modifies this`peers
      ensures PickerOk()
      ensures View() == SetPeer(old(View()), pe, old(peers)[pe].(peerInterested := interested))
    {
      peers := peers[pe := peers[pe].(peerInterested := interested)];
    }

    method HandleHaveAll(pe: Peer)
      requires PickerOk() && Inv(View()) && pe in peers
      modifies this, picker0
      ensures PickerOk() && MessageStep(old(View()), pe, HaveAllMessage, View())
    {
      HandleHaves(pe, seq(|lengths|, _ => true));
      Offered(pe);
    }

    method HandleAllowedFast(pe: Peer, i: nat)
      requires PickerOk() && Inv(View()) && pe in peers
      modifies this, picker0
      ensures PickerOk() && MessageStep(old(View()), pe, AllowedFastMessage(i), View())
    {
      if i >= |lengths| {
        ClosePeer(pe);
      } else if picker != null {
        peers := peers[pe := AddFast(peers[pe], i)];
      }
    }

    method HandleHaveMessage(pe: Peer, i: nat)
      requires PickerOk() && Inv(View()) && pe in peers
      modifies this, picker0
      ensures PickerOk() && MessageStep(old(View()), pe, HaveMessage(i), View())
    {
      if i >= |lengths| {
        ClosePeer(pe);
        return;
      }
      HaveOneInv(View(), pe, i);
      HandleHave(pe, i);
      Offered(pe);
    }

    method HandleBitfieldMessage(pe: Peer, size: nat, bits: seq<bool>)
      requires PickerOk() && Inv(View()) && pe in peers
      requires size != 0 && size == (|lengths| + 7) / 8 ==> |bits| == |lengths|
      modifies this, picker0
      ensures PickerOk() && MessageStep(old(View()), pe, BitfieldMessage(size, bits), View())
    {
      if size == 0 { return; }
      if size != (|lengths| + 7) / 8 {
        ClosePeer(pe);
        return;
      }
      HandleHaves(pe, bits);
      Offered(pe);
    }

    method HandleUnchoke(pe: Peer)
      requires PickerOk() && Inv(View()) && pe in peers
      modifies this, picker0
      ensures PickerOk() && MessageStep(old(View()), pe, UnchokeMessage, View())
    {
      ghost var s := View();
      peers := peers[pe := peers[pe].(peerChoking := false)];
      PeerInv(s, pe, peers[pe]);
      ContinueAfterUnchoke(pe);
    }

    method ContinueAfterUnchoke(pe: Peer)
      requires PickerOk() && Inv(View()) && pe in peers
      modifies this, picker0
      ensures PickerOk() && Unchoked(old(View()), pe, View())
    {
      if pe !in pieceDownloaders {
        StartPieceDownloaderFor(pe);
      } else if !pieceDownloaders[pe].allowedFast {
        assert DownloaderOk(View(), pe);
        UnchokeDownloader(pe);
      }
    }

    method UnchokeDownloader(pe: Peer)
      requires PickerOk() && pe in peers && pe in pieceDownloaders
      requires picker != null ==> pieceDownloaders[pe].piece < |picker0.pieces|
      modifies this`pieceDownloaders, picker0
      ensures PickerOk()
      ensures var s, d := old(View()), old(pieceDownloaders[pe]);
              View() == SetDownloader(s, pe, PD.Request(d, MaxAllowedRequests(s, s.peers[pe])).0)
                        .(picker := match s.picker case None => None case Some(p) => Some(Unchoke(p, pe, d.piece)))
    {
      var pd := pieceDownloaders[pe];
      pieceDownloaders := pieceDownloaders[pe := PD.Request(pd, MaxAllowed(pe)).0];
      if picker != null { picker.HandleUnchoke(pe, pd.piece); }
    }

    method HandleChoke(pe: Peer)
      requires PickerOk() && Inv(View()) && pe in peers
      modifies this, picker0
      ensures PickerOk() && MessageStep(old(View()), pe, ChokeMessage, View())
    {
      ghost var s := View();
      peers := peers[pe := peers[pe].(peerChoking := true)];
      if pe !in pieceDownloaders { return; }
      if pieceDownloaders[pe].allowedFast { return; }
      PeerInv(s, pe, peers[pe]);
      ghost var u := View();
      var order := ChokeDownloader(pe);
      ChokedInv(u, pe, order);
      StartPieceDownloaders();
    }

    method ChokeDownloader(pe: Peer) returns (order: seq<nat>)
      requires PickerOk() && Inv(View()) && pe in pieceDownloaders
      modifies this`pieceDownloaders, picker0
      ensures PickerOk() && PD.Enumerates(order, old(pieceDownloaders[pe].pending))
      ensures View() == Choked(old(View()), pe, order)
    {
      assert DownloaderOk(View(), pe);
      var pd := pieceDownloaders[pe];
      order := PendingInAnyOrder(pd);
      pieceDownloaders := pieceDownloaders[pe := PD.Choke(pd, peers[pe].fastEnabled, order)];
      if picker != null { picker.HandleChoke(pe, pd.piece); }
    }

    method PendingInAnyOrder(pd: PD.Downloader) returns (order: seq<nat>)
      ensures PD.Enumerates(order, pd.pending)
    {
      var todo := pd.pending;
      order := [];
      while todo != {}
        invariant todo <= pd.pending && forall i :: i in order <==> i in pd.pending && i !in todo
        decreases todo
      {
        var i :| i in todo;
        todo := todo - {i};
        order := order + [i];
      }
    }

    method HandleReject(pe: Peer, index: nat, begin: nat, length: nat)
      requires PickerOk() && Inv(View()) && pe in peers
      modifies this, picker0
      ensures PickerOk() && MessageStep(old(View()), pe, RejectMessage(index, begin, length), View())
    {
      if index >= |lengths| {
        ClosePeer(pe);
        return;
      }
      if pe !in pieceDownloaders { return; }
      var pd := pieceDownloaders[pe];
      if pd.piece != index { return; }
      var block := FindBlock(lengths[index], begin, length);
      if block.None? {
        ClosePeer(pe);
        return;
      }
      pieceDownloaders := pieceDownloaders[pe := PD.Reject(pd, block.value.index)];
    }

    method HandlePieceMessage(pe: Peer, index: nat, begin: nat, data: bytes)
      requires Valid() && running && pe in peers
      requires !suspended  // ReceiveC blocks on a suspended channel
      modifies this, picker0
      ensures Valid() && Step(old(View()), PieceMessage(pe, index, begin, data), View())
    {
      ghost var s := View();
      ReceiveBlock(pe, index, begin, data);
      StepSafe(s, PieceMessage(pe, index, begin, data), View());
    }

    method ReceiveBlock(pe: Peer, index: nat, begin: nat, data: bytes)
      requires Valid() && pe in peers && !suspended
      modifies this, picker0
      ensures PickerOk() && PieceStep(old(View()), pe, index, begin, data, View())
    {
      ghost var s := View();
      if index >= |lengths| {
        ClosePeer(pe);
        return;
      }
      if pe !in pieceDownloaders { return; }
      var pd := pieceDownloaders[pe];
      if pd.piece != index { return; }
      var block := FindBlock(lengths[index], begin, |data|);
      if block.None? {
        ClosePeer(pe);
        return;
      }
      FindBlockExact(lengths[index], begin, |data|, block.value);
      assert SoundOne(pd, lengths);
      TakeBlock(pe, block.value, data);
    }

    method TakeBlock(pe: Peer, block: Block, data: bytes)
      requires PickerOk() && Inv(View()) && pe in peers && !suspended && pe in pieceDownloaders
      requires var pd := pieceDownloaders[pe];
               |pd.buffer| == pd.length && GetBlock(pd.length, block.index) == Some(block) && |data| == block.length
      modifies this, picker0
      ensures PickerOk() && Taken(old(View()), pe, block, data, View())
    {
      ghost var s := View();
      var pd := PD.Receive(pieceDownloaders[pe], block, data).0;
      if pd.Done() {
        pieceDownloaders := pieceDownloaders[pe := pd];
        ghost var u := View();
        assert u == SetDownloader(s, pe, pd);
        DownloaderInv(s, pe, pd);
        FinishPiece(pe);
      } else {
        pieceDownloaders := pieceDownloaders[pe :=
          if pd.allowedFast || !peers[pe].peerChoking then PD.Request(pd, MaxAllowed(pe)).0 else pd];
      }
    }

    method FinishPiece(pe: Peer)
      requires PickerOk() && Inv(View()) && pe in pieceDownloaders && !suspended
      modifies this, picker0
      ensures PickerOk() && Finished(old(View()), pe, View())
    {
      ghost var s := View();
      var pd := pieceDownloaders[pe];
      MarkPiece(pe);
      // Request the next piece while this one is written.
      ghost var n := View();
      assert Core(n) by { MarkedCore(s, pe, pd.piece); }
      StartPieceDownloaderFor(pe);
      ghost var u := View();
      StartWriter(Write(pd.piece, pe, pd.buffer));
      FinishedBy(s, pe, u, View());
    }

    /** One write at a time: no piece message is received until this one is through. */
    method StartWriter(w: Write)
      requires PickerOk()
      modifies this`suspended, this`writer
      ensures PickerOk() && View() == old(View()).(suspended := true, writer := Some(w))
    {
      suspended := true;
      writer := Some(w);
    }

    method MarkPiece(pe: Peer)
      requires PickerOk() && Inv(View()) && pe in pieceDownloaders && !suspended
      modifies this, picker0
      ensures PickerOk() && pe in peers
      ensures View() == MarkWriting(CloseDownloader(old(View()), pe), old(pieceDownloaders[pe].piece))
    {
      var i := pieceDownloaders[pe].piece;
      assert DownloaderOk(View(), pe);
      ClosePieceDownloader(pe);
      assert !flags[i].writing;  // "piece is already writing"
      flags := flags[i := flags[i].(writing := true)];
    }

    // ---- filechain/torrent_write.go

    /** `cancelled` lists the peers whose downloaders the loop closed, in loop order. */
    method HandlePieceWriteDone(hashOK: bool, failed: bool, stop: bool) returns (ghost cancelled: seq<Peer>)
      requires Valid() && running && writer.Some?
      modifies this, picker0
      ensures Valid() && Step(old(View()), WriteDone(hashOK, failed, stop), View())
      ensures hashOK && !failed ==>
                cancelled == RequestedPeers(old(View()), old(writer.value.piece)) && NoDuplicates(cancelled)
    {
      ghost var s := View();
      cancelled := [];
      var pw := writer.value;
      flags := flags[pw.piece := flags[pw.piece].(writing := false)];
      suspended := false;
      writer := None;
      UnmarkInv(s);
      ghost var u := View();
      assert u == Unmark(s);
      if !hashOK {
        ClosePeer(pw.source);
        ghost var m := View();
        ClosedPeerInv(u, pw.source, m);
        StartPieceDownloaders();
      } else if failed {
        Stop();
      } else {
        cancelled := PieceWritten(pw.piece, stop);
      }
      StepSafe(s, WriteDone(hashOK, failed, stop), View());
    }

    method PieceWritten(i: nat, stop: bool) returns (ghost cancelled: seq<Peer>)
      requires PickerOk() && Inv(View()) && Sound(View()) && running && writer.None?
      requires i < |lengths| && !bitfield[i]
      modifies this, picker0
      ensures PickerOk()
      ensures var v := MarkDone(old(View()), i);
              && cancelled == RequestedPeers(v, i) && NoDuplicates(cancelled)
              && exists m: State :: CancelEach(v, i, RequestedPeers(v, i), m) && View() == Finish(m, stop)
    {
      ghost var u := View();
      flags := flags[i := flags[i].(done := true)];
      assert !bitfield[i];  // "already have the piece"
      bitfield := bitfield[i := true];
      MarkDoneCore(u, i);
      ghost var v := View();
      assert v == MarkDone(u, i);
      cancelled := CancelRequested(i);
      ghost var m := View();
      FinishDownload(stop);
    }

    /** The loop ranges over the Requested slice while its body removes from that slice:
        cell k is read from the backing array the removals are rearranging. */
    method CancelRequested(i: nat) returns (ghost cancelled: seq<Peer>)
      requires PickerOk() && Core(View()) && DoneFree(View(), i) && Writing(View()) && Sound(View())
      requires i < |lengths| && flags[i].done
      modifies this, picker0
      ensures PickerOk() && cancelled == RequestedPeers(old(View()), i) && NoDuplicates(cancelled)
      ensures CancelEach(old(View()), i, RequestedPeers(old(View()), i), View())
      ensures Shape(View()) && Agree(View())
    {
      ghost var v := View();
      ghost var orig := RequestedPeers(v, i);
      cancelled := [];
      if picker == null { return; }
      RequestedAre(v, i);
      var n := |picker.pieces[i].requested.live|;
      RemovedPrefixStart(picker.pieces[i].requested);
      assert orig[..0] == [];
      for k := 0 to n
        invariant PickerOk() && picker != null && |orig| == n
        invariant Sound(View()) && cancelled == orig[..k]
        invariant CancelEach(v, i, orig[..k], View())
        invariant i < |picker0.pieces| && RemovedPrefix(orig, k, picker0.pieces[i].requested)
      {
        ghost var m := View();
        CancelPrefix(v, i, orig, k, m);
        RemovedPrefixStep(orig, k, picker.pieces[i].requested);
        var pe := picker.pieces[i].requested.Backing()[k];
        CancelNext(pe, i);
        CancelSnoc(v, i, orig, k, m, View());
        PrefixSnoc(orig, k);
        cancelled := cancelled + [pe];
      }
      assert orig[..n] == orig;
      CancelPrefix(v, i, orig, n, View());
    }

    method CancelNext(pe: Peer, i: nat)
      requires PickerOk() && Core(View()) && Sound(View()) && Downloads(View(), pe, i)
      requires picker != null && i < |flags| && flags[i].done
      modifies this, picker0
      ensures PickerOk() && picker != null && Sound(View())
      ensures AskedFor(CloseDownloader(old(View()), pe), pe, View())
      ensures i < |old(picker0.pieces)| && i < |picker0.pieces|
      ensures picker0.pieces[i].requested == old(picker0.pieces)[i].requested.Remove(pe)
    {
      ghost var m := View();
      CancelStep(m, pe, i);
      var pd2 := pieceDownloaders[pe];  // not nil
      ClosePieceDownloader(pe);
      ghost var c := View();
      CancelPending(pd2);
      StartPieceDownloaderFor(pe);
      AskedForKeepsRequested(c, pe, View(), i);
      AskedForSound(c, pe, View());
    }

    /** A cancel message per block in flight; "cannot get block" is unreachable. */
    method CancelPending(pd: PD.Downloader)
      requires pd.Valid()
    {
      var todo := pd.pending;
      while todo != {}
        invariant todo <= pd.pending
        decreases todo
      {
        var b :| b in todo;
        todo := todo - {b};
        assert GetBlock(pd.length, b).Some?;
      }
    }

    // ---- the remaining cases of the event loop

    method HandleRamNotify(pe: Peer)
      requires Valid() && pe in peers
      modifies this, picker0
      ensures Valid() && Step(old(View()), RamNotify(pe), View())
    {
      ghost var s := View();
      ram := ram + [RM.Granted(pe, pieceLength)];
      GrantCore(s, pe);
      assert View() == Grant(s, pe);
      StartSinglePieceDownloader(pe);
      StepSafe(s, RamNotify(pe), View());
    }

    method HandleDisconnected(pe: Peer)
      requires Valid() && running
      modifies this, picker0
      ensures Valid() && Step(old(View()), Disconnected(pe), View())
    {
      ghost var s := View();
      ClosePeer(pe);
      StepSafe(s, Disconnected(pe), View());
    }

    /** stop(nil), which does nothing to a torrent that is not running. */
    method HandleStopCommand()
      requires Valid()
      modifies this, picker0
      ensures Valid() && Step(old(View()), StopCommand, View())
    {
      ghost var s := View();
      if !running { return; }
      Stop();
      StepSafe(s, StopCommand, View());
    }

    method HandleNewIncomingStream(pe: Peer)
      requires Valid() && running && pe !in peers
      modifies this, picker0
      ensures Valid() && Step(old(View()), Incoming(pe), View())
    {
      ghost var s := View();
      connectedPeers := connectedPeers + {pe};
      peers := peers[pe := NewPeer(|lengths|)];
      OneMorePeer(s, pe);
      StepSafe(s, Incoming(pe), View());
    }
  }

  lemma RequestedAre(v: State, i: nat)
    requires Core(v) && v.picker.Some? && i < v.N()
    ensures i < |v.picker.value.pieces| && NoDuplicates(RequestedPeers(v, i))
    ensures forall pe :: Downloads(v, pe, i) <==> pe in RequestedPeers(v, i)
  {
    forall pe ensures Downloads(v, pe, i) <==> pe in RequestedPeers(v, i) {
      assert v.picker.value.pieces[i].requested.Has(pe) <==> Downloads(v, pe, i);
    }
    assert v.picker.value.pieces[i].Valid();
  }

  /** After k iterations exactly the peers from position k on still download piece i. */
  lemma CancelPrefix(v: State, i: nat, orig: seq<Peer>, k: nat, m: State)
    requires Core(v) && DoneFree(v, i) && Writing(v) && v.picker.Some? && i < v.N() && v.flags[i].done
    requires orig == RequestedPeers(v, i) && k <= |orig| && CancelEach(v, i, orig[..k], m)
    ensures Core(m) && DoneFree(m, i) && Writing(m) && NoDuplicates(orig)
    ensures m == v.(picker := m.picker, downloaders := m.downloaders, peers := m.peers, ram := m.ram)
    ensures k < |orig| ==> Downloads(m, orig[k], i)
  {
    RequestedAre(v, i);
    assert orig == orig[..k] + orig[k..];
    CancelEachInv(v, i, orig[..k], orig[k..], m);
    assert k < |orig| ==> orig[k..][0] == orig[k];
  }

  lemma CancelStep(m: State, pe: Peer, i: nat)
    requires Core(m) && Sound(m) && Downloads(m, pe, i)
    ensures pe in m.peers && SoundOne(m.downloaders[pe], m.lengths)
    ensures var c := CloseDownloader(m, pe);
            Core(c) && Sound(c) && pe in c.peers && c.picker.Some? && m.picker.Some?
    ensures i < |m.picker.value.pieces| && i < |CloseDownloader(m, pe).picker.value.pieces|
    ensures CloseDownloader(m, pe).picker.value.pieces[i].requested == m.picker.value.pieces[i].requested.Remove(pe)
  {
    assert DownloaderOk(m, pe);
    CloseDownloaderCore(m, pe);
    SubsetSound(m, CloseDownloader(m, pe));
  }

  lemma CancelSnoc(v: State, i: nat, orig: seq<Peer>, k: nat, m: State, t: State)
    requires k < |orig| && CancelEach(v, i, orig[..k], m)
    requires Downloads(m, orig[k], i) && AskedFor(CloseDownloader(m, orig[k]), orig[k], t)
    ensures CancelEach(v, i, orig[..k + 1], t)
  {
    assert orig[..k + 1][..k] == orig[..k];
  }

  lemma CompletedFlagAgree(s: State)
    requires Shape(s) && Agree(s)
    ensures Shape(s.(completed := true)) && Agree(s.(completed := true))
  {
    var t := s.(completed := true);
    forall q | q in t.downloaders ensures DownloaderOk(t, q) { assert DownloaderOk(s, q); }
    assert forall i, q :: 0 <= i < s.N() ==> (Downloads(t, q, i) <==> Downloads(s, q, i));
  }

  lemma CheckedAgree(s: State)
    requires Shape(s) && Agree(s)
    ensures var c := EventLoop.CheckCompletion(s); Shape(c) && Agree(c)
  {
  }

  lemma DrainedTwice(s: State, m: State, t: State)
    requires Drained(s, m) && Drained(m, t)
    ensures Drained(s, t)
  {
    var a, b := |s.downloaders| - |m.downloaders|, |m.downloaders| - |t.downloaders|;
    assert seq(a + b, _ => RM.Released(s.pieceLength))
        == seq(a, _ => RM.Released(s.pieceLength)) + seq(b, _ => RM.Released(s.pieceLength));
  }

  lemma PreparedBegins(s: State, t: State, stop: bool)
    requires Prepared(s) && |t.flags| == |t.bitfield| == s.N()
    requires t == s.(flags := t.flags, bitfield := t.bitfield)
    requires forall i :: 0 <= i < s.N() ==> t.flags[i] == PieceState(t.bitfield[i], false)
    ensures Prepared(t) && Shape(t) && Agree(t) && Inv(Finish(t, stop))
  {
    assert |t.downloaders| == 0;
    FinishInv(t, stop);
  }

  lemma SetStep(c: set<Peer>, which: set<Peer>, todo: set<Peer>, pe: Peer)
    requires pe in todo && todo <= which
    ensures c - (which - (todo - {pe})) == (c - (which - todo)) - {pe}
  {
  }

  lemma Interested(s: State)
    requires Shape(s)
    ensures s.connected - (set pe | pe in s.connected && pe in s.peers && !s.peers[pe].peerInterested)
            == EventLoop.Completed(s).connected
  {
  }

  lemma EnumeratesSnoc(order: seq<Peer>, all: set<Peer>, todo: set<Peer>, pe: Peer)
    requires Enumerates(order, all - todo) && pe in todo && todo <= all
    ensures Enumerates(order + [pe], all - (todo - {pe}))
  {
    forall q ensures q in order + [pe] <==> q in all - (todo - {pe}) {}
  }

  lemma ConnectedPeers(s: State)
    requires Safe(s)
    ensures s.connected <= s.peers.Keys
  {
  }

  lemma StillRunning(s: State, pe: Peer, m: Message, t: State)
    requires Step(s, PeerMessage(pe, m), t)
    ensures t.running == s.running && s.peers.Keys <= t.peers.Keys
  {
    MessageFrame(s, pe, m, t);
  }

  lemma QueuedSnoc(pe: Peer, messages: seq<Message>, k: nat, before: seq<Event>)
    requires k < |messages|
    ensures before + Queued(pe, messages[..k]) + [PeerMessage(pe, messages[k])]
              == before + Queued(pe, messages[..k + 1])
  {
    assert messages[..k + 1][..k] == messages[..k];
  }

  lemma ReplaySnoc(order: seq<Peer>, queues: Queues, pe: Peer)
    ensures Replay(order + [pe], queues) == Replay(order, queues) + Queued(pe, Queue(queues, pe))
  {
    assert (order + [pe])[..|order|] == order;
  }

  lemma OneMorePeer(s: State, pe: Peer)
    ensures WithPeers(s, {pe}) == s.(peers := s.peers[pe := NewPeer(s.N())], connected := s.connected + {pe})
  {
    assert s.peers[pe := NewPeer(s.N())] == WithPeers(s, {pe}).peers;
  }

  lemma FinishedBy(s: State, pe: Peer, u: State, t: State)
    requires pe in s.downloaders
    requires AskedFor(MarkWriting(CloseDownloader(s, pe), s.downloaders[pe].piece), pe, u)
    requires t == u.(suspended := true, writer := Some(Write(s.downloaders[pe].piece, pe, s.downloaders[pe].buffer)))
    ensures Finished(s, pe, t)
  {
  }

  lemma PrefixSnoc(orig: seq<Peer>, k: nat)
    requires k < |orig|
    ensures orig[..k] + [orig[k]] == orig[..k + 1]
  {
  }

  lemma ConnectedKnown(s: State, pe: Peer)
    requires Inv(s) && pe in s.connected
    ensures pe in s.peers
  {
  }

  predicate FastOk(s: State, pe: Peer) {
    pe in s.peers && forall k :: 0 <= k < |s.peers[pe].allowedFast| ==> s.peers[pe].allowedFast[k] < |s.flags|
  }

  lemma StartEachSnoc(s: State, order: seq<Peer>, m: State, pe: Peer, t: State)
    requires StartEach(s, order, m) && StartOne(m, pe, t) && Inv(m)
    ensures StartEach(s, order + [pe], t) && Inv(t) && t.connected == m.connected
  {
    if t != m {
      AskedForInv(m, pe, t);
      AskedForFrame(m, pe, t);
    }
    assert (order + [pe])[..|order|] == order;
  }
}
