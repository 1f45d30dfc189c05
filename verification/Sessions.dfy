/** Many torrents at one resource manager (filechain/torrent_*.go against
    internal/resourcemanager/resourcemanager.go). What passes between a torrent and the
    manager is the torrent's ledger; the manager may be looked at in the middle of
    handlers, when a part of a ledger has not happened yet. */
module Sessions {
  import opened Common
  import opened PeerSets
  import opened Engine
  import opened EventLoop
  import RM = ResourceManagers

  lemma {:induction false} HeldIsLive(ram: seq<RM.RamEvent>, n: nat)
    requires forall k :: 0 <= k < |ram| ==> ram[k].n == n
    ensures RM.Held(ram) == n * RM.Live(ram)
  {
    if ram != [] {
      var front, e := ram[..|ram| - 1], ram[|ram| - 1];
      HeldIsLive(front, n);
      assert ram == front + [e];
      RM.HeldSnoc(front, e);
      LiveOne(e);
      Distribute(n, RM.Live(front), RM.Live([e]));
    }
  }

  /** Between handlers a torrent holds pieceLength bytes for each live downloader, and it
      never released more than it held. */
  lemma BalancedHeld(s: State)
    requires Balanced(s)
    ensures RM.Held(s.ram) == s.pieceLength * |s.downloaders|
    ensures RM.NeverOverReleases(s.ram)
  {
    HeldIsLive(s.ram, s.pieceLength);
    forall k | 0 <= k <= |s.ram| ensures RM.Held(s.ram[..k]) >= 0 {
      HeldIsLive(s.ram[..k], s.pieceLength);
    }
  }

  ghost function PieceLengths(ts: seq<State>): seq<nat> {
    seq(|ts|, i requires 0 <= i < |ts| => ts[i].pieceLength)
  }

  ghost function LiveDownloaders(ts: seq<State>): seq<nat> {
    seq(|ts|, i requires 0 <= i < |ts| => |ts[i].downloaders|)
  }

  lemma BalancedConservation(limit: nat, acts: seq<RM.Act>, run: RM.Run, keys: seq<RM.Key>, ts: seq<State>)
    requires RM.Reaches(limit, acts, run) && RM.Covers(keys, run.log) && |ts| == |keys|
    requires forall i :: 0 <= i < |ts| ==> Balanced(ts[i]) && RM.Project(run.log, keys[i]) == ts[i].ram
    ensures RM.Conserved(limit, run, keys)
    ensures limit - run.m.available == RM.Dot(PieceLengths(ts), LiveDownloaders(ts))
  {
    forall i | 0 <= i < |ts|
      ensures var a: int, b: int := PieceLengths(ts)[i], LiveDownloaders(ts)[i];
              RM.Held(RM.Project(run.log, keys[i])) == a * b
      ensures RM.NeverOverReleases(RM.Project(run.log, keys[i]))
    {
      assert Balanced(ts[i]);
      BalancedHeld(ts[i]);
    }
    AllBehave(run.log, keys);
    RM.LentOut(limit, acts, run, keys, PieceLengths(ts), LiveDownloaders(ts));
  }

  /** Any number of torrents, any interleaving of their requests, releases and deferred
      grants at one resource manager: when each torrent keys[i] is between two handlers
      in state ts[i], what the manager has lent out is the sum of PieceLength times the
      live downloaders. */
  lemma RamConservation(limit: nat, acts: seq<RM.Act>, run: RM.Run, keys: seq<RM.Key>, ts: seq<State>)
    requires RM.Reaches(limit, acts, run) && RM.Covers(keys, run.log) && |ts| == |keys|
    requires forall i :: 0 <= i < |ts| ==> Safe(ts[i]) && RM.Project(run.log, keys[i]) == ts[i].ram
    ensures !run.panicked && run.m.Valid()
    ensures limit - run.m.available == RM.Dot(PieceLengths(ts), LiveDownloaders(ts))
  {
    forall i | 0 <= i < |ts| ensures Balanced(ts[i]) { JustBalanced(ts[i]); }
    BalancedConservation(limit, acts, run, keys, ts);
  }

  lemma PrefixBehaves(front: seq<RM.RamEvent>, ram: seq<RM.RamEvent>)
    requires front <= ram && RM.NeverOverReleases(ram)
    ensures RM.NeverOverReleases(front)
  {
    forall k | 0 <= k <= |front| ensures RM.Held(front[..k]) >= 0 {
      assert front[..k] == ram[..k];
    }
  }

  /** At any moment, in the middle of handlers too: as long as what the manager has seen
      of each torrent is a beginning of the ledger of one of its safe states, none of the
      manager's panics has been reached, no pending list is empty, and what it has lent
      out is what the torrents hold by what has happened so far. */
  lemma NeverPanics(limit: nat, acts: seq<RM.Act>, run: RM.Run, keys: seq<RM.Key>, ts: seq<State>)
    requires RM.Reaches(limit, acts, run) && RM.Covers(keys, run.log) && |ts| == |keys|
    requires forall i :: 0 <= i < |ts| ==> Safe(ts[i]) && RM.Project(run.log, keys[i]) <= ts[i].ram
    ensures RM.Conserved(limit, run, keys)
  {
    forall i | 0 <= i < |keys| ensures RM.NeverOverReleases(RM.Project(run.log, keys[i])) {
      JustBalanced(ts[i]);
      BalancedHeld(ts[i]);
      PrefixBehaves(RM.Project(run.log, keys[i]), ts[i].ram);
    }
    AllBehave(run.log, keys);
    RM.Conservation(limit, acts, run, keys);
  }

  /** One epoch of one torrent up to now, the handler it is in included. */
  datatype History = History(start: State, stop: bool, states: seq<State>, events: seq<Event>)

  ghost predicate Runs(e: History) {
    Epoch(e.start, e.stop, e.states, e.events)
  }

  /** The session as a whole: torrents that run their event loops never make the manager
      panic. */
  lemma SessionNeverPanics(limit: nat, acts: seq<RM.Act>, run: RM.Run, keys: seq<RM.Key>, histories: seq<History>)
    requires RM.Reaches(limit, acts, run) && RM.Covers(keys, run.log) && |histories| == |keys|
    requires forall i :: 0 <= i < |histories| ==>
               Runs(histories[i]) && RM.Project(run.log, keys[i]) <= histories[i].states[|histories[i].events|].ram
    ensures RM.Conserved(limit, run, keys)
  {
    hide Safe, Prepared, Finish;
    var ts := seq(|histories|, i requires 0 <= i < |histories| => Now(histories[i]));
    forall i | 0 <= i < |ts| ensures Safe(ts[i]) && RM.Project(run.log, keys[i]) <= ts[i].ram {
      var e := histories[i];
      assert |e.states| == |e.events| + 1 by { StatesCount(e); }
      EpochSafe(e.start, e.stop, e.states, e.events, |e.events|);
      assert ts[i] == Now(e);
    }
    NeverPanics(limit, acts, run, keys, ts);
  }

  ghost function Now(e: History): State {
    if |e.events| < |e.states| then e.states[|e.events|] else e.start
  }

  lemma StatesCount(e: History)
    requires Runs(e)
    ensures |e.states| == |e.events| + 1
  {
  }

  lemma JustBalanced(s: State)
    requires Safe(s)
    ensures Balanced(s)
  {
  }

  lemma AllBehave(log: seq<RM.Entry>, keys: seq<RM.Key>)
    requires RM.Covers(keys, log)
    requires forall i :: 0 <= i < |keys| ==> RM.NeverOverReleases(RM.Project(log, keys[i]))
    ensures RM.ClientsBehave(log)
  {
    forall key ensures RM.NeverOverReleases(RM.Project(log, key)) {
      if key in keys {
        var i :| 0 <= i < |keys| && keys[i] == key;
      } else {
        Absent(log, key);
      }
    }
  }

  lemma {:induction false} Absent(log: seq<RM.Entry>, key: RM.Key)
    requires forall k :: 0 <= k < |log| ==> log[k].key != key
    ensures RM.Project(log, key) == []
  {
    if log != [] { Absent(log[..|log| - 1], key); }
  }

  // ---- ledgers only grow, so a beginning of one stays a beginning

  lemma StartedGrows(s: State, pe: Peer, t: State)
    requires Started(s, pe, t)
    ensures s.ram <= t.ram
  {
  }

  lemma AskedForGrows(s: State, pe: Peer, t: State)
    requires AskedFor(s, pe, t)
    ensures s.ram <= t.ram
  {
    if s.Status() == Downloading && t != Acquire(s, pe, false) {
      StartedGrows(Acquire(s, pe, true), pe, t);
    }
  }

  lemma ClosedPeerGrows(s: State, pe: Peer, t: State)
    requires ClosedPeer(s, pe, t)
    ensures s.ram <= t.ram
  {
  }

  lemma {:induction false} StartEachGrows(s: State, order: seq<Peer>, t: State)
    requires StartEach(s, order, t)
    ensures s.ram <= t.ram
  {
    if order != [] {
      var front, last := order[..|order| - 1], order[|order| - 1];
      var m :| StartEach(s, front, m) && StartOne(m, last, t);
      StartEachGrows(s, front, m);
      if t != m { AskedForGrows(m, last, t); }
    }
  }

  lemma StartAllGrows(s: State, t: State)
    requires StartAll(s, t)
    ensures s.ram <= t.ram
  {
    if s.Status() == Downloading {
      var order: seq<Peer> :| Enumerates(order, s.connected) && StartEach(s, order, t);
      StartEachGrows(s, order, t);
    }
  }

  lemma {:induction false} HaveEachLedger(s: State, pe: Peer, bits: seq<bool>)
    ensures HaveEach(s, pe, bits).ram == s.ram
  {
    if bits != [] { HaveEachLedger(s, pe, bits[..|bits| - 1]); }
  }

  lemma {:induction false} CancelEachGrows(s: State, i: nat, order: seq<Peer>, t: State)
    requires CancelEach(s, i, order, t)
    ensures s.ram <= t.ram
  {
    if order != [] {
      var front, last := order[..|order| - 1], order[|order| - 1];
      var m :| CancelEach(s, i, front, m) && Downloads(m, last, i) && AskedFor(CloseDownloader(m, last), last, t);
      CancelEachGrows(s, i, front, m);
      AskedForGrows(CloseDownloader(m, last), last, t);
    }
  }

  lemma MessageGrows(s: State, pe: Peer, m: Message, t: State)
    requires MessageStep(s, pe, m, t)
    ensures s.ram <= t.ram
  {
    hide AskedFor, ClosedPeer, StartAll, HaveOne, HaveEach, PD.Request;
    forall u: State, q | AskedFor(u, q, t) ensures u.ram <= t.ram { AskedForGrows(u, q, t); }
    if ClosedPeer(s, pe, t) { ClosedPeerGrows(s, pe, t); }
    match m
    case HaveMessage(i) => OneLedger(s, pe, i);
    case BitfieldMessage(_, bits) => HaveEachLedger(s, pe, bits);
    case HaveAllMessage => HaveEachLedger(s, pe, seq(s.N(), _ => true));
    case ChokeMessage =>
      forall u: State | StartAll(u, t) ensures u.ram <= t.ram { StartAllGrows(u, t); }
    case _ =>
  }

  lemma OneLedger(s: State, pe: Peer, i: nat)
    ensures HaveOne(s, pe, i).ram == s.ram
  {
  }

  lemma PieceGrows(s: State, pe: Peer, index: nat, begin: nat, data: bytes, t: State)
    requires PieceStep(s, pe, index, begin, data, t)
    ensures s.ram <= t.ram
  {
    hide AskedFor, ClosedPeer, PD.Request, PD.Receive;
    if ClosedPeer(s, pe, t) { ClosedPeerGrows(s, pe, t); }
    forall u: State, v: State, q | AskedFor(u, q, v) ensures u.ram <= v.ram { AskedForGrows(u, q, v); }
  }

  lemma WriteDoneGrows(s: State, hashOK: bool, failed: bool, stop: bool, t: State)
    requires WriteDoneStep(s, hashOK, failed, stop, t)
    ensures s.ram <= t.ram
  {
    hide AskedFor, ClosedPeer, StartAll, CancelEach;
    var (w, u) := (s.writer.value, Unmark(s));
    if !hashOK {
      var m: State :| ClosedPeer(u, w.source, m) && StartAll(m, t);
      ClosedPeerGrows(u, w.source, m);
      StartAllGrows(m, t);
    } else if !failed {
      var v := MarkDone(u, w.piece);
      var m: State :| CancelEach(v, w.piece, RequestedPeers(v, w.piece), m) && t == Finish(m, stop);
      CancelEachGrows(v, w.piece, RequestedPeers(v, w.piece), m);
    }
  }

  lemma StepGrows(s: State, e: Event, t: State)
    requires Step(s, e, t)
    ensures s.ram <= t.ram
  {
    match e
    case PeerMessage(pe, m) => MessageGrows(s, pe, m, t);
    case PieceMessage(pe, index, begin, data) => PieceGrows(s, pe, index, begin, data, t);
    case WriteDone(hashOK, failed, stop) => WriteDoneGrows(s, hashOK, failed, stop, t);
    case RamNotify(pe) => StartedGrows(Grant(s, pe), pe, t);
    case Disconnected(pe) => ClosedPeerGrows(s, pe, t);
    case Incoming(_) =>
    case StopCommand =>
    case Opened => OpenedGrows(s, t);
  }

  lemma OpenedGrows(s: State, t: State)
    requires OpenedAs(s, t)
    ensures s.ram <= t.ram
  {
    hide StartAll;
    var dialled: set<Peer> :|
      dialled !! s.peers.Keys && (s.completed ==> dialled == {}) && StartAll(WithPeers(s, dialled), t);
    StartAllGrows(WithPeers(s, dialled), t);
  }

  /** The ledger of a state begins every later ledger of the run: NeverPanics speaks about
      every moment between two states. */
  lemma {:induction false} LedgerGrows(states: seq<State>, events: seq<Event>, j: nat, k: nat)
    requires Execution(states, events) && j <= k <= |events|
    ensures states[j].ram <= states[k].ram
    decreases k
  {
    if j < k {
      LedgerGrows(states, events, j, k - 1);
      assert Step(states[k - 1], events[k - 1], states[k]);
      StepGrows(states[k - 1], events[k - 1], states[k]);
    }
  }
}
