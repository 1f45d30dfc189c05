/** When a torrent completes and when it stops, told from the events of the run. */
module Endings {
  import opened Common
  import opened Blocks
  import opened PeerSets
  import opened Engine
  import opened EventLoop
  import opened Connections

  /** The event reports a piece as hashed and written. */
  predicate Written(e: Event) {
    e.WriteDone? && e.hashOK && !e.failed
  }

  ghost predicate SamePhase(s: State, t: State) {
    t.running == s.running && t.completed == s.completed
  }

  lemma OtherPhase(s: State, e: Event, t: State)
    requires Inv(s) && s.running && Step(s, e, t) && !e.WriteDone? && !e.StopCommand?
    ensures SamePhase(s, t)
  {
    hide MessageStep, PieceStep, Started, ClosedPeer, StartAll, Inv;
    match e
    case PeerMessage(pe, m) => MessageFrame(s, pe, m, t);
    case PieceMessage(pe, index, begin, data) => PiecePhase(s, pe, index, begin, data, t);
    case RamNotify(pe) => StartedSame(Grant(s, pe), pe, t);
    case Disconnected(pe) => ClosedPeerFrame(s, pe, t);
    case Incoming(pe) =>
    case Opened => OpenedPhase(s, t);
  }

  lemma OpenedPhase(s: State, t: State)
    requires OpenedAs(s, t)
    ensures SamePhase(s, t)
  {
    hide StartAll;
    var dialled: set<Peer> :|
      dialled !! s.peers.Keys && (s.completed ==> dialled == {}) && StartAll(WithPeers(s, dialled), t);
    StartAllSame(WithPeers(s, dialled), t);
  }

  lemma PiecePhase(s: State, pe: Peer, index: nat, begin: nat, data: bytes, t: State)
    requires PieceStep(s, pe, index, begin, data, t)
    ensures SamePhase(s, t)
  {
    hide ClosedPeer, Taken;
    if ClosedPeer(s, pe, t) {
      ClosedPeerFrame(s, pe, t);
    } else if t != s {
      TakenStays(s, pe, FindBlock(s.lengths[index], begin, |data|).value, data, t);
    }
  }

  lemma FinishPhase(s: State, stop: bool)
    ensures var t := Finish(s, stop);
            && (t.completed <==> s.completed || AllSet(s.bitfield))
            && (t.running <==> s.running && !(t.completed && stop)) && t.bitfield == s.bitfield
  {
    hide AllSet;
  }

  lemma WriteDonePhase(s: State, hashOK: bool, failed: bool, stop: bool, t: State)
    requires Inv(s) && s.running && WriteDoneStep(s, hashOK, failed, stop, t)
    ensures t.completed <==> s.completed || (hashOK && !failed && AllSet(t.bitfield))
    ensures t.running <==> !(hashOK && (failed || (t.completed && stop)))
  {
    hide ClosedPeer, StartAll, CancelEach, Finish, Inv, StoppedAs, AllSet;
    var w, u := s.writer.value, Unmark(s);
    if !hashOK {
      var m: State :| ClosedPeer(u, w.source, m) && StartAll(m, t);
      ClosedPeerFrame(u, w.source, m);
      StartAllSame(m, t);
    } else if failed {
      StoppedPhase(u, t);
    } else {
      var v := MarkDone(u, w.piece);
      var m: State :| CancelEach(v, w.piece, RequestedPeers(v, w.piece), m) && t == Finish(m, stop);
      CancelEachSame(v, w.piece, RequestedPeers(v, w.piece), m);
      FinishPhase(m, stop);
    }
  }

  lemma StoppedPhase(s: State, t: State)
    requires StoppedAs(s, t)
    ensures !t.running && t.completed == s.completed
  {
  }

  /** A running torrent completes exactly when a written piece was the last one missing. It
      stops on command, when a write fails, and behind its completion when that is asked
      for; a corrupt piece, a message or a lost peer never stops it. */
  lemma PhaseExactly(s: State, e: Event, t: State)
    requires Inv(s) && s.running && Step(s, e, t)
    ensures t.completed <==> s.completed || (Written(e) && AllSet(t.bitfield))
    ensures !t.running <==>
              || e.StopCommand?
              || (e.WriteDone? && e.hashOK && (e.failed || (e.stop && t.completed)))
  {
    hide WriteDoneStep, StoppedAs, AllSet, Inv;
    match e
    case WriteDone(hashOK, failed, stop) => WriteDonePhase(s, hashOK, failed, stop, t);
    case StopCommand => StoppedPhase(s, t);
    case _ =>
      hide Step;
      OtherPhase(s, e, t);
  }

  // ---- whole runs

  lemma {:induction false} BitsTold(states: seq<State>, events: seq<Event>, k: nat, i: nat)
    requires |states| == |events| + 1 && k <= |events|
    requires forall q :: 0 <= q < |events| ==> BitsStep(states[q], events[q], states[q + 1])
    ensures |states[k].bitfield| == |states[0].bitfield|
    ensures i < |states[0].bitfield| ==>
              (states[k].bitfield[i] <==>
                 states[0].bitfield[i] || exists j: nat :: j < k && Completes(states, events, j, i))
  {
    if k > 0 {
      BitsTold(states, events, k - 1, i);
      var j := k - 1;
      assert BitsStep(states[j], events[j], states[j + 1]);
      assert Completes(states, events, j, i) <==>
             Written(events[j]) && states[j].writer.Some? && states[j].writer.value.piece == i;
    }
  }

  /** A piece counts as done exactly when the epoch began with it or it was hashed and
      written since. */
  lemma BitsOfRun(start: State, stop: bool, states: seq<State>, events: seq<Event>, k: nat, i: nat)
    requires Epoch(start, stop, states, events) && k <= |events| && |states| == |events| + 1
    requires i < |start.bitfield|
    ensures |states[k].bitfield| == |start.bitfield|
    ensures states[k].bitfield[i] <==> start.bitfield[i] || exists j: nat :: j < k && Completes(states, events, j, i)
  {
    FinishPhase(start, stop);
    forall q: nat | q < |events| ensures BitsStep(states[q], events[q], states[q + 1]) {
      StepOfRun(start, stop, states, events, q);
    }
    hide Finish, Step, BitsStep, Prepared, Completes;
    BitsTold(states, events, k, i);
  }
}
