/** external/peerset/peerset.go: a set of peers kept as a Go slice.

    Removal swaps the last element into the hole and shortens the slice in place,
    so a slice header taken earlier keeps reading the same backing array. `Slice`
    is the value of such a header together with the whole backing array, stale
    tail included; the class PeerSet is the mutable object. */
module PeerSets {

  /** The identity of a *peer.Peer. */
  type Peer = nat

  /** A slice header and its backing array, whose content is live + stale. */
  datatype Slice = Slice(live: seq<Peer>, stale: seq<Peer>) {
    function Backing(): seq<Peer> {
      live + stale
    }

    ghost predicate Valid() {
      NoDuplicates(live)
    }

    predicate Has(pe: Peer) {
      pe in live
    }

    /** `append` overwrites the stale tail while there is capacity. */
    function Add(pe: Peer): Slice {
      if pe in live then this
      else Slice(live + [pe], if stale == [] then [] else stale[1..])
    }

    /** The last element fills the hole and stays behind in the stale tail. */
    function Remove(pe: Peer): Slice {
      if pe !in live then this
      else
        var last := live[|live| - 1];
        Slice(live[IndexOf(live, pe) := last][..|live| - 1], [last] + stale)
    }
  }

  const EMPTY: Slice := Slice([], [])

  ghost predicate NoDuplicates(s: seq<Peer>) {
    forall i, j :: 0 <= i < j < |s| ==> s[i] != s[j]
  }

  /** Position of the first occurrence, |s| when there is none. */
  function IndexOf(s: seq<Peer>, pe: Peer): (k: nat)
    ensures k <= |s| && (k < |s| <==> pe in s) && (k < |s| ==> s[k] == pe)
  {
    if s == [] then 0 else if s[0] == pe then 0 else 1 + IndexOf(s[1..], pe)
  }

  lemma {:induction false} FirstIndex(s: seq<Peer>, pe: Peer, i: nat)
    requires i < |s| && s[i] == pe && pe !in s[..i]
    ensures IndexOf(s, pe) == i
  {
    if i > 0 {
      assert s[..i][0] == s[0] && s[1..][..i - 1] == s[..i][1..];
      FirstIndex(s[1..], pe, i - 1);
    }
  }

  lemma AddCorrect(s: Slice, pe: Peer)
    requires s.Valid()
    ensures s.Add(pe).Valid()
    ensures |s.Add(pe).live| == |s.live| + if s.Has(pe) then 0 else 1
    ensures forall q :: s.Add(pe).Has(q) <==> s.Has(q) || q == pe
  {
  }

  /** Swap-deletion removes exactly the one peer and never duplicates another. */
  lemma RemoveCorrect(s: Slice, pe: Peer)
    requires s.Valid()
    ensures s.Remove(pe).Valid()
    ensures |s.Remove(pe).live| == |s.live| - if s.Has(pe) then 1 else 0
    ensures forall q :: s.Remove(pe).Has(q) <==> s.Has(q) && q != pe
  {
    if pe in s.live {
      var i, n := IndexOf(s.live, pe), |s.live| - 1;
      var t := s.Remove(pe).live;
      forall q ensures q in t <==> q in s.live && q != pe {
        if q in s.live && q != pe {
          var j := IndexOf(s.live, q);
          assert t[if j == n then i else j] == q;
        }
        if q in t {
          var j := IndexOf(t, q);
          assert s.live[if j == i then n else j] == q;
        }
      }
    }
  }

  /** What a loop over the first n cells of the backing array finds after its body
      removed the first k elements, one by one, from the very slice it ranges over: the
      live part is orig[k..] with its front filled from the back, and cell j >= k of the
      array still holds orig[j]. */
  ghost predicate RemovedPrefix(orig: seq<Peer>, k: nat, s: Slice) {
    && k <= |orig| && |orig| <= |s.Backing()|
    && |s.live| == |orig| - k
    && (forall j :: 0 <= j < k && j < |orig| - k ==> s.Backing()[j] == orig[|orig| - 1 - j])
    && (forall j :: k <= j < |orig| ==> s.Backing()[j] == orig[j])
  }

  lemma RemovedPrefixStart(s: Slice)
    ensures RemovedPrefix(s.live, 0, s)
  {
  }

  /** One iteration of the aliased loop: cell k of the shared array still holds the
      original k-th peer, that peer is still in the live slice, and removing it
      re-establishes the picture for k + 1. */
  lemma RemovedPrefixStep(orig: seq<Peer>, k: nat, s: Slice)
    requires NoDuplicates(orig)
    requires RemovedPrefix(orig, k, s) && k < |orig|
    ensures s.Backing()[k] == orig[k]
    ensures s.Has(orig[k])
    ensures RemovedPrefix(orig, k + 1, s.Remove(orig[k]))
  {
    var n, pe := |orig|, orig[k];
    var at := if k < n - k then k else n - 1 - k;
    assert s.live[at] == s.Backing()[at] == pe;
    var i := IndexOf(s.live, pe);
    assert i == at by {
      assert s.Backing()[i] == pe;
      if i < k { assert s.Backing()[i] == orig[n - 1 - i]; } else { assert s.Backing()[i] == orig[i]; }
    }
    assert s.Remove(pe).Backing() == s.Backing()[at := s.Backing()[n - k - 1]];
  }

  class PeerSet {
    var peers: array<Peer>
    var len: nat

    ghost predicate Valid()
      reads this, peers
    {
      len <= peers.Length && View().Valid()
    }

    ghost function View(): Slice
      requires len <= peers.Length
      reads this, peers
    {
      Slice(peers[..len], peers[len..])
    }

    constructor ()
      ensures fresh(peers) && Valid() && View() == EMPTY
    {
      peers := new Peer[0];
      len := 0;
    }

    method Has(pe: Peer) returns (found: bool)
      requires Valid()
      ensures found == View().Has(pe)
    {
      for i := 0 to len
        invariant pe !in peers[..i]
      {
        if peers[i] == pe { return true; }
      }
      return false;
    }

    /** `append` reallocates when the slice fills its backing array. */
    method Add(pe: Peer) returns (added: bool)
      requires Valid()
      modifies this, peers
      ensures Valid() && (peers == old(peers) || fresh(peers))
      ensures added == !old(View().Has(pe))
      ensures View().live == if added then old(View().live) + [pe] else old(View().live)
      ensures View().live == old(View()).Add(pe).live
    {
      ghost var s := View();
      AddCorrect(s, pe);
      var found := Has(pe);
      if found { return false; }
      if len == peers.Length {
        var grown := new Peer[2 * len + 1](i requires 0 <= i reads this, peers =>
          if i < peers.Length then peers[i] else 0);
        peers := grown;
        assert peers[..len] == s.live;
      }
      peers[len] := pe;
      len := len + 1;
      added := true;
      assert View().live == s.live + [pe];
      assert s.Add(pe).live == s.live + [pe];
    }

    method Remove(pe: Peer) returns (removed: bool)
      requires Valid()
      modifies this`len, peers
      ensures Valid() && peers == old(peers)
      ensures removed == old(View().Has(pe))
      ensures View() == old(View()).Remove(pe)
    {
      ghost var s := View();
      RemoveCorrect(s, pe);
      var i := 0;
      while i < len && peers[i] != pe
        invariant i <= len && pe !in peers[..i]
      {
        i := i + 1;
      }
      if i == len {
        assert peers[..len] == s.live;
        return false;
      }
      assert s.live[i] == pe && s.live[..i] == peers[..i];
      FirstIndex(s.live, pe, i);
      peers[i] := peers[len - 1];
      len := len - 1;
      removed := true;
      assert peers[..len] == s.Remove(pe).live;
      assert peers[len..] == s.Remove(pe).stale;
    }
  }
}
