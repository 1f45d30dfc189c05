/** internal/addrlist: addresses waiting to be dialled, indexed by time and by priority.
    Both indexes point to the same records, which know their place in the time list. */
module AddrLists {
  import opened Common

  datatype Source = Tracker | DHT | PEX | Manual | Incoming

  datatype Addr = Addr(ip: nat, port: nat)

  type Id = nat

  datatype PeerAddr = PeerAddr(addr: Addr, timestamp: int, source: Source, priority: nat, index: int)

  /** What Push asks of the rest of the client. priority: peerpriority.Calculate. */
  datatype Rules = Rules(listenPort: nat, clientIP: nat, loopback: nat -> bool, external: nat -> bool,
                         blocked: nat -> bool, priority: Addr -> nat) {
    predicate Skips(a: Addr) {
      || a.port == 0
      || (loopback(a.ip) && a.port == listenPort)
      || clientIP == a.ip
      || external(a.ip)
      || blocked(a.ip)
    }
  }

  // ---- the two indexes

  /** The same records in both indexes, one per priority, each at the place it records. */
  ghost predicate Sync(peers: map<Id, PeerAddr>, list: seq<Option<Id>>, tree: map<nat, Id>) {
    && (forall i {:trigger list[i]} :: 0 <= i < |list| && list[i].Some? ==>
          && list[i].value in peers && peers[list[i].value].index == i
          && peers[list[i].value].priority in tree && tree[peers[list[i].value].priority] == list[i].value)
    && (forall p {:trigger tree[p]} :: p in tree ==>
          && tree[p] in peers && peers[tree[p]].priority == p
          && 0 <= peers[tree[p]].index < |list| && list[peers[tree[p]].index] == Some(tree[p]))
  }

  ghost predicate NoNils(list: seq<Option<Id>>) {
    forall i {:trigger list[i]} :: 0 <= i < |list| ==> list[i].Some?
  }

  function Time(peers: map<Id, PeerAddr>, x: Option<Id>): int {
    if x.Some? && x.value in peers then peers[x.value].timestamp else 0
  }

  /** The records in the list, nils apart, come in order of time. */
  ghost predicate ByTime(peers: map<Id, PeerAddr>, list: seq<Option<Id>>) {
    forall i, j {:trigger list[i], list[j]} :: 0 <= i < j < |list| && list[i].Some? && list[j].Some? ==>
      Time(peers, list[i]) <= Time(peers, list[j])
  }

  /** A record without its place: what the list holds for a priority. */
  datatype Entry = Entry(addr: Addr, timestamp: int, source: Source)

  function EntryOf(peers: map<Id, PeerAddr>, id: Id): Entry {
    if id in peers then Entry(peers[id].addr, peers[id].timestamp, peers[id].source)
    else Entry(Addr(0, 0), 0, Tracker)
  }

  ghost function Contents(peers: map<Id, PeerAddr>, tree: map<nat, Id>): map<nat, Entry> {
    map p | p in tree :: EntryOf(peers, tree[p])
  }

  /** Only places differ. */
  ghost predicate SameRecords(a: map<Id, PeerAddr>, b: map<Id, PeerAddr>) {
    a.Keys == b.Keys && forall id :: id in a ==> b[id] == a[id].(index := b[id].index)
  }

  lemma SameContents(a: map<Id, PeerAddr>, b: map<Id, PeerAddr>, tree: map<nat, Id>)
    requires SameRecords(a, b)
    ensures Contents(a, tree) == Contents(b, tree)
  {
    forall p | p in tree ensures EntryOf(a, tree[p]) == EntryOf(b, tree[p]) {}
  }

  /** A synchronised list without nils has as many places as the tree has records. */
  lemma SyncLength(peers: map<Id, PeerAddr>, list: seq<Option<Id>>, tree: map<nat, Id>)
    requires Sync(peers, list, tree) && NoNils(list)
    ensures |list| == |tree|
  {
    Injective(peers, list, tree, tree.Keys);
    var places := Places(peers, tree, tree.Keys);
    forall i: nat | i in UpTo(|list|) ensures i in places {
      assert list[i].Some?;
      assert peers[list[i].value].priority in tree;
    }
    assert places == UpTo(|list|);
  }

  ghost function Places(peers: map<Id, PeerAddr>, tree: map<nat, Id>, ps: set<nat>): set<nat> {
    set p | p in ps && p in tree && tree[p] in peers && peers[tree[p]].index >= 0 :: peers[tree[p]].index as nat
  }

  lemma {:induction false} Injective(peers: map<Id, PeerAddr>, list: seq<Option<Id>>, tree: map<nat, Id>, ps: set<nat>)
    requires Sync(peers, list, tree) && ps <= tree.Keys
    ensures |Places(peers, tree, ps)| == |ps|
    decreases ps
  {
    if p :| p in ps {
      var rest := ps - {p};
      Injective(peers, list, tree, rest);
      var at := peers[tree[p]].index;
      assert at !in Places(peers, tree, rest);
      assert Places(peers, tree, ps) == Places(peers, tree, rest) + {at};
    }
  }

  // ---- what Push makes of the contents and the counters

  function Count(counts: map<Source, int>, s: Source): int {
    if s in counts then counts[s] else 0
  }

  function Total(counts: map<Source, int>): int {
    Count(counts, Tracker) + Count(counts, DHT) + Count(counts, PEX) + Count(counts, Manual) + Count(counts, Incoming)
  }

  function Charge(counts: map<Source, int>, s: Source, n: int): map<Source, int> {
    counts[s := Count(counts, s) + n]
  }

  /** Every accepted address is listed under its priority, in place of an earlier one. */
  ghost function Pushed(r: Rules, c: map<nat, Entry>, addrs: seq<Addr>, source: Source, now: int): map<nat, Entry> {
    if addrs == [] then c
    else
      var (rest, a) := (Pushed(r, c, addrs[..|addrs| - 1], source, now), addrs[|addrs| - 1]);
      if r.Skips(a) then rest else rest[r.priority(a) := Entry(a, now, source)]
  }

  /** Not refused: a port, an address that is neither the client's own nor outside nor
      blocked. */
  ghost predicate Welcome(r: Rules, a: Addr) {
    && a.port != 0 && !(r.loopback(a.ip) && a.port == r.listenPort) && a.ip != r.clientIP
    && !r.external(a.ip) && !r.blocked(a.ip)
  }

  /** Address k is the last welcome one of its priority. */
  ghost predicate LastOf(r: Rules, addrs: seq<Addr>, k: nat, p: nat) {
    && k < |addrs| && Welcome(r, addrs[k]) && r.priority(addrs[k]) == p
    && forall j :: k < j < |addrs| && Welcome(r, addrs[j]) ==> r.priority(addrs[j]) != p
  }

  lemma LastOfSnoc(r: Rules, addrs: seq<Addr>, p: nat)
    requires addrs != []
    ensures var n := |addrs| - 1;
            if Welcome(r, addrs[n]) && r.priority(addrs[n]) == p
            then forall k: nat :: LastOf(r, addrs, k, p) <==> k == n
            else forall k: nat :: LastOf(r, addrs, k, p) <==> LastOf(r, addrs[..n], k, p)
  {
    var n := |addrs| - 1;
    if !(Welcome(r, addrs[n]) && r.priority(addrs[n]) == p) {
      forall k: nat ensures LastOf(r, addrs, k, p) <==> LastOf(r, addrs[..n], k, p) {
        assert forall j :: 0 <= j < n ==> addrs[..n][j] == addrs[j];
        if LastOf(r, addrs[..n], k, p) {
          forall j | k < j < |addrs| && Welcome(r, addrs[j]) ensures r.priority(addrs[j]) != p {
            if j < n { assert addrs[..n][j] == addrs[j]; }
          }
        }
      }
    }
  }

  /** After a push, what is listed under a priority is the last welcome address of that
      priority, or what was there before when no welcome address has it. */
  lemma {:induction false} PushedExactly(r: Rules, c: map<nat, Entry>, addrs: seq<Addr>, source: Source, now: int,
                                         p: nat)
    ensures var all := Pushed(r, c, addrs, source, now);
            && (p in all <==> p in c || exists k: nat :: LastOf(r, addrs, k, p))
            && (p in all && (forall k: nat :: !LastOf(r, addrs, k, p)) ==> all[p] == c[p])
            && (forall k: nat :: LastOf(r, addrs, k, p) ==> p in all && all[p] == Entry(addrs[k], now, source))
  {
    if addrs != [] {
      var n := |addrs| - 1;
      PushedExactly(r, c, addrs[..n], source, now, p);
      LastOfSnoc(r, addrs, p);
      assert LastOf(r, addrs, n, p) <==> Welcome(r, addrs[n]) && r.priority(addrs[n]) == p;
      hide LastOf;
    }
  }

  ghost function Added(r: Rules, addrs: seq<Addr>): nat {
    if addrs == [] then 0
    else Added(r, addrs[..|addrs| - 1]) + if r.Skips(addrs[|addrs| - 1]) then 0 else 1
  }

  /** The counters once the replaced entries are taken off their sources. */
  ghost function Debited(r: Rules, c: map<nat, Entry>, counts: map<Source, int>, addrs: seq<Addr>, source: Source,
                         now: int): map<Source, int> {
    if addrs == [] then counts
    else
      var front, a := addrs[..|addrs| - 1], addrs[|addrs| - 1];
      var (rest, before) := (Debited(r, c, counts, front, source, now), Pushed(r, c, front, source, now));
      if !r.Skips(a) && r.priority(a) in before then Charge(rest, before[r.priority(a)].source, -1) else rest
  }

  lemma Snoc<T>(s: seq<T>, k: nat)
    requires k < |s|
    ensures s[..k + 1][..k] == s[..k] && s[..k + 1][k] == s[k]
  {
  }

  class AddrList {
    const rules: Rules
    const maxItems: nat
    var peerByTime: seq<Option<Id>>
    var peerByPriority: map<nat, Id>
    var countBySource: map<Source, int>
    var peers: map<Id, PeerAddr>  // the records the two indexes point to
    var next: Id

    constructor (maxItems: nat, rules: Rules)
      ensures Valid() && peerByTime == [] && peerByPriority == map[] && countBySource == map[]
      ensures this.maxItems == maxItems && this.rules == rules
    {
      this.maxItems, this.rules := maxItems, rules;
      peerByTime, peerByPriority, countBySource, peers, next := [], map[], map[], map[], 0;
    }

    ghost predicate Linked()
      reads this
    {
      Sync(peers, peerByTime, peerByPriority) && forall id :: id in peers ==> id < next
    }

    /** The counters add up to the length; source by source they are right as long as Tallied holds. */
    ghost predicate Valid()
      reads this
    {
      Linked() && Total(countBySource) == |peerByPriority|
    }

    ghost function Listed(): map<nat, Entry>
      reads this
    {
      Contents(peers, peerByPriority)
    }

    method Reset()
      modifies this
      ensures Valid() && Listed() == map[] && peerByTime == [] && countBySource == map[]
      ensures Tallied(countBySource, Listed())
    {
      peerByTime, peerByPriority, countBySource, peers, next := [], map[], map[], map[], 0;
      NothingListed(peers, peerByPriority);
      NothingTallied(countBySource, Listed());
    }

    /** One accepted address: btree.ReplaceOrInsert and the time list beside it. */
    method Insert(ad: Addr, source: Source, now: int)
      requires Linked()
      modifies this
      ensures Linked()
      ensures Listed() == old(Listed())[rules.priority(ad) := Entry(ad, now, source)]
      ensures countBySource == if rules.priority(ad) in old(Listed())
                               then Charge(old(countBySource), old(Listed())[rules.priority(ad)].source, -1)
                               else old(countBySource)
      ensures Total(countBySource) - |peerByPriority| == old(Total(countBySource)) - |old(peerByPriority)| - 1
    {
      hide Total, Contents, Sync;
      var priority, id := rules.priority(ad), next;
      ghost var before, list0, tree0 := peers, peerByTime, peerByPriority;
      if priority in peerByPriority {
        ListedAt(peers, peerByTime, peerByPriority, priority);
        var prev := peerByPriority[priority];
        var at := peers[prev].index;
        peers := peers[id := PeerAddr(ad, now, source, priority, at)];
        peerByTime := peerByTime[at := Some(id)];
        TotalCharge(countBySource, peers[prev].source, -1);
        countBySource := Charge(countBySource, peers[prev].source, -1);
        EntryAt(before, tree0, priority);
        ReplaceSync(before, list0, tree0, priority, id, peers[id]);
      } else {
        peers := peers[id := PeerAddr(ad, now, source, priority, |peerByTime|)];
        peerByTime := peerByTime + [Some(id)];
        AppendSync(before, list0, tree0, priority, id, peers[id]);
      }
      ListedUnder(before, list0, tree0, priority, id, peers[id]);
      TreeSize(tree0, priority, id);
      EntryKeys(before, tree0);
      peerByPriority := peerByPriority[priority := id];
      next := next + 1;
    }

    /** Filters in place: `b` grows over the front of the slice that is being read. */
    method FilterNils()
      requires Linked()
      modifies this`peerByTime, this`peers
      ensures Linked() && NoNils(peerByTime) && SameRecords(old(peers), peers)
      ensures peerByTime == Somes(old(peerByTime))
      ensures ByTime(old(peers), old(peerByTime)) ==> ByTime(peers, peerByTime)
    {
      hide ByTime, Sync, NoNils, SameRecords, Packed, Filtering;
      var buf, n := peerByTime, 0;
      FilterStart(peers, buf, peerByPriority);
      PackStart(buf);
      for k := 0 to |buf|
        invariant 0 <= n <= k && |buf| == |old(peerByTime)|
        invariant Filtering(peers, buf, peerByPriority, n, k)
        invariant Packed(old(peerByTime), buf, n, k)
        invariant SameRecords(old(peers), peers) && forall id :: id in peers ==> id < next
        invariant ByTime(old(peers), old(peerByTime)) ==> ByTime(peers, Live(buf, n, k))
      {
        FilterStep(old(peers), peers, buf, peerByPriority, n, k);
        PackStep(old(peerByTime), buf, n, k);
        var x := buf[k];
        if x.Some? {
          buf := buf[n := x];
          peers := peers[x.value := peers[x.value].(index := n)];
          n := n + 1;
        }
      }
      FilterEnd(peers, buf, peerByPriority, n);
      PackEnd(old(peerByTime), buf, n);
      peerByTime := buf[..n];
    }

    // ---- sort.Sort(byTimestamp), as an insertion sort over the same Less and Swap

    method Swap(i: nat, j: nat)
      requires Linked() && NoNils(peerByTime) && i < |peerByTime| && j < |peerByTime|
      modifies this`peerByTime, this`peers
      ensures Linked() && NoNils(peerByTime) && SameRecords(old(peers), peers)
      ensures peerByTime == Swapped(old(peerByTime), i, j)
      ensures Times(peers, peerByTime) == Swapped(Times(old(peers), old(peerByTime)), i, j)
    {
      SwapCorrect(peers, peerByTime, peerByPriority, i, j);
      peerByTime := Swapped(peerByTime, i, j);
      peers := Placed(peers, peerByTime, i);
      peers := Placed(peers, peerByTime, j);
    }

    method Sort()
      requires Linked() && NoNils(peerByTime)
      modifies this`peerByTime, this`peers
      ensures Linked() && NoNils(peerByTime) && SameRecords(old(peers), peers)
      ensures ByTime(peers, peerByTime) && multiset(peerByTime) == multiset(old(peerByTime))
    {
      hide Sync, NoNils, SameRecords, SortedTo, ByTime;
      SortStart(peers, peerByTime);
      for n := 0 to |peerByTime|
        invariant Linked() && NoNils(peerByTime) && SameRecords(old(peers), peers) && |peerByTime| == |old(peerByTime)|
        invariant SortedTo(Times(peers, peerByTime), n) && multiset(peerByTime) == multiset(old(peerByTime))
      {
        ghost var mid := peers;
        Sink(n);
        SameTwice(old(peers), mid, peers);
      }
      SortEnd(peers, peerByTime);
    }

    /** Moves element n down to its place among the sorted ones before it. */
    method Sink(n: nat)
      requires Linked() && NoNils(peerByTime) && n < |peerByTime| && SortedTo(Times(peers, peerByTime), n)
      modifies this`peerByTime, this`peers
      ensures Linked() && NoNils(peerByTime) && |peerByTime| == |old(peerByTime)|
      ensures multiset(peerByTime) == multiset(old(peerByTime))
      ensures SameRecords(old(peers), peers)
      ensures SortedTo(Times(peers, peerByTime), n + 1)
    {
      hide Sync, NoNils, SortedTo, SortedBut, SameRecords;
      var j: nat := n;
      SameSelf(peers);
      SinkStart(Times(peers, peerByTime), n);
      while j > 0
        invariant j <= n && |peerByTime| == |old(peerByTime)| && SortedBut(Times(peers, peerByTime), n + 1, j)
        invariant multiset(peerByTime) == multiset(old(peerByTime))
        invariant Linked() && NoNils(peerByTime) && SameRecords(old(peers), peers)
      {
        if Time(peers, peerByTime[j]) >= Time(peers, peerByTime[j - 1]) { break; }
        SinkStep(Times(peers, peerByTime), n + 1, j);
        ghost var mid := peers;
        Swap(j - 1, j);
        SameTwice(old(peers), mid, peers);
        j := j - 1;
      }
      Sunk(Times(peers, peerByTime), n + 1, j);
    }

    /** Takes the `delta` oldest records out of both indexes. */
    method RemoveExcessItems(delta: nat)
      requires Linked() && NoNils(peerByTime) && ByTime(peers, peerByTime) && delta <= |peerByTime|
      modifies this`peerByTime, this`peerByPriority
      ensures Linked() && ByTime(peers, peerByTime)
      ensures |peerByPriority| == |old(peerByPriority)| - delta
      ensures Oldest(peers, old(peerByPriority), peerByPriority)
    {
      hide Sync, NoNils, ByTime;
      ghost var list0, tree0 := peerByTime, peerByPriority;
      AllBehind(peers, list0, tree0);
      for i := 0 to delta
        invariant Linked() && ByTime(peers, peerByTime) && |peerByTime| == |list0| && peerByTime[i..] == list0[i..]
        invariant |peerByPriority| == |tree0| - i && Behind(peers, tree0, peerByPriority, i)
      {
        var x := peerByTime[i];
        RemoveStep(peers, list0, tree0, peerByTime, peerByPriority, i);
        peerByPriority := peerByPriority - {peers[x.value].priority};
        peerByTime := peerByTime[i := None];
      }
      OldestGone(peers, list0, tree0, peerByPriority, delta);
    }

    /** Push keeps the indexes in step, drops only the oldest addresses and no more than
        the limit asks for. The evictions are all charged to the pushing source. */
    method Push(addrs: seq<Addr>, source: Source, now: int)
      requires Valid()
      modifies this
      ensures Valid() && NoNils(peerByTime) && ByTime(peers, peerByTime) && |peerByTime| == |peerByPriority| <= maxItems
      ensures var all := Pushed(rules, old(Listed()), addrs, source, now);
              && Kept(all, Listed()) && |Listed()| == Min(|all|, maxItems)
              && countBySource == Charged(Debited(rules, old(Listed()), old(countBySource), addrs, source, now), source,
                                          Added(rules, addrs), |all| - maxItems)
      ensures var all := Pushed(rules, old(Listed()), addrs, source, now);
              Tallied(old(countBySource), old(Listed())) ==>
                && (Tallied(countBySource, Listed()) <==> OnlyEvicts(all, Listed(), source))
                && (Spared(all, maxItems, source) ==> Tallied(countBySource, Listed()))
                && (OneSourceAtATime(all) && Tallied(countBySource, Listed()) ==> Spared(all, maxItems, source))
    {
      hide Sync, NoNils, ByTime, Contents, Total, Kept, Pushed, Debited, Tallied, OnlyEvicts, Spared, OneSourceAtATime;
      var added := InsertAll(addrs, source, now);
      ghost var all, debited := Listed(), countBySource;
      Tidy();
      countBySource := Charge(countBySource, source, added);
      TotalCharge(debited, source, added);
      EntryKeys(peers, peerByPriority);
      Shrink(source);
      if Tallied(old(countBySource), old(Listed())) {
        PushTallies(rules, old(Listed()), old(countBySource), addrs, source, now, maxItems, Listed());
        SparedExactly(all, maxItems, Listed(), source);
      }
    }

    /** The loop over the addresses. */
    method InsertAll(addrs: seq<Addr>, source: Source, now: int) returns (added: nat)
      requires Valid()
      modifies this
      ensures Linked() && Total(countBySource) + added == |peerByPriority| && added == Added(rules, addrs)
      ensures Listed() == Pushed(rules, old(Listed()), addrs, source, now)
      ensures countBySource == Debited(rules, old(Listed()), old(countBySource), addrs, source, now)
    {
      hide Total, Sync, Contents;
      added := 0;
      assert addrs[..0] == [];
      for k := 0 to |addrs|
        invariant Linked() && Total(countBySource) + added == |peerByPriority| && added == Added(rules, addrs[..k])
        invariant Listed() == Pushed(rules, old(Listed()), addrs[..k], source, now)
        invariant countBySource == Debited(rules, old(Listed()), old(countBySource), addrs[..k], source, now)
      {
        Snoc(addrs, k);
        var ad := addrs[k];
        if rules.Skips(ad) { continue; }
        Insert(ad, source, now);
        added := added + 1;
      }
      assert addrs[..|addrs|] == addrs;
    }

    /** filterNils and the sort. */
    method Tidy()
      requires Linked()
      modifies this`peerByTime, this`peers
      ensures Linked() && NoNils(peerByTime) && ByTime(peers, peerByTime) && Listed() == old(Listed())
    {
      hide Sync, NoNils, ByTime, SameRecords, Contents;
      ghost var before := peers;
      FilterNils();
      SameContents(before, peers, peerByPriority);
      ghost var mid := peers;
      Sort();
      SameContents(mid, peers, peerByPriority);
    }

    /** The removal of the excess, if there is any; the panic behind it is not reached. */
    method Shrink(source: Source)
      requires Valid() && NoNils(peerByTime) && ByTime(peers, peerByTime)
      modifies this
      ensures Valid() && NoNils(peerByTime) && ByTime(peers, peerByTime) && |peerByTime| == |peerByPriority| <= maxItems
      ensures Kept(old(Listed()), Listed()) && |Listed()| == Min(|old(Listed())|, maxItems)
      ensures countBySource == if |old(Listed())| > maxItems
                               then Charge(old(countBySource), source, maxItems - |old(Listed())|)
                               else old(countBySource)
    {
      hide Sync, NoNils, ByTime, Contents, Total, Oldest, SameRecords;
      EntryKeys(peers, peerByPriority);
      SyncLength(peers, peerByTime, peerByPriority);
      ghost var listed, tree := Listed(), peerByPriority;
      KeptAll(listed);
      var delta := |peerByPriority| - maxItems;
      if delta > 0 {
        RemoveExcessItems(delta);
        OldestKept(peers, tree, peerByPriority);
        ghost var before := peers;
        FilterNils();
        SameContents(before, peers, peerByPriority);
        TotalCharge(countBySource, source, -delta);
        countBySource := Charge(countBySource, source, -delta);
        EntryKeys(peers, peerByPriority);
        SyncLength(peers, peerByTime, peerByPriority);
      }
      assert |peerByTime| == |peerByPriority|;
    }

    /** Pop: the address of the highest priority leaves, and its place in time stays nil. */
    method Pop() returns (r: Option<(Addr, Source)>, ghost p: nat)
      requires Valid()
      modifies this
      ensures Valid()
      ensures old(Listed()) == map[] ==> r == None && Listed() == map[] && countBySource == old(countBySource)
      ensures old(Listed()) != map[] ==>
                && p in old(Listed()) && (forall q :: q in old(Listed()) ==> q <= p)
                && r == Some((old(Listed())[p].addr, old(Listed())[p].source)) && Listed() == old(Listed()) - {p}
                && countBySource == Charge(old(countBySource), old(Listed())[p].source, -1)
      ensures Tallied(old(countBySource), old(Listed())) ==> Tallied(countBySource, Listed())
    {
      hide Total, Contents, Sync, IsMax, Tallied;
      p := 0;
      EntryKeys(peers, peerByPriority);
      if peerByPriority == map[] {
        NothingListed(peers, peerByPriority);
        return None, 0;
      }
      ghost var most := HasMax(peerByPriority.Keys);
      var top :| IsMax(peerByPriority.Keys, top);
      p := top;
      IsIn(peerByPriority.Keys, top);
      PopSync(peers, peerByTime, peerByPriority, top);
      var x := peers[peerByPriority[top]];
      peerByPriority := peerByPriority - {top};
      peerByTime := peerByTime[x.index := None];
      TotalCharge(countBySource, x.source, -1);
      countBySource := Charge(countBySource, x.source, -1);
      if Tallied(old(countBySource), old(Listed())) { PopTallies(old(countBySource), old(Listed()), top); }
      r := Some((x.addr, x.source));
    }
  }

  /** A part of `all` no record of which is older than one left out. */
  ghost predicate Kept(all: map<nat, Entry>, listed: map<nat, Entry>) {
    && (forall p :: p in listed ==> p in all && listed[p] == all[p])
    && forall gone, kept :: gone in all && gone !in listed && kept in listed ==>
      all[gone].timestamp <= all[kept].timestamp
  }

  lemma KeptAll(all: map<nat, Entry>)
    ensures Kept(all, all)
  {
  }

  lemma OldestKept(peers: map<Id, PeerAddr>, tree0: map<nat, Id>, tree: map<nat, Id>)
    requires Oldest(peers, tree0, tree)
    ensures Kept(Contents(peers, tree0), Contents(peers, tree))
  {
  }

  function Charged(counts: map<Source, int>, source: Source, added: nat, excess: int): map<Source, int> {
    var c := Charge(counts, source, added);
    if excess > 0 then Charge(c, source, -excess) else c
  }

  // ---- when the counter of each source is right

  /** How many entries are listed from a source: what LenSource should answer. */
  ghost function Tally(c: map<nat, Entry>, s: Source): nat {
    |From(c, s)|
  }

  ghost function From(c: map<nat, Entry>, s: Source): set<nat> {
    set p | p in c && c[p].source == s
  }

  ghost predicate Tallied(counts: map<Source, int>, c: map<nat, Entry>) {
    forall s :: Count(counts, s) == Tally(c, s)
  }

  /** Everything that was evicted came from the pushing source. */
  ghost predicate OnlyEvicts(all: map<nat, Entry>, listed: map<nat, Entry>, source: Source) {
    forall p :: p in all && p !in listed ==> all[p].source == source
  }

  ghost function Older(all: map<nat, Entry>, t: int): set<nat> {
    set p | p in all && all[p].timestamp < t
  }

  /** Every entry of another source has as many older entries as there are too many. */
  ghost predicate Spared(all: map<nat, Entry>, maxItems: nat, source: Source) {
    forall p :: p in all && all[p].source != source ==> |Older(all, all[p].timestamp)| >= |all| - maxItems
  }

  /** Entries of one instant come from one source: no two calls of Push at one instant. */
  ghost predicate OneSourceAtATime(all: map<nat, Entry>) {
    forall p, q :: p in all && q in all && all[p].timestamp == all[q].timestamp ==> all[p].source == all[q].source
  }

  lemma TallyInsert(c: map<nat, Entry>, p: nat, e: Entry, s: Source)
    ensures Tally(c[p := e], s)
         == Tally(c, s) - (if p in c && c[p].source == s then 1 else 0) + (if e.source == s then 1 else 0)
  {
    assert From(c[p := e], s) == (From(c, s) - {p}) + (if e.source == s then {p} else {});
  }

  lemma TallyRemove(c: map<nat, Entry>, p: nat, s: Source)
    requires p in c
    ensures Tally(c - {p}, s) == Tally(c, s) - if c[p].source == s then 1 else 0
  {
    assert From(c - {p}, s) == From(c, s) - {p};
  }

  /** Once the added addresses are counted, every counter is right before the eviction. */
  lemma {:induction false} PushedTally(r: Rules, c: map<nat, Entry>, counts: map<Source, int>, addrs: seq<Addr>,
                                       source: Source, now: int, s: Source)
    requires Tallied(counts, c)
    ensures Count(Debited(r, c, counts, addrs, source, now), s) + (if s == source then Added(r, addrs) else 0)
         == Tally(Pushed(r, c, addrs, source, now), s)
  {
    if addrs == [] {
      assert Count(counts, s) == Tally(c, s);
    } else {
      var front, a := addrs[..|addrs| - 1], addrs[|addrs| - 1];
      PushedTally(r, c, counts, front, source, now, s);
      TallyInsert(Pushed(r, c, front, source, now), r.priority(a), Entry(a, now, source), s);
    }
  }

  /** How many entries were left out, in all and of one source. */
  ghost function Evicted(all: map<nat, Entry>, listed: map<nat, Entry>): nat {
    |all.Keys - listed.Keys|
  }

  ghost function EvictedFrom(all: map<nat, Entry>, listed: map<nat, Entry>, s: Source): nat {
    |From(all, s) - From(listed, s)|
  }

  lemma KeptTally(all: map<nat, Entry>, listed: map<nat, Entry>, s: Source)
    requires Kept(all, listed)
    ensures Evicted(all, listed) == |all| - |listed|
    ensures EvictedFrom(all, listed, s) == Tally(all, s) - Tally(listed, s)
  {
    assert listed.Keys <= all.Keys && From(listed, s) <= From(all, s);
    hide Kept, From;
    Parted(all.Keys, listed.Keys);
    Parted(From(all, s), From(listed, s));
  }

  lemma Parted(a: set<nat>, b: set<nat>)
    requires b <= a
    ensures |a - b| == |a| - |b|
  {
    assert a == b + (a - b);
  }

  /** How far off a counter is after a push: what the source lost against what was charged. */
  lemma Drift(debited: map<Source, int>, all: map<nat, Entry>, source: Source, added: nat, maxItems: nat,
              listed: map<nat, Entry>, s: Source)
    requires Count(debited, s) + (if s == source then added else 0) == Tally(all, s)
    requires Kept(all, listed) && |listed| == Min(|all|, maxItems)
    ensures Count(Charged(debited, source, added, |all| - maxItems), s) - Tally(listed, s)
         == EvictedFrom(all, listed, s) - if s == source then Evicted(all, listed) else 0
  {
    hide Kept, Tally, Charged, Count, EvictedFrom, Evicted;
    KeptTally(all, listed, s);
    CountCharged(debited, source, added, |all| - maxItems, s);
  }

  lemma CountCharged(counts: map<Source, int>, source: Source, added: nat, excess: int, s: Source)
    ensures Count(Charged(counts, source, added, excess), s)
         == Count(counts, s) + if s != source then 0 else if excess > 0 then added - excess else added
  {
  }

  /** A push keeps every counter right exactly when it evicts entries of its own source only. */
  lemma PushTallies(r: Rules, c: map<nat, Entry>, counts: map<Source, int>, addrs: seq<Addr>, source: Source, now: int,
                    maxItems: nat, listed: map<nat, Entry>)
    requires Tallied(counts, c)
    requires var all := Pushed(r, c, addrs, source, now); Kept(all, listed) && |listed| == Min(|all|, maxItems)
    ensures var (all, debited) := (Pushed(r, c, addrs, source, now), Debited(r, c, counts, addrs, source, now));
            Tallied(Charged(debited, source, Added(r, addrs), |all| - maxItems), listed) <==>
                OnlyEvicts(all, listed, source)
  {
    hide Pushed, Debited, Kept, Charged, Added, Tallied, OnlyEvicts, Count, Tally;
    var all, debited, added :=
        Pushed(r, c, addrs, source, now), Debited(r, c, counts, addrs, source, now), Added(r, addrs);
    forall s ensures Count(debited, s) + (if s == source then added else 0) == Tally(all, s) {
      PushedTally(r, c, counts, addrs, source, now, s);
    }
    Drifts(debited, all, source, added, maxItems, listed);
  }

  lemma Drifts(debited: map<Source, int>, all: map<nat, Entry>, source: Source, added: nat, maxItems: nat,
               listed: map<nat, Entry>)
    requires forall s :: Count(debited, s) + (if s == source then added else 0) == Tally(all, s)
    requires Kept(all, listed) && |listed| == Min(|all|, maxItems)
    ensures Tallied(Charged(debited, source, added, |all| - maxItems), listed) <==> OnlyEvicts(all, listed, source)
  {
    hide Kept, Charged, Count, Tally, OnlyEvicts, EvictedFrom, Evicted;
    var after := Charged(debited, source, added, |all| - maxItems);
    forall s ensures Count(after, s) - Tally(listed, s)
                  == EvictedFrom(all, listed, s) - if s == source then Evicted(all, listed) else 0 {
      Drift(debited, all, source, added, maxItems, listed, s);
    }
    if OnlyEvicts(all, listed, source) {
      forall s ensures Count(after, s) == Tally(listed, s) { EvictedOwn(all, listed, source, s); }
    } else {
      var s := EvictedForeign(all, listed, source);
      assert Count(after, s) != Tally(listed, s);
    }
  }

  lemma EvictedOwn(all: map<nat, Entry>, listed: map<nat, Entry>, source: Source, s: Source)
    requires Kept(all, listed) && OnlyEvicts(all, listed, source)
    ensures EvictedFrom(all, listed, s) == if s == source then Evicted(all, listed) else 0
  {
    assert From(all, s) - From(listed, s) == if s == source then all.Keys - listed.Keys else {};
  }

  lemma EvictedForeign(all: map<nat, Entry>, listed: map<nat, Entry>, source: Source) returns (s: Source)
    requires Kept(all, listed) && !OnlyEvicts(all, listed, source)
    ensures s != source && EvictedFrom(all, listed, s) > 0
  {
    var p :| p in all && p !in listed && all[p].source != source;
    s := all[p].source;
    assert p in From(all, s) - From(listed, s);
  }

  /** Told from what is listed and pushed, before the eviction. With entries of two sources
      at one instant the sort may put either first; otherwise the condition is exact. */
  lemma SparedExactly(all: map<nat, Entry>, maxItems: nat, listed: map<nat, Entry>, source: Source)
    requires Kept(all, listed) && |listed| == Min(|all|, maxItems)
    ensures Spared(all, maxItems, source) ==> OnlyEvicts(all, listed, source)
    ensures OneSourceAtATime(all) && OnlyEvicts(all, listed, source) ==> Spared(all, maxItems, source)
  {
    hide Kept, OneSourceAtATime, Older, Evicted, EvictedFrom;
    KeptTally(all, listed, source);
    if Spared(all, maxItems, source) {
      forall p | p in all && p !in listed ensures all[p].source == source { OlderGone(all, listed, p); }
    }
    if OneSourceAtATime(all) && OnlyEvicts(all, listed, source) {
      forall p | p in all && all[p].source != source ensures |Older(all, all[p].timestamp)| >= |all| - maxItems {
        GoneOlder(all, listed, source, p);
      }
    }
  }

  lemma OlderGone(all: map<nat, Entry>, listed: map<nat, Entry>, p: nat)
    requires Kept(all, listed) && p in all && p !in listed
    ensures |Older(all, all[p].timestamp)| < Evicted(all, listed)
  {
    var older, gone := Older(all, all[p].timestamp), all.Keys - listed.Keys;
    assert p !in older && older + {p} <= gone;
    SubsetCardinality(older + {p}, gone);
  }

  lemma GoneOlder(all: map<nat, Entry>, listed: map<nat, Entry>, source: Source, p: nat)
    requires Kept(all, listed) && OneSourceAtATime(all) && OnlyEvicts(all, listed, source)
    requires p in all && all[p].source != source
    ensures Evicted(all, listed) <= |Older(all, all[p].timestamp)|
  {
    var older, gone := Older(all, all[p].timestamp), all.Keys - listed.Keys;
    assert p in listed;
    assert gone <= older;
    SubsetCardinality(gone, older);
  }

  /** Two guards a caller can look at: nothing is too many, or there is one source only. */
  lemma RoomOrOneSource(all: map<nat, Entry>, maxItems: nat, source: Source)
    requires |all| <= maxItems || forall p :: p in all ==> all[p].source == source
    ensures Spared(all, maxItems, source)
  {
  }

  lemma PopTallies(counts: map<Source, int>, c: map<nat, Entry>, p: nat)
    requires Tallied(counts, c) && p in c
    ensures Tallied(Charge(counts, c[p].source, -1), c - {p})
  {
    forall s ensures Count(Charge(counts, c[p].source, -1), s) == Tally(c - {p}, s) {
      TallyRemove(c, p, s);
    }
  }

  lemma NothingTallied(counts: map<Source, int>, c: map<nat, Entry>)
    requires counts == map[] && c == map[]
    ensures Tallied(counts, c)
  {
    forall s ensures From(c, s) == {} {}
  }

  lemma NothingListed(peers: map<Id, PeerAddr>, tree: map<nat, Id>)
    requires tree == map[]
    ensures Contents(peers, tree) == map[]
  {
  }

  predicate IsMax(s: set<nat>, p: nat) {
    p in s && forall q :: q in s ==> q <= p
  }

  lemma IsIn(s: set<nat>, p: nat)
    requires IsMax(s, p)
    ensures p in s && forall q :: q in s ==> q <= p
  {
  }

  lemma {:induction false} HasMax(s: set<nat>) returns (p: nat)
    requires s != {}
    ensures IsMax(s, p)
    decreases s
  {
    var x :| x in s;
    p := x;
    if s != {x} {
      var q := HasMax(s - {x});
      if x < q { p := q; }
      forall y | y in s ensures y <= p {
        if y != x { assert y in s - {x}; }
      }
    } else {
      forall y | y in s ensures y <= p { assert y in {x}; }
    }
  }

  lemma PopSync(peers: map<Id, PeerAddr>, list: seq<Option<Id>>, tree: map<nat, Id>, p: nat)
    requires Sync(peers, list, tree) && p in tree
    ensures tree[p] in peers && 0 <= peers[tree[p]].index < |list|
    ensures Sync(peers, list[peers[tree[p]].index := None], tree - {p}) && |tree - {p}| == |tree| - 1
    ensures Contents(peers, tree - {p}) == Contents(peers, tree) - {p}
    ensures p in Contents(peers, tree) && Contents(peers, tree)[p] == EntryOf(peers, tree[p])
  {
    assert (tree - {p}).Keys == tree.Keys - {p};
  }

  function Placed(peers: map<Id, PeerAddr>, list: seq<Option<Id>>, i: nat): map<Id, PeerAddr> {
    if i < |list| && list[i].Some? && list[i].value in peers
    then peers[list[i].value := peers[list[i].value].(index := i)] else peers
  }

  ghost function Times(peers: map<Id, PeerAddr>, list: seq<Option<Id>>): (t: seq<int>)
    ensures |t| == |list|
  {
    seq(|list|, i requires 0 <= i < |list| => Time(peers, list[i]))
  }

  lemma SwapCorrect(peers: map<Id, PeerAddr>, list: seq<Option<Id>>, tree: map<nat, Id>, i: nat, j: nat)
    requires Sync(peers, list, tree) && NoNils(list) && i < |list| && j < |list|
    ensures var l := Swapped(list, i, j);
            var q := Placed(Placed(peers, l, i), l, j);
            && Sync(q, l, tree) && NoNils(l) && SameRecords(peers, q)
            && Times(q, l) == Swapped(Times(peers, list), i, j)
  {
    var l := Swapped(list, i, j);
    assert list[i].value in peers && list[j].value in peers;
  }

  ghost predicate SortedTo(t: seq<int>, n: nat) {
    n <= |t| && forall a, b {:trigger t[a], t[b]} :: 0 <= a < b < n ==> t[a] <= t[b]
  }

  /** The first n are sorted but for element j, which is no larger than those behind it. */
  ghost predicate SortedBut(t: seq<int>, n: nat, j: nat) {
    && j < n <= |t|
    && (forall a, b {:trigger t[a], t[b]} :: 0 <= a < b < n && a != j && b != j ==> t[a] <= t[b])
    && (forall b {:trigger t[b]} :: j < b < n ==> t[j] <= t[b])
  }

  lemma SinkStart(t: seq<int>, n: nat)
    requires SortedTo(t, n) && n < |t|
    ensures SortedBut(t, n + 1, n)
  {
  }

  lemma SinkStep(t: seq<int>, n: nat, j: nat)
    requires SortedBut(t, n, j) && j > 0 && t[j] < t[j - 1]
    ensures SortedBut(Swapped(t, j - 1, j), n, j - 1)
  {
  }

  lemma Sunk(t: seq<int>, n: nat, j: nat)
    requires SortedBut(t, n, j) && (j > 0 ==> t[j - 1] <= t[j])
    ensures SortedTo(t, n)
  {
    forall a, b | 0 <= a < b < n ensures t[a] <= t[b] {
      if b == j { assert t[a] <= t[j - 1]; }
    }
  }

  lemma SortStart(peers: map<Id, PeerAddr>, list: seq<Option<Id>>)
    ensures SortedTo(Times(peers, list), 0) && SameRecords(peers, peers)
  {
  }

  lemma SortEnd(peers: map<Id, PeerAddr>, list: seq<Option<Id>>)
    requires SortedTo(Times(peers, list), |list|)
    ensures ByTime(peers, list)
  {
    var t := Times(peers, list);
    forall i, j | 0 <= i < j < |list| ensures Time(peers, list[i]) <= Time(peers, list[j]) {
      assert t[i] <= t[j];
    }
  }

  lemma SameSelf(a: map<Id, PeerAddr>)
    ensures SameRecords(a, a)
  {
  }

  lemma SameTwice(a: map<Id, PeerAddr>, b: map<Id, PeerAddr>, c: map<Id, PeerAddr>)
    requires SameRecords(a, b) && SameRecords(b, c)
    ensures SameRecords(a, c)
  {
  }

  /** What is left of the tree is what lies at place i or behind it. */
  ghost predicate Behind(peers: map<Id, PeerAddr>, tree0: map<nat, Id>, tree: map<nat, Id>, i: nat) {
    && tree.Keys <= tree0.Keys
    && forall p :: p in tree0 ==>
         tree0[p] in peers && (p in tree <==> peers[tree0[p]].index >= i) && (p in tree ==> tree[p] == tree0[p])
  }

  lemma AllBehind(peers: map<Id, PeerAddr>, list: seq<Option<Id>>, tree: map<nat, Id>)
    requires Sync(peers, list, tree)
    ensures Behind(peers, tree, tree, 0)
  {
  }

  /** No record that is gone is younger than one that stayed. */
  ghost predicate Oldest(peers: map<Id, PeerAddr>, tree0: map<nat, Id>, tree: map<nat, Id>) {
    && tree.Keys <= tree0.Keys && (forall p :: p in tree ==> tree[p] == tree0[p])
    && forall gone, kept :: gone in tree0 && gone !in tree && kept in tree ==>
         EntryOf(peers, tree0[gone]).timestamp <= EntryOf(peers, tree[kept]).timestamp
  }

  lemma RemoveStep(peers: map<Id, PeerAddr>, list0: seq<Option<Id>>, tree0: map<nat, Id>, list: seq<Option<Id>>,
                   tree: map<nat, Id>, i: nat)
    requires Sync(peers, list0, tree0) && NoNils(list0) && Sync(peers, list, tree) && ByTime(peers, list)
    requires i < |list| == |list0| && list[i..] == list0[i..] && Behind(peers, tree0, tree, i)
    ensures list[i].Some? && list[i].value in peers
    ensures var (p, l) := (peers[list[i].value].priority, list[i := None]);
            && Sync(peers, l, tree - {p}) && ByTime(peers, l) && l[i + 1..] == list0[i + 1..]
            && Behind(peers, tree0, tree - {p}, i + 1) && |tree - {p}| == |tree| - 1
  {
    assert list[i] == list[i..][0] == list0[i];
    var p := peers[list[i].value].priority;
    assert (tree - {p}).Keys == tree.Keys - {p};
    var l := list[i := None];
    assert l[i + 1..] == list[i..][1..] == list0[i + 1..];
    hide ByTime;
    forall x | x in tree0 ensures x in tree - {p} <==> peers[tree0[x]].index >= i + 1 {
      if peers[tree0[x]].index == i { assert tree0[x] == list0[i].value; }
    }
    StillByTime(peers, list, i);
  }

  lemma StillByTime(peers: map<Id, PeerAddr>, list: seq<Option<Id>>, i: nat)
    requires ByTime(peers, list) && i < |list|
    ensures ByTime(peers, list[i := None])
  {
  }

  lemma OldestGone(peers: map<Id, PeerAddr>, list0: seq<Option<Id>>, tree0: map<nat, Id>, tree: map<nat, Id>,
                   delta: nat)
    requires Sync(peers, list0, tree0) && ByTime(peers, list0) && Behind(peers, tree0, tree, delta)
    ensures Oldest(peers, tree0, tree)
  {
    forall gone, kept | gone in tree0 && gone !in tree && kept in tree
      ensures EntryOf(peers, tree0[gone]).timestamp <= EntryOf(peers, tree[kept]).timestamp
    {
      var (a, b) := (peers[tree0[gone]].index, peers[tree0[kept]].index);
      assert list0[a] == Some(tree0[gone]) && list0[b] == Some(tree0[kept]);
    }
  }

  /** After k of the places: the first n are the survivors so far, the rest are unread. */
  ghost predicate Filtering(peers: map<Id, PeerAddr>, buf: seq<Option<Id>>, tree: map<nat, Id>, n: nat, k: nat) {
    && n <= k <= |buf|
    && (forall i {:trigger buf[i]} :: 0 <= i < n ==> buf[i].Some?)
    && (forall i {:trigger buf[i]} :: (0 <= i < n || k <= i < |buf|) && buf[i].Some? ==>
          && buf[i].value in peers && peers[buf[i].value].index == i
          && peers[buf[i].value].priority in tree && tree[peers[buf[i].value].priority] == buf[i].value)
    && (forall p {:trigger tree[p]} :: p in tree ==>
          && tree[p] in peers && peers[tree[p]].priority == p
          && (0 <= peers[tree[p]].index < n || k <= peers[tree[p]].index < |buf|)
          && buf[peers[tree[p]].index] == Some(tree[p]))
  }

  /** The list without its nils. */
  function Somes(list: seq<Option<Id>>): seq<Option<Id>> {
    if list == [] then []
    else Somes(list[..|list| - 1]) + if list[|list| - 1].Some? then [list[|list| - 1]] else []
  }

  /** After k places: the survivors so far, something in between, the rest of the list. */
  ghost predicate Packed(list: seq<Option<Id>>, buf: seq<Option<Id>>, n: nat, k: nat) {
    n <= k <= |list| == |buf| && buf[..n] == Somes(list[..k]) && buf[k..] == list[k..]
  }

  lemma PackStart(list: seq<Option<Id>>)
    ensures Packed(list, list, 0, 0)
  {
  }

  lemma PackStep(list: seq<Option<Id>>, buf: seq<Option<Id>>, n: nat, k: nat)
    requires Packed(list, buf, n, k) && k < |list|
    ensures if buf[k].Some? then Packed(list, buf[n := buf[k]], n + 1, k + 1) else Packed(list, buf, n, k + 1)
  {
    Snoc(list, k);
    assert buf[k] == buf[k..][0] == list[k];
    assert buf[k + 1..] == buf[k..][1..] && list[k + 1..] == list[k..][1..];
    assert buf[n := buf[k]][..n + 1] == buf[..n] + [buf[k]] && buf[n := buf[k]][k + 1..] == buf[k + 1..];
  }

  lemma PackEnd(list: seq<Option<Id>>, buf: seq<Option<Id>>, n: nat)
    requires Packed(list, buf, n, |buf|)
    ensures buf[..n] == Somes(list)
  {
    assert list[..|buf|] == list;
  }

  ghost function Live(buf: seq<Option<Id>>, n: nat, k: nat): seq<Option<Id>>
    requires n <= k <= |buf|
  {
    buf[..n] + buf[k..]
  }

  lemma FilterStart(peers: map<Id, PeerAddr>, buf: seq<Option<Id>>, tree: map<nat, Id>)
    requires Sync(peers, buf, tree)
    ensures Filtering(peers, buf, tree, 0, 0) && SameRecords(peers, peers) && Live(buf, 0, 0) == buf
  {
  }

  lemma FilterEnd(peers: map<Id, PeerAddr>, buf: seq<Option<Id>>, tree: map<nat, Id>, n: nat)
    requires Filtering(peers, buf, tree, n, |buf|)
    ensures Sync(peers, buf[..n], tree) && NoNils(buf[..n]) && Live(buf, n, |buf|) == buf[..n]
  {
  }

  lemma FilterStep(before: map<Id, PeerAddr>, peers: map<Id, PeerAddr>, buf: seq<Option<Id>>, tree: map<nat, Id>,
                   n: nat, k: nat)
    requires Filtering(peers, buf, tree, n, k) && k < |buf| && SameRecords(before, peers)
    ensures buf[k] == None ==> Filtering(peers, buf, tree, n, k + 1)
    ensures buf[k] == None && ByTime(peers, Live(buf, n, k)) ==> ByTime(peers, Live(buf, n, k + 1))
    ensures buf[k].Some? ==> buf[k].value in peers
    ensures buf[k].Some? ==>
              var q := peers[buf[k].value := peers[buf[k].value].(index := n)];
              && Filtering(q, buf[n := buf[k]], tree, n + 1, k + 1) && SameRecords(before, q) && q.Keys == peers.Keys
              && (ByTime(peers, Live(buf, n, k)) ==> ByTime(q, Live(buf[n := buf[k]], n + 1, k + 1)))
  {
    if buf[k].Some? {
      FilterKeep(peers, buf, tree, n, k);
      FilterOrder(peers, buf, n, k);
    } else {
      FilterDrop(peers, buf, n, k);
    }
  }

  lemma FilterKeep(peers: map<Id, PeerAddr>, buf: seq<Option<Id>>, tree: map<nat, Id>, n: nat, k: nat)
    requires Filtering(peers, buf, tree, n, k) && k < |buf| && buf[k].Some?
    ensures buf[k].value in peers
    ensures Filtering(peers[buf[k].value := peers[buf[k].value].(index := n)], buf[n := buf[k]], tree, n + 1, k + 1)
  {
  }

  lemma FilterOrder(peers: map<Id, PeerAddr>, buf: seq<Option<Id>>, n: nat, k: nat)
    requires n <= k < |buf| && buf[k].Some? && buf[k].value in peers
    ensures ByTime(peers, Live(buf, n, k)) ==>
              ByTime(peers[buf[k].value := peers[buf[k].value].(index := n)], Live(buf[n := buf[k]], n + 1, k + 1))
  {
    assert Live(buf[n := buf[k]], n + 1, k + 1) == Live(buf, n, k);
  }

  lemma FilterDrop(peers: map<Id, PeerAddr>, buf: seq<Option<Id>>, n: nat, k: nat)
    requires n <= k < |buf| && buf[k] == None
    ensures ByTime(peers, Live(buf, n, k)) ==> ByTime(peers, Live(buf, n, k + 1))
  {
    var (l, m) := (Live(buf, n, k), Live(buf, n, k + 1));
    assert forall i :: 0 <= i < |m| ==> m[i] == l[if i < n then i else i + 1];
  }

  lemma ReplaceSync(peers: map<Id, PeerAddr>, list: seq<Option<Id>>, tree: map<nat, Id>, p: nat, id: Id, r: PeerAddr)
    requires Sync(peers, list, tree) && p in tree && id !in peers && r.priority == p && r.index == peers[tree[p]].index
    ensures Sync(peers[id := r], list[r.index := Some(id)], tree[p := id])
  {
  }

  lemma AppendSync(peers: map<Id, PeerAddr>, list: seq<Option<Id>>, tree: map<nat, Id>, p: nat, id: Id, r: PeerAddr)
    requires Sync(peers, list, tree) && p !in tree && id !in peers && r.priority == p && r.index == |list|
    ensures Sync(peers[id := r], list + [Some(id)], tree[p := id])
  {
    var (l, t, q) := (list + [Some(id)], tree[p := id], peers[id := r]);
    forall x | x in t
      ensures t[x] in q && q[t[x]].priority == x && 0 <= q[t[x]].index < |l| && l[q[t[x]].index] == Some(t[x])
    {
      if x != p { assert x in tree && t[x] == tree[x]; }
    }
    forall i | 0 <= i < |l| && l[i].Some?
      ensures l[i].value in q && q[l[i].value].index == i && q[l[i].value].priority in t
      ensures t[q[l[i].value].priority] == l[i].value
    {
      if i < |list| { assert l[i] == list[i]; }
    }
  }

  lemma ListedUnder(peers: map<Id, PeerAddr>, list: seq<Option<Id>>, tree: map<nat, Id>, p: nat, id: Id, r: PeerAddr)
    requires Sync(peers, list, tree) && id !in peers
    ensures Contents(peers[id := r], tree[p := id]) == Contents(peers, tree)[p := Entry(r.addr, r.timestamp, r.source)]
  {
    var (q, t) := (peers[id := r], tree[p := id]);
    forall x | x in t
      ensures EntryOf(q, t[x]) == if x == p then Entry(r.addr, r.timestamp, r.source) else EntryOf(peers, tree[x])
    {
      if x != p { assert tree[x] in peers; }
    }
  }

  lemma ListedAt(peers: map<Id, PeerAddr>, list: seq<Option<Id>>, tree: map<nat, Id>, p: nat)
    requires Sync(peers, list, tree) && p in tree
    ensures tree[p] in peers && 0 <= peers[tree[p]].index < |list|
  {
  }

  lemma TreeSize(tree: map<nat, Id>, p: nat, id: Id)
    ensures |tree[p := id]| == if p in tree then |tree| else |tree| + 1
  {
    assert tree[p := id].Keys == tree.Keys + {p};
    if p in tree { assert tree.Keys + {p} == tree.Keys; }
  }

  lemma EntryAt(peers: map<Id, PeerAddr>, tree: map<nat, Id>, p: nat)
    requires p in tree && tree[p] in peers
    ensures p in Contents(peers, tree) && Contents(peers, tree)[p].source == peers[tree[p]].source
  {
  }

  lemma EntryKeys(peers: map<Id, PeerAddr>, tree: map<nat, Id>)
    ensures Contents(peers, tree).Keys == tree.Keys
  {
  }

  lemma TotalCharge(counts: map<Source, int>, s: Source, n: int)
    ensures Total(Charge(counts, s, n)) == Total(counts) + n
  {
    match s { case Tracker => case DHT => case PEX => case Manual => case Incoming => }
  }

  /** The counters of single sources drift: with room for one address, an address from a
      tracker is evicted by one from the DHT, and the DHT is charged for it. */
  method EvictionIsMiscounted(r: Rules, a: Addr, b: Addr) returns (l: AddrList)
    requires !r.Skips(a) && !r.Skips(b) && r.priority(a) != r.priority(b)
    ensures l.Valid() && l.Listed() == map[r.priority(b) := Entry(b, 2, DHT)]
    ensures Count(l.countBySource, DHT) == 0 && Count(l.countBySource, Tracker) == 1
  {
    hide Sync, NoNils, ByTime, Contents, Pushed, Debited, Added, Kept, Total;
    l := new AddrList(1, r);
    assert l.Listed() == map[] by { NothingListed(l.peers, l.peerByPriority); }
    OneAddress(r, map[], map[], a, Tracker, 1);
    l.Push([a], Tracker, 1);
    ghost var first := map[r.priority(a) := Entry(a, 1, Tracker)];
    WholeMap(first, l.Listed());
    ghost var counts := l.countBySource;
    assert Count(counts, Tracker) == 1 && Count(counts, DHT) == 0;
    OneAddress(r, first, counts, b, DHT, 2);
    l.Push([b], DHT, 2);
    NewerStays(first, r.priority(a), r.priority(b), Entry(b, 2, DHT), l.Listed());
  }

  lemma OneAddress(r: Rules, c: map<nat, Entry>, counts: map<Source, int>, a: Addr, source: Source, now: int)
    requires !r.Skips(a) && r.priority(a) !in c
    ensures Pushed(r, c, [a], source, now) == c[r.priority(a) := Entry(a, now, source)]
    ensures Debited(r, c, counts, [a], source, now) == counts && Added(r, [a]) == 1
  {
    assert [a][..0] == [];
  }

  lemma WholeMap(all: map<nat, Entry>, listed: map<nat, Entry>)
    requires Kept(all, listed) && |listed| == |all|
    ensures listed == all
  {
    assert listed.Keys <= all.Keys;
    SubsetCardinality(listed.Keys, all.Keys);
  }

  lemma NewerStays(c: map<nat, Entry>, p: nat, q: nat, e: Entry, listed: map<nat, Entry>)
    requires c.Keys == {p} && p != q && c[p].timestamp < e.timestamp && Kept(c[q := e], listed) && |listed| == 1
    ensures listed == map[q := e]
  {
    var all := c[q := e];
    assert all.Keys == {p, q};
    assert q in listed;
    assert {q} <= listed.Keys;
    SubsetCardinality({q}, listed.Keys);
  }
}
