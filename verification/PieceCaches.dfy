/** internal/piececache: the LRU cache, and item.go's heap with back-indices. A whole Get
    and a whole expiry are each one step under the lock. */
module PieceCaches {
  import opened Common
  import opened Heaps

  type Key = bytes

  datatype Item = Item(value: bytes, lastAccessed: int, index: int)

  /** The list and the map hold the same items, and each knows its place in the list. */
  ghost predicate Indexed(list: seq<Key>, items: map<Key, Item>) {
    && (forall i :: 0 <= i < |list| ==> list[i] in items && items[list[i]].index == i)
    && (forall k :: k in items ==> 0 <= items[k].index < |list| && list[items[k].index] == k)
  }

  ghost function Times(list: seq<Key>, items: map<Key, Item>): (s: seq<int>)
    ensures |s| == |list|
  {
    seq(|list|, i requires 0 <= i < |list| => if list[i] in items then items[list[i]].lastAccessed else 0)
  }

  ghost function Values(items: map<Key, Item>): map<Key, bytes> {
    map k | k in items :: items[k].value
  }

  ghost function Accesses(items: map<Key, Item>): map<Key, int> {
    map k | k in items :: items[k].lastAccessed
  }

  /** Total length of the values. */
  ghost function Weight(m: map<Key, bytes>): nat
    decreases |m|
  {
    if m == map[] then 0 else
      var k :| k in m;
      |m[k]| + Weight(m - {k})
  }

  lemma {:induction false} WeightRemove(m: map<Key, bytes>, k: Key)
    requires k in m
    ensures Weight(m) == |m[k]| + Weight(m - {k})
    decreases |m|
  {
    var x :| x in m && Weight(m) == |m[x]| + Weight(m - {x});
    if x != k {
      WeightRemove(m - {x}, k);
      WeightRemove(m - {k}, x);
      assert m - {x} - {k} == m - {k} - {x};
    }
  }

  lemma WeightAdd(m: map<Key, bytes>, k: Key, v: bytes)
    requires k !in m
    ensures Weight(m[k := v]) == Weight(m) + |v|
  {
    WeightRemove(m[k := v], k);
    assert m[k := v] - {k} == m;
  }

  /** The same items, whatever their places in the list. */
  ghost predicate SameItems(a: map<Key, Item>, b: map<Key, Item>) {
    Values(a) == Values(b) && Accesses(a) == Accesses(b)
  }

  function Placed(list: seq<Key>, items: map<Key, Item>, i: nat): map<Key, Item> {
    if i < |list| && list[i] in items then items[list[i] := items[list[i]].(index := i)] else items
  }

  lemma SwapCorrect(list: seq<Key>, items: map<Key, Item>, i: nat, j: nat)
    requires Indexed(list, items) && i < |list| && j < |list|
    ensures var l := Swapped(list, i, j);
            var m := Placed(l, Placed(l, items, i), j);
            Indexed(l, m) && SameItems(items, m) && Times(l, m) == Swapped(Times(list, items), i, j)
  {
    var l := Swapped(list, i, j);
    var m := Placed(l, Placed(l, items, i), j);
    forall k | 0 <= k < |l| ensures l[k] in m && m[l[k]].index == k {
      assert list[k] in items;
    }
  }

  lemma AppendTimes(list: seq<Key>, items: map<Key, Item>, k: Key, v: bytes, now: int)
    requires Indexed(list, items) && Ordered(Times(list, items), |list|) && k !in items
    ensures var (l, m) := (list + [k], items[k := Item(v, now, |list|)]);
            && Indexed(l, m) && OrderedBelow(Times(l, m), |l|, |list|)
            && Values(m) == Values(items)[k := v] && Accesses(m) == Accesses(items)[k := now]
  {
    var (l, m) := (list + [k], items[k := Item(v, now, |list|)]);
    assert forall i :: 0 <= i < |list| ==> Times(l, m)[i] == Times(list, items)[i];
  }

  lemma TouchTimes(list: seq<Key>, items: map<Key, Item>, k: Key, now: int)
    requires Indexed(list, items) && Ordered(Times(list, items), |list|) && k in items
    ensures var m := items[k := items[k].(lastAccessed := now)];
            && Indexed(list, m) && OrderedAround(Times(list, m), |list|, items[k].index)
            && Values(m) == Values(items) && Accesses(m) == Accesses(items)[k := now]
  {
    hide Ordered, OrderedAround;
    var m := items[k := items[k].(lastAccessed := now)];
    OneChanged(Times(list, items), |list|, items[k].index, now);
    assert Times(list, m) == Times(list, items)[items[k].index := now];
  }

  /** Once the item to go has been swapped to the end, the rest is a heap but for one place. */
  lemma LastSwapped(s: seq<int>, j: nat)
    requires s != [] && Ordered(s, |s|) && j < |s| - 1
    ensures OrderedAround(Swapped(s, j, |s| - 1), |s| - 1, j)
  {
    OneChanged(s, |s|, j, s[|s| - 1]);
  }

  lemma DropLast(list: seq<Key>, items: map<Key, Item>)
    requires list != [] && Indexed(list, items) && Ordered(Times(list, items), |list| - 1)
    ensures var (l, m) := (list[..|list| - 1], items - {list[|list| - 1]});
            && Indexed(l, m) && Ordered(Times(l, m), |l|)
            && Values(m) == Values(items) - {list[|list| - 1]} && Accesses(m) == Accesses(items) - {list[|list| - 1]}
  {
    var (l, m) := (list[..|list| - 1], items - {list[|list| - 1]});
    assert forall i :: 0 <= i < |l| ==> Times(l, m)[i] == Times(list, items)[i];
  }

  /** What makeRoom may do to a cache: only the least recently used items go, and no more
      of them than `room` asks for. */
  ghost predicate LruRemoved(v0: map<Key, bytes>, t0: map<Key, int>, v: map<Key, bytes>, t: map<Key, int>, room: int) {
    && v.Keys == t.Keys <= v0.Keys == t0.Keys
    && (forall k :: k in v ==> v[k] == v0[k] && t[k] == t0[k])
    && (forall gone, kept :: gone in v0 && gone !in v && kept in v ==> t0[gone] <= t0[kept])
    && (v != v0 ==> exists last :: last in v0 && last !in v && Weight(v) + |v0[last]| > room
                                   && forall gone :: gone in v0 && gone !in v ==> t0[gone] <= t0[last])
  }

  class Cache {
    const maxSize: int
    var size: int
    var items: map<Key, Item>
    var accessList: seq<Key>

    constructor (maxSize: int)
      requires maxSize >= 0
      ensures Valid() && items == map[] && this.maxSize == maxSize
    {
      this.maxSize := maxSize;
      size, items, accessList := 0, map[], [];
    }

    ghost predicate Valid()
      reads this
    {
      && Indexed(accessList, items) && Ordered(Times(accessList, items), |accessList|)
      && size == Weight(Values(items)) <= maxSize
    }

    // ---- container/heap over accessList

    method Swap(i: nat, j: nat)
      requires Indexed(accessList, items) && i < |accessList| && j < |accessList|
      modifies this`accessList, this`items
      ensures Indexed(accessList, items) && SameItems(old(items), items)
      ensures accessList == Swapped(old(accessList), i, j)
      ensures Times(accessList, items) == Swapped(old(Times(accessList, items)), i, j)
    {
      SwapCorrect(accessList, items, i, j);
      accessList := Swapped(accessList, i, j);
      items := Placed(accessList, items, i);
      items := Placed(accessList, items, j);
    }

    method Less(i: nat, j: nat) returns (less: bool)
      requires Indexed(accessList, items) && i < |accessList| && j < |accessList|
      ensures less == (Times(accessList, items)[i] < Times(accessList, items)[j])
    {
      less := items[accessList[i]].lastAccessed < items[accessList[j]].lastAccessed;
    }

    method Up(j0: nat, ghost n: nat)
      requires Indexed(accessList, items) && OrderedBelow(Times(accessList, items), n, j0)
      modifies this`accessList, this`items
      ensures Indexed(accessList, items) && SameItems(old(items), items)
      ensures Ordered(Times(accessList, items), n)
      ensures |accessList| == |old(accessList)| && accessList[n..] == old(accessList)[n..]
    {
      hide Indexed, Times, Ordered, OrderedBelow, Values, Accesses;
      var j: nat := j0;
      InRange(Times(accessList, items), n, j);
      while j > 0
        invariant j < n <= |accessList|
        invariant Indexed(accessList, items) && SameItems(old(items), items)
        invariant OrderedBelow(Times(accessList, items), n, j)
        invariant |accessList| == |old(accessList)| && accessList[n..] == old(accessList)[n..]
      {
        var i := (j - 1) / 2;
        var less := Less(j, i);
        if !less { break; }
        UpStep(Times(accessList, items), n, j);
        Swap(i, j);
        j := i;
      }
      SettledUp(Times(accessList, items), n, j);
    }

    /** The smaller child of i, if it is smaller than i. */
    method SmallerChild(i: nat, n: nat) returns (found: bool, j: nat)
      requires Indexed(accessList, items) && i < n <= |accessList|
      ensures var s := Times(accessList, items);
              if found then i < j < n && (j - 1) / 2 == i && s[j] < s[i]
                            && forall k :: 1 <= k < n && (k - 1) / 2 == i ==> s[j] <= s[k]
              else forall k :: 1 <= k < n && (k - 1) / 2 == i ==> s[i] <= s[k]
    {
      j := 2 * i + 1;
      if j >= n { return false, j; }
      if j + 1 < n {
        var right := Less(j + 1, j);
        if right { j := j + 1; }
      }
      found := Less(j, i);
    }

    method Down(i0: nat, n: nat) returns (moved: bool)
      requires Indexed(accessList, items) && OrderedAround(Times(accessList, items), n, i0)
      modifies this`accessList, this`items
      ensures Indexed(accessList, items) && SameItems(old(items), items)
      ensures if moved then Ordered(Times(accessList, items), n) else OrderedBelow(Times(accessList, items), n, i0)
      ensures |accessList| == |old(accessList)| && accessList[n..] == old(accessList)[n..]
    {
      hide Indexed, Times, Ordered, OrderedAround, OrderedBelow, Values, Accesses;
      var i: nat := i0;
      Around(Times(accessList, items), n, i);
      while true
        invariant i0 <= i < n <= |accessList|
        invariant Indexed(accessList, items) && SameItems(old(items), items)
        invariant OrderedAround(Times(accessList, items), n, i)
        invariant i > i0 ==> Times(accessList, items)[(i - 1) / 2] <= Times(accessList, items)[i]
        invariant |accessList| == |old(accessList)| && accessList[n..] == old(accessList)[n..]
        decreases n - i
      {
        var found, j := SmallerChild(i, n);
        if !found { break; }
        FirstDownStep(Times(accessList, items), n, i, j);
        DownStep(Times(accessList, items), n, i, j);
        Swap(i, j);
        i := j;
      }
      SettledDown(Times(accessList, items), n, i);
      moved := i > i0;
    }

    method Fix(i: nat, n: nat)
      requires Indexed(accessList, items) && OrderedAround(Times(accessList, items), n, i)
      modifies this`accessList, this`items
      ensures Indexed(accessList, items) && SameItems(old(items), items)
      ensures Ordered(Times(accessList, items), n)
      ensures |accessList| == |old(accessList)| && accessList[n..] == old(accessList)[n..]
    {
      var moved := Down(i, n);
      if !moved { Up(i, n); }
    }

    // ---- the cache

    /** The map entry goes first in the original; under the lock the order cannot be seen. */
    method RemoveItem(k: Key)
      requires Valid() && k in items
      modifies this
      ensures Valid()
      ensures Values(items) == old(Values(items)) - {k} && Accesses(items) == old(Accesses(items)) - {k}
      ensures size == old(size) - |old(items)[k].value| && |accessList| == |old(accessList)| - 1
    {
      hide Ordered, OrderedAround, Weight;
      var n, i, v := |accessList| - 1, items[k].index, items[k].value;
      WeightRemove(Values(items), k);
      MoveToEnd(k, i, n);
      DropLast(accessList, items);
      accessList, items := accessList[..n], items - {k};
      size := size - |v|;
    }

    /** heap.Remove up to its final Pop. */
    method MoveToEnd(k: Key, i: nat, n: nat)
      requires Indexed(accessList, items) && Ordered(Times(accessList, items), |accessList|)
      requires k in items && i == items[k].index && n == |accessList| - 1
      modifies this`accessList, this`items
      ensures Indexed(accessList, items) && SameItems(old(items), items)
      ensures |accessList| == n + 1 && accessList[n] == k && Ordered(Times(accessList, items), n)
    {
      hide OrderedAround, Values, Accesses;
      if n != i {
        LastSwapped(Times(accessList, items), i);
        Swap(i, n);
        assert accessList[n..][0] == k;
        Fix(i, n);
        assert accessList[n] == accessList[n..][0];
      }
    }

    /** Never indexes an empty list: an empty cache has size 0, and n <= maxSize. */
    method MakeRoom(n: nat)
      requires Valid() && n <= maxSize
      modifies this
      ensures Valid()
      ensures LruRemoved(old(Values(items)), old(Accesses(items)), Values(items), Accesses(items), maxSize - n)
      ensures size <= maxSize - n
    {
      ghost var v0, t0 := Values(items), Accesses(items);
      while maxSize - size < n
        invariant Valid() && LruRemoved(v0, t0, Values(items), Accesses(items), maxSize - n)
        decreases |accessList|
      {
        NotEmpty(accessList, items);
        var k := accessList[0];
        LeastRecent(accessList, items);
        RoomStep(v0, t0, Values(items), Accesses(items), maxSize - n, k);
        RemoveItem(k);
      }
    }

    /** Get: `loader` is what the loader returns if it is asked. */
    method Get(key: Key, loader: Option<bytes>, now: int, ghost source: Key -> bytes) returns (r: Option<bytes>)
      requires Valid() && Holds(source) && (loader.Some? ==> loader.value == source(key))
      modifies this
      ensures Valid() && Holds(source)
      ensures forall k :: k in items ==> k in old(items) || (k == key && loader.Some?)
      ensures r == if key in old(items) then Some(source(key)) else loader
      ensures key in old(items) ==>
                Values(items) == old(Values(items)) && Accesses(items) == old(Accesses(items))[key := now]
      ensures key !in old(items) && (loader == None || |loader.value| > maxSize) ==>
                items == old(items) && size == old(size)
      ensures key !in old(items) && loader.Some? && |loader.value| <= maxSize ==>
                && key in items && items[key].value == loader.value && items[key].lastAccessed == now
                && LruRemoved(old(Values(items)), old(Accesses(items)), Values(items) - {key}, Accesses(items) - {key},
                            maxSize - |loader.value|)
    {
      hide Ordered, Indexed, Times, Weight, LruRemoved;
      if key in items {
        r := Some(items[key].value);
        UpdateAccessTime(key, now);
        SameValues(old(items), items);
      } else {
        if loader == None { return None; }
        r := loader;
        if |loader.value| > maxSize { return; }
        Load(key, loader.value, now);
      }
    }

    method Load(key: Key, value: bytes, now: int)
      requires Valid() && key !in items && |value| <= maxSize
      modifies this
      ensures Valid()
      ensures key in items && items[key].value == value && items[key].lastAccessed == now
      ensures LruRemoved(old(Values(items)), old(Accesses(items)), Values(items) - {key}, Accesses(items) - {key},
                         maxSize - |value|)
      ensures forall k :: k in items && k != key ==> k in old(items) && items[k].value == old(items)[k].value
    {
      hide Ordered, Indexed, Times, Weight;
      MakeRoom(|value|);
      ghost var v, t := Values(items), Accesses(items);
      assert key !in v;
      HandleNewItem(key, value, now);
      assert Values(items) - {key} == v && Accesses(items) - {key} == t;
      assert items.Keys == Values(items).Keys;
    }

    method UpdateAccessTime(key: Key, now: int)
      requires Valid() && key in items
      modifies this
      ensures Valid() && size == old(size)
      ensures Values(items) == old(Values(items)) && Accesses(items) == old(Accesses(items))[key := now]
    {
      TouchTimes(accessList, items, key, now);
      items := items[key := items[key].(lastAccessed := now)];
      Fix(items[key].index, |accessList|);
    }

    method HandleNewItem(key: Key, value: bytes, now: int)
      requires Valid() && key !in items && size + |value| <= maxSize
      modifies this
      ensures Valid()
      ensures Values(items) == old(Values(items))[key := value] && Accesses(items) == old(Accesses(items))[key := now]
    {
      hide Ordered, OrderedBelow, Weight, Times;
      WeightAdd(Values(items), key, value);
      AppendTimes(accessList, items, key, value, now);
      size := size + |value|;
      items := items[key := Item(value, now, |accessList|)];
      accessList := accessList + [key];
      Up(|accessList| - 1, |accessList|);
    }

    /** The timer of an item that is still listed. */
    method Expire(key: Key)
      requires Valid()
      modifies this
      ensures Valid()
      ensures Values(items) == old(Values(items)) - {key} && Accesses(items) == old(Accesses(items)) - {key}
    {
      if key in items { RemoveItem(key); }
    }

    /** Every cached value is what the source holds for its key. */
    ghost predicate Holds(source: Key -> bytes)
      reads this
    {
      forall k :: k in items ==> items[k].value == source(k)
    }
  }

  lemma SameValues(a: map<Key, Item>, b: map<Key, Item>)
    requires Values(a) == Values(b)
    ensures a.Keys == b.Keys && forall k :: k in a ==> a[k].value == b[k].value
  {
    assert a.Keys == Values(a).Keys && b.Keys == Values(b).Keys;
    forall k | k in a ensures a[k].value == b[k].value {
      assert Values(a)[k] == Values(b)[k];
    }
  }

  lemma NotEmpty(list: seq<Key>, items: map<Key, Item>)
    requires Indexed(list, items) && Weight(Values(items)) > 0
    ensures list != [] && list[0] in items
  {
    assert Values(items) != map[];
  }

  /** The head of the list was used no later than any other item. */
  lemma LeastRecent(list: seq<Key>, items: map<Key, Item>)
    requires Indexed(list, items) && Ordered(Times(list, items), |list|) && list != []
    ensures forall k :: k in items ==> items[list[0]].lastAccessed <= items[k].lastAccessed
  {
    forall k | k in items ensures items[list[0]].lastAccessed <= items[k].lastAccessed {
      RootIsLeast(Times(list, items), |list|, items[k].index);
    }
  }

  lemma RoomStep(v0: map<Key, bytes>, t0: map<Key, int>, v: map<Key, bytes>, t: map<Key, int>, room: int, k: Key)
    requires LruRemoved(v0, t0, v, t, room) && k in v && Weight(v) > room
    requires forall other :: other in t ==> t[k] <= t[other]
    ensures LruRemoved(v0, t0, v - {k}, t - {k}, room)
  {
    WeightRemove(v, k);
    assert k in v0 && k !in v - {k};
  }
}
