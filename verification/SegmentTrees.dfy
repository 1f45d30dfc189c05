/** internal/blocklist/stree: a segment tree over uint32 values. Nodes are values here;
    the tree is owned by one Stree and rebuilt by each insertion. */
module SegmentTrees {
  import opened Common

  type Value = x: int | 0 <= x < UINT32 witness 0

  datatype Segment = Segment(from: Value, to: Value) {
    predicate SubsetOf(other: Segment) {
      other.from <= from && other.to >= to
    }

    predicate IntersectsWith(other: Segment) {
      (other.from <= to && from <= other.to) || (from <= other.to && other.from <= to)
    }

    predicate Disjoint(f: Value, t: Value) {
      f > to || t < from
    }
  }

  /** `id` is the insertion count, a uint32. */
  datatype Interval = Interval(id: Value, seg: Segment)

  datatype Tree =
    | Leaf(segment: Segment, overlap: seq<Interval>)
    | Node(segment: Segment, overlap: seq<Interval>, left: Tree, right: Tree)

  function InsertInterval(n: Tree, iv: Interval): Tree {
    if n.segment.SubsetOf(iv.seg) then n.(overlap := n.overlap + [iv])
    else
      match n
      case Leaf(_, _) => n
      case Node(_, _, left, right) =>
        n.(left := if left.segment.IntersectsWith(iv.seg) then InsertInterval(left, iv) else left,
           right := if right.segment.IntersectsWith(iv.seg) then InsertInterval(right, iv) else right)
  }

  function AddAll(ivs: seq<Interval>, result: map<Value, Interval>): map<Value, Interval> {
    if ivs == [] then result else AddAll(ivs[1..], result[ivs[0].id := ivs[0]])
  }

  function QuerySingle(n: Tree, f: Value, t: Value, result: map<Value, Interval>): map<Value, Interval> {
    if n.segment.Disjoint(f, t) then result
    else
      var here := AddAll(n.overlap, result);
      match n
      case Leaf(_, _) => here
      case Node(_, _, left, right) => QuerySingle(left, f, t, QuerySingle(right, f, t, here))
  }

  function InsertNodes(leaves: seq<Segment>): Tree
    requires leaves != []
    decreases |leaves|
  {
    if |leaves| == 1 then Leaf(leaves[0], [])
    else
      var center := |leaves| / 2;
      Node(Segment(leaves[0].from, leaves[|leaves| - 1].to), [], InsertNodes(leaves[..center]),
          InsertNodes(leaves[center..]))
  }

  // ---- which stored intervals a query reaches

  ghost predicate Hits(n: Tree, iv: Interval, f: Value, t: Value) {
    !n.segment.Disjoint(f, t) &&
    (iv in n.overlap || (n.Node? && (Hits(n.left, iv, f, t) || Hits(n.right, iv, f, t))))
  }

  /** The result maps exactly the ids of the intervals hit, each to one of them. */
  ghost predicate Collects(result: map<Value, Interval>, hit: iset<Interval>) {
    && (forall id :: id in result ==> result[id].id == id && result[id] in hit)
    && (forall iv :: iv in hit ==> iv.id in result)
  }

  lemma {:induction false} AddAllCollects(ivs: seq<Interval>, result: map<Value, Interval>, hit: iset<Interval>)
    requires Collects(result, hit)
    ensures Collects(AddAll(ivs, result), hit + iset iv | iv in ivs)
  {
    if ivs == [] {
      assert hit + (iset iv | iv in ivs) == hit;
    } else {
      var more := hit + iset{ivs[0]};
      AddAllCollects(ivs[1..], result[ivs[0].id := ivs[0]], more);
      assert more + (iset iv | iv in ivs[1..]) == hit + (iset iv | iv in ivs);
    }
  }

  ghost function AllHits(n: Tree, f: Value, t: Value): iset<Interval> {
    iset iv | Hits(n, iv, f, t)
  }

  lemma HitsOfNode(n: Tree, f: Value, t: Value, hit: iset<Interval>)
    requires !n.segment.Disjoint(f, t)
    ensures var atNode := hit + iset iv | iv in n.overlap;
            hit + AllHits(n, f, t) ==
            if n.Node? then atNode + AllHits(n.right, f, t) + AllHits(n.left, f, t) else atNode
  {
  }

  lemma {:induction false} QueryCollects(n: Tree, f: Value, t: Value, result: map<Value, Interval>, hit: iset<Interval>)
    requires Collects(result, hit)
    ensures Collects(QuerySingle(n, f, t, result), hit + AllHits(n, f, t))
  {
    if n.segment.Disjoint(f, t) {
      assert hit + AllHits(n, f, t) == hit;
    } else {
      var here := AddAll(n.overlap, result);
      var atNode := hit + iset iv | iv in n.overlap;
      AddAllCollects(n.overlap, result, hit);
      HitsOfNode(n, f, t, hit);
      if n.Node? {
        QueryCollects(n.right, f, t, here, atNode);
        QueryCollects(n.left, f, t, QuerySingle(n.right, f, t, here), atNode + AllHits(n.right, f, t));
      }
    }
  }

  // ---- soundness: stored only at nodes inside the interval

  ghost predicate StoredInside(n: Tree) {
    && (forall iv :: iv in n.overlap ==> n.segment.SubsetOf(iv.seg))
    && (n.Node? ==> StoredInside(n.left) && StoredInside(n.right))
  }

  ghost predicate Stores(n: Tree, iv: Interval) {
    iv in n.overlap || (n.Node? && (Stores(n.left, iv) || Stores(n.right, iv)))
  }

  predicate Proper(s: Segment) {
    s.from <= s.to
  }

  ghost predicate AllProper(n: Tree) {
    Proper(n.segment) && (n.Node? ==> AllProper(n.left) && AllProper(n.right))
  }

  predicate Meets(s: Segment, f: Value, t: Value) {
    s.from <= t && f <= s.to
  }

  lemma {:induction false} HitsSound(n: Tree, iv: Interval, f: Value, t: Value)
    requires StoredInside(n) && AllProper(n) && Hits(n, iv, f, t)
    ensures Stores(n, iv) && Meets(iv.seg, f, t) && Proper(iv.seg)
  {
    if iv !in n.overlap {
      if Hits(n.left, iv, f, t) { HitsSound(n.left, iv, f, t); } else { HitsSound(n.right, iv, f, t); }
    }
  }

  lemma {:induction false} InsertSound(n: Tree, x: Interval)
    requires StoredInside(n) && AllProper(n)
    ensures StoredInside(InsertInterval(n, x)) && AllProper(InsertInterval(n, x))
    ensures InsertInterval(n, x).segment == n.segment
    ensures forall iv :: Stores(InsertInterval(n, x), iv) ==> Stores(n, iv) || iv == x
    decreases n
  {
    if n.Node? {
      InsertSound(n.left, x);
      InsertSound(n.right, x);
    }
  }

  // ---- completeness: every elementary segment inside the interval is covered

  ghost predicate HasLeaf(n: Tree, s: Segment) {
    match n
    case Leaf(segment, _) => segment == s
    case Node(_, _, left, right) => HasLeaf(left, s) || HasLeaf(right, s)
  }

  /** A node's segment spans its leaves. */
  ghost predicate Spans(n: Tree) {
    && (forall s :: HasLeaf(n, s) ==> s.SubsetOf(n.segment) && Proper(s))
    && (n.Node? ==> Spans(n.left) && Spans(n.right))
  }

  lemma {:induction false} InsertKeepsLeaves(n: Tree, x: Interval)
    requires Spans(n)
    ensures Spans(InsertInterval(n, x)) && InsertInterval(n, x).segment == n.segment
    ensures forall s :: HasLeaf(InsertInterval(n, x), s) <==> HasLeaf(n, s)
    decreases n
  {
    if n.Node? {
      InsertKeepsLeaves(n.left, x);
      InsertKeepsLeaves(n.right, x);
    }
  }

  lemma {:induction false} InsertHits(n: Tree, iv: Interval, s: Segment, f: Value, t: Value)
    requires Spans(n) && HasLeaf(n, s) && s.SubsetOf(iv.seg) && !s.Disjoint(f, t)
    ensures Hits(InsertInterval(n, iv), iv, f, t)
    decreases n
  {
    if !n.segment.SubsetOf(iv.seg) {
      if HasLeaf(n.left, s) { InsertHits(n.left, iv, s, f, t); } else { InsertHits(n.right, iv, s, f, t); }
    }
  }

  lemma {:induction false} InsertKeepsHits(n: Tree, x: Interval, iv: Interval, f: Value, t: Value)
    requires Hits(n, iv, f, t)
    ensures Hits(InsertInterval(n, x), iv, f, t)
    decreases n
  {
    InsertSegment(n, x);
    if n.Node? {
      InsertSegment(n.left, x);
      InsertSegment(n.right, x);
      if Hits(n.left, iv, f, t) { InsertKeepsHits(n.left, x, iv, f, t); }
      if Hits(n.right, iv, f, t) { InsertKeepsHits(n.right, x, iv, f, t); }
    }
  }

  /** The interval is stored at leaf s or at a node above it. */
  ghost predicate Covers(n: Tree, iv: Interval, s: Segment) {
    HasLeaf(n, s) && (iv in n.overlap || (n.Node? && (Covers(n.left, iv, s) || Covers(n.right, iv, s))))
  }

  /** Inserting covers exactly the leaves inside the interval, and changes nothing about
      the other intervals. */
  lemma {:induction false} InsertCovers(n: Tree, x: Interval, s: Segment)
    requires Spans(n) && StoredInside(n) && HasLeaf(n, s)
    ensures Covers(InsertInterval(n, x), x, s) <==> s.SubsetOf(x.seg)
    ensures forall iv :: iv != x ==> (Covers(InsertInterval(n, x), iv, s) <==> Covers(n, iv, s))
    decreases n
  {
    InsertKeepsLeaves(n, x);
    if n.Node? {
      InsertKeepsLeaves(n.left, x);
      InsertKeepsLeaves(n.right, x);
      if HasLeaf(n.left, s) { InsertCovers(n.left, x, s); CoversInside(n.left, x, s); }
      if HasLeaf(n.right, s) { InsertCovers(n.right, x, s); CoversInside(n.right, x, s); }
    }
  }

  lemma {:induction false} CoversInside(n: Tree, iv: Interval, s: Segment)
    requires Spans(n) && StoredInside(n)
    ensures Covers(n, iv, s) ==> s.SubsetOf(iv.seg)
    decreases n
  {
    if n.Node? {
      CoversInside(n.left, iv, s);
      CoversInside(n.right, iv, s);
    }
  }

  lemma InsertSegment(n: Tree, x: Interval)
    ensures InsertInterval(n, x).segment == n.segment
  {
  }

  // ---- endpoints and elementary intervals

  ghost predicate Increasing(p: seq<Value>) {
    forall i, j :: 0 <= i < j < |p| ==> p[i] < p[j]
  }

  function ElementaryIntervals(p: seq<Value>): (r: seq<Segment>)
    requires p != []
    ensures |r| == 2 * |p| - 1
    ensures forall i :: 0 <= i < |r| ==> r[i] == Segment(p[i / 2], p[(i + 1) / 2])
  {
    seq(2 * |p| - 1, i requires 0 <= i < 2 * |p| - 1 => Segment(p[i / 2], p[(i + 1) / 2]))
  }

  /** Contiguous proper segments. */
  ghost predicate Ordered(leaves: seq<Segment>) {
    && (forall i :: 0 <= i < |leaves| ==> Proper(leaves[i]))
    && (forall i, j :: 0 <= i < j < |leaves| ==> leaves[i].from <= leaves[j].from && leaves[i].to <= leaves[j].to)
  }

  lemma ElementaryOrdered(p: seq<Value>)
    requires p != [] && Increasing(p)
    ensures Ordered(ElementaryIntervals(p))
  {
    var r := ElementaryIntervals(p);
    forall i, j | 0 <= i < j < |r| ensures r[i].from <= r[j].from && r[i].to <= r[j].to {
      assert i / 2 <= j / 2 && (i + 1) / 2 <= (j + 1) / 2;
    }
    forall i | 0 <= i < |r| ensures Proper(r[i]) {
      assert i / 2 <= (i + 1) / 2;
    }
  }

  ghost predicate FreshTree(n: Tree, leaves: seq<Segment>) {
    && leaves != [] && n.segment == Segment(leaves[0].from, leaves[|leaves| - 1].to)
    && StoredInside(n) && AllProper(n) && Spans(n)
    && (forall s :: HasLeaf(n, s) <==> s in leaves)
    && (forall iv :: !Stores(n, iv))
  }

  lemma {:induction false} InsertNodesCorrect(leaves: seq<Segment>)
    requires leaves != [] && Ordered(leaves)
    ensures FreshTree(InsertNodes(leaves), leaves)
    decreases |leaves|
  {
    SpanOfOrdered(leaves);
    if |leaves| > 1 {
      var c := |leaves| / 2;
      assert Ordered(leaves[..c]) && Ordered(leaves[c..]) by { OrderedParts(leaves, c); }
      InsertNodesCorrect(leaves[..c]);
      InsertNodesCorrect(leaves[c..]);
      JoinFresh(InsertNodes(leaves[..c]), InsertNodes(leaves[c..]), leaves, c);
    } else {
      assert leaves == [leaves[0]];
      FreshLeaf(leaves[0]);
    }
  }

  lemma FreshLeaf(s: Segment)
    requires Proper(s)
    ensures FreshTree(Leaf(s, []), [s])
  {
  }

  lemma OrderedParts(leaves: seq<Segment>, c: nat)
    requires Ordered(leaves) && c <= |leaves|
    ensures Ordered(leaves[..c]) && Ordered(leaves[c..])
  {
  }

  lemma JoinFresh(left: Tree, right: Tree, leaves: seq<Segment>, c: nat)
    requires c <= |leaves| && FreshTree(left, leaves[..c]) && FreshTree(right, leaves[c..])
    requires Proper(Segment(leaves[0].from, leaves[|leaves| - 1].to))
    requires forall s :: s in leaves ==> Proper(s) && s.SubsetOf(Segment(leaves[0].from, leaves[|leaves| - 1].to))
    ensures FreshTree(Node(Segment(leaves[0].from, leaves[|leaves| - 1].to), [], left, right), leaves)
  {
    assert leaves == leaves[..c] + leaves[c..];
    var n := Node(Segment(leaves[0].from, leaves[|leaves| - 1].to), [], left, right);
    forall s ensures HasLeaf(n, s) <==> s in leaves {
      assert s in leaves <==> s in leaves[..c] || s in leaves[c..];
    }
    assert StoredInside(n);
    assert AllProper(n);
    assert Spans(n);
    forall iv ensures !Stores(n, iv) {}
  }

  lemma SpanOfOrdered(leaves: seq<Segment>)
    requires leaves != [] && Ordered(leaves)
    ensures Proper(Segment(leaves[0].from, leaves[|leaves| - 1].to))
    ensures forall s :: s in leaves ==> Proper(s) && s.SubsetOf(Segment(leaves[0].from, leaves[|leaves| - 1].to))
  {
    forall s | s in leaves ensures Proper(s) && s.SubsetOf(Segment(leaves[0].from, leaves[|leaves| - 1].to)) {
      var i :| 0 <= i < |leaves| && leaves[i] == s;
    }
  }

  lemma {:induction false} Bracket(p: seq<Value>, x: Value, n: nat) returns (k: nat)
    requires Increasing(p) && 0 < n <= |p| && p[0] <= x && (n < |p| ==> x < p[n])
    ensures k < n && p[k] <= x && (k + 1 < |p| ==> x < p[k + 1])
  {
    if p[n - 1] <= x { k := n - 1; } else { k := Bracket(p, x, n - 1); }
  }

  lemma IndexOrder(p: seq<Value>, i: nat, j: nat)
    requires Increasing(p) && i < |p| && j < |p|
    ensures i <= j <==> p[i] <= p[j]
  {
  }

  /** The end point x, or the gap between end points around it, lies inside seg. */
  lemma Around(p: seq<Value>, seg: Segment, x: Value) returns (k: nat)
    requires Increasing(p) && seg.from in p && seg.to in p
    requires seg.from <= x <= seg.to
    ensures k < |p| && (p[k] == x || (k + 1 < |p| && seg.from <= p[k] <= x <= p[k + 1] <= seg.to))
  {
    var a :| 0 <= a < |p| && p[a] == seg.from;
    var b :| 0 <= b < |p| && p[b] == seg.to;
    IndexOrder(p, 0, a);
    k := Bracket(p, x, |p|);
    IndexOrder(p, a, k);
    IndexOrder(p, k, b);
    if k + 1 < |p| {
      IndexOrder(p, k + 1, b);
    }
  }

  lemma ElementAt(p: seq<Value>, k: nat)
    requires k < |p|
    ensures Segment(p[k], p[k]) in ElementaryIntervals(p)
    ensures k + 1 < |p| ==> Segment(p[k], p[k + 1]) in ElementaryIntervals(p)
  {
    var r := ElementaryIntervals(p);
    assert r[2 * k] == Segment(p[k], p[k]);
    if k + 1 < |p| {
      assert r[2 * k + 1] == Segment(p[k], p[k + 1]);
    }
  }

  /** Some elementary segment inside [from, to] meets the query. */
  lemma Witness(p: seq<Value>, seg: Segment, f: Value, t: Value) returns (s: Segment)
    requires Increasing(p) && seg.from in p && seg.to in p
    requires Proper(seg) && f <= t && Meets(seg, f, t)
    ensures s in ElementaryIntervals(p) && s.SubsetOf(seg) && !s.Disjoint(f, t)
  {
    var x := if seg.from < f then f else seg.from;
    var k := Around(p, seg, x);
    ElementAt(p, k);
    s := if p[k] == x then Segment(x, x) else Segment(p[k], p[k + 1]);
  }

  // ---- sorting and removing duplicates

  ghost predicate Sorted(s: seq<Value>) {
    forall i, j :: 0 <= i < j < |s| ==> s[i] <= s[j]
  }

  /** sort.Slice on values. */
  function Sort(s: seq<Value>): (r: seq<Value>)
    ensures Sorted(r) && forall x :: x in r <==> x in s
    ensures |r| == |s|
  {
    if s == [] then [] else
      assert s == s[..|s| - 1] + [s[|s| - 1]];
      Insert(Sort(s[..|s| - 1]), s[|s| - 1])
  }

  function Insert(s: seq<Value>, x: Value): (r: seq<Value>)
    requires Sorted(s)
    ensures Sorted(r) && (forall y :: y in r <==> y in s || y == x) && |r| == |s| + 1
  {
    if s == [] || s[|s| - 1] <= x then s + [x]
    else
      var front := Insert(s[..|s| - 1], x);
      assert s == s[..|s| - 1] + [s[|s| - 1]];
      forall i | 0 <= i < |front| ensures front[i] <= s[|s| - 1] {
        assert front[i] in front;
      }
      front + [s[|s| - 1]]
  }

  /** The first j cells hold the distinct values of the first i sorted ones. */
  ghost predicate Distinct(sl: seq<Value>, sorted: seq<Value>, i: nat, j: nat) {
    && j <= i <= |sl| == |sorted| && sl[i..] == sorted[i..]
    && (j == 0 <==> i == 0) && (i > 0 ==> sl[j - 1] == sorted[i - 1])
    && var (r, q) := (sl[..j], sorted[..i]);
    Increasing(r) && forall x :: x in r <==> x in q
  }

  /** Overwrites the front of the sorted slice with its distinct values. */
  method Dedup(values: seq<Value>) returns (r: seq<Value>)
    requires values != []
    ensures r != [] && Increasing(r) && forall x :: x in r <==> x in values
  {
    hide Sorted;
    var sl := Sort(values);
    ghost var sorted := sl;
    var prev := (sl[0] + 1) % UINT32;
    var j: nat := 0;
    for i := 0 to |sl|
      invariant Distinct(sl, sorted, i, j) && |sl| == |sorted|
      invariant if i == 0 then prev != sl[0] else prev == sl[j - 1]
    {
      DedupStep(sl, sorted, i, j);
      if sl[i] == prev { continue; }
      sl := sl[j := sl[i]];
      prev := sl[j];
      j := j + 1;
    }
    r := sl[..j];
    AllDistinct(sl, sorted, j);
  }

  lemma AllDistinct(sl: seq<Value>, sorted: seq<Value>, j: nat)
    requires sorted != [] && Distinct(sl, sorted, |sorted|, j)
    ensures 0 < j <= |sl| && Increasing(sl[..j]) && forall x :: x in sl[..j] <==> x in sorted
  {
    assert sorted[..|sorted|] == sorted;
  }

  lemma DedupStep(sl: seq<Value>, sorted: seq<Value>, i: nat, j: nat)
    requires Distinct(sl, sorted, i, j) && i < |sl| && Sorted(sorted)
    ensures i > 0 && sl[i] == sl[j - 1] ==> Distinct(sl, sorted, i + 1, j)
    ensures i == 0 || sl[i] != sl[j - 1] ==> Distinct(sl[j := sl[i]], sorted, i + 1, j + 1)
  {
    assert sl[i] == sl[i..][0] == sorted[i];
    assert sorted[..i + 1] == sorted[..i] + [sorted[i]];
    if i > 0 && sl[i] == sl[j - 1] {
      assert sl[..j][j - 1] == sorted[i];
    } else {
      assert sl[j := sl[i]][..j + 1] == sl[..j] + [sl[i]];
      forall k | 0 <= k < j ensures sl[..j][k] < sl[i] {
        assert sl[..j][k] <= sl[..j][j - 1];
      }
    }
  }

  lemma EndpointsListed(base: seq<Interval>, froms: seq<Value>, tos: seq<Value>)
    requires |froms| == |tos| == |base|
    requires forall i :: 0 <= i < |base| ==> froms[i] == base[i].seg.from && tos[i] == base[i].seg.to
    ensures forall i :: 0 <= i < |base| ==> base[i].seg.from in froms + tos && base[i].seg.to in froms + tos
  {
    forall i | 0 <= i < |base| ensures base[i].seg.from in froms + tos && base[i].seg.to in froms + tos {
      assert (froms + tos)[i] == base[i].seg.from && (froms + tos)[|base| + i] == base[i].seg.to;
    }
  }

  // ---- the tree object

  class Stree {
    var count: Value
    var root: Option<Tree>
    var base: seq<Interval>
    var min: Value
    var max: Value

    constructor ()
      ensures base == [] && root == None && count == 0 && Numbered(base, count)
    {
      count, root, base, min, max := 0, None, [], 0, 0;
    }

    /** The id wraps around like the uint32 it is. */
    method AddRange(from: Value, to: Value)
      modifies this`base, this`count
      ensures base == old(base) + [Interval(old(count), Segment(from, to))]
      ensures count == (old(count) + 1) % UINT32
      ensures old(Numbered(base, count)) ==> Numbered(base, count)
    {
      base := base + [Interval(count, Segment(from, to))];
      count := (count + 1) % UINT32;
    }

    method Clear()
      modifies this
      ensures base == [] && root == None && count == 0 && Numbered(base, count)
    {
      count, root, base, min, max := 0, None, [], 0, 0;
    }

    method Build()
      modifies this`root, this`min, this`max
      ensures base == [] ==> root == old(root)
      ensures base != [] ==> root.Some? && BuiltFrom(root.value, base)
    {
      if base == [] { return; }
      var es := Endpoints();
      var leaves := ElementaryIntervals(es);
      ElementaryOrdered(es);
      InsertNodesCorrect(leaves);
      var tree := InsertNodes(leaves);
      for i := 0 to |base|
        invariant StoredInside(tree) && AllProper(tree) && Spans(tree)
        invariant forall s :: HasLeaf(tree, s) <==> s in leaves
        invariant forall iv :: Stores(tree, iv) ==> iv in base[..i]
        invariant Reaches(tree, base[..i])
      {
        InsertOne(tree, es, base, i);
        tree := InsertInterval(tree, base[i]);
      }
      assert base[..|base|] == base;
      root := Some(tree);
      BuiltCorrect(tree, base);
    }

    method Endpoints() returns (es: seq<Value>)
      requires base != []
      modifies this`min, this`max
      ensures es != [] && Increasing(es)
      ensures forall i :: 0 <= i < |base| ==> base[i].seg.from in es && base[i].seg.to in es
      ensures min == es[0] && max == es[|es| - 1]
    {
      var froms := seq(|base|, i requires 0 <= i < |base| reads this => base[i].seg.from);
      var tos := seq(|base|, i requires 0 <= i < |base| reads this => base[i].seg.to);
      assert forall i :: 0 <= i < |base| ==> froms[i] == base[i].seg.from && tos[i] == base[i].seg.to;
      EndpointsListed(base, froms, tos);
      es := Dedup(froms + tos);
      min, max := es[0], es[|es| - 1];
    }

    method Query(f: Value, t: Value) returns (result: map<Value, Interval>)
      ensures root == None ==> result == map[]
      ensures root.Some? ==> result == QuerySingle(root.value, f, t, map[])
    {
      if root == None { return map[]; }
      result := QuerySingle(root.value, f, t, map[]);
    }

    method Contains(v: Value) returns (found: bool)
      requires root == None ==> base == []
      requires root.Some? ==> BuiltFrom(root.value, base)
      ensures found <==> exists i :: 0 <= i < |base| && base[i].seg.from <= v <= base[i].seg.to
    {
      var result := Query(v, v);
      found := |result| > 0;
      if root.Some? {
        QueryExact(root.value, base, v, v);
        if found {
          var id :| id in result.Keys;
          var iv := result[id];
          var i :| 0 <= i < |base| && base[i] == iv;
          assert base[i].seg.from <= v <= base[i].seg.to;
        }
        if i :| 0 <= i < |base| && base[i].seg.from <= v <= base[i].seg.to {
          assert base[i].id in result;
        }
      }
    }
  }

  /** Every proper interval of `done` is reached by every query that it meets. */
  ghost predicate Reaches(tree: Tree, done: seq<Interval>) {
    forall iv, f, t :: iv in done && Proper(iv.seg) && f <= t && Meets(iv.seg, f, t) ==> Hits(tree, iv, f, t)
  }

  /** A query from <= to reaches exactly the proper intervals of `base` that meet it. */
  ghost predicate BuiltFrom(tree: Tree, base: seq<Interval>) {
    forall iv, f, t :: f <= t ==> (Hits(tree, iv, f, t) <==> iv in base && Proper(iv.seg) && Meets(iv.seg, f, t))
  }

  lemma InsertOne(tree: Tree, es: seq<Value>, base: seq<Interval>, i: nat)
    requires i < |base| && es != [] && Increasing(es) && base[i].seg.from in es && base[i].seg.to in es
    requires StoredInside(tree) && AllProper(tree) && Spans(tree)
    requires forall s :: HasLeaf(tree, s) <==> s in ElementaryIntervals(es)
    requires (forall iv :: Stores(tree, iv) ==> iv in base[..i]) && Reaches(tree, base[..i])
    ensures var after := InsertInterval(tree, base[i]);
            && StoredInside(after) && AllProper(after) && Spans(after)
            && (forall s :: HasLeaf(after, s) <==> s in ElementaryIntervals(es))
            && (forall iv :: Stores(after, iv) ==> iv in base[..i + 1])
            && Reaches(after, base[..i + 1])
  {
    var x := base[i];
    var after := InsertInterval(tree, x);
    InsertSound(tree, x);
    InsertKeepsLeaves(tree, x);
    assert base[..i + 1] == base[..i] + [x];
    forall iv, f: Value, t: Value | iv in base[..i + 1] && Proper(iv.seg) && f <= t && Meets(iv.seg, f, t)
      ensures Hits(after, iv, f, t)
    {
      if iv in base[..i] {
        InsertKeepsHits(tree, x, iv, f, t);
      } else {
        var s := Witness(es, x.seg, f, t);
        InsertHits(tree, x, s, f, t);
      }
    }
  }

  lemma BuiltCorrect(tree: Tree, base: seq<Interval>)
    requires StoredInside(tree) && AllProper(tree)
    requires (forall iv :: Stores(tree, iv) ==> iv in base) && Reaches(tree, base)
    ensures BuiltFrom(tree, base)
  {
    forall iv, f: Value, t: Value | f <= t && Hits(tree, iv, f, t)
      ensures iv in base && Proper(iv.seg) && Meets(iv.seg, f, t)
    {
      HitsSound(tree, iv, f, t);
    }
  }

  /** After Build, a query with f <= t returns, by id, exactly the added intervals with
      from <= to that meet [f, t]. */
  lemma QueryExact(tree: Tree, base: seq<Interval>, f: Value, t: Value)
    requires BuiltFrom(tree, base) && f <= t
    ensures var result := QuerySingle(tree, f, t, map[]);
            && (forall id :: id in result ==>
                  result[id].id == id && result[id] in base && Proper(result[id].seg) && Meets(result[id].seg, f, t))
            && (forall iv :: iv in base && Proper(iv.seg) && Meets(iv.seg, f, t) ==> iv.id in result)
  {
    QueryCollects(tree, f, t, map[], iset{});
    assert iset{} + AllHits(tree, f, t) == AllHits(tree, f, t);
    var result := QuerySingle(tree, f, t, map[]);
    forall iv | iv in base && Proper(iv.seg) && Meets(iv.seg, f, t) ensures iv.id in result {
      assert Hits(tree, iv, f, t) && iv in AllHits(tree, f, t);
    }
  }

  // ---- the ids

  /** Ids count the insertions since the last Clear, modulo 2^32. */
  ghost predicate Numbered(base: seq<Interval>, count: Value) {
    count == |base| % UINT32 && forall i :: 0 <= i < |base| ==> base[i].id == i % UINT32
  }

  ghost predicate Unique(base: seq<Interval>) {
    forall i, j :: 0 <= i < j < |base| ==> base[i].id != base[j].id
  }

  lemma UniqueExactly(base: seq<Interval>, count: Value)
    requires Numbered(base, count)
    ensures Unique(base) <==> |base| <= UINT32
  {
    if |base| > UINT32 {
      assert base[0].id == base[UINT32].id;
    }
  }

  /** With up to 2^32 intervals a query returns exactly those that meet it. */
  lemma QueryReturns(tree: Tree, base: seq<Interval>, count: Value, f: Value, t: Value, i: nat)
    requires BuiltFrom(tree, base) && f <= t && Numbered(base, count) && |base| <= UINT32 && i < |base|
    ensures var result, iv := QuerySingle(tree, f, t, map[]), base[i];
            iv.id in result && result[iv.id] == iv <==> Proper(iv.seg) && Meets(iv.seg, f, t)
  {
    UniqueExactly(base, count);
    QueryExact(tree, base, f, t);
    var result, id := QuerySingle(tree, f, t, map[]), base[i].id;
    if id in result {
      var other := result[id];
      assert other.id == id && other in base;
      var j :| 0 <= j < |base| && base[j] == other;
    }
  }
}
