/** The order kept by container/heap, on the sequence of priorities. */
module Heaps {

  import opened Common

  /** No element is smaller than its parent, among the first n. */
  ghost predicate Ordered(s: seq<int>, n: nat) {
    n <= |s| && forall i {:trigger s[i]} :: 1 <= i < n ==> s[(i - 1) / 2] <= s[i]
  }

  /** Ordered but for position j, which may be smaller than its parent. */
  ghost predicate OrderedBelow(s: seq<int>, n: nat, j: nat) {
    && j < n <= |s|
    && (forall i {:trigger s[i]} :: 1 <= i < n && i != j ==> s[(i - 1) / 2] <= s[i])
    && (j > 0 ==> forall i :: 1 <= i < n && (i - 1) / 2 == j ==> s[(j - 1) / 2] <= s[i])
  }

  /** Ordered but for position j, which may be too small or too large. */
  ghost predicate OrderedAround(s: seq<int>, n: nat, j: nat) {
    && j < n <= |s|
    && (forall i {:trigger s[i]} :: 1 <= i < n && i != j && (i - 1) / 2 != j ==> s[(i - 1) / 2] <= s[i])
    && (j > 0 ==> forall i :: 1 <= i < n && (i - 1) / 2 == j ==> s[(j - 1) / 2] <= s[i])
  }

  lemma UpStep(s: seq<int>, n: nat, j: nat)
    requires OrderedBelow(s, n, j) && j > 0 && s[j] < s[(j - 1) / 2]
    ensures OrderedBelow(Swapped(s, (j - 1) / 2, j), n, (j - 1) / 2)
  {
    var p := (j - 1) / 2;
    var t := Swapped(s, p, j);
    forall i {:trigger t[i]} | 1 <= i < n && i != p ensures t[(i - 1) / 2] <= t[i] {
      if (i - 1) / 2 == j {
        assert s[p] <= s[i];
      } else if (i - 1) / 2 == p && i != j {
        assert s[p] <= s[i];
      }
    }
    if p > 0 {
      forall i | 1 <= i < n && (i - 1) / 2 == p ensures t[(p - 1) / 2] <= t[i] {
        assert s[(p - 1) / 2] <= s[p];
      }
    }
  }

  /** The larger of two things below j moves up; c is the smaller child. */
  lemma DownStep(s: seq<int>, n: nat, j: nat, c: nat)
    requires OrderedAround(s, n, j) && (j > 0 ==> s[(j - 1) / 2] <= s[j])
    requires c < n && c > 0 && (c - 1) / 2 == j && s[c] < s[j]
    requires forall i :: 1 <= i < n && (i - 1) / 2 == j ==> s[c] <= s[i]
    ensures OrderedAround(Swapped(s, j, c), n, c) && Swapped(s, j, c)[j] <= Swapped(s, j, c)[c]
  {
    var t := Swapped(s, j, c);
    forall i {:trigger t[i]} | 1 <= i < n && i != c && (i - 1) / 2 != c ensures t[(i - 1) / 2] <= t[i] {
      if i == j { assert s[(j - 1) / 2] <= s[c]; }
    }
    forall i | 1 <= i < n && (i - 1) / 2 == c ensures t[(c - 1) / 2] <= t[i] {
      assert s[c] <= s[i];
    }
  }

  /** The first step down from a position that may also be too small. */
  lemma FirstDownStep(s: seq<int>, n: nat, j: nat, c: nat)
    requires OrderedAround(s, n, j)
    requires c < n && c > 0 && (c - 1) / 2 == j && s[c] < s[j]
    requires forall i :: 1 <= i < n && (i - 1) / 2 == j ==> s[c] <= s[i]
    ensures j > 0 ==> s[(j - 1) / 2] <= s[j]
  {
    if j > 0 { assert s[(j - 1) / 2] <= s[c]; }
  }

  lemma SettledDown(s: seq<int>, n: nat, j: nat)
    requires OrderedAround(s, n, j)
    requires forall i :: 1 <= i < n && (i - 1) / 2 == j ==> s[j] <= s[i]
    ensures OrderedBelow(s, n, j)
    ensures (j > 0 ==> s[(j - 1) / 2] <= s[j]) ==> Ordered(s, n)
  {
  }

  lemma SettledUp(s: seq<int>, n: nat, j: nat)
    requires OrderedBelow(s, n, j) && (j > 0 ==> s[(j - 1) / 2] <= s[j])
    ensures Ordered(s, n)
  {
  }

  /** Replacing any one element leaves a heap that Fix can repair. */
  lemma OneChanged(s: seq<int>, n: nat, j: nat, x: int)
    requires Ordered(s, n) && j < n
    ensures OrderedAround(s[j := x], n, j)
  {
    if j > 0 {
      forall i | 1 <= i < n && (i - 1) / 2 == j ensures s[(j - 1) / 2] <= s[i] {
        assert s[(j - 1) / 2] <= s[j] <= s[i];
      }
    }
  }

  /** The root is a least element. */
  lemma {:induction false} RootIsLeast(s: seq<int>, n: nat, i: nat)
    requires Ordered(s, n) && i < n
    ensures s[0] <= s[i]
    decreases i
  {
    if i > 0 { RootIsLeast(s, n, (i - 1) / 2); }
  }

  lemma InRange(s: seq<int>, n: nat, j: nat)
    requires OrderedBelow(s, n, j)
    ensures j < n <= |s|
  {
  }

  lemma Around(s: seq<int>, n: nat, j: nat)
    requires OrderedAround(s, n, j)
    ensures j < n <= |s|
  {
  }
}
