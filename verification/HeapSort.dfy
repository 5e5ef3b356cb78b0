/** sort() and binary_search() of lib/stdlib.c. */
module HeapSort {
  import opened Basics

  /** compare() is a strcmp()-type total preorder. */
  ghost predicate Lawful<T(!new)>(cmp: (T, T) -> int) {
    && (forall x, y :: cmp(x, y) < 0 <==> cmp(y, x) > 0)
    && (forall x, y, z :: cmp(x, y) <= 0 && cmp(y, z) <= 0 ==> cmp(x, z) <= 0)
  }

  ghost predicate Sorted<T>(s: seq<T>, cmp: (T, T) -> int, lo: int) {
    forall i, j :: 0 <= lo <= i < j < |s| ==> cmp(s[i], s[j]) <= 0
  }

  /** Exchange of the elements with 1-based indexes i and j. */
  function Swapped<T>(s: seq<T>, i: int, j: int): seq<T>
    requires 1 <= i <= |s| && 1 <= j <= |s|
  {
    s[i - 1 := s[j - 1]][j - 1 := s[i - 1]]
  }

  lemma SwappedPerm<T>(s: seq<T>, i: int, j: int)
    requires 1 <= i <= |s| && 1 <= j <= |s|
    ensures multiset(Swapped(s, i, j)) == multiset(s)
  {
  }

  // ----- heaps ----------------------------------------------------------------------------

  /** Child j does not exceed its parent. */
  predicate Below<T>(s: seq<T>, cmp: (T, T) -> int, j: int)
    requires 2 <= j <= |s|
  {
    cmp(s[j - 1], s[j / 2 - 1]) <= 0
  }

  /** Every parent from i on, among the first n elements, is at least its children. */
  ghost predicate Heap<T>(s: seq<T>, cmp: (T, T) -> int, i: int, n: int) {
    n <= |s| && forall j :: 2 <= j <= n && i <= j / 2 ==> Below(s, cmp, j)
  }

  /** Likewise but for the children of h, which do not exceed h's parent. */
  ghost predicate Sinking<T>(s: seq<T>, cmp: (T, T) -> int, i: int, n: int, h: int) {
    && n <= |s| && 1 <= i <= h
    && (forall j :: 2 <= j <= n && i <= j / 2 && j / 2 != h ==> Below(s, cmp, j))
    && (forall j :: 2 <= j <= n && j / 2 == h && i <= h / 2 ==> cmp(s[j - 1], s[h / 2 - 1]) <= 0)
  }

  /** m is the largest of h and its children. */
  ghost predicate Largest<T>(s: seq<T>, cmp: (T, T) -> int, n: int, h: int, m: int) {
    && 1 <= h <= m <= n <= |s| && (m == h || m / 2 == h)
    && cmp(s[h - 1], s[m - 1]) <= 0
    && forall j :: 2 <= j <= n && j / 2 == h ==> cmp(s[j - 1], s[m - 1]) <= 0
  }

  lemma SinkDone<T>(s: seq<T>, cmp: (T, T) -> int, i: int, n: int, h: int)
    requires Sinking(s, cmp, i, n, h) && Largest(s, cmp, n, h, h)
    ensures Heap(s, cmp, i, n)
  {
  }

  lemma SinkMore<T(!new)>(s: seq<T>, cmp: (T, T) -> int, i: int, n: int, h: int, m: int)
    requires Lawful(cmp) && Sinking(s, cmp, i, n, h) && Largest(s, cmp, n, h, m) && m != h
    ensures Sinking(Swapped(s, h, m), cmp, i, n, m)
  {
    var r := Swapped(s, h, m);
    forall j | 2 <= j <= n && i <= j / 2 && j / 2 != m
      ensures Below(r, cmp, j)
    {
      if j / 2 == h {
        assert r[h - 1] == s[m - 1];
      } else if j == h {
        assert cmp(s[m - 1], s[h / 2 - 1]) <= 0;
      } else {
        assert Below(s, cmp, j);
      }
    }
    forall j | 2 <= j <= n && j / 2 == m && i <= m / 2
      ensures cmp(r[j - 1], r[m / 2 - 1]) <= 0
    {
      assert Below(s, cmp, j);
    }
  }

  /** The root of a heap is its largest element. */
  lemma {:induction false} RootIsLargest<T(!new)>(s: seq<T>, cmp: (T, T) -> int, n: int, k: int)
    requires Lawful(cmp) && Heap(s, cmp, 1, n) && 1 <= k <= n
    ensures cmp(s[k - 1], s[0]) <= 0
    decreases k
  {
    if k > 1 {
      assert Below(s, cmp, k);
      RootIsLargest(s, cmp, n, k / 2);
    }
  }

  // ----- the methods ----------------------------------------------------------------------

  /** do_swap() */
  method Swap<T>(a: array<T>, i: int, j: int)
    requires 1 <= i <= a.Length && 1 <= j <= a.Length
    modifies a
    ensures a[..] == Swapped(old(a[..]), i, j)
  {
    a[i - 1], a[j - 1] := a[j - 1], a[i - 1];
  }

  /** The larger of the elements m and k, if k is within the first n. */
  method Larger<T(!new)>(a: array<T>, cmp: (T, T) -> int, n: int, m: int, k: int) returns (r: int)
    requires Lawful(cmp) && 1 <= m <= n <= a.Length && 1 <= k
    ensures 1 <= r <= n && (r == m || r == k) && cmp(a[m - 1], a[r - 1]) <= 0 && (k <= n ==> cmp(a[k - 1], a[r - 1]) <= 0)
  {
    r := m;
    if k <= n && cmp(a[k - 1], a[m - 1]) > 0 { r := k; }
    Reflexive(cmp, a[r - 1]);
  }

  lemma Reflexive<T(!new)>(cmp: (T, T) -> int, x: T)
    requires Lawful(cmp)
    ensures cmp(x, x) == 0
  {
  }

  lemma Transitive<T(!new)>(cmp: (T, T) -> int, x: T, y: T, z: T)
    requires Lawful(cmp) && cmp(x, y) <= 0 && cmp(y, z) <= 0
    ensures cmp(x, z) <= 0
  {
  }

  lemma LargestOf<T>(s: seq<T>, cmp: (T, T) -> int, n: int, h: int, m: int)
    requires 1 <= h <= n <= |s| && 1 <= m <= n && (m == h || m == 2 * h || m == 2 * h + 1) && cmp(s[h - 1], s[m - 1]) <= 0
    requires 2 * h <= n ==> cmp(s[2 * h - 1], s[m - 1]) <= 0
    requires 2 * h + 1 <= n ==> cmp(s[2 * h], s[m - 1]) <= 0
    ensures Largest(s, cmp, n, h, m)
  {
    forall j | 2 <= j <= n && j / 2 == h
      ensures cmp(s[j - 1], s[m - 1]) <= 0
    {
      assert j == 2 * h || j == 2 * h + 1;
    }
  }

  /** The first part of heapify's loop: the largest of h and its children. */
  method FindLargest<T(!new)>(a: array<T>, cmp: (T, T) -> int, n: int, h: int) returns (m: int)
    requires Lawful(cmp) && 1 <= h <= n <= a.Length
    ensures Largest(a[..], cmp, n, h, m)
  {
    var l := Larger(a, cmp, n, h, 2 * h);
    m := Larger(a, cmp, n, l, 2 * h + 1);
    Transitive(cmp, a[h - 1], a[l - 1], a[m - 1]);
    if 2 * h <= n { Transitive(cmp, a[2 * h - 1], a[l - 1], a[m - 1]); }
    LargestOf(a[..], cmp, n, h, m);
  }

  /** heapify(): makes a heap from i on of what was one from i + 1 on. */
  method Heapify<T(!new)>(a: array<T>, i: int, n: int, cmp: (T, T) -> int)
    requires Lawful(cmp) && 1 <= i <= n <= a.Length && Heap(a[..], cmp, i + 1, n)
    modifies a
    ensures Heap(a[..], cmp, i, n) && multiset(a[..]) == multiset(old(a[..])) && a[n..] == old(a[n..])
  {
    var h := i;
    while true
      invariant i <= h <= n && Sinking(a[..], cmp, i, n, h)
      invariant multiset(a[..]) == multiset(old(a[..])) && a[n..] == old(a[n..])
      decreases n - h
    {
      var m := FindLargest(a, cmp, n, h);
      if m == h {
        SinkDone(a[..], cmp, i, n, h);
        return;
      }
      SinkMore(a[..], cmp, i, n, h, m);
      SwappedPerm(a[..], h, m);
      Swap(a, h, m);
      h := m;
    }
  }

  /** The first n elements do not exceed the others, which are sorted. */
  ghost predicate Parted<T>(s: seq<T>, cmp: (T, T) -> int, n: int) {
    0 <= n <= |s| && Sorted(s, cmp, n) && forall i, j :: 0 <= i < n <= j < |s| ==> cmp(s[i], s[j]) <= 0
  }

  /** The root of the heap goes behind the others. */
  lemma PartMore<T(!new)>(s: seq<T>, cmp: (T, T) -> int, n: int)
    requires Lawful(cmp) && 1 < n <= |s| && Heap(s, cmp, 1, n) && Parted(s, cmp, n)
    ensures Parted(Swapped(s, 1, n), cmp, n - 1) && Heap(Swapped(s, 1, n), cmp, 2, n - 1)
  {
    var r := Swapped(s, 1, n);
    forall i | 0 <= i < n - 1
      ensures cmp(r[i], r[n - 1]) <= 0
    {
      RootIsLargest(s, cmp, n, if i == 0 then n else i + 1);
    }
    forall j | 2 <= j <= n - 1 && 2 <= j / 2
      ensures Below(r, cmp, j)
    {
      assert Below(s, cmp, j);
    }
    assert forall i :: n <= i < |s| ==> r[i] == s[i];
  }

  lemma FirstPerm<T>(s: seq<T>, r: seq<T>, n: int)
    requires 0 <= n <= |s| == |r| && multiset(r) == multiset(s) && r[n..] == s[n..]
    ensures forall i :: 0 <= i < n ==> r[i] in s[..n]
    ensures forall j :: n <= j < |s| ==> r[j] == s[j]
  {
    assert s == s[..n] + s[n..] && r == r[..n] + r[n..];
    assert multiset(r[..n]) == multiset(r) - multiset(r[n..]);
    assert multiset(s[..n]) == multiset(s) - multiset(s[n..]);
    forall i | 0 <= i < n
      ensures r[i] in s[..n]
    {
      assert r[..n][i] in multiset(r[..n]);
    }
  }

  /** A permutation of the first n elements leaves the parting. */
  lemma PartedPerm<T>(s: seq<T>, r: seq<T>, cmp: (T, T) -> int, n: int)
    requires Parted(s, cmp, n) && |r| == |s| && multiset(r) == multiset(s) && r[n..] == s[n..]
    ensures Parted(r, cmp, n)
  {
    FirstPerm(s, r, n);
    forall i, j | 0 <= i < n <= j < |r|
      ensures cmp(r[i], r[j]) <= 0
    {
      var k :| 0 <= k < n && s[..n][k] == r[i];
    }
  }

  /** One turn of sort's second loop: the largest of the first n goes to its place. */
  method PlaceLargest<T(!new)>(a: array<T>, n: int, cmp: (T, T) -> int)
    requires Lawful(cmp) && 1 < n <= a.Length && Heap(a[..], cmp, 1, n) && Parted(a[..], cmp, n)
    modifies a
    ensures Heap(a[..], cmp, 1, n - 1) && Parted(a[..], cmp, n - 1) && multiset(a[..]) == multiset(old(a[..]))
  {
    PartMore(a[..], cmp, n);
    SwappedPerm(a[..], 1, n);
    Swap(a, 1, n);
    ghost var s := a[..];
    Heapify(a, 1, n - 1, cmp);
    PartedPerm(s, a[..], cmp, n - 1);
  }

  /** sort(): in order, and a permutation. */
  method Sort<T(!new)>(a: array<T>, cmp: (T, T) -> int)
    requires Lawful(cmp)
    modifies a
    ensures Sorted(a[..], cmp, 0) && multiset(a[..]) == multiset(old(a[..]))
  {
    BuildHeap(a, cmp);
    var i := a.Length;
    while i > 1
      invariant 0 <= i <= a.Length && Heap(a[..], cmp, 1, i) && Parted(a[..], cmp, i)
      invariant multiset(a[..]) == multiset(old(a[..]))
    {
      PlaceLargest(a, i, cmp);
      i := i - 1;
    }
  }

  method BuildHeap<T(!new)>(a: array<T>, cmp: (T, T) -> int)
    requires Lawful(cmp)
    modifies a
    ensures Heap(a[..], cmp, 1, a.Length) && multiset(a[..]) == multiset(old(a[..]))
  {
    var i := a.Length / 2;
    while i > 0
      invariant 0 <= i <= a.Length / 2 && Heap(a[..], cmp, i + 1, a.Length) && multiset(a[..]) == multiset(old(a[..]))
    {
      Heapify(a, i, a.Length, cmp);
      i := i - 1;
    }
  }

  // ----- searching --------------------------------------------------------------------------

  /** binary_search(): an element that matches key, if there is one. */
  method BinarySearch<T(!new)>(key: T, s: seq<T>, cmp: (T, T) -> int) returns (r: Option<nat>)
    requires Lawful(cmp) && Sorted(s, cmp, 0)
    ensures r.Some? ==> r.value < |s| && cmp(key, s[r.value]) == 0
    ensures r.None? ==> forall i :: 0 <= i < |s| ==> cmp(key, s[i]) != 0
  {
    var first, last := 0, |s|;
    while first < last
      invariant 0 <= first <= last <= |s|
      invariant forall i :: 0 <= i < first || last <= i < |s| ==> cmp(key, s[i]) != 0
    {
      var middle := first + (last - first) / 2;
      var c := cmp(key, s[middle]);
      if c < 0 {
        Outside(key, s, cmp, middle);
        last := middle;
      } else if c > 0 {
        Outside(key, s, cmp, middle);
        first := middle + 1;
      } else {
        return Some(middle);
      }
    }
    r := None;
  }

  lemma Outside<T(!new)>(key: T, s: seq<T>, cmp: (T, T) -> int, m: int)
    requires Lawful(cmp) && Sorted(s, cmp, 0) && 0 <= m < |s|
    ensures cmp(key, s[m]) < 0 ==> forall i :: m <= i < |s| ==> cmp(key, s[i]) < 0
    ensures cmp(key, s[m]) > 0 ==> forall i :: 0 <= i <= m ==> cmp(key, s[i]) > 0
  {
    forall i | 0 <= i < |s|
      ensures m <= i && cmp(key, s[m]) < 0 ==> cmp(key, s[i]) < 0
      ensures i <= m && cmp(key, s[m]) > 0 ==> cmp(key, s[i]) > 0
    {
    }
  }

  /** Sorting and then searching finds a match exactly if the array held one before. */
  lemma SortedHasSame<T>(was: seq<T>, now: seq<T>, cmp: (T, T) -> int, key: T)
    requires multiset(now) == multiset(was)
    ensures (exists i :: 0 <= i < |now| && cmp(key, now[i]) == 0) <==> (exists i :: 0 <= i < |was| && cmp(key, was[i]) == 0)
  {
    if i :| 0 <= i < |now| && cmp(key, now[i]) == 0 {
      assert now[i] in multiset(was);
    }
    if i :| 0 <= i < |was| && cmp(key, was[i]) == 0 {
      assert was[i] in multiset(now);
    }
  }
}
