/** Strict weak orders, natural runs, and stable rearrangements of sequences. */
module StableOrder {
  import opened Basics

  /** less is asymmetric on xs, and incomparability is transitive there. */
  ghost predicate StrictWeak<T>(less: (T, T) -> bool, xs: set<T>) {
    && (forall x, y :: x in xs && y in xs && less(x, y) ==> !less(y, x))
    && (forall x, y, z :: x in xs && y in xs && z in xs && less(x, z) ==> less(x, y) || less(y, z))
  }

  ghost predicate Within<T>(s: seq<T>, a: int, b: int, xs: set<T>) {
    forall i :: 0 <= a <= i < b <= |s| ==> s[i] in xs
  }

  /** s[a..b] is in nondecreasing order. */
  ghost predicate SortedIn<T>(less: (T, T) -> bool, s: seq<T>, a: int, b: int) {
    forall i, j :: 0 <= a <= i < j < b <= |s| ==> !less(s[j], s[i])
  }

  // ----- stability ------------------------------------------------------------------

  ghost predicate Before<T>(s: seq<T>, x: T, y: T) {
    exists i, j :: 0 <= i < j < |s| && s[i] == x && s[j] == y
  }

  /** r rearranges s, and changes the order of two elements only to put the smaller one first. */
  ghost predicate Kept<T>(less: (T, T) -> bool, s: seq<T>, r: seq<T>) {
    && multiset(r) == multiset(s)
    && forall i, j :: 0 <= i < j < |r| ==> Before(s, r[i], r[j]) || less(r[i], r[j])
  }

  lemma KeptSame<T>(less: (T, T) -> bool, s: seq<T>)
    ensures Kept(less, s, s)
  {
  }

  lemma KeptTrans<T>(less: (T, T) -> bool, s: seq<T>, r: seq<T>, q: seq<T>)
    requires Kept(less, s, r) && Kept(less, r, q)
    ensures Kept(less, s, q)
  {
    forall i, j | 0 <= i < j < |q|
      ensures Before(s, q[i], q[j]) || less(q[i], q[j])
    {
      if Before(r, q[i], q[j]) {
        var k, l :| 0 <= k < l < |r| && r[k] == q[i] && r[l] == q[j];
      }
    }
  }

  /** The element at j moved in front of the one at k. */
  function Moved<T>(s: seq<T>, k: int, j: int): seq<T>
    requires 0 <= k <= j < |s|
  {
    s[..k] + [s[j]] + s[k..j] + s[j + 1..]
  }

  /** Where the element at i of Moved(s, k, j) was in s. */
  function Origin(k: int, j: int, i: int): int {
    if i == k then j else if k < i <= j then i - 1 else i
  }

  lemma MovedAt<T>(s: seq<T>, k: int, j: int)
    requires 0 <= k <= j < |s|
    ensures |Moved(s, k, j)| == |s|
    ensures forall i :: 0 <= i < |s| ==> Moved(s, k, j)[i] == s[Origin(k, j, i)]
  {
  }

  lemma MovedMultiset<T>(s: seq<T>, k: int, j: int)
    requires 0 <= k <= j < |s|
    ensures multiset(Moved(s, k, j)) == multiset(s)
  {
    assert s == s[..k] + s[k..j] + [s[j]] + s[j + 1..];
  }

  lemma KeptMove<T>(less: (T, T) -> bool, s: seq<T>, k: int, j: int)
    requires 0 <= k <= j < |s| && forall m :: k <= m < j ==> less(s[j], s[m])
    ensures Kept(less, s, Moved(s, k, j))
  {
    MovedAt(s, k, j);
    MovedMultiset(s, k, j);
    var r := Moved(s, k, j);
    forall a, b | 0 <= a < b < |r|
      ensures Before(s, r[a], r[b]) || less(r[a], r[b])
    {
      var oa, ob := Origin(k, j, a), Origin(k, j, b);
      assert r[a] == s[oa] && r[b] == s[ob];
      assert oa < ob || (oa == j && k <= ob < j);
    }
  }

  // ----- merging two adjacent sorted runs -----------------------------------------------

  /** d[a..p] is merged, and is followed by what is left of the two runs, d[p..q] and d[q..b]. */
  ghost predicate Merging<T>(less: (T, T) -> bool, d: seq<T>, a: int, p: int, q: int, b: int) {
    && 0 <= a <= p <= q <= b <= |d|
    && SortedIn(less, d, a, q) && SortedIn(less, d, q, b)
    && forall i, j :: a <= i < p && q <= j < b ==> !less(d[j], d[i])
  }

  lemma MergeSkip<T>(less: (T, T) -> bool, xs: set<T>, d: seq<T>, a: int, p: int, q: int, b: int)
    requires StrictWeak(less, xs) && Within(d, a, b, xs)
    requires Merging(less, d, a, p, q, b) && p < q < b && !less(d[q], d[p])
    ensures Merging(less, d, a, p + 1, q, b)
  {
    forall j | q <= j < b
      ensures !less(d[j], d[p])
    {
      assert d[j] in xs && d[p] in xs && d[q] in xs;
    }
  }

  lemma MergeJumps<T>(less: (T, T) -> bool, xs: set<T>, d: seq<T>, a: int, p: int, q: int, b: int)
    requires StrictWeak(less, xs) && Within(d, a, b, xs)
    requires Merging(less, d, a, p, q, b) && p < q < b && less(d[q], d[p])
    ensures forall m :: p <= m < q ==> less(d[q], d[m])
  {
    forall m | p <= m < q
      ensures less(d[q], d[m])
    {
      assert d[m] in xs && d[p] in xs && d[q] in xs;
    }
  }

  lemma MergeMove<T>(less: (T, T) -> bool, xs: set<T>, d: seq<T>, a: int, p: int, q: int, b: int)
    requires StrictWeak(less, xs) && Within(d, a, b, xs)
    requires Merging(less, d, a, p, q, b) && p < q < b && less(d[q], d[p])
    ensures Merging(less, Moved(d, p, q), a, p + 1, q + 1, b) && Within(Moved(d, p, q), a, b, xs)
  {
    MergeJumps(less, xs, d, a, p, q, b);
    MovedAt(d, p, q);
    var e := Moved(d, p, q);
    forall i, j | a <= i < j < q + 1
      ensures !less(e[j], e[i])
    {
      var oi, oj := Origin(p, q, i), Origin(p, q, j);
      assert e[i] == d[oi] && e[j] == d[oj] && d[oi] in xs && d[oj] in xs;
    }
    assert forall i, j :: a <= i < p + 1 && q + 1 <= j < b ==> !less(e[j], e[i]);
  }

  // ----- natural runs -----------------------------------------------------------------

  /** How many places in s[a..b] an element is smaller than the one before it. */
  function Descents<T>(less: (T, T) -> bool, s: seq<T>, a: nat, b: nat): nat
    requires a < b <= |s|
    decreases b
  {
    if a + 1 == b then 0
    else Descents(less, s, a, b - 1) + (if less(s[b - 1], s[b - 2]) then 1 else 0)
  }

  /** The number of maximal nondecreasing runs of s[a..b]. */
  function Runs<T>(less: (T, T) -> bool, s: seq<T>, a: nat, b: nat): nat
    requires a <= b <= |s|
  {
    if a == b then 0 else Descents(less, s, a, b) + 1
  }

  lemma {:induction false} SplitDescents<T>(less: (T, T) -> bool, s: seq<T>, a: nat, m: nat, b: nat)
    requires a < m < b <= |s|
    ensures Descents(less, s, a, b) == Descents(less, s, a, m) + Descents(less, s, m, b) + (if less(s[m], s[m - 1]) then 1 else 0)
    decreases b
  {
    if m + 1 < b { SplitDescents(less, s, a, m, b - 1); }
  }

  lemma SplitRuns<T>(less: (T, T) -> bool, s: seq<T>, a: nat, m: nat, b: nat)
    requires a <= m <= b <= |s|
    ensures Runs(less, s, a, b) <= Runs(less, s, a, m) + Runs(less, s, m, b)
    ensures a < m < b && less(s[m], s[m - 1]) ==> Runs(less, s, a, b) == Runs(less, s, a, m) + Runs(less, s, m, b)
  {
    if a < m < b { SplitDescents(less, s, a, m, b); }
  }

  lemma {:induction false} SameRuns<T>(less: (T, T) -> bool, s: seq<T>, r: seq<T>, a: nat, b: nat)
    requires a <= b <= |s| && b <= |r| && forall i :: a <= i < b ==> r[i] == s[i]
    ensures Runs(less, r, a, b) == Runs(less, s, a, b)
    decreases b
  {
    if a < b { SameRuns(less, s, r, a, b - 1); }
  }

  /** Neighbours in order is all in order, and one run. */
  lemma {:induction false} RunIsSorted<T>(less: (T, T) -> bool, xs: set<T>, s: seq<T>, a: nat, b: nat)
    requires StrictWeak(less, xs) && Within(s, a, b, xs)
    requires a < b <= |s| && forall i :: a < i < b ==> !less(s[i], s[i - 1])
    ensures SortedIn(less, s, a, b) && Runs(less, s, a, b) == 1
    decreases b
  {
    if a + 1 < b {
      RunIsSorted(less, xs, s, a, b - 1);
      forall i | a <= i < b - 1
        ensures !less(s[b - 1], s[i])
      {
        assert s[b - 1] in xs && s[i] in xs && s[b - 2] in xs;
      }
    }
  }

  lemma {:induction false} SortedIsRun<T>(less: (T, T) -> bool, s: seq<T>, a: nat, b: nat)
    requires a < b <= |s| && SortedIn(less, s, a, b)
    ensures Runs(less, s, a, b) == 1
    decreases b
  {
    if a + 1 < b { SortedIsRun(less, s, a, b - 1); }
  }

  lemma {:induction false} OneRun<T>(less: (T, T) -> bool, s: seq<T>, a: nat, b: nat)
    requires a < b <= |s| && Runs(less, s, a, b) <= 1
    ensures forall i :: a < i < b ==> !less(s[i], s[i - 1])
    decreases b
  {
    if a + 1 < b { OneRun(less, s, a, b - 1); }
  }

  // ----- the stable sort of a sequence is unique ---------------------------------------------

  lemma SameFirst<T>(p: seq<T>, q: seq<T>)
    requires multiset(p) == multiset(q) && p != [] && q != []
    requires forall i, j :: 0 <= i < j < |p| ==> !Before(q, p[j], p[i])
    ensures p[0] == q[0]
  {
    assert p[0] in multiset(q) && q[0] in multiset(p);
    var k :| 0 <= k < |q| && q[k] == p[0];
    var m :| 0 <= m < |p| && p[m] == q[0];
    if k > 0 && m > 0 { assert Before(q, p[m], p[0]); }
  }

  lemma BeforeTail<T>(q: seq<T>, x: T, y: T)
    requires q != [] && Before(q[1..], x, y)
    ensures Before(q, x, y)
  {
    var a, b :| 0 <= a < b < |q| - 1 && q[1..][a] == x && q[1..][b] == y;
    assert q[a + 1] == x && q[b + 1] == y;
  }

  lemma SameTail<T>(p: seq<T>, q: seq<T>)
    requires multiset(p) == multiset(q) && p != [] && q != [] && p[0] == q[0]
    ensures multiset(p[1..]) == multiset(q[1..])
  {
    assert p == [p[0]] + p[1..] && q == [q[0]] + q[1..];
    assert multiset(p[1..]) == multiset(p) - multiset{p[0]};
  }

  lemma {:induction false} SameOrder<T>(p: seq<T>, q: seq<T>)
    requires multiset(p) == multiset(q)
    requires forall i, j :: 0 <= i < j < |p| ==> !Before(q, p[j], p[i])
    ensures p == q
  {
    assert |p| == |multiset(p)| == |multiset(q)| == |q|;
    if p != [] {
      SameFirst(p, q);
      SameTail(p, q);
      forall i, j | 0 <= i < j < |p[1..]|
        ensures !Before(q[1..], p[1..][j], p[1..][i])
      {
        assert p[1..][i] == p[i + 1] && p[1..][j] == p[j + 1];
        if Before(q[1..], p[j + 1], p[i + 1]) { BeforeTail(q, p[j + 1], p[i + 1]); }
      }
      SameOrder(p[1..], q[1..]);
      assert p == [p[0]] + p[1..] && q == [q[0]] + q[1..];
    }
  }

  /** Of all rearrangements of s that are sorted and stable there is one. */
  lemma StableSortUnique<T>(less: (T, T) -> bool, s: seq<T>, p: seq<T>, q: seq<T>)
    requires NoDup(s) && Kept(less, s, p) && Kept(less, s, q)
    requires SortedIn(less, p, 0, |p|) && SortedIn(less, q, 0, |q|)
    ensures p == q
  {
    forall i, j | 0 <= i < j < |p|
      ensures !Before(q, p[j], p[i])
    {
    }
    SameOrder(p, q);
  }
}
