/** The doubly linked lists of lib/kernel/list.c: heap nodes between two sentinels. */
module Lists {
  import opened Basics
  import opened StableOrder

  class Elem {
    var prev: Elem?
    var next: Elem?
    constructor () { prev, next := null, null; }
  }

  /** Consecutive nodes of c point to each other. */
  ghost predicate Joined(c: seq<Elem>)
    reads c
  {
    forall i :: 0 <= i < |c| - 1 ==> c[i].next == c[i + 1] && c[i + 1].prev == c[i]
  }

  /** c is a whole list: c[0] is its head, the last of c its tail, and the elements are between. */
  ghost predicate Linked(c: seq<Elem>)
    reads c
  {
    |c| >= 2 && NoDup(c) && Joined(c) && c[0].prev == null && c[|c| - 1].next == null
  }

  lemma Neighbours(c: seq<Elem>, k: nat)
    requires Linked(c) && k < |c| - 1
    ensures c[k].next == c[k + 1] && c[k + 1].prev == c[k]
  {
  }

  /** list_next() */
  method Next(e: Elem, ghost c: seq<Elem>, ghost k: nat) returns (after: Elem)
    requires Linked(c) && k < |c| - 1 && c[k] == e
    ensures after == c[k + 1]
  {
    Neighbours(c, k);
    after := e.next;
  }

  /** list_prev() */
  method Prev(e: Elem, ghost c: seq<Elem>, ghost k: nat) returns (earlier: Elem)
    requires Linked(c) && 0 < k < |c| && c[k] == e
    ensures earlier == c[k - 1]
  {
    Neighbours(c, k - 1);
    earlier := e.prev;
  }

  /** list_insert(): elem goes in front of before, which may be the tail. */
  method Insert(before: Elem, elem: Elem, ghost c: seq<Elem>, ghost k: nat)
    requires Linked(c) && 0 < k < |c| && c[k] == before && elem !in c
    modifies c[k - 1], c[k], elem
    ensures Linked(c[..k] + [elem] + c[k..])
  {
    elem.prev := before.prev;
    elem.next := before;
    before.prev.next := elem;
    before.prev := elem;
  }

  /** list_remove() */
  method Remove(elem: Elem, ghost c: seq<Elem>, ghost k: nat) returns (after: Elem)
    requires Linked(c) && 0 < k < |c| - 1 && c[k] == elem
    modifies c[k - 1], c[k + 1]
    ensures Linked(c[..k] + c[k + 1..]) && after == c[k + 1]
  {
    elem.prev.next := elem.next;
    elem.next.prev := elem.prev;
    after := elem.next;
  }

  /** The first half of list_splice(): d[i..j] leaves its list. */
  method Unlink(first: Elem, last: Elem, ghost d: seq<Elem>, ghost i: nat, ghost j: nat)
    requires Linked(d) && 0 < i < j < |d| && d[i] == first && d[j - 1] == last
    modifies d[i - 1], d[j]
    ensures Linked(d[..i] + d[j..]) && Joined(d[i..j])
  {
    first.prev.next := last.next;
    last.next.prev := first.prev;
  }

  /** The second half of list_splice(): the nodes b enter in front of before. */
  method LinkIn(before: Elem, first: Elem, last: Elem, ghost b: seq<Elem>, ghost c: seq<Elem>, ghost k: nat)
    requires b != [] && NoDup(b) && Joined(b) && b[0] == first && b[|b| - 1] == last
    requires Linked(c) && 0 < k < |c| && c[k] == before && NoDup(c[..k] + b + c[k..])
    modifies first, last, c[k - 1], c[k]
    ensures Linked(c[..k] + b + c[k..])
  {
    ghost var r, n := c[..k] + b + c[k..], |b|;
    assert forall i :: 0 <= i < k ==> r[i] == c[i];
    assert forall i :: k <= i < k + n ==> r[i] == b[i - k];
    assert forall i :: k + n <= i < |r| ==> r[i] == c[i - n];
    assert c[k - 1] == r[k - 1] && first == r[k] && last == r[k + n - 1] && before == r[k + n];
    assert r[0] == c[0] && r[|r| - 1] == c[|c| - 1];
    first.prev := before.prev;
    last.next := before;
    before.prev.next := first;
    before.prev := last;
    forall i | 0 <= i < |r| - 1
      ensures r[i].next == r[i + 1] && r[i + 1].prev == r[i]
    {
      if i < k - 1 {
        assert r[i] == c[i] && r[i + 1] == c[i + 1];
      } else if k <= i < k + n - 1 {
        assert r[i] == b[i - k] && r[i + 1] == b[i + 1 - k];
      } else if k + n <= i {
        assert r[i] == c[i - n] && r[i + 1] == c[i + 1 - n];
      }
    }
  }

  ghost predicate Apart(c: seq<Elem>, d: seq<Elem>) {
    forall i, j :: 0 <= i < |c| && 0 <= j < |d| ==> c[i] != d[j]
  }

  lemma CutDistinct(d: seq<Elem>, i: nat, j: nat)
    requires NoDup(d) && i <= j <= |d|
    ensures NoDup(d[..i] + d[j..]) && NoDup(d[i..j]) && Apart(d[i..j], d[..i] + d[j..])
  {
    var e := d[..i] + d[j..];
    assert forall m :: 0 <= m < i ==> e[m] == d[m];
    assert forall m :: i <= m < |e| ==> e[m] == d[m + j - i];
  }

  lemma PasteDistinct(c: seq<Elem>, k: nat, b: seq<Elem>)
    requires NoDup(c) && NoDup(b) && Apart(b, c) && k <= |c|
    ensures NoDup(c[..k] + b + c[k..])
  {
    var r, n := c[..k] + b + c[k..], |b|;
    assert forall i :: 0 <= i < k ==> r[i] == c[i];
    assert forall i :: k <= i < k + n ==> r[i] == b[i - k];
    assert forall i :: k + n <= i < |r| ==> r[i] == c[i - n];
  }

  /** list_splice(): moves d[i..j] in front of before.  c is the list before is in, once
      the moved nodes are cut out of it if it is the same list. */
  method Splice(before: Elem, first: Elem, last: Elem, ghost d: seq<Elem>, ghost i: nat, ghost j: nat, ghost c: seq<Elem>, ghost k: nat)
    requires Linked(d) && 0 < i <= j < |d| && d[i] == first && d[j] == last
    requires c == d[..i] + d[j..] || (Linked(c) && Apart(d, c))
    requires 0 < k < |c| && c[k] == before
    modifies d[i - 1], d[i], d[j - 1], d[j], c[k - 1], c[k]
    ensures Linked(c[..k] + d[i..j] + c[k..])
    ensures c != d[..i] + d[j..] ==> Linked(d[..i] + d[j..])
  {
    if first == last {
      assert c[..k] + d[i..j] + c[k..] == c && d[..i] + d[j..] == d;
    } else {
      CutDistinct(d, i, j);
      PasteDistinct(c, k, d[i..j]);
      var end := last.prev;
      Unlink(first, end, d, i, j);
      LinkIn(before, first, end, d[i..j], c, k);
    }
  }

  // ----- natural merge sort ----------------------------------------------------------

  /** find_end_of_run(): the run that starts at c[p] ends before c[r]. */
  method FindEndOfRun(a: Elem, b: Elem, less: (Elem, Elem) -> bool, ghost c: seq<Elem>, ghost p: nat, ghost q: nat)
    returns (e: Elem, ghost r: nat)
    requires Linked(c) && p < q < |c| && c[p] == a && c[q] == b
    ensures p < r <= q && c[r] == e
    ensures (forall i :: p < i < r ==> !less(c[i], c[i - 1])) && (r < q ==> less(c[r], c[r - 1]))
  {
    Neighbours(c, p);
    e, r := a.next, p + 1;
    while e != b && !less(e, e.prev)
      invariant p < r <= q && c[r] == e && e.prev == c[r - 1]
      invariant forall i :: p < i < r ==> !less(c[i], c[i - 1])
      decreases q - r
    {
      Neighbours(c, r);
      e, r := e.next, r + 1;
    }
  }

  lemma KeptMembers(less: (Elem, Elem) -> bool, c: seq<Elem>, d: seq<Elem>)
    requires Kept(less, c, d)
    ensures |d| == |c| && forall i :: 0 <= i < |d| ==> d[i] in c
  {
    assert |d| == |multiset(d)| == |multiset(c)| == |c|;
    forall i | 0 <= i < |d|
      ensures d[i] in c
    {
      assert d[i] in multiset(d);
    }
  }

  /** inplace_merge() has turned c into d: d[i..p] is merged, d[p..q] and d[q..k] are left. */
  ghost predicate Merged(less: (Elem, Elem) -> bool, xs: set<Elem>, c: seq<Elem>, d: seq<Elem>, i: nat, p: nat, q: nat, k: nat) {
    && |d| == |c| && Kept(less, c, d) && Within(d, i, k, xs) && Merging(less, d, i, p, q, k)
    && d[..i] == c[..i] && d[k..] == c[k..]
  }

  lemma MergedSkip(less: (Elem, Elem) -> bool, xs: set<Elem>, c: seq<Elem>, d: seq<Elem>, i: nat, p: nat, q: nat, k: nat)
    requires StrictWeak(less, xs) && Merged(less, xs, c, d, i, p, q, k) && p < q < k && !less(d[q], d[p])
    ensures Merged(less, xs, c, d, i, p + 1, q, k)
  {
    MergeSkip(less, xs, d, i, p, q, k);
  }

  lemma MergedDone(less: (Elem, Elem) -> bool, xs: set<Elem>, c: seq<Elem>, d: seq<Elem>, i: nat, p: nat, q: nat, k: nat)
    requires Merged(less, xs, c, d, i, p, q, k) && (p == q || q == k)
    ensures Merged(less, xs, c, d, i, k, k, k)
  {
    assert SortedIn(less, d, i, k);
  }

  lemma MergedEnd(less: (Elem, Elem) -> bool, xs: set<Elem>, c: seq<Elem>, d: seq<Elem>, i: nat, p: nat, q: nat, k: nat)
    requires Merged(less, xs, c, d, i, p, q, k) && k < |c|
    ensures d[k] == c[k]
  {
    assert d[k..][0] == c[k..][0];
  }

  lemma MovedPoints(d: seq<Elem>, p: nat, q: nat, k: nat)
    requires p < q < k < |d|
    ensures var e := Moved(d, p, q); |e| == |d| && e[p + 1] == d[p] && e[q + 1] == d[q + 1] && e[k] == d[k]
  {
  }

  lemma MergedMove(less: (Elem, Elem) -> bool, xs: set<Elem>, c: seq<Elem>, d: seq<Elem>, i: nat, p: nat, q: nat, k: nat)
    requires StrictWeak(less, xs) && Merged(less, xs, c, d, i, p, q, k) && p < q < k && less(d[q], d[p])
    ensures Merged(less, xs, c, Moved(d, p, q), i, p + 1, q + 1, k)
  {
    MergeJumps(less, xs, d, i, p, q, k);
    MergeMove(less, xs, d, i, p, q, k);
    KeptMove(less, d, p, q);
    KeptTrans(less, c, d, Moved(d, p, q));
  }

  lemma SpliceIsMove(d: seq<Elem>, p: nat, q: nat)
    requires p <= q < |d|
    ensures var e := d[..q] + d[q + 1..]; e[..p] + d[q..q + 1] + e[p..] == Moved(d, p, q)
  {
  }

  /** Moves y in front of x, and returns what followed y. */
  method PullForward(x: Elem, y: Elem, ghost d: seq<Elem>, ghost p: nat, ghost q: nat) returns (after: Elem)
    requires Linked(d) && 0 < p < q < |d| - 1 && d[p] == x && d[q] == y
    modifies d
    ensures Linked(Moved(d, p, q)) && after == d[q + 1]
  {
    Neighbours(d, q);
    SpliceIsMove(d, p, q);
    after := y.next;
    Splice(x, after.prev, after, d, q, q + 1, d[..q] + d[q + 1..], p);
  }

  /** One turn of inplace_merge's loop. */
  method MergeTurn(x: Elem, y: Elem, less: (Elem, Elem) -> bool, ghost xs: set<Elem>, ghost c: seq<Elem>,
                   ghost d: seq<Elem>, ghost i: nat, ghost p: nat, ghost q: nat, ghost k: nat)
    returns (x': Elem, y': Elem, ghost d': seq<Elem>, ghost q': nat)
    requires Linked(d) && Merged(less, xs, c, d, i, p, q, k) && StrictWeak(less, xs)
    requires 0 < i <= p < q < k < |d| && d[p] == x && d[q] == y
    modifies c
    ensures Linked(d') && Merged(less, xs, c, d', i, p + 1, q', k)
    ensures d'[p + 1] == x' && d'[q'] == y'
  {
    if !less(y, x) {
      MergedSkip(less, xs, c, d, i, p, q, k);
      x' := Next(x, d, p);
      y', d', q' := y, d, q;
    } else {
      MergedMove(less, xs, c, d, i, p, q, k);
      KeptMembers(less, c, d);
      MovedPoints(d, p, q, k);
      y' := PullForward(x, y, d, p, q);
      x', d', q' := x, Moved(d, p, q), q + 1;
    }
  }

  /** inplace_merge(): merges the sorted runs c[i..j] and c[j..k]. */
  method InplaceMerge(a0: Elem, a1b0: Elem, b1: Elem, less: (Elem, Elem) -> bool, ghost xs: set<Elem>,
                      ghost c: seq<Elem>, ghost i: nat, ghost j: nat, ghost k: nat)
    returns (ghost d: seq<Elem>)
    requires Linked(c) && 0 < i < j < k < |c| && c[i] == a0 && c[j] == a1b0 && c[k] == b1
    requires StrictWeak(less, xs) && Within(c, i, k, xs)
    requires SortedIn(less, c, i, j) && SortedIn(less, c, j, k)
    modifies c
    ensures Linked(d) && Merged(less, xs, c, d, i, k, k, k)
  {
    d := c;
    KeptSame(less, c);
    var x: Elem, y: Elem := a0, a1b0;
    ghost var p, q := i, j;
    while x != y && y != b1
      invariant Linked(d) && Merged(less, xs, c, d, i, p, q, k)
      invariant d[p] == x && d[q] == y
      decreases k - p
    {
      MergedEnd(less, xs, c, d, i, p, q, k);
      x, y, d, q := MergeTurn(x, y, less, xs, c, d, i, p, q, k);
      p := p + 1;
    }
    MergedDone(less, xs, c, d, i, p, q, k);
  }

  /** d is c, rearranged stably between its sentinels. */
  ghost predicate Rearranged(less: (Elem, Elem) -> bool, xs: set<Elem>, c: seq<Elem>, d: seq<Elem>) {
    && |d| == |c| >= 2 && Kept(less, c, d) && Within(d, 1, |d| - 1, xs)
    && d[0] == c[0] && d[|d| - 1] == c[|c| - 1]
  }

  /** e is d but for a sorted stretch from i to k. */
  ghost predicate Resorted(less: (Elem, Elem) -> bool, d: seq<Elem>, e: seq<Elem>, i: nat, k: nat) {
    && |e| == |d| && i <= k <= |d| && SortedIn(less, e, i, k)
    && (forall m :: 0 <= m < i ==> e[m] == d[m]) && (forall m :: k <= m < |d| ==> e[m] == d[m])
  }

  lemma MergedResorts(less: (Elem, Elem) -> bool, xs: set<Elem>, d: seq<Elem>, e: seq<Elem>, i: nat, k: nat)
    requires Merged(less, xs, d, e, i, k, k, k)
    ensures Resorted(less, d, e, i, k)
  {
    assert forall m :: 0 <= m < i ==> e[m] == d[..i][m];
    assert forall m :: k <= m < |d| ==> e[m] == d[k..][m - k];
  }

  lemma RearrangedMerge(less: (Elem, Elem) -> bool, xs: set<Elem>, c: seq<Elem>, d: seq<Elem>, e: seq<Elem>, i: nat, k: nat)
    requires Rearranged(less, xs, c, d) && Merged(less, xs, d, e, i, k, k, k) && 0 < i < k < |d|
    ensures Rearranged(less, xs, c, e)
  {
    KeptTrans(less, c, d, e);
    MergedResorts(less, xs, d, e, i, k);
  }

  /** A pass over c that has output cnt runs, up to position p of d. */
  ghost predicate Passing(less: (Elem, Elem) -> bool, c: seq<Elem>, d: seq<Elem>, p: nat, cnt: nat) {
    && |d| == |c| && 0 < p < |d|
    && Runs(less, d, 1, p) <= cnt
    && 2 * cnt + Runs(less, d, p, |d| - 1) <= Runs(less, c, 1, |c| - 1)
  }

  /** What a pass that output cnt runs guarantees: fewer runs than before, if more than one. */
  ghost predicate Passed(less: (Elem, Elem) -> bool, c: seq<Elem>, d: seq<Elem>, cnt: nat) {
    && |d| == |c| >= 2
    && Runs(less, d, 1, |d| - 1) <= cnt
    && (cnt > 1 ==> cnt < Runs(less, c, 1, |c| - 1))
  }

  /** r is where the run that starts at d[p] ends. */
  ghost predicate RunEnds(less: (Elem, Elem) -> bool, d: seq<Elem>, p: nat, r: nat) {
    && p < r < |d|
    && (forall i :: p < i < r ==> !less(d[i], d[i - 1]))
    && (r < |d| - 1 ==> less(d[r], d[r - 1]))
  }

  lemma RunCounts(less: (Elem, Elem) -> bool, xs: set<Elem>, d: seq<Elem>, p: nat, r: nat)
    requires StrictWeak(less, xs) && Within(d, 1, |d| - 1, xs) && 0 < p && RunEnds(less, d, p, r)
    ensures SortedIn(less, d, p, r) && Runs(less, d, p, r) == 1
    ensures Runs(less, d, p, |d| - 1) == 1 + Runs(less, d, r, |d| - 1)
  {
    RunIsSorted(less, xs, d, p, r);
    SplitRuns(less, d, p, r, |d| - 1);
  }

  lemma PassingMerge(less: (Elem, Elem) -> bool, c: seq<Elem>, d: seq<Elem>, e: seq<Elem>, p: nat, k: nat, cnt: nat)
    requires Passing(less, c, d, p, cnt) && Resorted(less, d, e, p, k) && p < k < |d|
    requires Runs(less, d, p, |d| - 1) == 2 + Runs(less, d, k, |d| - 1)
    ensures Passing(less, c, e, k, cnt + 1)
  {
    SameRuns(less, d, e, 1, p);
    SameRuns(less, d, e, k, |d| - 1);
    SortedIsRun(less, e, p, k);
    SplitRuns(less, e, 1, p, k);
  }

  lemma PassingLast(less: (Elem, Elem) -> bool, c: seq<Elem>, d: seq<Elem>, p: nat, cnt: nat)
    requires Passing(less, c, d, p, cnt) && Runs(less, d, p, |d| - 1) <= 1
    ensures Passed(less, c, d, cnt + Runs(less, d, p, |d| - 1))
  {
    SplitRuns(less, d, 1, p, |d| - 1);
  }

  /** Merges the run d[p..r] with the one after it. */
  method MergePair(a0: Elem, a1b0: Elem, tail: Elem, less: (Elem, Elem) -> bool, ghost xs: set<Elem>,
                   ghost c: seq<Elem>, ghost d: seq<Elem>, ghost p: nat, ghost r: nat, ghost cnt: nat)
    returns (b1: Elem, ghost e: seq<Elem>, ghost t: nat)
    requires Linked(d) && Rearranged(less, xs, c, d) && Passing(less, c, d, p, cnt) && StrictWeak(less, xs)
    requires RunEnds(less, d, p, r) && r < |d| - 1 && d[p] == a0 && d[r] == a1b0 && d[|d| - 1] == tail
    modifies c
    ensures Linked(e) && Rearranged(less, xs, c, e) && Passing(less, c, e, t, cnt + 1)
    ensures p < t && e[t] == b1
  {
    b1, t := FindEndOfRun(a1b0, tail, less, d, r, |d| - 1);
    RunCounts(less, xs, d, p, r);
    RunCounts(less, xs, d, r, t);
    KeptMembers(less, c, d);
    e := InplaceMerge(a0, a1b0, b1, less, xs, d, p, r, t);
    MergedResorts(less, xs, d, e, p, t);
    PassingMerge(less, c, d, e, p, t, cnt);
    RearrangedMerge(less, xs, c, d, e, p, t);
  }

  /** One pass of list_sort's outer loop: merges adjacent pairs of runs. */
  method MergePass(head: Elem, tail: Elem, less: (Elem, Elem) -> bool, ghost xs: set<Elem>, ghost c: seq<Elem>)
    returns (cnt: nat, ghost d: seq<Elem>)
    requires Linked(c) && c[0] == head && c[|c| - 1] == tail
    requires StrictWeak(less, xs) && Within(c, 1, |c| - 1, xs)
    modifies c
    ensures Linked(d) && Rearranged(less, xs, c, d) && Passed(less, c, d, cnt)
  {
    cnt, d := 0, c;
    KeptSame(less, c);
    var a0: Elem := Next(head, c, 0);
    ghost var p := 1;
    while a0 != tail
      invariant Linked(d) && Rearranged(less, xs, c, d) && Passing(less, c, d, p, cnt) && d[p] == a0
      decreases |d| - p
    {
      var a1b0: Elem;
      ghost var r;
      a1b0, r := FindEndOfRun(a0, tail, less, d, p, |d| - 1);
      if a1b0 == tail {
        RunCounts(less, xs, d, p, r);
        PassingLast(less, c, d, p, cnt);
        cnt := cnt + 1;
        return;
      }
      a0, d, p := MergePair(a0, a1b0, tail, less, xs, c, d, p, r, cnt);
      cnt := cnt + 1;
    }
    PassingLast(less, c, d, p, cnt);
  }

  lemma FewRunsSorted(less: (Elem, Elem) -> bool, xs: set<Elem>, d: seq<Elem>)
    requires StrictWeak(less, xs) && |d| >= 2 && Within(d, 1, |d| - 1, xs) && Runs(less, d, 1, |d| - 1) <= 1
    ensures SortedIn(less, d, 1, |d| - 1)
  {
    if |d| > 2 {
      OneRun(less, d, 1, |d| - 1);
      RunIsSorted(less, xs, d, 1, |d| - 1);
    }
  }

  /** list_sort() on the nodes c: passes, each with fewer natural runs than the one before,
      until a pass outputs no more than one run. */
  method SortChain(head: Elem, tail: Elem, less: (Elem, Elem) -> bool, ghost xs: set<Elem>, ghost c: seq<Elem>)
    returns (ghost d: seq<Elem>)
    requires Linked(c) && c[0] == head && c[|c| - 1] == tail
    requires StrictWeak(less, xs) && Within(c, 1, |c| - 1, xs)
    modifies c
    ensures Linked(d) && Rearranged(less, xs, c, d) && SortedIn(less, d, 1, |d| - 1)
  {
    var cnt: nat;
    cnt, d := MergePass(head, tail, less, xs, c);
    while cnt > 1
      invariant Linked(d) && Rearranged(less, xs, c, d) && Runs(less, d, 1, |d| - 1) <= cnt
      decreases cnt
    {
      KeptMembers(less, c, d);
      ghost var e;
      cnt, e := MergePass(head, tail, less, xs, d);
      KeptTrans(less, c, d, e);
      d := e;
    }
    FewRunsSorted(less, xs, d);
  }

  lemma BeforeInside(c: seq<Elem>, x: Elem, y: Elem)
    requires NoDup(c) && |c| >= 2 && Before(c, x, y)
    requires x in c[1..|c| - 1] && y in c[1..|c| - 1]
    ensures Before(c[1..|c| - 1], x, y)
  {
    var s := c[1..|c| - 1];
    var a, b :| 0 <= a < b < |c| && c[a] == x && c[b] == y;
    var i :| 0 <= i < |s| && s[i] == x;
    var j :| 0 <= j < |s| && s[j] == y;
    assert c[i + 1] == x && c[j + 1] == y;
  }

  lemma InnerMultiset(c: seq<Elem>)
    requires |c| >= 2
    ensures multiset(c[1..|c| - 1]) == multiset(c) - multiset{c[0]} - multiset{c[|c| - 1]}
  {
    assert c == [c[0]] + c[1..|c| - 1] + [c[|c| - 1]];
  }

  lemma KeptInside(less: (Elem, Elem) -> bool, c: seq<Elem>, d: seq<Elem>)
    requires NoDup(c) && |d| == |c| >= 2 && Kept(less, c, d) && d[0] == c[0] && d[|d| - 1] == c[|c| - 1]
    ensures Kept(less, c[1..|c| - 1], d[1..|d| - 1])
  {
    var s, r := c[1..|c| - 1], d[1..|d| - 1];
    InnerMultiset(c);
    InnerMultiset(d);
    forall i, j | 0 <= i < j < |r|
      ensures Before(s, r[i], r[j]) || less(r[i], r[j])
    {
      assert r[i] == d[i + 1] && r[j] == d[j + 1];
      if Before(c, r[i], r[j]) {
        assert r[i] in multiset(s) && r[j] in multiset(s);
        BeforeInside(c, r[i], r[j]);
      }
    }
  }

  lemma SortedInside(less: (Elem, Elem) -> bool, xs: set<Elem>, head: Elem, tail: Elem, s: seq<Elem>, d: seq<Elem>)
    requires var c := [head] + s + [tail]; NoDup(c) && Rearranged(less, xs, c, d)
    requires SortedIn(less, d, 1, |d| - 1)
    ensures var r := d[1..|d| - 1]; d == [head] + r + [tail] && Kept(less, s, r) && SortedIn(less, r, 0, |r|)
  {
    var c, r := [head] + s + [tail], d[1..|d| - 1];
    assert c[1..|c| - 1] == s;
    KeptInside(less, c, d);
    assert forall i :: 0 <= i < |r| ==> r[i] == d[i + 1];
  }

  // ----- reversal and ordered insertion --------------------------------------------------

  function Reversed<T>(s: seq<T>): (r: seq<T>)
    ensures |r| == |s| && forall i :: 0 <= i < |s| ==> r[i] == s[|s| - 1 - i]
  {
    if s == [] then [] else Reversed(s[1..]) + [s[0]]
  }

  /** The interior nodes of c up to k have their pointers swapped; the others are as in Linked(c). */
  ghost predicate Swapped(c: seq<Elem>, k: nat)
    requires |c| >= 2 && k < |c|
    reads c
  {
    && (forall i {:trigger c[i].prev} :: 0 < i < k ==> c[i].prev == c[i + 1])
    && (forall i {:trigger c[i].next} :: 0 < i < k ==> c[i].next == c[i - 1])
    && (forall i {:trigger c[i].next} :: k <= i < |c| - 1 ==> c[i].next == c[i + 1])
    && (forall i {:trigger c[i].prev} :: k <= i < |c| && 0 < i ==> c[i].prev == c[i - 1])
    && c[0].prev == null && c[|c| - 1].next == null && c[0].next == c[1]
  }

  method SwapOne(e: Elem, ghost c: seq<Elem>, ghost k: nat) returns (after: Elem)
    requires NoDup(c) && 0 < k < |c| - 1 && c[k] == e && Swapped(c, k)
    modifies e
    ensures Swapped(c, k + 1) && after == c[k + 1]
  {
    assert e.next == c[k + 1] && e.prev == c[k - 1];
    e.prev, e.next := e.next, e.prev;
    after := e.prev;
  }

  /** The loop of list_reverse(). */
  method SwapAll(head: Elem, tail: Elem, ghost c: seq<Elem>)
    requires Linked(c) && c[0] == head && c[|c| - 1] == tail
    modifies c
    ensures Swapped(c, |c| - 1)
  {
    var e: Elem := Next(head, c, 0);
    ghost var k := 1;
    while e != tail
      invariant 0 < k < |c| && e == c[k] && Swapped(c, k)
      decreases |c| - k
    {
      e := SwapOne(e, c, k);
      k := k + 1;
    }
  }

  /** The last two statements of list_reverse(). */
  method SwapEnds(head: Elem, tail: Elem, ghost c: seq<Elem>)
    requires |c| >= 3 && NoDup(c) && Swapped(c, |c| - 1) && c[0] == head && c[|c| - 1] == tail
    modifies c
    ensures Linked(Turned(c))
  {
    ghost var n, d := |c| - 1, Turned(c);
    assert head.next == c[1] && tail.prev == c[n - 1];
    assert c[1].next == head && c[n - 1].prev == tail;
    assert d[0] == c[0] && d[n] == c[n] && forall i :: 0 < i < n ==> d[i] == c[n - i];
    head.next, tail.prev := tail.prev, head.next;
    head.next.prev, tail.prev.next := tail.prev.next, head.next.prev;
    forall i | 0 <= i < n
      ensures d[i].next == d[i + 1] && d[i + 1].prev == d[i]
    {
      if 0 < i < n - 1 {
        assert d[i] == c[n - i] && d[i + 1] == c[n - i - 1];
      }
    }
  }

  /** The interior of c turned round. */
  ghost function Turned(c: seq<Elem>): (d: seq<Elem>)
    requires |c| >= 2
    ensures |d| == |c|
  {
    [c[0]] + Reversed(c[1..|c| - 1]) + [c[|c| - 1]]
  }

  /** elem belongs at k of s: behind all that are not greater, in front of the first that is. */
  ghost predicate AfterEquals(less: (Elem, Elem) -> bool, s: seq<Elem>, k: nat, elem: Elem) {
    && k <= |s| && (forall i :: 0 <= i < k ==> !less(elem, s[i])) && (k < |s| ==> less(elem, s[k]))
  }

  lemma InsertSorted(less: (Elem, Elem) -> bool, xs: set<Elem>, s: seq<Elem>, k: nat, elem: Elem)
    requires StrictWeak(less, xs) && Within(s, 0, |s|, xs) && elem in xs
    requires SortedIn(less, s, 0, |s|) && AfterEquals(less, s, k, elem)
    ensures var r := s[..k] + [elem] + s[k..]; SortedIn(less, r, 0, |r|)
  {
    forall j | k <= j < |s|
      ensures !less(s[j], elem)
    {
      assert s[j] in xs && s[k] in xs;
    }
    var r := s[..k] + [elem] + s[k..];
    assert forall i :: 0 <= i < k ==> r[i] == s[i];
    assert forall i :: k < i < |r| ==> r[i] == s[i - 1];
  }

  lemma InsertInside(head: Elem, tail: Elem, s: seq<Elem>, k: nat, elem: Elem)
    requires k <= |s|
    ensures var c := [head] + s + [tail]; c[..k + 1] + [elem] + c[k + 1..] == [head] + (s[..k] + [elem] + s[k..]) + [tail]
  {
  }

  /** The loop of list_insert_ordered(). */
  method FindPlace(head: Elem, tail: Elem, elem: Elem, less: (Elem, Elem) -> bool, ghost s: seq<Elem>)
    returns (e: Elem, ghost k: nat)
    requires Linked([head] + s + [tail])
    ensures AfterEquals(less, s, k, elem) && ([head] + s + [tail])[k + 1] == e
  {
    ghost var c := [head] + s + [tail];
    e := Next(head, c, 0);
    k := 0;
    while e != tail
      invariant k <= |s| && e == c[k + 1] && forall i :: 0 <= i < k ==> !less(elem, s[i])
      decreases |s| - k
    {
      assert c[|s| + 1] == tail;
      if less(elem, e) { break; }
      e := Next(e, c, k + 1);
      k := k + 1;
    }
  }

  lemma RemoveInside(head: Elem, tail: Elem, s: seq<Elem>, k: nat)
    requires k < |s| && NoDup([head] + s + [tail])
    ensures var c, r := [head] + s + [tail], [head] + (s[..k] + s[k + 1..]) + [tail];
      c[..k + 1] + c[k + 2..] == r && s[k] !in r && NoDup(r)
  {
    var c := [head] + s + [tail];
    CutDistinct(c, k + 1, k + 2);
    assert c[k + 1..k + 2] == [s[k]];
    assert c[..k + 1] + c[k + 2..] == [head] + (s[..k] + s[k + 1..]) + [tail];
    assert c[k + 1..k + 2][0] == s[k];
  }

  // ----- struct list -----------------------------------------------------------------

  class List {
    const head: Elem
    const tail: Elem
    ghost var elems: seq<Elem>

    ghost function Whole(): seq<Elem>
      reads this
    {
      [head] + elems + [tail]
    }

    ghost predicate Valid()
      reads this, Whole()
    {
      Linked(Whole())
    }

    /** list_init() */
    constructor ()
      ensures Valid() && elems == [] && fresh(head) && fresh(tail)
    {
      head := new Elem();
      tail := new Elem();
      elems := [];
      new;
      head.prev := null;
      head.next := tail;
      tail.prev := head;
      tail.next := null;
    }

    method PushBack(elem: Elem)
      requires Valid() && elem !in Whole()
      modifies this, Whole(), elem
      ensures Valid() && elems == old(elems) + [elem]
    {
      Insert(tail, elem, Whole(), |elems| + 1);
      elems := elems + [elem];
      assert Whole() == old(Whole())[..|old(elems)| + 1] + [elem] + old(Whole())[|old(elems)| + 1..];
    }

    method PushFront(elem: Elem)
      requires Valid() && elem !in Whole()
      modifies this, Whole(), elem
      ensures Valid() && elems == [elem] + old(elems)
    {
      var front := Next(head, Whole(), 0);
      Insert(front, elem, Whole(), 1);
      elems := [elem] + elems;
      assert Whole() == old(Whole())[..1] + [elem] + old(Whole())[1..];
    }

    method PopFront() returns (front: Elem)
      requires Valid() && elems != []
      modifies this, Whole()
      ensures Valid() && [front] + elems == old(elems)
    {
      front := Next(head, Whole(), 0);
      var _ := Remove(front, Whole(), 1);
      elems := elems[1..];
      assert Whole() == old(Whole())[..1] + old(Whole())[2..];
    }

    method PopBack() returns (back: Elem)
      requires Valid() && elems != []
      modifies this, Whole()
      ensures Valid() && elems + [back] == old(elems)
    {
      back := Prev(tail, Whole(), |elems| + 1);
      var _ := Remove(back, Whole(), |elems|);
      elems := elems[..|elems| - 1];
      assert Whole() == old(Whole())[..|old(elems)|] + old(Whole())[|old(elems)| + 1..];
    }

    /** list_sort(): the list stays well formed and becomes its stable sort. */
    method Sort(less: (Elem, Elem) -> bool)
      requires Valid() && StrictWeak(less, set e | e in elems)
      modifies this, Whole()
      ensures Valid() && Kept(less, old(elems), elems) && SortedIn(less, elems, 0, |elems|)
    {
      ghost var c, xs := Whole(), set e | e in elems;
      ghost var d := SortChain(head, tail, less, xs, c);
      SortedInside(less, xs, head, tail, elems, d);
      elems := d[1..|d| - 1];
    }

    /** list_reverse(): swaps every node's pointers, then repairs the two ends. */
    method Reverse()
      requires Valid()
      modifies this, Whole()
      ensures Valid() && elems == Reversed(old(elems))
    {
      assert Whole()[1..|elems| + 1] == elems;
      if elems == [] { Neighbours(Whole(), 0); } else { Neighbours(Whole(), 0); assert Whole()[1] != tail; }
      if head.next != tail {
        SwapAll(head, tail, Whole());
        SwapEnds(head, tail, Whole());
        elems := Reversed(elems);
      }
    }

    /** list_insert_ordered(): elem goes behind every element that is not greater. */
    method InsertOrdered(elem: Elem, less: (Elem, Elem) -> bool, ghost xs: set<Elem>) returns (ghost k: nat)
      requires Valid() && elem !in Whole()
      requires StrictWeak(less, xs) && Within(elems, 0, |elems|, xs) && elem in xs && SortedIn(less, elems, 0, |elems|)
      modifies this, Whole(), elem
      ensures Valid() && SortedIn(less, elems, 0, |elems|)
      ensures AfterEquals(less, old(elems), k, elem) && elems == old(elems)[..k] + [elem] + old(elems)[k..]
    {
      var e: Elem;
      e, k := FindPlace(head, tail, elem, less, elems);
      InsertSorted(less, xs, elems, k, elem);
      InsertInside(head, tail, elems, k, elem);
      Insert(e, elem, Whole(), k + 1);
      elems := elems[..k] + [elem] + elems[k..];
    }

    /** list_remove() of the element at k. */
    method RemoveAt(elem: Elem, ghost k: nat)
      requires Valid() && k < |elems| && elems[k] == elem
      modifies this, Whole()
      ensures Valid() && elem !in Whole() && elems == old(elems)[..k] + old(elems)[k + 1..]
    {
      RemoveInside(head, tail, elems, k);
      var _ := Remove(elem, Whole(), k + 1);
      elems := elems[..k] + elems[k + 1..];
    }
  }
}
