/** The chained hash table of lib/kernel/hash.c. */
module HashTables {
  import opened Basics
  import Division

  // ----- bits ----------------------------------------------------------------------------

  /** Bitwise and. */
  function And(a: nat, b: nat): nat
    decreases a
  {
    if a == 0 || b == 0 then 0 else (a % 2) * (b % 2) + 2 * And(a / 2, b / 2)
  }

  /** The highest power of two that is not greater than x. */
  function Top(x: nat): nat
    requires x > 0
  {
    if x == 1 then 1 else 2 * Top(x / 2)
  }

  ghost predicate PowerOfTwo(x: nat) {
    x > 0 && Top(x) == x
  }

  lemma {:induction false} TopBounds(x: nat)
    requires x > 0
    ensures 0 < Top(x) <= x < 2 * Top(x) && PowerOfTwo(Top(x))
    decreases x
  {
    if x > 1 {
      TopBounds(x / 2);
      assert 2 * Top(x / 2) / 2 == Top(x / 2);
    }
  }

  lemma {:induction false} AndSelf(x: nat)
    ensures And(x, x) == x
    decreases x
  {
    if x > 0 { AndSelf(x / 2); }
  }

  /** turn_off_least_1bit() keeps the highest bit, unless that is the only one. */
  lemma {:induction false} TurnOff(x: nat)
    requires x > 0
    ensures And(x, x - 1) < x && (And(x, x - 1) == 0 <==> PowerOfTwo(x))
    ensures !PowerOfTwo(x) ==> Top(And(x, x - 1)) == Top(x)
    decreases x
  {
    var y := x / 2;
    if x == 1 {
    } else if x % 2 == 1 {
      assert (x - 1) / 2 == y && (x - 1) % 2 == 0;
      AndSelf(y);
      assert And(x, x - 1) == 2 * y;
    } else {
      assert (x - 1) / 2 == y - 1 && (x - 1) % 2 == 1;
      TurnOff(y);
      assert And(x, x - 1) == 2 * And(y, y - 1);
    }
  }

  lemma {:induction false} AndBound(a: nat, b: nat)
    ensures And(a, b) <= b
    decreases a
  {
    if a > 0 && b > 0 { AndBound(a / 2, b / 2); }
  }

  /** rehash()'s number of buckets for cnt elements. */
  function Ideal(cnt: nat): nat {
    Top(if cnt / 2 < 4 then 4 else cnt / 2)
  }

  /** The ideal is the highest power of two not above half the elements, but at least 4, and leaves fewer
      than 4 elements to a bucket. */
  lemma IdealFits(cnt: nat)
    ensures PowerOfTwo(Ideal(cnt)) && Ideal(cnt) >= 4 && cnt < 4 * Ideal(cnt)
    ensures Ideal(cnt) <= (if cnt / 2 < 4 then 4 else cnt / 2) < 2 * Ideal(cnt)
  {
    var x := if cnt / 2 < 4 then 4 else cnt / 2;
    TopBounds(x);
    TopMono(x);
  }

  lemma TopMono(x: nat)
    requires x >= 4
    ensures Top(x) >= 4
  {
    TopBounds(x / 4);
    assert Top(x) == 2 * Top(x / 2) && Top(x / 2) == 2 * Top(x / 2 / 2) && x / 2 / 2 == x / 4;
  }

  // ----- buckets -------------------------------------------------------------------------

  function Without<T(==)>(s: seq<T>, x: T): seq<T> {
    if s == [] then [] else if s[0] == x then s[1..] else [s[0]] + Without(s[1..], x)
  }

  lemma {:induction false} WithoutHas<T>(s: seq<T>, x: T)
    requires NoDup(s) && x in s
    ensures NoDup(Without(s, x)) && forall y :: y in Without(s, x) <==> y in s && y != x
  {
    assert s == [s[0]] + s[1..];
    if s[0] == x {
      assert x !in s[1..];
    } else {
      WithoutHas(s[1..], x);
      assert s[0] !in s[1..] && s[0] !in Without(s[1..], x);
    }
  }

  /** find_bucket() */
  function Spot(hash: nat, n: nat): nat {
    if n == 0 then 0 else And(hash, n - 1)
  }

  /** The buckets hold exactly xs, each element once and where its hash says. */
  ghost predicate Stores<T(!new)>(buckets: seq<seq<T>>, hash: T -> nat, xs: set<T>) {
    && (forall i :: 0 <= i < |buckets| ==> NoDup(buckets[i]))
    && (forall i, x :: 0 <= i < |buckets| ==> (x in buckets[i] <==> x in xs && Spot(hash(x), |buckets|) == i))
  }

  lemma SpotInRange(h: nat, n: nat)
    requires n > 0
    ensures Spot(h, n) < n
  {
    AndBound(h, n - 1);
  }

  /** find_bucket() masks the hash to its remainder. */
  lemma {:induction false} SpotIs(h: nat, n: nat)
    requires PowerOfTwo(n)
    ensures n > 0 && Spot(h, n) == h % n
    decreases n
  {
    if n > 1 {
      var m := n / 2;
      SpotIs(h / 2, m);
      assert n == 2 * m && (n - 1) / 2 == m - 1 && (n - 1) % 2 == 1;
      HalfRemainder(h, m);
    }
  }

  lemma HalfRemainder(h: nat, m: nat)
    requires m > 0
    ensures h % (2 * m) == 2 * (h / 2 % m) + h % 2
  {
    var q, r := h / 2 / m, h / 2 % m;
    Division.DivMod(h / 2, m);
    assert h == q * (2 * m) + (2 * r + h % 2);
    Division.DivIs(h, 2 * m, q, 2 * r + h % 2);
    Division.DivMod(h, 2 * m);
  }

  lemma StoreMore<T(!new)>(buckets: seq<seq<T>>, hash: T -> nat, xs: set<T>, x: T)
    requires |buckets| > 0 && Stores(buckets, hash, xs) && x !in xs
    ensures var i := Spot(hash(x), |buckets|); i < |buckets| && Stores(buckets[i := [x] + buckets[i]], hash, xs + {x})
  {
    var i := Spot(hash(x), |buckets|);
    SpotInRange(hash(x), |buckets|);
    assert x !in buckets[i];
  }

  lemma StoreLess<T(!new)>(buckets: seq<seq<T>>, hash: T -> nat, xs: set<T>, x: T)
    requires |buckets| > 0 && Stores(buckets, hash, xs) && x in xs
    ensures var i := Spot(hash(x), |buckets|); i < |buckets| && Stores(buckets[i := Without(buckets[i], x)], hash, xs - {x})
  {
    var i := Spot(hash(x), |buckets|);
    SpotInRange(hash(x), |buckets|);
    assert x in buckets[i];
    WithoutHas(buckets[i], x);
  }

  // ----- what the table demands of less and hash ------------------------------------------------

  predicate Same<T>(less: (T, T) -> bool, x: T, y: T) {
    !less(x, y) && !less(y, x)
  }

  /** Equality by less is an equivalence, and equal elements have equal hashes. */
  ghost predicate Lawful<T(!new)>(less: (T, T) -> bool, hash: T -> nat) {
    && (forall x :: Same(less, x, x))
    && (forall x, y, z :: Same(less, x, y) && Same(less, y, z) ==> Same(less, x, z))
    && (forall x, y :: Same(less, x, y) ==> hash(x) == hash(y))
  }

  /** No two elements of xs are equal by less. */
  ghost predicate Keyed<T(!new)>(less: (T, T) -> bool, xs: set<T>) {
    forall x, y :: x in xs && y in xs && Same(less, x, y) ==> x == y
  }

  lemma KeyedMore<T(!new)>(less: (T, T) -> bool, xs: set<T>, x: T)
    requires Keyed(less, xs) && forall y :: y in xs ==> !Same(less, y, x)
    ensures Keyed(less, xs + {x})
  {
  }

  /** Once the element equal to x is out, none is. */
  lemma KeyedLess<T(!new)>(less: (T, T) -> bool, hash: T -> nat, xs: set<T>, w: T, x: T)
    requires Lawful(less, hash) && Keyed(less, xs) && w in xs && Same(less, w, x)
    ensures Keyed(less, xs - {w}) && forall y :: y in xs - {w} ==> !Same(less, y, x)
  {
    forall y | y in xs - {w}
      ensures !Same(less, y, x)
    {
      assert Same(less, x, w);
    }
  }

  ghost function Elems<T(!new)>(s: seq<T>): set<T> {
    set x | x in s
  }

  /** The elements in the first i buckets. */
  ghost function Upto<T(!new)>(buckets: seq<seq<T>>, i: nat): set<T>
    requires i <= |buckets|
  {
    if i == 0 then {} else Upto(buckets, i - 1) + Elems(buckets[i - 1])
  }

  lemma {:induction false} UptoHas<T(!new)>(buckets: seq<seq<T>>, hash: T -> nat, xs: set<T>, i: nat)
    requires Stores(buckets, hash, xs) && i <= |buckets|
    ensures forall x :: x in Upto(buckets, i) <==> x in xs && Spot(hash(x), |buckets|) < i
  {
    if i > 0 { UptoHas(buckets, hash, xs, i - 1); }
  }

  class HashTable<T(==, !new)> {
    var buckets: seq<seq<T>>
    var elemCnt: nat
    const hash: T -> nat
    const less: (T, T) -> bool
    ghost var elems: set<T>

    ghost predicate Valid()
      reads this
    {
      && Lawful(less, hash)
      && PowerOfTwo(|buckets|) && |buckets| >= 4
      && Stores(buckets, hash, elems) && Keyed(less, elems) && elemCnt == |elems|
    }

    /** hash_init(), with its allocation successful. */
    constructor (h: T -> nat, l: (T, T) -> bool)
      requires Lawful(l, h)
      ensures Valid() && elems == {} && hash == h && less == l && elemCnt < 4 * |buckets|
    {
      buckets, elemCnt, hash, less, elems := [[], [], [], []], 0, h, l, {};
    }

    /** find_elem(): the element of a bucket that equals e. */
    method FindIn(bucket: seq<T>, e: T) returns (r: Option<T>)
      ensures r.Some? ==> r.value in bucket && Same(less, r.value, e)
      ensures r.None? ==> forall x :: x in bucket ==> !Same(less, x, e)
    {
      var i := 0;
      while i < |bucket|
        invariant 0 <= i <= |bucket| && forall j :: 0 <= j < i ==> !Same(less, bucket[j], e)
      {
        if Same(less, bucket[i], e) { return Some(bucket[i]); }
        i := i + 1;
      }
      r := None;
    }

    /** hash_find(): the element equal to e, wherever it would be. */
    method Find(e: T) returns (r: Option<T>)
      requires Valid()
      ensures r.Some? ==> r.value in elems && Same(less, r.value, e)
      ensures r.None? ==> forall x :: x in elems ==> !Same(less, x, e)
    {
      SpotInRange(hash(e), |buckets|);
      r := FindIn(buckets[Spot(hash(e), |buckets|)], e);
    }

    method InsertElem(x: T)
      requires |buckets| > 0 && Stores(buckets, hash, elems) && elemCnt == |elems| && x !in elems
      modifies `buckets, `elemCnt, `elems
      ensures |buckets| == |old(buckets)| && Stores(buckets, hash, elems) && elems == old(elems) + {x} && elemCnt == |elems|
    {
      StoreMore(buckets, hash, elems, x);
      var i := Spot(hash(x), |buckets|);
      elemCnt := elemCnt + 1;
      buckets := buckets[i := [x] + buckets[i]];
      elems := elems + {x};
    }

    method RemoveElem(x: T)
      requires |buckets| > 0 && Stores(buckets, hash, elems) && elemCnt == |elems| && x in elems
      modifies `buckets, `elemCnt, `elems
      ensures |buckets| == |old(buckets)| && Stores(buckets, hash, elems) && elems == old(elems) - {x} && elemCnt == |elems|
    {
      StoreLess(buckets, hash, elems, x);
      var i := Spot(hash(x), |buckets|);
      elemCnt := elemCnt - 1;
      buckets := buckets[i := Without(buckets[i], x)];
      elems := elems - {x};
    }

    /** The loop of rehash() that finds the ideal number of buckets. */
    method IdealCount() returns (n: nat)
      ensures n == Ideal(elemCnt)
    {
      n := elemCnt / 2;
      if n < 4 { n := 4; }
      ghost var top := Top(n);
      TurnOff(n);
      while And(n, n - 1) != 0
        invariant n > 0 && Top(n) == top && And(n, n - 1) < n && (And(n, n - 1) == 0 <==> PowerOfTwo(n))
      {
        TurnOff(n);
        n := And(n, n - 1);
        TurnOff(n);
      }
    }

    /** Moves the elements of one old bucket, in order, to the front of their new ones. */
    method MoveBucket(bucket: seq<T>, target: seq<seq<T>>, ghost done: set<T>) returns (r: seq<seq<T>>)
      requires |target| > 0 && Stores(target, hash, done) && NoDup(bucket) && forall x :: x in bucket ==> x !in done
      ensures |r| == |target| && Stores(r, hash, done + Elems(bucket))
    {
      r := target;
      ghost var moved: set<T> := {};
      var i := 0;
      while i < |bucket|
        invariant 0 <= i <= |bucket| && |r| == |target| && moved == Elems(bucket[..i]) && Stores(r, hash, done + moved)
      {
        assert bucket[i] !in bucket[..i] && bucket[..i + 1] == bucket[..i] + [bucket[i]];
        StoreMore(r, hash, done + moved, bucket[i]);
        var k := Spot(hash(bucket[i]), |r|);
        r := r[k := [bucket[i]] + r[k]];
        moved := moved + {bucket[i]};
        assert done + moved == (done + (moved - {bucket[i]})) + {bucket[i]};
        i := i + 1;
      }
      assert bucket[..i] == bucket;
    }

    /** The second loop of rehash(). */
    method MoveAll(was: seq<seq<T>>, n: nat) returns (r: seq<seq<T>>)
      requires n > 0 && Stores(was, hash, elems) && |was| > 0
      ensures |r| == n && Stores(r, hash, elems)
    {
      r := seq(n, _ => []);
      var i := 0;
      while i < |was|
        invariant 0 <= i <= |was| && |r| == n && Stores(r, hash, Upto(was, i))
      {
        UptoHas(was, hash, elems, i);
        r := MoveBucket(was[i], r, Upto(was, i));
        i := i + 1;
      }
      UptoHas(was, hash, elems, i);
      forall x: T
        ensures Spot(hash(x), |was|) < |was|
      {
        SpotInRange(hash(x), |was|);
      }
      assert Upto(was, |was|) == elems;
    }

    /** rehash(): the same elements, in the ideal number of buckets if memory for them is available. */
    method Rehash(allocOk: bool)
      requires Valid()
      modifies `buckets
      ensures Valid() && elems == old(elems)
      ensures allocOk || |old(buckets)| == Ideal(elemCnt) ==> |buckets| == Ideal(elemCnt) && elemCnt < 4 * |buckets|
      ensures !allocOk ==> buckets == old(buckets)
    {
      var n := IdealCount();
      IdealFits(elemCnt);
      if n == |buckets| || !allocOk { return; }
      buckets := MoveAll(buckets, n);
    }

    /** hash_insert() */
    method Insert(x: T, allocOk: bool) returns (was: Option<T>)
      requires Valid()
      modifies this
      ensures Valid()
      ensures was.Some? ==> was.value in old(elems) && Same(less, was.value, x) && elems == old(elems)
      ensures was.None? ==> (forall y :: y in old(elems) ==> !Same(less, y, x)) && elems == old(elems) + {x}
      ensures allocOk ==> elemCnt < 4 * |buckets|
    {
      was := Find(x);
      if was.None? { InsertElem(x); }
      Rehash(allocOk);
    }

    /** hash_replace() */
    method Replace(x: T, allocOk: bool) returns (was: Option<T>)
      requires Valid()
      modifies this
      ensures Valid()
      ensures was.Some? ==> was.value in old(elems) && Same(less, was.value, x) && elems == old(elems) - {was.value} + {x}
      ensures was.None? ==> (forall y :: y in old(elems) ==> !Same(less, y, x)) && elems == old(elems) + {x}
      ensures allocOk ==> elemCnt < 4 * |buckets|
    {
      was := Find(x);
      if was.Some? {
        KeyedLess(less, hash, elems, was.value, x);
        RemoveElem(was.value);
      }
      KeyedMore(less, elems, x);
      InsertElem(x);
      Rehash(allocOk);
    }

    /** hash_delete() */
    method Delete(x: T, allocOk: bool) returns (found: Option<T>)
      requires Valid()
      modifies this
      ensures Valid()
      ensures found.Some? ==> found.value in old(elems) && Same(less, found.value, x) && elems == old(elems) - {found.value}
      ensures found.None? ==> (forall y :: y in old(elems) ==> !Same(less, y, x)) && elems == old(elems)
      ensures found.Some? && allocOk ==> elemCnt < 4 * |buckets|
    {
      found := Find(x);
      if found.Some? {
        RemoveElem(found.value);
        Rehash(allocOk);
      }
    }
  }

  // ----- iteration ---------------------------------------------------------------------------

  /** The elements in the order in which an iterator visits them. */
  function Flat<T>(buckets: seq<seq<T>>): seq<T> {
    if buckets == [] then [] else buckets[0] + Flat(buckets[1..])
  }

  lemma {:induction false} FlatJoin<T>(a: seq<seq<T>>, b: seq<seq<T>>)
    ensures Flat(a + b) == Flat(a) + Flat(b)
  {
    if a == [] {
      assert a + b == b;
    } else {
      assert (a + b)[1..] == a[1..] + b;
      FlatJoin(a[1..], b);
    }
  }

  lemma {:induction false} FlatHas<T>(buckets: seq<seq<T>>, x: T)
    ensures x in Flat(buckets) <==> exists i :: 0 <= i < |buckets| && x in buckets[i]
  {
    if buckets != [] {
      FlatHas(buckets[1..], x);
      if x in Flat(buckets[1..]) {
        var i :| 0 <= i < |buckets[1..]| && x in buckets[1..][i];
        assert x in buckets[i + 1];
      }
      if exists i :: 0 < i < |buckets| && x in buckets[i] {
        var i :| 0 < i < |buckets| && x in buckets[i];
        assert x in buckets[1..][i - 1];
      }
    }
  }

  /** Buckets without repetition that share no element. */
  ghost predicate Separate<T>(buckets: seq<seq<T>>) {
    && (forall i :: 0 <= i < |buckets| ==> NoDup(buckets[i]))
    && (forall i, j :: 0 <= i < j < |buckets| ==> forall x :: x in buckets[i] ==> x !in buckets[j])
  }

  lemma {:induction false} FlatNoDup<T>(buckets: seq<seq<T>>)
    requires Separate(buckets)
    ensures NoDup(Flat(buckets))
  {
    if buckets != [] {
      FlatNoDup(buckets[1..]);
      var a, b := buckets[0], Flat(buckets[1..]);
      forall i, j | 0 <= i < j < |a + b|
        ensures (a + b)[i] != (a + b)[j]
      {
        if i < |a| <= j {
          FlatHas(buckets[1..], a[i]);
          assert a[i] in buckets[0] && b[j - |a|] in b;
        }
      }
    }
  }

  lemma InSomeBucket<T(!new)>(buckets: seq<seq<T>>, hash: T -> nat, xs: set<T>, x: T)
    requires Stores(buckets, hash, xs) && |buckets| > 0
    ensures x in Flat(buckets) <==> x in xs
  {
    FlatHas(buckets, x);
    SpotInRange(hash(x), |buckets|);
    if x in xs { assert x in buckets[Spot(hash(x), |buckets|)]; }
  }

  lemma StoresSeparate<T(!new)>(buckets: seq<seq<T>>, hash: T -> nat, xs: set<T>)
    requires Stores(buckets, hash, xs)
    ensures Separate(buckets)
  {
    forall i, j, x | 0 <= i < j < |buckets| && x in buckets[i]
      ensures x !in buckets[j]
    {
      assert Spot(hash(x), |buckets|) == i;
    }
  }

  /** An iteration visits every element of the table once. */
  lemma VisitsOnce<T(!new)>(buckets: seq<seq<T>>, hash: T -> nat, xs: set<T>)
    requires Stores(buckets, hash, xs) && |buckets| > 0
    ensures NoDup(Flat(buckets)) && forall x :: x in Flat(buckets) <==> x in xs
  {
    StoresSeparate(buckets, hash, xs);
    FlatNoDup(buckets);
    forall x: T
      ensures x in Flat(buckets) <==> x in xs
    {
      InSomeBucket(buckets, hash, xs, x);
    }
  }

  /** What was seen is the first n elements in order of buckets. */
  ghost predicate Seen<T>(buckets: seq<seq<T>>, n: int, seen: seq<T>) {
    0 <= n <= |Flat(buckets)| && seen == Flat(buckets)[..n]
  }

  lemma SeenNext<T(!new)>(buckets: seq<seq<T>>, hash: T -> nat, xs: set<T>, n: int, seen: seq<T>)
    requires Stores(buckets, hash, xs) && |buckets| > 0 && Seen(buckets, n, seen) && n < |Flat(buckets)|
    ensures var x := Flat(buckets)[n]; x in xs && x !in seen && Seen(buckets, n + 1, seen + [x])
  {
    VisitsOnce(buckets, hash, xs);
  }

  lemma SeenAll<T(!new)>(buckets: seq<seq<T>>, hash: T -> nat, xs: set<T>, seen: seq<T>)
    requires Stores(buckets, hash, xs) && |buckets| > 0 && Seen(buckets, |Flat(buckets)|, seen)
    ensures NoDup(seen) && forall x :: x in seen <==> x in xs
  {
    VisitsOnce(buckets, hash, xs);
    assert seen == Flat(buckets);
  }

  /** struct hash_iterator, over a table that does not change; at position -1 of a bucket it is at
      the list's head. */
  class Iterator<T(==, !new)> {
    const table: HashTable<T>
    var bucket: nat
    var pos: int
    ghost var seen: seq<T>

    /** How many elements the iterator has passed, with the one it is at. */
    ghost function Passed(): int
      reads this, table
      requires bucket <= |table.buckets|
    {
      |Flat(table.buckets[..bucket])| + pos + 1
    }

    ghost predicate Valid()
      reads this, table
    {
      table.Valid() && bucket < |table.buckets| && -1 <= pos < |table.buckets[bucket]| && Seen(table.buckets, Passed(), seen)
    }

    /** hash_first() */
    constructor (t: HashTable<T>)
      requires t.Valid()
      ensures Valid() && table == t && seen == []
    {
      table, bucket, pos, seen := t, 0, -1, [];
    }

    /** The loop of hash_next(): goes on to the next element in this bucket or a later one. */
    method Advance() returns (more: bool)
      requires Valid()
      modifies `bucket, `pos
      ensures more ==> bucket < |table.buckets| && 0 <= pos < |table.buckets[bucket]| && Passed() == old(Passed()) + 1
      ensures !more ==> old(Passed()) == |Flat(table.buckets)|
    {
      pos := pos + 1;
      while pos == |table.buckets[bucket]|
        invariant bucket < |table.buckets| && 0 <= pos <= |table.buckets[bucket]| && Passed() == old(Passed()) + 1
        decreases |table.buckets| - bucket
      {
        TakeOne(table.buckets, bucket);
        bucket := bucket + 1;
        if bucket == |table.buckets| {
          assert table.buckets[..bucket] == table.buckets;
          return false;
        }
        pos := 0;
      }
      more := true;
    }

    /** hash_next(): an element of the table not seen yet; none when all have been seen, each once. */
    method Next() returns (r: Option<T>)
      requires Valid()
      modifies this
      ensures r.Some? ==> Valid() && r.value in table.elems && r.value !in old(seen) && seen == old(seen) + [r.value]
      ensures r.None? ==> seen == old(seen) && NoDup(seen) && forall x :: x in seen <==> x in table.elems
    {
      ghost var n := Passed();
      var more := Advance();
      if more {
        FlatAt(table.buckets, bucket, pos);
        SeenNext(table.buckets, table.hash, table.elems, n, seen);
        r := Some(table.buckets[bucket][pos]);
        seen := seen + [r.value];
      } else {
        SeenAll(table.buckets, table.hash, table.elems, seen);
        r := None;
      }
    }
  }

  lemma TakeOne<T>(buckets: seq<seq<T>>, i: nat)
    requires i < |buckets|
    ensures Flat(buckets[..i + 1]) == Flat(buckets[..i]) + buckets[i]
  {
    assert buckets[..i + 1] == buckets[..i] + [buckets[i]];
    FlatJoin(buckets[..i], [buckets[i]]);
    assert Flat([buckets[i]]) == buckets[i] by { assert [buckets[i]][1..] == []; }
  }

  lemma FlatAt<T>(buckets: seq<seq<T>>, i: nat, p: nat)
    requires i < |buckets| && p < |buckets[i]|
    ensures var k := |Flat(buckets[..i])| + p; k < |Flat(buckets)| && Flat(buckets)[k] == buckets[i][p]
  {
    TakeOne(buckets, i);
    assert buckets == buckets[..i + 1] + buckets[i + 1..];
    FlatJoin(buckets[..i + 1], buckets[i + 1..]);
  }
}
