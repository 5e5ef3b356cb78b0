/** What the invariant means to the users of the kernel, in every run from boot. */
module ThreadTheorems {
  import opened Basics
  import opened Threads
  import opened ThreadInvariants
  import opened ThreadSteps
  import opened ThreadPlaces
  import opened ThreadLocks
  import opened ThreadConds
  import opened ThreadKept
  import opened ThreadRuns

  // ----- threads and lists ---------------------------------------------------------------------

  /** `struct thread`'s elem links t into at most one list, at one place. */
  ghost predicate OnOneListAtMost(st: State, t: Page) {
    && multiset(st.ready)[t] + multiset(st.destruction)[t] <= 1
    && (forall s :: multiset(WaitersOf(st, s))[t] <= 1)
    && (forall s :: t in WaitersOf(st, s) ==> t !in st.ready && t !in st.destruction)
    && (forall s, r :: t in WaitersOf(st, s) && t in WaitersOf(st, r) ==> s == r)
  }

  lemma {:induction false} NoDupCounts<T>(s: seq<T>, t: T)
    requires NoDup(s)
    ensures multiset(s)[t] <= 1
  {
    if s != [] {
      NoDupCounts(s[1..], t);
      assert s == [s[0]] + s[1..];
      if t == s[0] { assert t !in s[1..]; }
    }
  }

  lemma OneList(st: State, t: Page)
    requires Lists(st) && Waiters(st)
    ensures OnOneListAtMost(st, t)
  {
    NoDupCounts(st.ready, t);
    NoDupCounts(st.destruction, t);
    assert multiset(st.ready)[t] > 0 ==> t in st.ready;
    assert multiset(st.destruction)[t] > 0 ==> t in st.destruction;
    forall s
      ensures multiset(WaitersOf(st, s))[t] <= 1
    {
      NoDupCounts(WaitersOf(st, s), t);
    }
    forall s | t in WaitersOf(st, s)
      ensures t !in st.ready && t !in st.destruction
    {
      OnWaiters(st, s, t);
    }
    forall s, r | t in WaitersOf(st, s) && t in WaitersOf(st, r)
      ensures s == r
    {
      OnWaiters(st, s, t);
      OnWaiters(st, r, t);
    }
  }

  /** At every point of every run exactly one thread is running, every thread is on
      at most one list, a thread other than the idle thread is ready exactly when it
      is on ready_list, and the idle thread never is once idle_thread is set. */
  lemma SchedulerSafety(states: seq<State>, events: seq<Event>, i: nat, t: Page)
    requires BootRun(states, events) && i < |states|
    ensures (t in states[i].status && states[i].status[t] == Running) <==> t == states[i].current
    ensures OnOneListAtMost(states[i], t)
    ensures states[i].idle != Some(t) ==>
      ((t in states[i].status && states[i].status[t] == Ready) <==> t in states[i].ready)
    ensures states[i].idle == Some(t) ==> t !in states[i].ready
  {
    RunInv(states, events, i);
    OneList(states[i], t);
  }

  /** A blocked thread can always be reached again: it is the idle thread, it is on
      the waiters list of one semaphore, or its creator is about to unblock it. */
  lemma BlockedIsReachable(states: seq<State>, events: seq<Event>, i: nat, t: Page)
    requires BootRun(states, events) && i < |states|
    requires IsBlocked(states[i], t) && t != states[i].idler
    ensures (exists s :: t in WaitersOf(states[i], s)) || (exists u :: Creates(states[i], u, t))
  {
    RunInv(states, events, i);
  }

  // ----- locks ------------------------------------------------------------------------------------

  /** The threads between their return from sema_down on l's semaphore and their sema_up. */
  ghost function Occupants(st: State, l: LockId): set<Page> {
    (set t | t in st.todo && AtSection(st.todo[t], l))
    + (if l in st.holder && st.holder[l] != None then {st.holder[l].value} else {})
  }

  lemma OccupantsAre(st: State, l: LockId)
    ensures forall t :: t in Occupants(st, l) <==> InSection(st, t, l)
  {
    forall t
      ensures t in Occupants(st, l) <==> InSection(st, t, l)
    {
      if HeadIs(st, t, SetHolder(l)) || HeadIs(st, t, Up(OfLock(l))) { assert t in st.todo; }
    }
  }

  lemma LockCounts(st: State, l: LockId)
    requires LockOk(st, l)
    ensures Value(st, OfLock(l)) + |Occupants(st, l)| == 1
  {
    OccupantsAre(st, l);
    if Value(st, OfLock(l)) == 1 {
      assert Occupants(st, l) == {};
    } else {
      var t: Page :| InSection(st, t, l);
      assert Occupants(st, l) == {t};
    }
  }

  /** Mutual exclusion, although the holder is stored outside the atomic part of
      lock_acquire: the threads inside and the semaphore's value always total one,
      and the holder, when there is one, is the thread inside. */
  lemma MutualExclusion(states: seq<State>, events: seq<Event>, i: nat, l: LockId)
    requires BootRun(states, events) && i < |states| && l in states[i].holder
    ensures Value(states[i], OfLock(l)) + |Occupants(states[i], l)| == 1
    ensures states[i].holder[l] != None ==> Occupants(states[i], l) == {states[i].holder[l].value}
  {
    RunInv(states, events, i);
    assert LockOk(states[i], l);
    LockCounts(states[i], l);
    HolderOccupies(states[i], l);
  }

  lemma HolderOccupies(st: State, l: LockId)
    requires LockOk(st, l) && l in st.holder
    ensures st.holder[l] != None ==> Occupants(st, l) == {st.holder[l].value}
  {
    OccupantsAre(st, l);
    if st.holder[l] != None {
      var t := st.holder[l].value;
      assert Holds(st, t, l) && InSection(st, t, l);
      assert Occupants(st, l) == {t};
    }
  }

  // ----- thread identifiers -------------------------------------------------------------------------

  lemma UnnumberedIsNew(st: State, t: Page)
    requires Tids(st) && Newborns(st) && t in st.tid && st.tid[t] == 0
    ensures IsBlocked(st, t) && Todo(st, t) == []
  {
    var u :| Numbers(st, u, t);
    assert Creates(st, u, t);
  }

  /** allocate_tid() never gives one number to two live threads: any two threads past their creation differ. */
  lemma TidsAreUnique(states: seq<State>, events: seq<Event>, i: nat, t: Page, u: Page)
    requires BootRun(states, events) && i < |states|
    requires t in states[i].tid && u in states[i].tid && t != u
    requires !IsBlocked(states[i], t) || Todo(states[i], t) != []
    ensures states[i].tid[t] != states[i].tid[u] && states[i].tid[t] > 0
  {
    RunInv(states, events, i);
    var st := states[i];
    if st.tid[t] == 0 { UnnumberedIsNew(st, t); }
  }
}
