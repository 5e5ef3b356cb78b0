/** Plans that fit what a thread holds, mutual exclusion, and thread identifiers. */
module ThreadLocks {
  import opened Basics
  import opened Threads
  import opened ThreadInvariants
  import opened ThreadSteps
  import opened ThreadPlaces

  // ----- plans ---------------------------------------------------------------------------

  lemma FitIsTodoFit(held: iset<LockId>, ops: seq<Op>)
    requires OpsFit(held, ops)
    ensures TodoFits(held, ops)
  {
  }

  /** A plan to be begun afresh does not start in the middle of an acquire or a release. */
  predicate Fresh(ops: seq<Op>) {
    ops != [] ==> !ops[0].Asleep? && !ops[0].SetHolder? && !ops[0].WriteTid? && !(ops[0].Up? && !ops[0].s.User?)
  }

  lemma FitIsFresh(held: iset<LockId>, ops: seq<Op>)
    requires OpsFit(held, ops)
    ensures Fresh(ops)
  {
  }

  lemma DownFits(held: iset<LockId>, op: Op, s: SemaId, rest: seq<Op>)
    requires TodoFits(held, [op] + rest) && (op == Down(s) || op == Asleep(s))
    ensures TodoFits(held, [Asleep(s)] + rest)
    ensures TodoFits(held, AfterDown(s) + rest)
    ensures s.OfLock? ==> s.lock !in held && OpsFit(held + iset{s.lock}, rest)
    ensures !s.OfLock? ==> OpsFit(held, rest)
    ensures s.OfWaiter? ==> |rest| == 1 && rest[0].Down? && rest[0].s.OfLock?
  {
    assert ([op] + rest)[1..] == rest && ([Asleep(s)] + rest)[1..] == rest && ([Down(s)] + rest)[1..] == rest;
    assert OpsFit(held, [Down(s)] + rest);
    if s.OfLock? {
      assert ([SetHolder(s.lock)] + rest)[1..] == rest;
    } else {
      assert AfterDown(s) + rest == rest;
      FitIsTodoFit(held, rest);
    }
  }

  lemma UpFits(held: iset<LockId>, s: SemaId, rest: seq<Op>)
    requires TodoFits(held, [Up(s)] + rest)
    ensures OpsFit(held, rest) && TodoFits(held, rest) && (s.OfLock? ==> s.lock !in held)
  {
    assert ([Up(s)] + rest)[1..] == rest;
    FitIsTodoFit(held, rest);
  }

  lemma ReleaseFits(held: iset<LockId>, l: LockId, rest: seq<Op>)
    requires TodoFits(held, [Release(l)] + rest)
    ensures l in held && TodoFits(held - iset{l}, [Up(OfLock(l))] + rest)
  {
    assert ([Release(l)] + rest)[1..] == rest && ([Up(OfLock(l))] + rest)[1..] == rest;
  }

  lemma WaitFits(held: iset<LockId>, c: CondId, w: SemaId)
    requires OpsFit(held, []) && c.lock in held && w.OfWaiter?
    ensures TodoFits(held, [Release(c.lock), Down(w), Down(OfLock(c.lock))])
  {
    var l := c.lock;
    var back: seq<Op> := [Down(OfLock(l))];
    assert back[1..] == [];
    assert held - iset{l} + iset{l} == held;
    assert OpsFit(held - iset{l}, back);
    var down: seq<Op> := [Down(w)] + back;
    assert down[1..] == back;
    assert OpsFit(held - iset{l}, down);
    var all: seq<Op> := [Release(l)] + down;
    assert all[1..] == down;
    assert all == [Release(c.lock), Down(w), Down(OfLock(c.lock))];
  }

  lemma CreateFits(held: iset<LockId>, child: Page)
    requires OpsFit(held, [])
    ensures TodoFits(held, [Down(OfLock(TID_LOCK)), ReadTid(child), Release(TID_LOCK), Unblock(child)])
  {
    var plan := [Down(OfLock(TID_LOCK)), ReadTid(child), Release(TID_LOCK), Unblock(child)];
    assert plan[1..][1..] == [Release(TID_LOCK), Unblock(child)];
  }

  lemma ReadFits(held: iset<LockId>, child: Page, id: nat, rest: seq<Op>)
    requires TodoFits(held, [ReadTid(child)] + rest)
    ensures TodoFits(held, [WriteTid(child, id)] + rest)
    ensures rest == [Release(TID_LOCK), Unblock(child)]
  {
    assert ([ReadTid(child)] + rest)[1..] == rest && ([WriteTid(child, id)] + rest)[1..] == rest;
  }

  lemma WriteFits(held: iset<LockId>, child: Page, id: nat, rest: seq<Op>)
    requires TodoFits(held, [WriteTid(child, id)] + rest)
    ensures TodoFits(held, rest) && rest == [Release(TID_LOCK), Unblock(child)] && TID_LOCK in held
  {
    assert ([WriteTid(child, id)] + rest)[1..] == rest;
    assert rest[1..] == [Unblock(child)];
    var last: seq<Op> := [Unblock(child)];
    assert last[1..] == [];
  }

  /** Steps that do not touch a holder. */
  lemma KeepTodos(st: State, st': State)
    requires Todos(st) && OthersPlans(st, st') && st'.holder == st.holder
    requires TodoFits(Held(st, st.current), Todo(st', st.current))
    ensures Todos(st')
  {
    forall t
      ensures TodoFits(Held(st', t), Todo(st', t))
    {
      assert Held(st', t) == Held(st, t);
      if t != st.current { assert Todo(st', t) == Todo(st, t); }
    }
  }

  lemma AcquireTodos(st: State, st': State, l: LockId, rest: seq<Op>)
    requires Todos(st) && Did(st, st', rest) && HeadIs(st, st.current, SetHolder(l))
    requires Todo(st, st.current) == [SetHolder(l)] + rest
    requires l in st.holder && st.holder[l] == None && st'.holder == st.holder[l := Some(st.current)]
    ensures Todos(st')
  {
    forall t
      ensures TodoFits(Held(st', t), Todo(st', t))
    {
      if t != st.current {
        assert Todo(st', t) == Todo(st, t);
        assert Held(st', t) == Held(st, t);
      } else {
        assert Held(st', t) == Held(st, t) + iset{l};
        assert TodoFits(Held(st, t), Todo(st, t));
        assert ([SetHolder(l)] + rest)[1..] == rest;
        FitIsTodoFit(Held(st', t), rest);
      }
    }
  }

  lemma ReleaseTodos(st: State, st': State, l: LockId, rest: seq<Op>)
    requires Todos(st) && Did(st, st', [Up(OfLock(l))] + rest)
    requires Todo(st, st.current) == [Release(l)] + rest
    requires Holds(st, st.current, l) && st'.holder == st.holder[l := None]
    ensures Todos(st')
  {
    forall t
      ensures TodoFits(Held(st', t), Todo(st', t))
    {
      if t != st.current {
        assert Todo(st', t) == Todo(st, t);
        assert Held(st', t) == Held(st, t);
      } else {
        assert Held(st', t) == Held(st, t) - iset{l};
        assert TodoFits(Held(st, t), Todo(st, t));
        ReleaseFits(Held(st, t), l, rest);
      }
    }
  }

  // ----- references ----------------------------------------------------------------------

  ghost predicate SameDomains(st: State, st': State) {
    && st.semas.Keys <= st'.semas.Keys
    && (forall l :: OfLock(l) in st'.semas ==> OfLock(l) in st.semas)
    && st'.holder.Keys == st.holder.Keys && st'.queue.Keys == st.queue.Keys
  }

  lemma KeepReferences(st: State, st': State)
    requires References(st) && OthersPlans(st, st') && SameDomains(st, st')
    requires forall op :: op in Todo(st', st.current) ==> Known(st', op)
    ensures References(st')
  {
    forall t, op | op in Todo(st', t)
      ensures Known(st', op)
    {
      if t != st.current {
        assert op in Todo(st, t);
        assert Known(st, op);
      }
    }
  }

  /** The running thread's plan refers to nothing its old plan did not refer to. */
  lemma ShrinkReferences(st: State, st': State)
    requires References(st) && OthersPlans(st, st') && SameDomains(st, st')
    requires forall op :: op in Todo(st', st.current) ==> op in Todo(st, st.current)
    ensures References(st')
  {
    forall op | op in Todo(st', st.current)
      ensures Known(st', op)
    {
      assert Known(st, op);
    }
    KeepReferences(st, st');
  }

  // ----- mutual exclusion --------------------------------------------------------------------

  predicate AtSection(ops: seq<Op>, l: LockId) {
    ops != [] && (ops[0] == SetHolder(l) || ops[0] == Up(OfLock(l)))
  }

  /** Nothing about l changed. */
  lemma KeepLock(st: State, st': State, l: LockId)
    requires LockOk(st, l) && OthersPlans(st, st')
    requires forall t :: Holds(st', t, l) <==> Holds(st, t, l)
    requires Value(st', OfLock(l)) == Value(st, OfLock(l))
    requires AtSection(Todo(st', st.current), l) <==> AtSection(Todo(st, st.current), l)
    ensures LockOk(st', l)
  {
    SameSection(st, st', l);
    if Value(st', OfLock(l)) == 0 {
      var t :| InSection(st, t, l);
      assert InSection(st', t, l);
    }
  }

  lemma SameSection(st: State, st': State, l: LockId)
    requires OthersPlans(st, st')
    requires forall t :: Holds(st', t, l) <==> Holds(st, t, l)
    requires AtSection(Todo(st', st.current), l) <==> AtSection(Todo(st, st.current), l)
    ensures forall t :: InSection(st', t, l) <==> InSection(st, t, l)
  {
    forall t
      ensures InSection(st', t, l) <==> InSection(st, t, l)
    {
      if t != st.current { assert Todo(st', t) == Todo(st, t); }
      assert Holds(st', t, l) <==> Holds(st, t, l);
    }
  }

  /** Steps that neither change a holder or a lock's semaphore nor start or end in a section. */
  lemma KeepLocks(st: State, st': State)
    requires Locks(st) && OthersPlans(st, st') && st'.holder == st.holder
    requires forall l :: Value(st', OfLock(l)) == Value(st, OfLock(l))
    requires forall l :: AtSection(Todo(st', st.current), l) <==> AtSection(Todo(st, st.current), l)
    ensures Locks(st')
  {
    forall l | l in st'.holder
      ensures LockOk(st', l)
    {
      forall t ensures Holds(st', t, l) <==> Holds(st, t, l) { }
      KeepLock(st, st', l);
    }
  }

  /** sema_down on the lock's semaphore returns: the thread enters. */
  lemma EnterLock(st: State, st': State, l: LockId)
    requires LockOk(st, l) && OthersPlans(st, st') && Value(st, OfLock(l)) > 0
    requires forall t :: Holds(st', t, l) <==> Holds(st, t, l)
    requires Value(st', OfLock(l)) == Value(st, OfLock(l)) - 1
    requires AtSection(Todo(st', st.current), l)
    ensures LockOk(st', l)
  {
    assert InSection(st', st.current, l);
    forall t | t != st.current
      ensures !InSection(st', t, l)
    {
      assert Todo(st', t) == Todo(st, t);
      assert !InSection(st, t, l);
    }
  }

  /** The thread inside stays inside: storing or clearing the holder. */
  lemma StayLock(st: State, st': State, l: LockId)
    requires LockOk(st, l) && OthersPlans(st, st')
    requires InSection(st, st.current, l) && InSection(st', st.current, l)
    requires forall t :: t != st.current ==> (Holds(st', t, l) <==> Holds(st, t, l))
    requires Value(st', OfLock(l)) == Value(st, OfLock(l))
    ensures LockOk(st', l)
  {
    forall t | t != st.current
      ensures InSection(st', t, l) <==> InSection(st, t, l)
    {
      assert Todo(st', t) == Todo(st, t);
    }
  }

  /** sema_up on the lock's semaphore: the thread leaves. */
  lemma LeaveLock(st: State, st': State, l: LockId)
    requires LockOk(st, l) && OthersPlans(st, st')
    requires InSection(st, st.current, l) && !InSection(st', st.current, l)
    requires forall t :: Holds(st', t, l) <==> Holds(st, t, l)
    requires Value(st', OfLock(l)) == Value(st, OfLock(l)) + 1
    ensures LockOk(st', l)
  {
    assert Value(st, OfLock(l)) == 0;
    forall t
      ensures !InSection(st', t, l)
    {
      if t != st.current {
        assert Todo(st', t) == Todo(st, t);
        assert !InSection(st, t, l);
      }
    }
  }

  // ----- thread identifiers --------------------------------------------------------------------

  lemma KeepTids(st: State, st': State)
    requires Tids(st) && OthersPlans(st, st') && st'.nextTid == st.nextTid
    requires forall t :: t in st'.tid ==> t in st.tid && st'.tid[t] == st.tid[t]
    requires forall u, c :: Creates(st, u, c) ==> c in st'.tid
    requires forall c :: Numbers(st', st.current, c) <==> Numbers(st, st.current, c)
    requires forall c :: Creates(st', st.current, c) <==> Creates(st, st.current, c)
    requires forall c, id :: HeadIs(st', st.current, WriteTid(c, id)) ==> id == st.nextTid
    ensures Tids(st')
  {
    forall u, c
      ensures Numbers(st', u, c) <==> Numbers(st, u, c)
      ensures Creates(st', u, c) <==> Creates(st, u, c)
    {
      if u != st.current { assert Todo(st', u) == Todo(st, u); }
    }
    forall t, c, id | HeadIs(st', t, WriteTid(c, id))
      ensures id == st'.nextTid
    {
      if t != st.current { assert Todo(st', t) == Todo(st, t); assert HeadIs(st, t, WriteTid(c, id)); }
    }
    forall t | t in st'.tid && st'.tid[t] == 0
      ensures exists u :: Numbers(st', u, t)
    {
      var u :| Numbers(st, u, t);
      assert Numbers(st', u, t);
    }
  }

  /** allocate_tid() inside tid_lock: nobody else reads or writes next_tid meanwhile. */
  lemma WriteTids(st: State, st': State, child: Page, id: nat)
    requires Tids(st) && Todos(st) && Newborns(st)
    requires Todo(st, st.current) == [WriteTid(child, id), Release(TID_LOCK), Unblock(child)]
    requires Did(st, st', [Release(TID_LOCK), Unblock(child)])
    requires st'.nextTid == id + 1 && st'.tid == st.tid[child := id]
    ensures Tids(st')
  {
    assert HeadIs(st, st.current, WriteTid(child, id));
    assert Numbers(st, st.current, child);
    assert Todo(st', st.current) == [Release(TID_LOCK), Unblock(child)];
    OnlyOneWrites(st, child, id);
    forall t, c, i
      ensures !HeadIs(st', t, WriteTid(c, i))
    {
      if t != st.current {
        assert Todo(st', t) == Todo(st, t);
        assert HeadIs(st', t, WriteTid(c, i)) == HeadIs(st, t, WriteTid(c, i));
      }
    }
    forall u, c
      ensures Numbers(st', u, c) <==> Numbers(st, u, c) && u != st.current
      ensures Creates(st', u, c) <==> Creates(st, u, c)
    {
      if u != st.current {
        assert Todo(st', u) == Todo(st, u);
        assert !HeadIs(st, u, WriteTid(c, st.nextTid));
      }
    }
    WriteTidsRest(st, st', child);
  }

  lemma OnlyOneWrites(st: State, c0: Page, id0: nat)
    requires Todos(st) && HeadIs(st, st.current, WriteTid(c0, id0))
    ensures forall t, c, id :: HeadIs(st, t, WriteTid(c, id)) ==> t == st.current
  {
    WriterHolds(st, st.current, c0, id0);
    forall t, c, id | HeadIs(st, t, WriteTid(c, id))
      ensures t == st.current
    {
      WriterHolds(st, t, c, id);
    }
  }

  lemma WriterHolds(st: State, t: Page, c: Page, id: nat)
    requires Todos(st) && HeadIs(st, t, WriteTid(c, id))
    ensures Holds(st, t, TID_LOCK)
  {
    assert TodoFits(Held(st, t), Todo(st, t));
    assert Todo(st, t) == [WriteTid(c, id)] + Todo(st, t)[1..];
    WriteFits(Held(st, t), c, id, Todo(st, t)[1..]);
  }

  lemma WriteTidsRest(st: State, st': State, child: Page)
    requires Tids(st) && Newborns(st) && child in st.tid && st.tid[child] == 0 && Numbers(st, st.current, child)
    requires st'.nextTid == st.nextTid + 1 && st'.tid == st.tid[child := st.nextTid]
    requires forall u, c :: Numbers(st', u, c) <==> Numbers(st, u, c) && u != st.current
    requires forall u, c :: Creates(st', u, c) <==> Creates(st, u, c)
    requires forall c :: Numbers(st, st.current, c) ==> c == child
    requires forall t, c, i :: !HeadIs(st', t, WriteTid(c, i))
    ensures Tids(st')
  {
    assert Creates(st, st.current, child);
    forall u, c | Numbers(st', u, c)
      ensures c in st'.tid && st'.tid[c] == 0 && Creates(st', u, c)
    {
      assert Numbers(st, u, c);
      assert Creates(st, u, c);
    }
    forall t | t in st'.tid && st'.tid[t] == 0
      ensures exists u :: Numbers(st', u, t)
    {
      assert t != child;
      var u :| Numbers(st, u, t);
      assert u != st.current;
      assert Numbers(st', u, t);
    }
  }

  lemma ConceivedTids(st: State, st': State, child: Page)
    requires Tids(st) && OthersPlans(st, st') && st'.nextTid == st.nextTid
    requires child !in st.tid && st'.tid == st.tid[child := 0] && Todo(st, st.current) == []
    requires Todo(st', st.current) == [Down(OfLock(TID_LOCK)), ReadTid(child), Release(TID_LOCK), Unblock(child)]
    ensures Tids(st')
  {
    forall u, c
      ensures Numbers(st', u, c) <==> Numbers(st, u, c) || (u == st.current && c == child)
      ensures Creates(st', u, c) <==> Creates(st, u, c) || (u == st.current && c == child)
    {
      if u != st.current {
        assert Todo(st', u) == Todo(st, u);
      } else {
        assert Todo(st', u)[1] == ReadTid(child);
      }
    }
    forall t, c, id | HeadIs(st', t, WriteTid(c, id))
      ensures id == st'.nextTid
    {
      if t != st.current { assert Todo(st', t) == Todo(st, t); assert HeadIs(st, t, WriteTid(c, id)); }
    }
    forall t | t in st'.tid && st'.tid[t] == 0
      ensures exists u :: Numbers(st', u, t)
    {
      if t == child {
        assert Numbers(st', st.current, child);
      } else {
        var u :| Numbers(st, u, t);
        assert Numbers(st', u, t);
      }
    }
  }
}
