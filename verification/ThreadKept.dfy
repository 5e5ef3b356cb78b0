/** Every enabled step succeeds and keeps the invariant. */
module ThreadKept {
  import opened Basics
  import opened Threads
  import opened ThreadInvariants
  import opened ThreadSteps
  import opened ThreadPlaces
  import opened ThreadLocks
  import opened ThreadConds

  // ----- yields, exits, ticks, and the idle thread's block ------------------------------------

  lemma QuietUnmoved(st: State, st': State)
    requires Quiet(st, st')
    ensures Unmoved(st, st') && OthersPlans(st, st') && SameQueues(st, st')
    ensures WaitersUntouched(st, st')
    ensures forall u, c :: Creates(st', u, c) <==> Creates(st, u, c)
    ensures forall c :: Numbers(st', st.current, c) <==> Numbers(st, st.current, c)
  {
    assert Todo(st', st.current) == Todo(st, st.current);
  }

  lemma IdlerAwake(st: State)
    requires Idle(st)
    ensures forall s :: !HeadIs(st, st.idler, Asleep(s))
  {
  }

  lemma CurrentNotBlocked(st: State)
    requires Lists(st)
    ensures !IsBlocked(st, st.current)
  {
  }

  lemma QuietPlaces(st: State, st': State)
    requires PlaceInv(st) && SchedInv(st) && Quiet(st, st')
    ensures PlaceInv(st')
  {
    QuietUnmoved(st, st');
    IdlerAwake(st);
    CurrentNotBlocked(st);
    UnmovedWaiters(st, st');
    UnmovedParked(st, st');
    UnmovedNewborns(st, st');
    QuietWakeups(st, st');
  }

  lemma NewbornHasTid(st: State, st': State)
    requires Newborns(st') && Lists(st') && Quiet(st, st')
    ensures forall u, c :: Creates(st, u, c) ==> c in st'.tid
  {
    QuietUnmoved(st, st');
    forall u, c | Creates(st, u, c)
      ensures c in st'.tid
    {
      assert Creates(st', u, c);
      assert c in st'.status.Keys;
    }
  }

  lemma QuietTodos(st: State, st': State)
    requires Todos(st) && References(st) && Quiet(st, st')
    ensures Todos(st') && References(st')
  {
    KeepTodos(st, st');
    ShrinkReferences(st, st');
  }

  lemma QuietTids(st: State, st': State)
    requires Tids(st) && Newborns(st') && Lists(st') && Quiet(st, st')
    ensures Tids(st')
  {
    QuietUnmoved(st, st');
    NewbornHasTid(st, st');
    forall c, id | HeadIs(st', st.current, WriteTid(c, id))
      ensures id == st.nextTid
    {
      assert HeadIs(st, st.current, WriteTid(c, id));
    }
    KeepTids(st, st');
  }

  lemma QuietPlans(st: State, st': State)
    requires PlanInv(st) && Newborns(st') && Lists(st') && Quiet(st, st')
    ensures PlanInv(st')
  {
    QuietTodos(st, st');
    QuietTids(st, st');
    KeepLocks(st, st');
  }

  lemma QuietInv(st: State, st': State)
    requires Inv(st) && SchedInv(st') && Quiet(st, st')
    ensures Inv(st')
  {
    QuietPlaces(st, st');
    QuietPlans(st, st');
    QuietUnmoved(st, st');
    KeepConds(st, st');
    KeepSignals(st, st');
  }

  // ----- steps of the running thread that leave the scheduler alone -----------------------------

  ghost predicate SameSched(st: State, st': State) {
    && st'.status == st.status && st'.ready == st.ready && st'.destruction == st.destruction
    && st'.current == st.current && st'.initial == st.initial && st'.idle == st.idle && st'.idler == st.idler
    && st'.ticks == st.ticks && st'.tid == st.tid && st'.nextTid == st.nextTid && st'.todo.Keys == st.todo.Keys
  }

  lemma SameSchedInv(st: State, st': State)
    requires SchedInv(st) && SameSched(st, st') && OthersPlans(st, st') && st.current != st.idler
    requires SetIdle !in Todo(st', st.current) && IdleBlock !in Todo(st', st.current)
    ensures SchedInv(st')
  {
    forall t | t in st'.status && st'.status[t] == Dying
      ensures Todo(st', t) == []
    {
      assert Todo(st', t) == Todo(st, t);
    }
    forall t | SetIdle in Todo(st', t) || IdleBlock in Todo(st', t)
      ensures t == st'.idler
    {
      assert Todo(st', t) == Todo(st, t);
    }
    assert Todo(st', st.idler) == Todo(st, st.idler);
  }

  predicate Inert(op: Op) {
    !op.Unblock? && !op.ReadTid? && !op.WriteTid? && !op.SetIdle? && !op.IdleBlock?
  }

  /** The running thread replaces the first step of its plan, if it has one, by extra. */
  ghost predicate Advances(st: State, st': State, extra: seq<Op>, rest: seq<Op>) {
    && Did(st, st', extra + rest)
    && (if Todo(st, st.current) == [] then rest == []
        else Inert(Todo(st, st.current)[0]) && Todo(st, st.current)[1..] == rest)
    && (forall op :: op in extra ==> Inert(op))
    && (extra == [] ==> Fresh(rest))
  }

  lemma AdvanceFacts(st: State, st': State, extra: seq<Op>, rest: seq<Op>)
    requires Advances(st, st', extra, rest)
    ensures forall c :: Creates(st', st.current, c) <==> Creates(st, st.current, c)
    ensures forall c :: Numbers(st', st.current, c) <==> Numbers(st, st.current, c)
    ensures forall c, id :: !HeadIs(st', st.current, WriteTid(c, id))
    ensures forall op :: op in Todo(st', st.current) ==> op in extra || op in Todo(st, st.current)
  {
    var old' := Todo(st, st.current);
    var new' := Todo(st', st.current);
    if old' != [] { assert old' == [old'[0]] + rest; }
    forall c
      ensures Creates(st', st.current, c) <==> Creates(st, st.current, c)
    {
      if rest == [] && extra != [] { assert new'[|new'| - 1] in extra; }
    }
    if extra != [] { assert extra[0] in extra; }
  }

  lemma AdvanceSched(st: State, st': State, extra: seq<Op>, rest: seq<Op>)
    requires SchedInv(st) && SameSched(st, st') && Advances(st, st', extra, rest) && st.current != st.idler
    ensures SchedInv(st')
  {
    AdvanceFacts(st, st', extra, rest);
    SameSchedInv(st, st');
  }

  lemma SameSchedBlocked(st: State, st': State)
    requires SchedInv(st) && SameSched(st, st')
    ensures SameBlocked(st, st') && !IsBlocked(st', st.current) && !IsBlocked(st, st.current)
    ensures forall t :: IsBlocked(st', t) <==> IsBlocked(st, t)
  {
  }

  lemma AdvancePlaces(st: State, st': State, extra: seq<Op>, rest: seq<Op>)
    requires SchedInv(st) && Waiters(st) && Parked(st) && Newborns(st)
    requires SameSched(st, st') && SameWaiters(st, st') && Advances(st, st', extra, rest)
    ensures Waiters(st') && Parked(st') && Newborns(st')
  {
    AdvanceFacts(st, st', extra, rest);
    SameSchedBlocked(st, st');
    IdlerAwake(st);
    UnmovedWaiters(st, st');
    UnmovedParked(st, st');
    UnmovedNewborns(st, st');
  }

  lemma CreatedHasTid(st: State)
    requires Newborns(st) && Lists(st)
    ensures forall u, c :: Creates(st, u, c) ==> c in st.tid
  {
    forall u, c | Creates(st, u, c)
      ensures c in st.tid
    {
      assert c in st.status.Keys;
    }
  }

  lemma AdvanceTids(st: State, st': State, extra: seq<Op>, rest: seq<Op>)
    requires Lists(st) && Newborns(st) && Tids(st) && SameSched(st, st') && Advances(st, st', extra, rest)
    ensures Tids(st')
  {
    AdvanceFacts(st, st', extra, rest);
    CreatedHasTid(st);
    KeepTids(st, st');
  }

  lemma AdvanceReferences(st: State, st': State, extra: seq<Op>, rest: seq<Op>)
    requires References(st) && SameDomains(st, st') && Advances(st, st', extra, rest)
    requires forall op :: op in extra ==> Known(st', op)
    ensures References(st')
  {
    AdvanceFacts(st, st', extra, rest);
    forall op | op in Todo(st', st.current)
      ensures Known(st', op)
    {
      if op !in extra { assert Known(st, op); }
    }
    KeepReferences(st, st');
  }

  // ----- sema_down that takes ---------------------------------------------------------------------

  /** What sema_down(s) with a positive value does. */
  ghost predicate Took(st: State, st': State, s: SemaId, rest: seq<Op>) {
    && AtDown(st, s) && s in st.semas && Value(st, s) > 0 && Todo(st, st.current)[1..] == rest
    && SameSched(st, st') && Did(st, st', AfterDown(s) + rest)
    && OneSema(st, st', s, Value(st, s) - 1, WaitersOf(st, s))
    && st'.semas.Keys == st.semas.Keys && st'.holder == st.holder && st'.queue == st.queue
  }

  predicate AtDown(st: State, s: SemaId) {
    HeadIs(st, st.current, Down(s)) || HeadIs(st, st.current, Asleep(s))
  }

  lemma TakesTook(st: State, s: SemaId)
    requires Lists(st) && AtDown(st, s) && s in st.semas && Value(st, s) > 0
    ensures var rest := Todo(st, st.current)[1..];
      SemaDown(st, s, rest).Ok? && Took(st, SemaDown(st, s, rest).st, s, rest)
  {
  }

  lemma TookAdvances(st: State, st': State, s: SemaId, rest: seq<Op>)
    requires Todos(st) && Took(st, st', s, rest)
    ensures Advances(st, st', AfterDown(s), rest)
    ensures TodoFits(Held(st, st.current), AfterDown(s) + rest)
    ensures s.OfLock? ==> s.lock !in Held(st, st.current)
    ensures !s.OfLock? ==> Fresh(rest)
    ensures s.OfWaiter? ==> |rest| == 1 && rest[0].Down? && rest[0].s.OfLock?
  {
    var ops := Todo(st, st.current);
    assert ops == [ops[0]] + rest;
    assert TodoFits(Held(st, st.current), ops);
    DownFits(Held(st, st.current), ops[0], s, rest);
    if !s.OfLock? { FitIsFresh(Held(st, st.current), rest); }
  }

  lemma NotIdler(st: State)
    requires Idle(st) && Todo(st, st.current) != []
    requires Inert(Todo(st, st.current)[0]) && Todo(st, st.current)[0] != Up(IDLE_STARTED)
    ensures st.current != st.idler
  {
  }

  lemma TookPlaces(st: State, st': State, s: SemaId, rest: seq<Op>)
    requires SchedInv(st) && PlaceInv(st) && Todos(st) && Took(st, st', s, rest)
    ensures PlaceInv(st')
  {
    TookAdvances(st, st', s, rest);
    AdvancePlaces(st, st', AfterDown(s), rest);
    TookWakeups(st, st', s, rest);
  }

  lemma TookWakeups(st: State, st': State, s: SemaId, rest: seq<Op>)
    requires Lists(st) && Waiters(st) && NoLostWakeup(st) && Took(st, st', s, rest)
    requires Advances(st, st', AfterDown(s), rest)
    ensures NoLostWakeup(st')
  {
    CurrentNotBlocked(st);
    assert Todo(st', st.current) == AfterDown(s) + rest;
    if HeadIs(st, st.current, Asleep(s)) {
      TakeWakeups(st, st', s, AfterDown(s) + rest);
    } else {
      IdleWakeups(st, st');
    }
  }

  lemma TookLocks(st: State, st': State, s: SemaId, rest: seq<Op>)
    requires Locks(st) && References(st) && Took(st, st', s, rest) && Advances(st, st', AfterDown(s), rest)
    ensures Locks(st')
  {
    forall l | l in st'.holder
      ensures LockOk(st', l)
    {
      assert LockOk(st, l);
      assert forall t :: Holds(st', t, l) <==> Holds(st, t, l);
      assert !AtSection(Todo(st, st.current), l);
      if s == OfLock(l) {
        EnterLock(st, st', l);
      } else {
        KeepLock(st, st', l);
      }
    }
  }

  lemma TookPlans(st: State, st': State, s: SemaId, rest: seq<Op>)
    requires Lists(st) && Newborns(st) && PlanInv(st) && Took(st, st', s, rest)
    ensures PlanInv(st')
  {
    TookAdvances(st, st', s, rest);
    KeepTodos(st, st');
    TookReferences(st, st', s, rest);
    TookLocks(st, st', s, rest);
    AdvanceTids(st, st', AfterDown(s), rest);
  }

  lemma TookReferences(st: State, st': State, s: SemaId, rest: seq<Op>)
    requires References(st) && Took(st, st', s, rest) && Advances(st, st', AfterDown(s), rest)
    ensures References(st')
  {
    AdvanceReferences(st, st', AfterDown(s), rest);
  }

  lemma TookConds(st: State, st': State, s: SemaId, rest: seq<Op>)
    requires Todos(st) && CondInv(st) && Took(st, st', s, rest)
    ensures CondInv(st')
  {
    TookAdvances(st, st', s, rest);
    var ops := Todo(st, st.current);
    assert ops == [ops[0]] + rest;
    if s.OfWaiter? {
      assert rest == [Down(OfLock(rest[0].s.lock))];
      ConsumeConds(st, st', s, rest);
      ConsumeSignals(st, st', s, rest);
    } else {
      TookUntouched(st, st', s, rest);
      KeepConds(st, st');
      KeepSignals(st, st');
    }
  }

  lemma TookUntouched(st: State, st': State, s: SemaId, rest: seq<Op>)
    requires Took(st, st', s, rest) && !s.OfWaiter? && (!s.OfLock? ==> Fresh(rest))
    ensures WaitersUntouched(st, st')
  {
    var ops := Todo(st, st.current);
    assert ops == [ops[0]] + rest;
  }

  lemma TookInv(st: State, st': State, s: SemaId, rest: seq<Op>)
    requires Inv(st) && Took(st, st', s, rest)
    ensures Inv(st')
  {
    NotIdler(st);
    TookAdvances(st, st', s, rest);
    AdvanceSched(st, st', AfterDown(s), rest);
    TookPlaces(st, st', s, rest);
    TookPlans(st, st', s, rest);
    TookConds(st, st', s, rest);
  }

  // ----- sema_down that sleeps -----------------------------------------------------------------

  /** The state in which sema_down calls thread_block(). */
  function Dozing(st: State, s: SemaId, rest: seq<Op>): State
    requires s in st.semas
  {
    SetTodo(st.(semas := st.semas[s := st.semas[s].(waiters := st.semas[s].waiters + [st.current])]), [Asleep(s)] + rest)
  }

  ghost predicate Slept(st: State, st': State, s: SemaId, rest: seq<Op>) {
    && AtDown(st, s) && s in st.semas && Value(st, s) == 0 && Todo(st, st.current)[1..] == rest
    && st.current != st.idler && WentToSleep(st, st', s, rest) && Advances(st, st', [Asleep(s)], rest)
    && st'.semas.Keys == st.semas.Keys && st'.holder == st.holder && st'.queue == st.queue
    && st'.tid == st.tid && st'.nextTid == st.nextTid
  }

  lemma DozingSched(st: State, s: SemaId, rest: seq<Op>)
    requires SchedInv(st) && AtDown(st, s) && s in st.semas && Todo(st, st.current)[1..] == rest
    ensures st.current != st.idler && SchedInv(Dozing(st, s, rest))
    ensures SameSched(st, Dozing(st, s, rest)) && Advances(st, Dozing(st, s, rest), [Asleep(s)], rest)
  {
    NotIdler(st);
    assert SameSched(st, Dozing(st, s, rest));
    assert Advances(st, Dozing(st, s, rest), [Asleep(s)], rest);
    AdvanceSched(st, Dozing(st, s, rest), [Asleep(s)], rest);
  }

  lemma SleepsSlept(st: State, s: SemaId, rest: seq<Op>)
    requires SchedInv(st) && AtDown(st, s) && s in st.semas && Value(st, s) == 0 && Todo(st, st.current)[1..] == rest
    ensures SemaDown(st, s, rest) == ThreadBlock(Dozing(st, s, rest))
    ensures SemaDown(st, s, rest).Ok? && SchedInv(SemaDown(st, s, rest).st)
    ensures Slept(st, SemaDown(st, s, rest).st, s, rest)
  {
    DozingSched(st, s, rest);
    var dozing := Dozing(st, s, rest);
    BlockStep(dozing);
    assert SemaDown(st, s, rest) == ThreadBlock(dozing);
    DozedSlept(st, s, rest, ThreadBlock(dozing).st);
  }

  lemma DozedSlept(st: State, s: SemaId, rest: seq<Op>, st': State)
    requires AtDown(st, s) && s in st.semas && Value(st, s) == 0 && Todo(st, st.current)[1..] == rest
    requires st.current != st.idler && SameSched(st, Dozing(st, s, rest)) && Advances(st, Dozing(st, s, rest), [Asleep(s)], rest)
    requires SameRest(Dozing(st, s, rest), st') && SameBlocked(Dozing(st, s, rest), st') && IsBlocked(st', st.current)
    ensures Slept(st, st', s, rest)
  {
    var dozing := Dozing(st, s, rest);
    assert forall t :: Todo(st', t) == Todo(dozing, t);
    assert forall t :: IsBlocked(dozing, t) <==> IsBlocked(st, t);
    assert OneSema(st, dozing, s, 0, WaitersOf(st, s) + [st.current]);
    assert OneSema(st, st', s, 0, WaitersOf(st, s) + [st.current]);
  }

  lemma SleptPlaces(st: State, st': State, s: SemaId, rest: seq<Op>)
    requires SchedInv(st) && PlaceInv(st) && Slept(st, st', s, rest)
    ensures PlaceInv(st')
  {
    IdlerAwake(st);
    CurrentNotBlocked(st);
    var op := Todo(st, st.current)[0];
    assert Todo(st, st.current) == [op] + rest;
    SleepWaiters(st, st', s, rest);
    SleepParked(st, st', s, op, rest);
    SleepNewborns(st, st', s, op, rest);
    SleepWakeups(st, st', s, rest);
  }

  lemma SleptTids(st: State, st': State, s: SemaId, rest: seq<Op>)
    requires Lists(st) && Newborns(st) && Tids(st) && Slept(st, st', s, rest)
    ensures Tids(st')
  {
    AdvanceFacts(st, st', [Asleep(s)], rest);
    CreatedHasTid(st);
    KeepTids(st, st');
  }

  lemma SleptTodos(st: State, st': State, s: SemaId, rest: seq<Op>)
    requires Todos(st) && Slept(st, st', s, rest)
    ensures Todos(st')
  {
    var ops := Todo(st, st.current);
    assert ops == [ops[0]] + rest;
    assert TodoFits(Held(st, st.current), ops);
    DownFits(Held(st, st.current), ops[0], s, rest);
    KeepTodos(st, st');
  }

  lemma SleptLocks(st: State, st': State, s: SemaId, rest: seq<Op>)
    requires Locks(st) && Slept(st, st', s, rest)
    ensures Locks(st')
  {
    KeepLocks(st, st');
  }

  lemma SleptReferences(st: State, st': State, s: SemaId, rest: seq<Op>)
    requires References(st) && Slept(st, st', s, rest)
    ensures References(st')
  {
    AdvanceReferences(st, st', [Asleep(s)], rest);
  }

  lemma SleptPlans(st: State, st': State, s: SemaId, rest: seq<Op>)
    requires Lists(st) && Newborns(st) && PlanInv(st) && Slept(st, st', s, rest)
    ensures PlanInv(st')
  {
    SleptTids(st, st', s, rest);
    SleptTodos(st, st', s, rest);
    SleptReferences(st, st', s, rest);
    SleptLocks(st, st', s, rest);
  }

  lemma SleptUntouched(st: State, st': State, s: SemaId, rest: seq<Op>)
    requires Slept(st, st', s, rest)
    ensures WaitersUntouched(st, st')
  {
    var ops := Todo(st, st.current);
    assert ops == [ops[0]] + rest;
  }

  lemma SleptInv(st: State, st': State, s: SemaId, rest: seq<Op>)
    requires Inv(st) && SchedInv(st') && Slept(st, st', s, rest)
    ensures Inv(st')
  {
    SleptPlaces(st, st', s, rest);
    SleptPlans(st, st', s, rest);
    SleptUntouched(st, st', s, rest);
    KeepConds(st, st');
    KeepSignals(st, st');
  }

  // ----- sema_up -----------------------------------------------------------------------------------

  /** What sema_up(s) does to everything but plans. */
  ghost predicate Raised(st: State, st': State, s: SemaId) {
    && s in st.semas
    && (forall r :: r != s ==> Value(st', r) == Value(st, r) && WaitersOf(st', r) == WaitersOf(st, r))
    && Value(st', s) == Value(st, s) + 1
    && WaitersOf(st', s) == (if WaitersOf(st, s) == [] then [] else WaitersOf(st, s)[1..])
    && (forall t :: IsBlocked(st', t) <==> IsBlocked(st, t) && (WaitersOf(st, s) != [] ==> t != WaitersOf(st, s)[0]))
    && st'.semas.Keys == st.semas.Keys && st'.holder == st.holder && st'.queue == st.queue
    && st'.tid == st.tid && st'.nextTid == st.nextTid && st'.idler == st.idler
  }

  /** thread_unblock keeps the scheduler's lists in order. */
  lemma UnblockSched(st: State, t: Page)
    requires SchedInv(st) && IsBlocked(st, t) && t != st.idler
    ensures ThreadUnblock(st, t).Ok? && SchedInv(ThreadUnblock(st, t).st)
  {
    EnqueueReady(st.status, st.ready, st.idle, t);
    KeepDead(st.status, st.destruction, st.initial, t, Ready);
    var st' := ThreadUnblock(st, t).st;
    assert forall u :: Todo(st', u) == Todo(st, u);
  }

  lemma SemasSched(st: State, semas: map<SemaId, Sema>)
    requires SchedInv(st)
    ensures SchedInv(st.(semas := semas))
  {
    assert forall t :: Todo(st.(semas := semas), t) == Todo(st, t);
  }

  lemma UpRaised(st: State, s: SemaId)
    requires s in st.semas && (WaitersOf(st, s) != [] ==> IsBlocked(st, WaitersOf(st, s)[0]))
    ensures SemaUp(st, s).Ok? && Raised(st, SemaUp(st, s).st, s)
    ensures SemaUp(st, s).st.todo == st.todo && SemaUp(st, s).st.current == st.current
  {
  }

  lemma FirstWaiter(st: State, s: SemaId)
    requires Idle(st) && Waiters(st) && WaitersOf(st, s) != []
    ensures IsBlocked(st, WaitersOf(st, s)[0]) && WaitersOf(st, s)[0] != st.idler
  {
    OnWaiters(st, s, WaitersOf(st, s)[0]);
    IdlerAwake(st);
  }

  lemma UpSched(st: State, s: SemaId)
    requires SchedInv(st) && s in st.semas
    requires WaitersOf(st, s) != [] ==> IsBlocked(st, WaitersOf(st, s)[0]) && WaitersOf(st, s)[0] != st.idler
    ensures SemaUp(st, s).Ok? && SchedInv(SemaUp(st, s).st)
  {
    var sema := st.semas[s];
    if sema.waiters == [] {
      var semas := st.semas[s := sema.(value := sema.value + 1)];
      SemasSched(st, semas);
      assert SemaUp(st, s) == Ok(st.(semas := semas));
    } else {
      var semas := st.semas[s := Sema(sema.value + 1, sema.waiters[1..])];
      SemasSched(st, semas);
      UnblockSched(st.(semas := semas), sema.waiters[0]);
      assert SemaUp(st, s) == ThreadUnblock(st.(semas := semas), sema.waiters[0]);
    }
  }

  /** sema_up(s) as a step of the running thread. */
  ghost predicate RaisedBy(st: State, st': State, s: SemaId, rest: seq<Op>) {
    && HeadIs(st, st.current, Up(s)) && Todo(st, st.current) == [Up(s)] + rest
    && Raised(st, st', s) && Did(st, st', rest)
  }

  lemma UpStep(st: State, s: SemaId, rest: seq<Op>)
    requires SchedInv(st) && Waiters(st) && s in st.semas && Todo(st, st.current) == [Up(s)] + rest
    requires SchedInv(SetTodo(st, rest))
    ensures SemaUp(SetTodo(st, rest), s).Ok? && SchedInv(SemaUp(SetTodo(st, rest), s).st)
    ensures RaisedBy(st, SemaUp(SetTodo(st, rest), s).st, s, rest)
  {
    var done := SetTodo(st, rest);
    DoneWaiters(st, rest);
    if WaitersOf(done, s) != [] { FirstWaiter(done, s); }
    UpSched(done, s);
    UpRaised(done, s);
    RaisedAfterDone(st, SemaUp(done, s).st, s, rest);
  }

  lemma DoneWaiters(st: State, rest: seq<Op>)
    requires Lists(st) && Waiters(st)
    ensures Waiters(SetTodo(st, rest))
  {
    var done := SetTodo(st, rest);
    forall s, t | t in WaitersOf(done, s)
      ensures IsBlocked(done, t) && HeadIs(done, t, Asleep(s))
    {
      OnWaiters(st, s, t);
      assert Todo(done, t) == Todo(st, t);
    }
    forall s ensures NoDup(WaitersOf(done, s)) { assert WaitersOf(done, s) == WaitersOf(st, s); }
  }

  lemma RaisedAfterDone(st: State, st': State, s: SemaId, rest: seq<Op>)
    requires Todo(st, st.current) == [Up(s)] + rest && Raised(SetTodo(st, rest), st', s) && st'.todo == SetTodo(st, rest).todo
    ensures RaisedBy(st, st', s, rest)
  {
    var done := SetTodo(st, rest);
    assert forall r :: Value(done, r) == Value(st, r) && WaitersOf(done, r) == WaitersOf(st, r);
    assert forall t :: IsBlocked(done, t) <==> IsBlocked(st, t);
  }

  lemma RaisedUpped(st: State, st': State, s: SemaId)
    requires Raised(st, st', s) && OthersPlans(st, st')
    requires forall c :: Creates(st', st.current, c) <==> Creates(st, st.current, c)
    ensures Upped(st, st', s)
  {
  }

  lemma RaisedPlaces(st: State, st': State, s: SemaId)
    requires SchedInv(st) && PlaceInv(st) && Raised(st, st', s) && OthersPlans(st, st')
    requires forall c :: Creates(st', st.current, c) <==> Creates(st, st.current, c)
    requires forall r :: !HeadIs(st, st.current, Asleep(r)) && !HeadIs(st', st.current, Asleep(r))
    ensures PlaceInv(st')
  {
    RaisedUpped(st, st', s);
    CurrentNotBlocked(st);
    UpWaiters(st, st', s);
    UpParked(st, st', s);
    UpNewborns(st, st', s);
    UpWakeups(st, st', s);
  }

  lemma RaisedByAdvances(st: State, st': State, s: SemaId, rest: seq<Op>)
    requires Todos(st) && RaisedBy(st, st', s, rest)
    ensures Fresh(rest) && Advances(st, st', [], rest) && TodoFits(Held(st, st.current), rest)
    ensures s.OfLock? ==> !Holds(st, st.current, s.lock)
  {
    assert TodoFits(Held(st, st.current), Todo(st, st.current));
    UpFits(Held(st, st.current), s, rest);
    FitIsFresh(Held(st, st.current), rest);
    assert [] + rest == rest && ([Up(s)] + rest)[1..] == rest;
  }

  lemma RaisedByLocks(st: State, st': State, s: SemaId, rest: seq<Op>)
    requires Locks(st) && RaisedBy(st, st', s, rest) && Fresh(rest) && (s.OfLock? ==> !Holds(st, st.current, s.lock))
    ensures Locks(st')
  {
    forall l | l in st'.holder
      ensures LockOk(st', l)
    {
      assert LockOk(st, l);
      assert forall t :: Holds(st', t, l) <==> Holds(st, t, l);
      assert !AtSection(Todo(st', st.current), l);
      if s == OfLock(l) {
        LeaveLock(st, st', l);
      } else {
        KeepLock(st, st', l);
      }
    }
  }

  lemma RaisedByTids(st: State, st': State, s: SemaId, rest: seq<Op>)
    requires Lists(st) && Newborns(st) && Tids(st) && RaisedBy(st, st', s, rest) && Advances(st, st', [], rest)
    ensures Tids(st')
  {
    AdvanceFacts(st, st', [], rest);
    CreatedHasTid(st);
    KeepTids(st, st');
  }

  lemma RaisedByReferences(st: State, st': State, s: SemaId, rest: seq<Op>)
    requires References(st) && RaisedBy(st, st', s, rest) && Advances(st, st', [], rest)
    ensures References(st')
  {
    AdvanceReferences(st, st', [], rest);
  }

  lemma RaisedByPlans(st: State, st': State, s: SemaId, rest: seq<Op>)
    requires Lists(st) && Newborns(st) && PlanInv(st) && RaisedBy(st, st', s, rest)
    ensures PlanInv(st')
  {
    RaisedByAdvances(st, st', s, rest);
    KeepTodos(st, st');
    RaisedByLocks(st, st', s, rest);
    RaisedByTids(st, st', s, rest);
    RaisedByReferences(st, st', s, rest);
  }

  lemma RaisedByConds(st: State, st': State, s: SemaId, rest: seq<Op>)
    requires Todos(st) && CondInv(st) && RaisedBy(st, st', s, rest)
    ensures CondInv(st')
  {
    RaisedByAdvances(st, st', s, rest);
    if s.OfWaiter? {
      DeliverConds(st, st', s, rest);
      DeliverSignals(st, st', s, rest);
    } else {
      assert WaitersUntouched(st, st');
      KeepConds(st, st');
      KeepSignals(st, st');
    }
  }

  lemma RaisedByPlaces(st: State, st': State, s: SemaId, rest: seq<Op>)
    requires SchedInv(st) && PlaceInv(st) && Todos(st) && RaisedBy(st, st', s, rest)
    ensures PlaceInv(st')
  {
    RaisedByAdvances(st, st', s, rest);
    AdvanceFacts(st, st', [], rest);
    RaisedPlaces(st, st', s);
  }

  lemma RaisedByInv(st: State, st': State, s: SemaId, rest: seq<Op>)
    requires Inv(st) && SchedInv(st') && RaisedBy(st, st', s, rest)
    ensures Inv(st')
  {
    RaisedByPlaces(st, st', s, rest);
    RaisedByPlans(st, st', s, rest);
    RaisedByConds(st, st', s, rest);
  }

  // ----- interrupt handlers --------------------------------------------------------------------------

  /** No plan changed, nor anything that plans, locks and condition variables depend on. */
  ghost predicate SamePlans(st: State, st': State) {
    && (forall t :: Todo(st', t) == Todo(st, t))
    && (forall s: SemaId :: !s.User? ==> Value(st', s) == Value(st, s))
    && st'.semas.Keys == st.semas.Keys && st'.holder == st.holder && st'.queue == st.queue
    && st'.tid == st.tid && st'.nextTid == st.nextTid
  }

  lemma SamePlansTids(st: State, st': State)
    requires Lists(st) && Newborns(st) && Tids(st) && SamePlans(st, st')
    ensures Tids(st')
  {
    CreatedHasTid(st);
    assert Todo(st', st.current) == Todo(st, st.current);
    forall c, id | HeadIs(st', st.current, WriteTid(c, id))
      ensures id == st.nextTid
    {
      assert HeadIs(st, st.current, WriteTid(c, id));
    }
    KeepTids(st, st');
  }

  lemma SamePlansFacts(st: State, st': State)
    requires SamePlans(st, st')
    ensures WaitersUntouched(st, st') && SameDomains(st, st') && OthersPlans(st, st')
    ensures forall c :: Creates(st', st.current, c) <==> Creates(st, st.current, c)
  {
    assert Todo(st', st.current) == Todo(st, st.current);
  }

  lemma SamePlansTodos(st: State, st': State)
    requires Todos(st) && References(st) && SamePlans(st, st')
    ensures Todos(st') && References(st')
  {
    SamePlansFacts(st, st');
    KeepTodos(st, st');
    ShrinkReferences(st, st');
  }

  lemma SamePlansInv(st: State, st': State)
    requires Lists(st) && Newborns(st) && PlanInv(st) && CondInv(st) && SamePlans(st, st')
    ensures PlanInv(st') && CondInv(st')
  {
    SamePlansTodos(st, st');
    KeepLocks(st, st');
    SamePlansTids(st, st');
    SamePlansFacts(st, st');
    KeepConds(st, st');
    KeepSignals(st, st');
  }

  lemma IntrUpInv(st: State, n: nat)
    requires Inv(st) && User(n) in st.semas && InterruptsOn(st)
    ensures SemaUp(st, User(n)).Ok? && Inv(SemaUp(st, User(n)).st)
  {
    var s := User(n);
    if WaitersOf(st, s) != [] { FirstWaiter(st, s); }
    UpSched(st, s);
    UpRaised(st, s);
    IntrUpKept(st, SemaUp(st, s).st, s);
  }

  lemma RaisedSamePlans(st: State, st': State, s: SemaId)
    requires InterruptsOn(st) && Raised(st, st', s) && st'.todo == st.todo && s.User?
    ensures SamePlans(st, st') && OthersPlans(st, st')
    ensures forall c :: Creates(st', st.current, c) <==> Creates(st, st.current, c)
    ensures forall r :: !HeadIs(st, st.current, Asleep(r)) && !HeadIs(st', st.current, Asleep(r))
  {
    assert forall t :: Todo(st', t) == Todo(st, t);
  }

  lemma IntrUpKept(st: State, st': State, s: SemaId)
    requires Inv(st) && InterruptsOn(st) && SchedInv(st') && Raised(st, st', s) && st'.todo == st.todo && s.User?
    ensures Inv(st')
  {
    RaisedSamePlans(st, st', s);
    RaisedPlaces(st, st', s);
    SamePlansInv(st, st');
  }

  lemma TryDownIsLess(st: State, s: SemaId)
    requires s in st.semas && st.current in st.todo
    ensures SemaTryDown(st, s, st.todo[st.current]).Ok?
    ensures SemaTryDown(st, s, st.todo[st.current]).st == st || Less(st, SemaTryDown(st, s, st.todo[st.current]).st, s)
  {
    if st.semas[s].value > 0 {
      var st' := st.(semas := st.semas[s := st.semas[s].(value := st.semas[s].value - 1)]);
      assert st'.todo == st'.todo[st.current := st.todo[st.current]];
      assert SemaTryDown(st, s, st.todo[st.current]) == Ok(st');
    }
  }

  lemma IntrTryDownInv(st: State, s: SemaId)
    requires Inv(st) && s in st.semas && s.User? && st.current in st.todo
    ensures SemaTryDown(st, s, st.todo[st.current]).Ok? && Inv(SemaTryDown(st, s, st.todo[st.current]).st)
  {
    TryDownIsLess(st, s);
    var st' := SemaTryDown(st, s, st.todo[st.current]).st;
    if st' != st { LessKept(st, st', s); }
  }

  /** One less in a semaphore of the program's. */
  ghost predicate Less(st: State, st': State, s: SemaId) {
    s in st.semas && Value(st, s) > 0 && st' == st.(semas := st.semas[s := st.semas[s].(value := st.semas[s].value - 1)])
  }

  lemma LessFacts(st: State, st': State, s: SemaId)
    requires Less(st, st', s)
    ensures SameSched(st, st') && SameWaiters(st, st') && (forall r :: Value(st', r) <= Value(st, r))
    ensures s.User? ==> SamePlans(st, st')
    ensures forall t :: Todo(st', t) == Todo(st, t)
    ensures OthersPlans(st, st') && forall c :: Creates(st', st.current, c) <==> Creates(st, st.current, c)
  {
    assert forall t :: Todo(st', t) == Todo(st, t);
  }

  lemma LessKept(st: State, st': State, s: SemaId)
    requires Inv(st) && s.User? && Less(st, st', s)
    ensures Inv(st')
  {
    SemasSched(st, st'.semas);
    LessPlaces(st, st', s);
    LessFacts(st, st', s);
    SamePlansInv(st, st');
  }

  lemma LessPlaces(st: State, st': State, s: SemaId)
    requires SchedInv(st) && PlaceInv(st) && Less(st, st', s)
    ensures PlaceInv(st')
  {
    LessFacts(st, st', s);
    SameSchedBlocked(st, st');
    IdlerAwake(st);
    UnmovedWaiters(st, st');
    UnmovedParked(st, st');
    UnmovedNewborns(st, st');
    QuietWakeups(st, st');
  }

  // ----- steps that change no semaphore -----------------------------------------------------------------

  lemma LocalPlaces(st: State, st': State, extra: seq<Op>, rest: seq<Op>)
    requires SchedInv(st) && PlaceInv(st) && SameSched(st, st') && SameSemas(st, st') && Advances(st, st', extra, rest)
    requires forall s :: !HeadIs(st, st.current, Asleep(s)) && !HeadIs(st', st.current, Asleep(s))
    ensures PlaceInv(st')
  {
    AdvancePlaces(st, st', extra, rest);
    IdleWakeups(st, st');
  }

  // ----- calls that only begin ----------------------------------------------------------------------------

  /** A thread outside any call is now about to make the step op. */
  ghost predicate Called(st: State, st': State, op: Op) {
    && Todo(st, st.current) == [] && st' == SetTodo(st, [op]) && Known(st, op) && Fresh([op]) && Inert(op)
    && !(op.Down? && op.s.OfWaiter?) && OpsFit(Held(st, st.current), [op])
  }

  lemma CalledFacts(st: State, st': State, op: Op)
    requires Called(st, st', op) && Lists(st)
    ensures SameSched(st, st') && SameSemas(st, st') && SameDomains(st, st') && OthersPlans(st, st')
    ensures Advances(st, st', [op], []) && Todo(st', st.current) == [op]
    ensures st'.holder == st.holder && st'.queue == st.queue
    ensures WaitersUntouched(st, st')
    ensures forall s :: !HeadIs(st, st.current, Asleep(s)) && !HeadIs(st', st.current, Asleep(s))
    ensures forall l :: !AtSection(Todo(st', st.current), l) && !AtSection(Todo(st, st.current), l)
  {
    assert [op] + [] == [op];
  }

  lemma OutsideNotIdler(st: State)
    requires Idle(st) && Todo(st, st.current) == []
    ensures st.current != st.idler
  {
  }

  lemma CalledPlans(st: State, st': State, op: Op)
    requires Lists(st) && Newborns(st) && PlanInv(st) && Called(st, st', op)
    ensures PlanInv(st')
  {
    CalledFacts(st, st', op);
    FitIsTodoFit(Held(st, st.current), [op]);
    KeepTodos(st, st');
    AdvanceReferences(st, st', [op], []);
    KeepLocks(st, st');
    AdvanceTids(st, st', [op], []);
  }

  lemma CalledInv(st: State, st': State, op: Op)
    requires Inv(st) && Called(st, st', op)
    ensures Inv(st')
  {
    CalledFacts(st, st', op);
    OutsideNotIdler(st);
    AdvanceSched(st, st', [op], []);
    LocalPlaces(st, st', [op], []);
    CalledPlans(st, st', op);
    KeepConds(st, st');
    KeepSignals(st, st');
  }

  // ----- lock_try_acquire that succeeds ------------------------------------------------------------------

  ghost predicate Grabbed(st: State, st': State, l: LockId) {
    && Todo(st, st.current) == [] && l in st.holder && l != TID_LOCK && !Holds(st, st.current, l)
    && OfLock(l) in st.semas && Value(st, OfLock(l)) > 0
    && SameSched(st, st') && Did(st, st', [SetHolder(l)])
    && OneSema(st, st', OfLock(l), Value(st, OfLock(l)) - 1, WaitersOf(st, OfLock(l)))
    && st'.semas.Keys == st.semas.Keys && st'.holder == st.holder && st'.queue == st.queue
  }

  lemma GrabbedFacts(st: State, st': State, l: LockId)
    requires Grabbed(st, st', l)
    ensures OthersPlans(st, st') && SameWaiters(st, st') && SameDomains(st, st')
    ensures Advances(st, st', [SetHolder(l)], []) && WaitersUntouched(st, st')
    ensures forall s :: !HeadIs(st, st.current, Asleep(s)) && !HeadIs(st', st.current, Asleep(s))
  {
    assert [SetHolder(l)] + [] == [SetHolder(l)];
  }

  lemma GrabbedLocks(st: State, st': State, l: LockId)
    requires Locks(st) && Grabbed(st, st', l) && OthersPlans(st, st')
    ensures Locks(st')
  {
    forall k | k in st'.holder
      ensures LockOk(st', k)
    {
      assert LockOk(st, k);
      assert forall t :: Holds(st', t, k) <==> Holds(st, t, k);
      if k == l { EnterLock(st, st', k); } else { KeepLock(st, st', k); }
    }
  }

  lemma GrabbedTodos(st: State, st': State, l: LockId)
    requires Todos(st) && Grabbed(st, st', l) && OthersPlans(st, st')
    ensures Todos(st')
  {
    assert TodoFits(Held(st, st.current), Todo(st, st.current));
    var plan: seq<Op> := [SetHolder(l)];
    assert plan[1..] == [];
    KeepTodos(st, st');
  }

  lemma GrabbedReferences(st: State, st': State, l: LockId)
    requires References(st) && Grabbed(st, st', l)
    ensures References(st')
  {
    GrabbedFacts(st, st', l);
    AdvanceReferences(st, st', [SetHolder(l)], []);
  }

  lemma GrabbedPlans(st: State, st': State, l: LockId)
    requires Lists(st) && Newborns(st) && PlanInv(st) && Grabbed(st, st', l)
    ensures PlanInv(st')
  {
    GrabbedFacts(st, st', l);
    GrabbedTodos(st, st', l);
    GrabbedLocks(st, st', l);
    GrabbedReferences(st, st', l);
    AdvanceTids(st, st', [SetHolder(l)], []);
  }

  lemma GrabbedInv(st: State, st': State, l: LockId)
    requires Inv(st) && Grabbed(st, st', l)
    ensures Inv(st')
  {
    GrabbedFacts(st, st', l);
    OutsideNotIdler(st);
    AdvanceSched(st, st', [SetHolder(l)], []);
    AdvancePlaces(st, st', [SetHolder(l)], []);
    IdleWakeups(st, st');
    GrabbedPlans(st, st', l);
    KeepConds(st, st');
    KeepSignals(st, st');
  }

  // ----- lock_acquire stores the holder --------------------------------------------------------------------

  ghost predicate Stored(st: State, st': State, l: LockId, rest: seq<Op>) {
    && HeadIs(st, st.current, SetHolder(l)) && Todo(st, st.current) == [SetHolder(l)] + rest && l in st.holder
    && SameSched(st, st') && Did(st, st', rest)
    && st'.holder == st.holder[l := Some(st.current)]
    && st'.semas == st.semas && st'.queue == st.queue
  }

  /** Before it is stored the holder is null: mutual exclusion at work. */
  lemma HolderIsNull(st: State, l: LockId)
    requires Todos(st) && Locks(st) && HeadIs(st, st.current, SetHolder(l)) && l in st.holder
    ensures st.holder[l] == None
  {
    assert LockOk(st, l);
    assert InSection(st, st.current, l);
    assert TodoFits(Held(st, st.current), Todo(st, st.current));
    if st.holder[l] != None { assert InSection(st, st.holder[l].value, l); }
  }

  lemma StoredFacts(st: State, st': State, l: LockId, rest: seq<Op>)
    requires Todos(st) && Stored(st, st', l, rest)
    ensures Fresh(rest) && Advances(st, st', [], rest) && OthersPlans(st, st') && SameDomains(st, st') && SameSemas(st, st')
    ensures WaitersUntouched(st, st')
    ensures forall s :: !HeadIs(st, st.current, Asleep(s)) && !HeadIs(st', st.current, Asleep(s))
  {
    assert TodoFits(Held(st, st.current), Todo(st, st.current));
    assert ([SetHolder(l)] + rest)[1..] == rest && [] + rest == rest;
    FitIsFresh(Held(st, st.current) + iset{l}, rest);
  }

  lemma StoredLocks(st: State, st': State, l: LockId, rest: seq<Op>)
    requires Locks(st) && Stored(st, st', l, rest) && Fresh(rest) && st.holder[l] == None && OthersPlans(st, st')
    ensures Locks(st')
  {
    forall k | k in st'.holder
      ensures LockOk(st', k)
    {
      assert LockOk(st, k);
      if k == l {
        assert Holds(st', st.current, l);
        StayLock(st, st', l);
      } else {
        assert forall t :: Holds(st', t, k) <==> Holds(st, t, k);
        KeepLock(st, st', k);
      }
    }
  }

  lemma StoredPlans(st: State, st': State, l: LockId, rest: seq<Op>)
    requires Lists(st) && Newborns(st) && PlanInv(st) && Stored(st, st', l, rest)
    ensures PlanInv(st')
  {
    StoredFacts(st, st', l, rest);
    HolderIsNull(st, l);
    AcquireTodos(st, st', l, rest);
    AdvanceReferences(st, st', [], rest);
    StoredLocks(st, st', l, rest);
    AdvanceTids(st, st', [], rest);
  }

  lemma StoredInv(st: State, st': State, l: LockId, rest: seq<Op>)
    requires Inv(st) && Stored(st, st', l, rest)
    ensures Inv(st')
  {
    StoredFacts(st, st', l, rest);
    NotIdler(st);
    AdvanceSched(st, st', [], rest);
    LocalPlaces(st, st', [], rest);
    StoredPlans(st, st', l, rest);
    KeepConds(st, st');
    KeepSignals(st, st');
  }

  // ----- lock_release clears the holder ------------------------------------------------------------------------

  ghost predicate Cleared(st: State, st': State, l: LockId, rest: seq<Op>) {
    && HeadIs(st, st.current, Release(l)) && Todo(st, st.current) == [Release(l)] + rest && Holds(st, st.current, l)
    && SameSched(st, st') && Did(st, st', [Up(OfLock(l))] + rest)
    && st'.holder == st.holder[l := None]
    && st'.semas == st.semas && st'.queue == st.queue
  }

  /** The ASSERT of lock_release, wherever it is called from. */
  lemma ReleaserHolds(st: State, l: LockId)
    requires Todos(st) && HeadIs(st, st.current, Release(l))
    ensures Holds(st, st.current, l)
  {
    assert TodoFits(Held(st, st.current), Todo(st, st.current));
  }

  lemma ClearedFacts(st: State, st': State, l: LockId, rest: seq<Op>)
    requires Cleared(st, st', l, rest)
    ensures Advances(st, st', [Up(OfLock(l))], rest) && OthersPlans(st, st') && SameDomains(st, st') && SameSemas(st, st')
    ensures WaitersUntouched(st, st')
    ensures forall s :: !HeadIs(st, st.current, Asleep(s)) && !HeadIs(st', st.current, Asleep(s))
  {
    assert ([Release(l)] + rest)[1..] == rest;
  }

  lemma ClearedLocks(st: State, st': State, l: LockId, rest: seq<Op>)
    requires Locks(st) && Cleared(st, st', l, rest) && OthersPlans(st, st')
    ensures Locks(st')
  {
    forall k | k in st'.holder
      ensures LockOk(st', k)
    {
      assert LockOk(st, k);
      if k == l {
        assert InSection(st', st.current, l);
        StayLock(st, st', l);
      } else {
        assert forall t :: Holds(st', t, k) <==> Holds(st, t, k);
        KeepLock(st, st', k);
      }
    }
  }

  lemma ClearedReferences(st: State, st': State, l: LockId, rest: seq<Op>)
    requires References(st) && Cleared(st, st', l, rest)
    ensures References(st')
  {
    ClearedFacts(st, st', l, rest);
    AdvanceReferences(st, st', [Up(OfLock(l))], rest);
  }

  lemma ClearedPlans(st: State, st': State, l: LockId, rest: seq<Op>)
    requires Lists(st) && Newborns(st) && PlanInv(st) && Cleared(st, st', l, rest)
    ensures PlanInv(st')
  {
    ClearedFacts(st, st', l, rest);
    ReleaseTodos(st, st', l, rest);
    ClearedReferences(st, st', l, rest);
    ClearedLocks(st, st', l, rest);
    AdvanceTids(st, st', [Up(OfLock(l))], rest);
  }

  lemma ClearedInv(st: State, st': State, l: LockId, rest: seq<Op>)
    requires Inv(st) && Cleared(st, st', l, rest)
    ensures Inv(st')
  {
    ClearedFacts(st, st', l, rest);
    NotIdler(st);
    AdvanceSched(st, st', [Up(OfLock(l))], rest);
    LocalPlaces(st, st', [Up(OfLock(l))], rest);
    ClearedPlans(st, st', l, rest);
    KeepConds(st, st');
    KeepSignals(st, st');
  }

  // ----- cond_signal and cond_broadcast take a waiter off the queue --------------------------------------------

  /** The call is cond_signal, with nothing to do afterwards, or a turn of cond_broadcast's loop. */
  ghost predicate Dequeued(st: State, st': State, c: CondId, rest: seq<Op>) {
    && QueueOf(st, c) != [] && Holds(st, st.current, c.lock) && c in st.queue
    && ((Todo(st, st.current) == [] && rest == []) || (Todo(st, st.current) == [Broadcast(c)] && rest == [Broadcast(c)]))
    && st' == SetTodo(st.(queue := st.queue[c := st.queue[c][1..]]), [Up(QueueOf(st, c)[0])] + rest)
  }

  lemma DequeuedFacts(st: State, st': State, c: CondId, rest: seq<Op>)
    requires Lists(st) && Dequeued(st, st', c, rest)
    ensures SameSched(st, st') && SameSemas(st, st') && SameDomains(st, st') && OthersPlans(st, st')
    ensures Did(st, st', [Up(QueueOf(st, c)[0])] + rest) && st'.holder == st.holder
    ensures forall s :: !HeadIs(st, st.current, Asleep(s)) && !HeadIs(st', st.current, Asleep(s))
    ensures Todo(st, st.current) != [] ==> Todo(st, st.current)[1..] == [] && Inert(Todo(st, st.current)[0])
    ensures Popped(st, st', c, rest)
  {
    var ops := Todo(st, st.current);
    if ops != [] { assert ops[1..] == []; }
  }

  lemma DequeuedAdvances(st: State, st': State, c: CondId, rest: seq<Op>)
    requires Lists(st) && Dequeued(st, st', c, rest)
    ensures Advances(st, st', [Up(QueueOf(st, c)[0])] + rest, [])
  {
    DequeuedFacts(st, st', c, rest);
    var extra := [Up(QueueOf(st, c)[0])] + rest;
    assert extra + [] == extra;
  }

  lemma DequeuedTodos(st: State, st': State, c: CondId, rest: seq<Op>)
    requires Todos(st) && Conds(st) && Dequeued(st, st', c, rest) && OthersPlans(st, st') && st'.holder == st.holder
    requires Todo(st', st.current) == [Up(QueueOf(st, c)[0])] + rest
    ensures Todos(st')
  {
    var w := QueueOf(st, c)[0];
    assert Queued(st, c, w);
    assert TodoFits(Held(st, st.current), Todo(st, st.current));
    assert ([Up(w)] + rest)[1..] == rest;
    assert OpsFit(Held(st, st.current), rest);
    KeepTodos(st, st');
  }

  lemma DequeuedReferences(st: State, st': State, c: CondId, rest: seq<Op>)
    requires Lists(st) && References(st) && Conds(st) && Dequeued(st, st', c, rest)
    ensures References(st')
  {
    DequeuedFacts(st, st', c, rest);
    DequeuedAdvances(st, st', c, rest);
    assert Queued(st, c, QueueOf(st, c)[0]);
    AdvanceReferences(st, st', [Up(QueueOf(st, c)[0])] + rest, []);
  }

  lemma DequeuedLocks(st: State, st': State, c: CondId, rest: seq<Op>)
    requires Lists(st) && Locks(st) && Conds(st) && Dequeued(st, st', c, rest)
    ensures Locks(st')
  {
    DequeuedFacts(st, st', c, rest);
    assert Queued(st, c, QueueOf(st, c)[0]);
    KeepLocks(st, st');
  }

  lemma DequeuedPlans(st: State, st': State, c: CondId, rest: seq<Op>)
    requires Lists(st) && Newborns(st) && PlanInv(st) && Conds(st) && Dequeued(st, st', c, rest)
    ensures PlanInv(st')
  {
    DequeuedFacts(st, st', c, rest);
    DequeuedAdvances(st, st', c, rest);
    DequeuedTodos(st, st', c, rest);
    DequeuedReferences(st, st', c, rest);
    DequeuedLocks(st, st', c, rest);
    AdvanceTids(st, st', [Up(QueueOf(st, c)[0])] + rest, []);
  }

  lemma BusyCondNotIdler(st: State, c: CondId)
    requires Idle(st) && (Todo(st, st.current) == [] || Todo(st, st.current) == [Broadcast(c)])
    ensures st.current != st.idler
  {
  }

  lemma DequeuedInv(st: State, st': State, c: CondId, rest: seq<Op>)
    requires Inv(st) && Dequeued(st, st', c, rest)
    ensures Inv(st')
  {
    DequeuedFacts(st, st', c, rest);
    DequeuedAdvances(st, st', c, rest);
    BusyCondNotIdler(st, c);
    AdvanceSched(st, st', [Up(QueueOf(st, c)[0])] + rest, []);
    LocalPlaces(st, st', [Up(QueueOf(st, c)[0])] + rest, []);
    DequeuedPlans(st, st', c, rest);
    PopConds(st, st', c, rest);
    PopSignals(st, st', c, rest);
  }

  /** cond_broadcast finds the queue empty and returns. */
  ghost predicate Finished(st: State, st': State, c: CondId) {
    Todo(st, st.current) == [Broadcast(c)] && st' == SetTodo(st, [])
  }

  lemma FinishedFacts(st: State, st': State, c: CondId)
    requires Lists(st) && Finished(st, st', c)
    ensures SameSched(st, st') && SameSemas(st, st') && SameDomains(st, st') && OthersPlans(st, st')
    ensures Advances(st, st', [], []) && WaitersUntouched(st, st') && Todo(st', st.current) == []
    ensures forall s :: !HeadIs(st, st.current, Asleep(s)) && !HeadIs(st', st.current, Asleep(s))
  {
    var none: seq<Op> := [];
    assert none + [] == none;
    assert Todo(st, st.current)[1..] == [];
  }

  lemma FinishedTodos(st: State, st': State, c: CondId)
    requires Todos(st) && Finished(st, st', c) && OthersPlans(st, st') && Todo(st', st.current) == []
    ensures Todos(st')
  {
    assert TodoFits(Held(st, st.current), Todo(st, st.current));
    KeepTodos(st, st');
  }

  lemma FinishedPlans(st: State, st': State, c: CondId)
    requires Lists(st) && Newborns(st) && PlanInv(st) && Finished(st, st', c)
    ensures PlanInv(st')
  {
    FinishedFacts(st, st', c);
    FinishedTodos(st, st', c);
    AdvanceReferences(st, st', [], []);
    KeepLocks(st, st');
    AdvanceTids(st, st', [], []);
  }

  lemma FinishedInv(st: State, st': State, c: CondId)
    requires Inv(st) && Finished(st, st', c)
    ensures Inv(st')
  {
    FinishedFacts(st, st', c);
    BusyCondNotIdler(st, c);
    AdvanceSched(st, st', [], []);
    LocalPlaces(st, st', [], []);
    FinishedPlans(st, st', c);
    KeepConds(st, st');
    KeepSignals(st, st');
  }

  // ----- allocate_tid ---------------------------------------------------------------------------------------------

  /** The plan of a thread about to read or to write next_tid for child. */
  function Numbering(first: Op, child: Page): seq<Op> {
    [first, Release(TID_LOCK), Unblock(child)]
  }

  ghost predicate ReadIt(st: State, st': State, child: Page) {
    && Todo(st, st.current) == Numbering(ReadTid(child), child)
    && st' == SetTodo(st, Numbering(WriteTid(child, st.nextTid), child))
  }

  lemma ReadPlan(st: State, child: Page, rest: seq<Op>)
    requires Todos(st) && Todo(st, st.current) == [ReadTid(child)] + rest
    ensures rest == [Release(TID_LOCK), Unblock(child)] && Holds(st, st.current, TID_LOCK)
    ensures TodoFits(Held(st, st.current), Numbering(WriteTid(child, st.nextTid), child))
  {
    assert TodoFits(Held(st, st.current), Todo(st, st.current));
    ReadFits(Held(st, st.current), child, st.nextTid, rest);
    assert [WriteTid(child, st.nextTid)] + rest == Numbering(WriteTid(child, st.nextTid), child);
  }

  /** What a plan of thread_create() says of its thread from allocate_tid() on. */
  lemma CreatorHeads(st: State, t: Page, child: Page)
    requires Todo(st, t) == [Release(TID_LOCK), Unblock(child)]
      || exists op: Op :: (op.ReadTid? || op.WriteTid?) && Todo(st, t) == Numbering(op, child)
    ensures forall c :: Creates(st, t, c) <==> c == child
    ensures forall s :: !HeadIs(st, t, Asleep(s)) && !HeadIs(st, t, Up(s)) && !WaitsOn(st, t, s)
  {
  }

  lemma PlanWritten(st: State, st': State, ops: seq<Op>)
    requires st.current in st.todo && st'.todo == st.todo[st.current := ops]
    ensures Todo(st', st.current) == ops && OthersPlans(st, st') && st'.todo.Keys == st.todo.Keys
  {
  }

  lemma ReadFacts(st: State, st': State, child: Page)
    requires Lists(st) && ReadIt(st, st', child)
    ensures SameSched(st, st') && SameSemas(st, st') && SameDomains(st, st') && OthersPlans(st, st')
    ensures Todo(st', st.current) == Numbering(WriteTid(child, st.nextTid), child)
    ensures WaitersUntouched(st, st')
    ensures forall s :: !HeadIs(st, st.current, Asleep(s)) && !HeadIs(st', st.current, Asleep(s))
    ensures forall c :: Creates(st', st.current, c) <==> Creates(st, st.current, c)
    ensures forall c :: Numbers(st', st.current, c) <==> Numbers(st, st.current, c)
  {
    PlanWritten(st, st', Numbering(WriteTid(child, st.nextTid), child));
    CreatorHeads(st, st.current, child);
    CreatorHeads(st', st.current, child);
  }

  lemma ReadPlaces(st: State, st': State, child: Page)
    requires SchedInv(st) && PlaceInv(st) && ReadIt(st, st', child)
    ensures PlaceInv(st')
  {
    ReadFacts(st, st', child);
    SameSchedBlocked(st, st');
    IdlerAwake(st);
    UnmovedWaiters(st, st');
    UnmovedParked(st, st');
    UnmovedNewborns(st, st');
    IdleWakeups(st, st');
  }

  lemma ReadTids(st: State, st': State, child: Page)
    requires Lists(st) && Newborns(st) && Tids(st) && ReadIt(st, st', child)
    ensures Tids(st')
  {
    ReadFacts(st, st', child);
    CreatedHasTid(st);
    KeepTids(st, st');
  }

  lemma ReadReferences(st: State, st': State, child: Page)
    requires Lists(st) && References(st) && ReadIt(st, st', child)
    ensures References(st')
  {
    ReadFacts(st, st', child);
    KeepReferences(st, st');
  }

  lemma ReadPlans(st: State, st': State, child: Page)
    requires Lists(st) && Newborns(st) && PlanInv(st) && ReadIt(st, st', child)
    ensures PlanInv(st')
  {
    ReadFacts(st, st', child);
    assert Todo(st, st.current) == [ReadTid(child)] + [Release(TID_LOCK), Unblock(child)];
    ReadPlan(st, child, [Release(TID_LOCK), Unblock(child)]);
    KeepTodos(st, st');
    ReadReferences(st, st', child);
    KeepLocks(st, st');
    ReadTids(st, st', child);
  }

  lemma CreatorNotIdler(st: State)
    requires Idle(st) && Todo(st, st.current) != []
    requires Todo(st, st.current)[0].ReadTid? || Todo(st, st.current)[0].WriteTid? || Todo(st, st.current)[0].Unblock?
    ensures st.current != st.idler
  {
  }

  lemma ReadInv(st: State, st': State, child: Page)
    requires Inv(st) && ReadIt(st, st', child)
    ensures Inv(st')
  {
    CreatorNotIdler(st);
    ReadFacts(st, st', child);
    SameSchedInv(st, st');
    ReadPlaces(st, st', child);
    ReadPlans(st, st', child);
    KeepConds(st, st');
    KeepSignals(st, st');
  }

  ghost predicate WroteIt(st: State, st': State, child: Page, id: nat) {
    && Todo(st, st.current) == Numbering(WriteTid(child, id), child)
    && st' == SetTodo(st, [Release(TID_LOCK), Unblock(child)]).(nextTid := id + 1, tid := st.tid[child := id])
  }

  lemma WritePlan(st: State, child: Page, id: nat, rest: seq<Op>)
    requires Todos(st) && Tids(st) && Todo(st, st.current) == [WriteTid(child, id)] + rest
    ensures rest == [Release(TID_LOCK), Unblock(child)] && Holds(st, st.current, TID_LOCK)
    ensures id == st.nextTid && child in st.tid && TodoFits(Held(st, st.current), rest)
  {
    assert HeadIs(st, st.current, WriteTid(child, id));
    assert Numbers(st, st.current, child);
    assert TodoFits(Held(st, st.current), Todo(st, st.current));
    WriteFits(Held(st, st.current), child, id, rest);
  }

  lemma WroteFacts(st: State, st': State, child: Page, id: nat)
    requires Lists(st) && WroteIt(st, st', child, id) && child in st.tid
    ensures SameSched(st.(tid := st'.tid, nextTid := id + 1), st') && SameSemas(st, st') && SameDomains(st, st') && OthersPlans(st, st')
    ensures Todo(st', st.current) == [Release(TID_LOCK), Unblock(child)]
    ensures WaitersUntouched(st, st')
    ensures forall s :: !HeadIs(st, st.current, Asleep(s)) && !HeadIs(st', st.current, Asleep(s))
    ensures forall c :: Creates(st', st.current, c) <==> Creates(st, st.current, c)
  {
    PlanWritten(st, st', [Release(TID_LOCK), Unblock(child)]);
    CreatorHeads(st, st.current, child);
    CreatorHeads(st', st.current, child);
  }

  lemma TidSched(st: State, tid: map<Page, nat>, nextTid: nat)
    requires SchedInv(st) && tid.Keys == st.tid.Keys
    ensures SchedInv(st.(tid := tid, nextTid := nextTid))
  {
    var st' := st.(tid := tid, nextTid := nextTid);
    assert forall t :: Todo(st', t) == Todo(st, t);
  }

  lemma WroteOthers(st: State, st': State, child: Page, id: nat)
    requires WroteIt(st, st', child, id) && child in st.tid && OthersPlans(st, st')
    ensures st'.tid.Keys == st.tid.Keys && OthersPlans(st.(tid := st'.tid, nextTid := id + 1), st')
  {
    var mid := st.(tid := st'.tid, nextTid := id + 1);
    assert forall t :: Todo(mid, t) == Todo(st, t);
  }

  lemma WroteSched(st: State, st': State, child: Page, id: nat)
    requires SchedInv(st) && WroteIt(st, st', child, id) && child in st.tid
    ensures SchedInv(st')
  {
    CreatorNotIdler(st);
    WroteFacts(st, st', child, id);
    TidSched(st, st'.tid, id + 1);
    WroteOthers(st, st', child, id);
    SameSchedInv(st.(tid := st'.tid, nextTid := id + 1), st');
  }

  lemma WrotePlaces(st: State, st': State, child: Page, id: nat)
    requires SchedInv(st) && PlaceInv(st) && WroteIt(st, st', child, id) && child in st.tid
    ensures PlaceInv(st')
  {
    WroteFacts(st, st', child, id);
    CurrentNotBlocked(st);
    assert forall t :: IsBlocked(st', t) <==> IsBlocked(st, t);
    IdlerAwake(st);
    UnmovedWaiters(st, st');
    UnmovedParked(st, st');
    UnmovedNewborns(st, st');
    IdleWakeups(st, st');
  }

  lemma WroteReferences(st: State, st': State, child: Page, id: nat)
    requires Lists(st) && References(st) && WroteIt(st, st', child, id) && child in st.tid
    ensures References(st')
  {
    WroteFacts(st, st', child, id);
    KeepReferences(st, st');
  }

  lemma WroteTodos(st: State, st': State, child: Page, id: nat)
    requires Todos(st) && WroteIt(st, st', child, id) && OthersPlans(st, st')
    requires Todo(st', st.current) == [Release(TID_LOCK), Unblock(child)]
    requires TodoFits(Held(st, st.current), [Release(TID_LOCK), Unblock(child)])
    ensures Todos(st')
  {
    KeepTodos(st, st');
  }

  lemma WroteLocks(st: State, st': State, child: Page, id: nat)
    requires Locks(st) && WroteIt(st, st', child, id) && SameSemas(st, st') && OthersPlans(st, st')
    requires Todo(st', st.current) == [Release(TID_LOCK), Unblock(child)]
    ensures Locks(st')
  {
    KeepLocks(st, st');
  }

  lemma WrotePlans(st: State, st': State, child: Page, id: nat)
    requires Lists(st) && Newborns(st) && PlanInv(st) && WroteIt(st, st', child, id)
    ensures PlanInv(st')
  {
    assert Todo(st, st.current) == [WriteTid(child, id)] + [Release(TID_LOCK), Unblock(child)];
    WritePlan(st, child, id, [Release(TID_LOCK), Unblock(child)]);
    WroteFacts(st, st', child, id);
    WroteTodos(st, st', child, id);
    WroteReferences(st, st', child, id);
    WroteLocks(st, st', child, id);
    WriteTids(st, st', child, id);
  }

  lemma WroteInv(st: State, st': State, child: Page, id: nat)
    requires Inv(st) && WroteIt(st, st', child, id)
    ensures Inv(st')
  {
    assert Todo(st, st.current) == [WriteTid(child, id)] + [Release(TID_LOCK), Unblock(child)];
    WritePlan(st, child, id, [Release(TID_LOCK), Unblock(child)]);
    WroteSched(st, st', child, id);
    WrotePlaces(st, st', child, id);
    WrotePlans(st, st', child, id);
    WroteFacts(st, st', child, id);
    KeepConds(st, st');
    KeepSignals(st, st');
  }

  // ----- thread_create unblocks the new thread ------------------------------------------------------------------------

  /** Everything but plans and the scheduler's lists is as it was. */
  ghost predicate SameObjects(st: State, st': State) {
    && st'.semas == st.semas && st'.holder == st.holder && st'.queue == st.queue
    && st'.tid == st.tid && st'.nextTid == st.nextTid && st'.idler == st.idler
  }

  ghost predicate Launched(st: State, st': State, child: Page) {
    && Todo(st, st.current) == [Unblock(child)] && Did(st, st', []) && SameObjects(st, st')
    && (forall t :: IsBlocked(st', t) <==> IsBlocked(st, t) && t != child)
  }

  lemma ChildBlocked(st: State, child: Page)
    requires Newborns(st) && Todo(st, st.current) == [Unblock(child)]
    ensures IsBlocked(st, child) && child != st.idler
  {
    assert Creates(st, st.current, child);
  }

  lemma LaunchSched(st: State, child: Page)
    requires SchedInv(st) && Newborns(st) && Todo(st, st.current) == [Unblock(child)]
    ensures ThreadUnblock(SetTodo(st, []), child).Ok? && SchedInv(ThreadUnblock(SetTodo(st, []), child).st)
    ensures Launched(st, ThreadUnblock(SetTodo(st, []), child).st, child)
  {
    var done := SetTodo(st, []);
    ChildBlocked(st, child);
    CreatorNotIdler(st);
    assert SameSched(st, done) && OthersPlans(st, done);
    SameSchedInv(st, done);
    UnblockSched(done, child);
    LaunchFacts(st, child);
  }

  lemma LaunchFacts(st: State, child: Page)
    requires st.current in st.todo && IsBlocked(st, child) && Todo(st, st.current) == [Unblock(child)]
    ensures ThreadUnblock(SetTodo(st, []), child).Ok? && Launched(st, ThreadUnblock(SetTodo(st, []), child).st, child)
  {
  }

  lemma LaunchedFacts(st: State, st': State, child: Page)
    requires Launched(st, st', child)
    ensures SameSemas(st, st') && SameDomains(st, st') && OthersPlans(st, st') && SameWaiters(st, st')
    ensures Born(st, st', child) && WaitersUntouched(st, st')
    ensures forall s :: !HeadIs(st, st.current, Asleep(s)) && !HeadIs(st', st.current, Asleep(s))
  {
    assert Todo(st, st.current)[0] == Unblock(child);
  }

  lemma LaunchedPlaces(st: State, st': State, child: Page)
    requires SchedInv(st) && PlaceInv(st) && Launched(st, st', child)
    ensures PlaceInv(st')
  {
    LaunchedFacts(st, st', child);
    CurrentNotBlocked(st);
    BornWaiters(st, st', child);
    BornParked(st, st', child);
    BornNewborns(st, st', child);
    IdleWakeups(st, st');
  }

  lemma LaunchedTids(st: State, st': State, child: Page)
    requires Tids(st) && Launched(st, st', child)
    ensures Tids(st')
  {
    forall u, c
      ensures Numbers(st', u, c) <==> Numbers(st, u, c)
      ensures Numbers(st, u, c) ==> Creates(st', u, c)
    {
      if u != st.current {
        assert Todo(st', u) == Todo(st, u);
      } else {
        assert Todo(st, u)[0] == Unblock(child);
      }
    }
    forall t, c, id | HeadIs(st', t, WriteTid(c, id))
      ensures id == st'.nextTid
    {
      assert Todo(st', t) == Todo(st, t);
      assert HeadIs(st, t, WriteTid(c, id));
    }
    forall t | t in st'.tid && st'.tid[t] == 0
      ensures exists u :: Numbers(st', u, t)
    {
      var u :| Numbers(st, u, t);
      assert Numbers(st', u, t);
    }
  }

  lemma LaunchedPlans(st: State, st': State, child: Page)
    requires PlanInv(st) && Launched(st, st', child)
    ensures PlanInv(st')
  {
    LaunchedFacts(st, st', child);
    assert TodoFits(Held(st, st.current), Todo(st, st.current));
    KeepTodos(st, st');
    KeepReferences(st, st');
    KeepLocks(st, st');
    LaunchedTids(st, st', child);
  }

  lemma LaunchedInv(st: State, st': State, child: Page)
    requires Inv(st) && SchedInv(st') && Launched(st, st', child)
    ensures Inv(st')
  {
    LaunchedFacts(st, st', child);
    LaunchedPlaces(st, st', child);
    LaunchedPlans(st, st', child);
    KeepConds(st, st');
    KeepSignals(st, st');
  }

  // ----- idle() -----------------------------------------------------------------------------------------------------------

  const BOOT_PLAN: seq<Op> := [SetIdle, Up(IDLE_STARTED), IdleBlock]
  const WAKE_PLAN: seq<Op> := [Up(IDLE_STARTED), IdleBlock]
  const IDLE_PLAN: seq<Op> := [IdleBlock]

  ghost predicate Claimed(st: State, st': State) {
    && st.current == st.idler && Todo(st, st.current) == BOOT_PLAN
    && st' == SetTodo(st, WAKE_PLAN).(idle := Some(st.current))
  }

  lemma ClaimedFacts(st: State, st': State)
    requires Lists(st) && Claimed(st, st')
    ensures SameSemas(st, st') && SameDomains(st, st') && OthersPlans(st, st')
    ensures Todo(st', st.current) == WAKE_PLAN && SameObjects(st, st')
    ensures WaitersUntouched(st, st') && (forall t :: IsBlocked(st', t) <==> IsBlocked(st, t))
    ensures forall s :: !HeadIs(st, st.current, Asleep(s)) && !HeadIs(st', st.current, Asleep(s))
    ensures forall c :: !Creates(st', st.current, c) && !Creates(st, st.current, c)
    ensures forall c :: !Numbers(st', st.current, c) && !Numbers(st, st.current, c)
  {
    assert Todo(st, st.current)[0] == SetIdle && Todo(st, st.current)[2] == IdleBlock;
    assert Todo(st', st.current)[0] == Up(IDLE_STARTED) && Todo(st', st.current)[1] == IdleBlock;
  }

  lemma ClaimedSched(st: State, st': State)
    requires SchedInv(st) && Claimed(st, st')
    ensures SchedInv(st')
  {
    ClaimedFacts(st, st');
    assert st.current !in st.ready;
    assert ReadyOk(st'.status, st'.ready, st'.idle);
    forall t | SetIdle in Todo(st', t) || IdleBlock in Todo(st', t)
      ensures t == st'.idler
    {
      assert t == st.current || Todo(st', t) == Todo(st, t);
    }
    forall t | t in st'.status && st'.status[t] == Dying
      ensures Todo(st', t) == []
    {
      assert Todo(st', t) == Todo(st, t);
    }
    assert st'.todo.Keys == st.todo.Keys;
  }

  lemma ClaimedPlaces(st: State, st': State)
    requires SchedInv(st) && PlaceInv(st) && Claimed(st, st')
    ensures PlaceInv(st')
  {
    ClaimedFacts(st, st');
    CurrentNotBlocked(st);
    IdlerAwake(st);
    UnmovedWaiters(st, st');
    UnmovedParked(st, st');
    UnmovedNewborns(st, st');
    IdleWakeups(st, st');
  }

  lemma IdlePlanFits(held: iset<LockId>)
    ensures TodoFits(held, WAKE_PLAN) && TodoFits(held, IDLE_PLAN)
  {
    assert WAKE_PLAN[1..] == IDLE_PLAN && IDLE_PLAN[1..] == [];
  }

  lemma ClaimedReferences(st: State, st': State)
    requires Lists(st) && References(st) && Claimed(st, st')
    ensures References(st')
  {
    ClaimedFacts(st, st');
    assert BOOT_PLAN == [SetIdle] + WAKE_PLAN;
    ShrinkReferences(st, st');
  }

  lemma ClaimedTids(st: State, st': State)
    requires Lists(st) && Newborns(st) && Tids(st) && Claimed(st, st')
    ensures Tids(st')
  {
    ClaimedFacts(st, st');
    CreatedHasTid(st);
    KeepTids(st, st');
  }

  lemma ClaimedPlans(st: State, st': State)
    requires Lists(st) && Newborns(st) && PlanInv(st) && Claimed(st, st')
    ensures PlanInv(st')
  {
    ClaimedFacts(st, st');
    IdlePlanFits(Held(st, st.current));
    KeepTodos(st, st');
    ClaimedReferences(st, st');
    KeepLocks(st, st');
    ClaimedTids(st, st');
  }

  lemma ClaimedInv(st: State, st': State)
    requires Inv(st) && Claimed(st, st')
    ensures Inv(st')
  {
    ClaimedFacts(st, st');
    ClaimedSched(st, st');
    ClaimedPlaces(st, st');
    ClaimedPlans(st, st');
    KeepConds(st, st');
    KeepSignals(st, st');
  }

  /** The idle thread is past sema_up(idle_started). */
  lemma IdlerDone(st: State)
    requires SchedInv(st) && st.current == st.idler && Todo(st, st.current) == WAKE_PLAN
    ensures SchedInv(SetTodo(st, IDLE_PLAN))
  {
    var st' := SetTodo(st, IDLE_PLAN);
    forall t | SetIdle in Todo(st', t) || IdleBlock in Todo(st', t)
      ensures t == st'.idler
    {
      assert t == st.current || Todo(st', t) == Todo(st, t);
    }
    forall t | t in st'.status && st'.status[t] == Dying
      ensures Todo(st', t) == []
    {
      assert Todo(st', t) == Todo(st, t);
    }
    assert st'.todo.Keys == st.todo.Keys;
  }

  // ----- cond_wait ------------------------------------------------------------------------------------------------------------

  ghost predicate Joined(st: State, st': State, c: CondId, w: SemaId) {
    && Todo(st, st.current) == [] && c in st.queue && Holds(st, st.current, c.lock)
    && w.OfWaiter? && w.owner == st.current && w !in st.semas
    && st' == SetTodo(st.(semas := st.semas[w := Sema(0, [])], queue := st.queue[c := st.queue[c] + [w]]),
                      [Release(c.lock), Down(w), Down(OfLock(c.lock))])
  }

  lemma JoinedFacts(st: State, st': State, c: CondId, w: SemaId)
    requires Lists(st) && Joined(st, st', c, w)
    ensures SameSched(st, st') && SameSemas(st, st') && OthersPlans(st, st') && st'.holder == st.holder
    ensures st.semas.Keys <= st'.semas.Keys
    ensures Enrolled(st, st', c, w)
    ensures Todo(st', st.current) == [Release(c.lock), Down(w), Down(OfLock(c.lock))]
    ensures forall s :: !HeadIs(st, st.current, Asleep(s)) && !HeadIs(st', st.current, Asleep(s))
  {
  }

  lemma JoinedAdvances(st: State, st': State, c: CondId, w: SemaId)
    requires Lists(st) && Joined(st, st', c, w)
    ensures Advances(st, st', [Release(c.lock), Down(w), Down(OfLock(c.lock))], [])
  {
    JoinedFacts(st, st', c, w);
    var plan := [Release(c.lock), Down(w), Down(OfLock(c.lock))];
    assert plan + [] == plan;
  }

  lemma JoinedReferences(st: State, st': State, c: CondId, w: SemaId)
    requires Lists(st) && References(st) && Joined(st, st', c, w)
    ensures References(st')
  {
    JoinedFacts(st, st', c, w);
    assert SameDomains(st, st');
    KeepReferences(st, st');
  }

  lemma JoinedTodos(st: State, st': State, c: CondId, w: SemaId)
    requires Lists(st) && Todos(st) && Joined(st, st', c, w)
    ensures Todos(st')
  {
    JoinedFacts(st, st', c, w);
    assert TodoFits(Held(st, st.current), Todo(st, st.current));
    WaitFits(Held(st, st.current), c, w);
    KeepTodos(st, st');
  }

  lemma JoinedLocks(st: State, st': State, c: CondId, w: SemaId)
    requires Lists(st) && Locks(st) && Joined(st, st', c, w)
    ensures Locks(st')
  {
    JoinedFacts(st, st', c, w);
    KeepLocks(st, st');
  }

  lemma JoinedPlans(st: State, st': State, c: CondId, w: SemaId)
    requires Lists(st) && Newborns(st) && PlanInv(st) && Joined(st, st', c, w)
    ensures PlanInv(st')
  {
    JoinedFacts(st, st', c, w);
    JoinedAdvances(st, st', c, w);
    JoinedTodos(st, st', c, w);
    JoinedReferences(st, st', c, w);
    JoinedLocks(st, st', c, w);
    AdvanceTids(st, st', [Release(c.lock), Down(w), Down(OfLock(c.lock))], []);
  }

  lemma JoinedInv(st: State, st': State, c: CondId, w: SemaId)
    requires Inv(st) && Joined(st, st', c, w)
    ensures Inv(st')
  {
    JoinedFacts(st, st', c, w);
    JoinedAdvances(st, st', c, w);
    OutsideNotIdler(st);
    AdvanceSched(st, st', [Release(c.lock), Down(w), Down(OfLock(c.lock))], []);
    LocalPlaces(st, st', [Release(c.lock), Down(w), Down(OfLock(c.lock))], []);
    JoinedPlans(st, st', c, w);
    EnrollConds(st, st', c, w);
    EnrollSignals(st, st', c, w);
  }

  // ----- thread_create ------------------------------------------------------------------------------------------------------------

  function CreatePlan(child: Page): seq<Op> {
    [Down(OfLock(TID_LOCK)), ReadTid(child), Release(TID_LOCK), Unblock(child)]
  }

  ghost predicate Created(st: State, st': State, child: Page) {
    && Todo(st, st.current) == [] && child !in st.status
    && st' == SetTodo(st.(status := st.status[child := Blocked], todo := st.todo[child := []], tid := st.tid[child := 0]),
                      CreatePlan(child))
  }

  lemma CreatedFacts(st: State, st': State, child: Page)
    requires Lists(st) && Created(st, st', child)
    ensures child !in st.tid && Todo(st, child) == [] && !IsBlocked(st, child) && child != st.current
    ensures SameSemas(st, st') && SameDomains(st, st') && OthersPlans(st, st') && SameWaiters(st, st')
    ensures Todo(st', st.current) == CreatePlan(child) && st'.holder == st.holder
    ensures forall s :: !HeadIs(st, st.current, Asleep(s)) && !HeadIs(st', st.current, Asleep(s))
    ensures forall t :: IsBlocked(st', t) <==> IsBlocked(st, t) || t == child
  {
    assert child !in st.todo.Keys && child !in st.tid.Keys;
  }

  lemma CreatedUntouched(st: State, st': State, child: Page)
    requires Lists(st) && Created(st, st', child)
    ensures WaitersUntouched(st, st')
  {
    CreatedFacts(st, st', child);
    var plan := CreatePlan(child);
    assert Todo(st', st.current) == plan && plan[0] == Down(OfLock(TID_LOCK));
  }

  lemma CreatedConceived(st: State, st': State, child: Page)
    requires SchedInv(st) && Created(st, st', child)
    ensures Conceived(st, st', child)
  {
    CreatedFacts(st, st', child);
    assert Todo(st', st.current)[3] == Unblock(child);
  }

  lemma CreatedReady(status: map<Page, Status>, ready: seq<Page>, idle: Option<Page>, destruction: seq<Page>, initial: Page, current: Page, child: Page)
    requires ReadyOk(status, ready, idle) && DeadOk(status, destruction, initial) && RunningOk(status, current) && child !in status
    ensures ReadyOk(status[child := Blocked], ready, idle)
    ensures DeadOk(status[child := Blocked], destruction, initial)
    ensures RunningOk(status[child := Blocked], current)
  {
    assert current in status;
  }

  lemma CreatedSched(st: State, st': State, child: Page)
    requires SchedInv(st) && Created(st, st', child)
    ensures SchedInv(st')
  {
    CreatedFacts(st, st', child);
    OutsideNotIdler(st);
    CreatedReady(st.status, st.ready, st.idle, st.destruction, st.initial, st.current, child);
    assert st'.todo.Keys == st.todo.Keys + {child};
    CreatedIdle(st, st', child);
    forall t | t in st'.status && st'.status[t] == Dying
      ensures Todo(st', t) == []
    {
      assert t != child && t in st.status && st.status[t] == Dying;
      assert Todo(st', t) == Todo(st, t);
    }
  }

  lemma CreatedIdle(st: State, st': State, child: Page)
    requires Idle(st) && Created(st, st', child) && OthersPlans(st, st') && st.current != st.idler
    requires Todo(st', st.current) == CreatePlan(child)
    ensures Idle(st')
  {
    forall t | SetIdle in Todo(st', t) || IdleBlock in Todo(st', t)
      ensures t == st'.idler
    {
      assert Todo(st', t) == Todo(st, t);
    }
    assert Todo(st', st.idler) == Todo(st, st.idler);
  }

  lemma CreatedPlaces(st: State, st': State, child: Page)
    requires SchedInv(st) && PlaceInv(st) && Created(st, st', child)
    ensures PlaceInv(st')
  {
    CreatedFacts(st, st', child);
    CreatedConceived(st, st', child);
    CurrentNotBlocked(st);
    ConceivedPlaces(st, st', child);
    ConceivedParked(st, st', child);
    ConceivedNewborns(st, st', child);
    IdleWakeups(st, st');
  }

  lemma CreatedReferences(st: State, st': State, child: Page)
    requires Lists(st) && References(st) && Created(st, st', child)
    ensures References(st')
  {
    CreatedFacts(st, st', child);
    KeepReferences(st, st');
  }

  lemma CreatedTodos(st: State, st': State, child: Page)
    requires Lists(st) && Todos(st) && Created(st, st', child)
    ensures Todos(st')
  {
    CreatedFacts(st, st', child);
    assert TodoFits(Held(st, st.current), Todo(st, st.current));
    CreateFits(Held(st, st.current), child);
    KeepTodos(st, st');
  }

  lemma CreatedPlans(st: State, st': State, child: Page)
    requires Lists(st) && PlanInv(st) && Created(st, st', child)
    ensures PlanInv(st')
  {
    CreatedFacts(st, st', child);
    CreatedTodos(st, st', child);
    CreatedReferences(st, st', child);
    KeepLocks(st, st');
    ConceivedTids(st, st', child);
  }

  lemma CreatedInv(st: State, st': State, child: Page)
    requires Inv(st) && Created(st, st', child)
    ensures Inv(st')
  {
    CreatedSched(st, st', child);
    CreatedPlaces(st, st', child);
    CreatedPlans(st, st', child);
    CreatedUntouched(st, st', child);
    KeepConds(st, st');
    KeepSignals(st, st');
  }
}
