/** What a call of thread.c or synch.c has done when it returns. */
module ThreadCalls {
  import opened Basics
  import opened Threads
  import opened ThreadInvariants
  import opened ThreadSteps
  import opened ThreadKept
  import opened ThreadRuns
  import opened ThreadProgress
  import opened ThreadSignals
  import opened ThreadQueues
  import opened ThreadTheorems

  /** The thread that runs at a makes the call there, and has returned from it at b. */
  ghost predicate Returned(states: seq<State>, events: seq<Event>, a: nat, b: nat, call: Call) {
    && BootRun(states, events) && a < b < |states| && events[a] == Start(call)
    && (forall i :: a < i < b ==> Todo(states[i], states[a].current) != [])
    && Todo(states[b], states[a].current) == []
  }

  /** Step i is one that t makes inside a call. */
  predicate Own(states: seq<State>, events: seq<Event>, i: nat, t: Page)
    requires i < |events| < |states|
  {
    events[i].Continue? && states[i].current == t
  }

  // ----- plans of calls ------------------------------------------------------------------------------

  /** The points of the calls of semaphores and locks. */
  predicate Stage(ops: seq<Op>, call: Call) {
    match call
    case CallDown(n) => ops == [Down(User(n))] || ops == [Asleep(User(n))]
    case CallUp(n) => ops == [Up(User(n))]
    case CallAcquire(l) => ops == [Down(OfLock(l))] || ops == [Asleep(OfLock(l))] || ops == [SetHolder(l)]
    case CallTryAcquire(l) => ops == [SetHolder(l)]
    case CallRelease(l) => ops == [Release(l)] || ops == [Up(OfLock(l))]
    case _ => false
  }

  /** The step by which a call returns. */
  predicate Final(op: Op, call: Call) {
    match call
    case CallDown(n) => op == Down(User(n)) || op == Asleep(User(n))
    case CallUp(n) => op == Up(User(n))
    case CallAcquire(l) => op == SetHolder(l)
    case CallTryAcquire(l) => op == SetHolder(l)
    case CallRelease(l) => op == Up(OfLock(l))
    case _ => false
  }

  predicate Short(call: Call) {
    call.CallDown? || call.CallUp? || call.CallAcquire? || call.CallTryAcquire? || call.CallRelease?
  }

  /** What t's own step inside a call leads to. */
  lemma OwnStage(st: State, st': State, call: Call)
    requires Planned(st, Continue, st') && Short(call) && Stage(Todo(st, st.current), call)
    ensures Todo(st', st.current) != [] ==> Stage(Todo(st', st.current), call)
    ensures Todo(st', st.current) == [] ==> Final(Todo(st, st.current)[0], call)
    ensures Todo(st', st.current) == [] && call.CallDown? ==> Value(st, User(call.n)) > 0
    ensures Todo(st', st.current) != [] && call.CallDown? ==> Value(st, User(call.n)) == 0
    ensures Todo(st', st.current) != [] && call.CallRelease? ==> HeadIs(st, st.current, Release(call.l))
  {
    var ops := Todo(st, st.current);
    assert |ops| == 1 && ops[1..] == [];
  }

  lemma StageStep(st: State, ev: Event, st': State, t: Page, call: Call)
    requires Planned(st, ev, st') && Short(call) && Stage(Todo(st, t), call)
    ensures Todo(st', t) != [] ==> Stage(Todo(st', t), call)
    ensures Todo(st', t) == [] ==> ev.Continue? && st.current == t && Final(Todo(st, t)[0], call)
  {
    if ev.Continue? && st.current == t {
      OwnStage(st, st', call);
    } else {
      assert Todo(st', t) == Todo(st, t);
    }
  }

  lemma FirstStage(st: State, st': State, call: Call)
    requires Planned(st, Start(call), st') && Short(call) && Todo(st', st.current) != []
    ensures Stage(Todo(st', st.current), call)
  {
  }

  lemma {:induction false} StageRun(states: seq<State>, events: seq<Event>, a: nat, n: nat, call: Call)
    requires PlansOut(states, events) && a < n < |states| && events[a] == Start(call) && Short(call)
    requires forall i :: a < i <= n ==> Todo(states[i], states[a].current) != []
    ensures Stage(Todo(states[n], states[a].current), call)
  {
    assert Planned(states[n - 1], events[n - 1], states[n]);
    if n == a + 1 {
      FirstStage(states[a], states[n], call);
    } else {
      StageRun(states, events, a, n - 1, call);
      StageStep(states[n - 1], events[n - 1], states[n], states[a].current, call);
    }
  }

  /** A call does not return at once. */
  lemma NotAtOnce(st: State, st': State, call: Call)
    requires Planned(st, Start(call), st')
    requires call.CallDown? || call.CallUp? || call.CallAcquire? || call.CallRelease? || call.CallWait? || call.CallBroadcast? || call.CallCreate?
    ensures Todo(st', st.current) != []
  {
  }

  /** The last step of a call is its thread's own and the one that belongs there. */
  lemma LastOwn(states: seq<State>, events: seq<Event>, a: nat, b: nat, call: Call)
    requires Returned(states, events, a, b, call) && Short(call) && a + 1 < b
    ensures Own(states, events, b - 1, states[a].current) && Stage(Todo(states[b - 1], states[a].current), call)
    ensures Final(Todo(states[b - 1], states[a].current)[0], call)
    ensures StepsTo(states[b - 1], events[b - 1], states[b]) && Planned(states[b - 1], events[b - 1], states[b])
  {
    RunPlansOut(states, events);
    StageRun(states, events, a, b - 1, call);
    assert Planned(states[b - 1], events[b - 1], states[b]) && StepsTo(states[b - 1], events[b - 1], states[b]);
    StageStep(states[b - 1], events[b - 1], states[b], states[a].current, call);
  }

  lemma TakesSteps(states: seq<State>, events: seq<Event>, a: nat, b: nat, call: Call)
    requires Returned(states, events, a, b, call)
    requires call.CallDown? || call.CallUp? || call.CallAcquire? || call.CallRelease? || call.CallWait? || call.CallBroadcast? || call.CallCreate?
    ensures a + 1 < b
  {
    RunPlansOut(states, events);
    assert Planned(states[a], events[a], states[a + 1]);
    NotAtOnce(states[a], states[a + 1], call);
  }

  // ----- semaphores ------------------------------------------------------------------------------------

  /** The first step of its own is the last of sema_up(). */
  lemma UpEnds(states: seq<State>, events: seq<Event>, a: nat, i: nat, n: nat)
    requires PlansOut(states, events) && a < i < |events| && events[a] == Start(CallUp(n)) && Own(states, events, i, states[a].current)
    requires forall k :: a < k <= i ==> Todo(states[k], states[a].current) != []
    ensures Todo(states[i + 1], states[a].current) == []
  {
    StageRun(states, events, a, i, CallUp(n));
    assert Planned(states[i], events[i], states[i + 1]);
  }

  lemma UpOnce(states: seq<State>, events: seq<Event>, a: nat, b: nat, n: nat)
    requires Returned(states, events, a, b, CallUp(n))
    ensures forall i :: a <= i < b - 1 ==> !Own(states, events, i, states[a].current)
  {
    RunPlansOut(states, events);
    forall i | a <= i < b - 1
      ensures !Own(states, events, i, states[a].current)
    {
      if a < i && Own(states, events, i, states[a].current) { UpEnds(states, events, a, i, n); }
    }
  }

  /** sema_up() raises the value once: by its last step, and by no other. */
  lemma UpReturns(states: seq<State>, events: seq<Event>, a: nat, b: nat, n: nat)
    requires Returned(states, events, a, b, CallUp(n))
    ensures a + 1 < b && Own(states, events, b - 1, states[a].current) && Raises(states[b - 1], events[b - 1], User(n))
    ensures forall i :: a <= i < b - 1 ==> !Own(states, events, i, states[a].current)
    ensures Value(states[b], User(n)) == Value(states[b - 1], User(n)) + 1
  {
    TakesSteps(states, events, a, b, CallUp(n));
    LastOwn(states, events, a, b, CallUp(n));
    RaisesByOne(states, events, b, User(n));
    UpOnce(states, events, a, b, n);
  }

  lemma RaisesByOne(states: seq<State>, events: seq<Event>, b: nat, s: SemaId)
    requires BootRun(states, events) && 0 < b < |states| && events[b - 1].Continue? && HeadIs(states[b - 1], states[b - 1].current, Up(s))
    ensures Value(states[b], s) == Value(states[b - 1], s) + 1
  {
    RunMoves(states, events, b - 1);
  }

  /** sema_down() takes one from the value, which was positive, by its last step, and by no other. */
  lemma DownReturns(states: seq<State>, events: seq<Event>, a: nat, b: nat, n: nat)
    requires Returned(states, events, a, b, CallDown(n))
    ensures a + 1 < b && Own(states, events, b - 1, states[a].current) && Lowers(states[b - 1], events[b - 1], User(n))
    ensures Value(states[b], User(n)) == Value(states[b - 1], User(n)) - 1
    ensures forall i :: a <= i < b - 1 && Own(states, events, i, states[a].current) ==> !Lowers(states[i], events[i], User(n))
  {
    TakesSteps(states, events, a, b, CallDown(n));
    LastOwn(states, events, a, b, CallDown(n));
    OwnStage(states[b - 1], states[b], CallDown(n));
    RunMoves(states, events, b - 1);
    forall i | a <= i < b - 1 && Own(states, events, i, states[a].current)
      ensures !Lowers(states[i], events[i], User(n))
    {
      DownNotBefore(states, events, a, b, n, i);
    }
  }

  lemma DownNotBefore(states: seq<State>, events: seq<Event>, a: nat, b: nat, n: nat, i: nat)
    requires Returned(states, events, a, b, CallDown(n)) && a <= i < b - 1 && Own(states, events, i, states[a].current)
    ensures !Lowers(states[i], events[i], User(n))
  {
    assert i > a;
    RunPlansOut(states, events);
    StageRun(states, events, a, i, CallDown(n));
    assert Planned(states[i], events[i], states[i + 1]);
    OwnStage(states[i], states[i + 1], CallDown(n));
  }

  // ----- locks --------------------------------------------------------------------------------------------

  /** lock_acquire() returns with the lock held. */
  lemma AcquireReturns(states: seq<State>, events: seq<Event>, a: nat, b: nat, l: LockId)
    requires Returned(states, events, a, b, CallAcquire(l))
    ensures Holds(states[b], states[a].current, l)
  {
    TakesSteps(states, events, a, b, CallAcquire(l));
    LastOwn(states, events, a, b, CallAcquire(l));
    SetsHolder(states[b - 1], states[b], l);
  }

  /** lock_try_acquire() returns with the lock held if and only if its semaphore could be taken at once. */
  lemma TryAcquireReturns(states: seq<State>, events: seq<Event>, a: nat, b: nat, l: LockId)
    requires Returned(states, events, a, b, CallTryAcquire(l))
    ensures Holds(states[b], states[a].current, l) <==> Value(states[a], OfLock(l)) > 0
  {
    RunPlansOut(states, events);
    assert Planned(states[a], events[a], states[a + 1]);
    assert StepsTo(states[a], events[a], states[a + 1]);
    if Value(states[a], OfLock(l)) > 0 {
      assert Todo(states[a + 1], states[a].current) == [SetHolder(l)];
      LastOwn(states, events, a, b, CallTryAcquire(l));
      SetsHolder(states[b - 1], states[b], l);
    } else {
      assert b == a + 1;
      TryKeepsHolder(states[a], states[b], l);
    }
  }

  lemma TryKeepsHolder(st: State, st': State, l: LockId)
    requires StepsTo(st, Start(CallTryAcquire(l)), st')
    ensures !Holds(st', st.current, l)
  {
    StepIs(st, Start(CallTryAcquire(l)));
    BeginIs(st, CallTryAcquire(l));
  }

  lemma UpKeepsHolder(st: State, st': State, s: SemaId)
    requires StepsTo(st, Continue, st') && HeadIs(st, st.current, Up(s))
    ensures st'.holder == st.holder
  {
  }

  /** What is true between the two steps of lock_release(): nobody can say t holds the lock. */
  lemma UpMeansFree(st: State, t: Page, l: LockId)
    requires Todos(st) && HeadIs(st, t, Up(OfLock(l)))
    ensures !Holds(st, t, l)
  {
    assert TodoFits(Held(st, t), Todo(st, t));
  }

  /** lock_release() returns with the lock not held and its semaphore raised. */
  lemma ReleaseReturns(states: seq<State>, events: seq<Event>, a: nat, b: nat, l: LockId)
    requires Returned(states, events, a, b, CallRelease(l))
    ensures !Holds(states[b], states[a].current, l) && Raises(states[b - 1], events[b - 1], OfLock(l))
    ensures Value(states[b], OfLock(l)) == 1 && Value(states[b - 1], OfLock(l)) == 0
  {
    TakesSteps(states, events, a, b, CallRelease(l));
    LastOwn(states, events, a, b, CallRelease(l));
    UpMeansFree(states[b - 1], states[a].current, l);
    UpKeepsHolder(states[b - 1], states[b], OfLock(l));
    RaisesByOne(states, events, b, OfLock(l));
    RunInv(states, events, b - 1);
    RaisesFromZero(states[b - 1], l);
  }

  lemma RaisesFromZero(st: State, l: LockId)
    requires Inv(st) && HeadIs(st, st.current, Up(OfLock(l)))
    ensures Value(st, OfLock(l)) == 0
  {
    AboutToRaise(st, st.current, l);
  }

  lemma AboutToRaise(st: State, t: Page, l: LockId)
    requires Locks(st) && References(st) && HeadIs(st, t, Up(OfLock(l)))
    ensures Value(st, OfLock(l)) == 0
  {
    assert Up(OfLock(l)) in Todo(st, t) && Known(st, Up(OfLock(l)));
    assert LockOk(st, l) && InSection(st, t, l);
  }

  // ----- condition variables -------------------------------------------------------------------------------

  /** cond_wait() returns with its lock held, and only once it has been sent a signal. */
  lemma WaitReturns(states: seq<State>, events: seq<Event>, a: nat, b: nat, c: CondId, serial: nat)
    requires Returned(states, events, a, b, CallWait(c, serial))
    ensures Holds(states[b], states[a].current, c.lock) && Ups(states, events, OfWaiter(states[a].current, serial), b) == 1
  {
    TakesSteps(states, events, a, b, CallWait(c, serial));
    WaitReturnsHolding(states, events, a, b, c, serial);
  }

  /** cond_signal() takes the earliest waiter off the queue, if there is one, and has raised it, and no other, when it
      returns. */
  lemma SignalReturns(states: seq<State>, events: seq<Event>, a: nat, b: nat, c: CondId)
    requires Returned(states, events, a, b, CallSignal(c))
    ensures var q := QueueOf(states[a], c);
      && QueueOf(states[a + 1], c) == (if q == [] then [] else q[1..])
      && (q == [] ==> b == a + 1)
      && (q != [] ==> a + 1 < b && Own(states, events, b - 1, states[a].current) && Raises(states[b - 1], events[b - 1], q[0]))
      && (forall i :: a <= i < b - 1 ==> !Own(states, events, i, states[a].current))
  {
    RunPlansOut(states, events);
    assert Planned(states[a], events[a], states[a + 1]);
    var q, t := QueueOf(states[a], c), states[a].current;
    if q != [] {
      SignalRun(states, events, a, b, q[0]);
    } else {
      assert Todo(states[a + 1], t) == [];
    }
  }

  /** From the plan to raise w on, the thread's one step inside the call raises w. */
  lemma {:induction false} SignalRun(states: seq<State>, events: seq<Event>, a: nat, b: nat, w: SemaId)
    requires PlansOut(states, events) && a + 1 <= b < |states| && events[a].Start? && Todo(states[a + 1], states[a].current) == [Up(w)]
    requires forall i :: a < i < b ==> Todo(states[i], states[a].current) != []
    requires Todo(states[b], states[a].current) == []
    ensures a + 1 < b && Own(states, events, b - 1, states[a].current) && Raises(states[b - 1], events[b - 1], w)
    ensures forall i :: a <= i < b - 1 ==> !Own(states, events, i, states[a].current)
  {
    var t := states[a].current;
    forall i | a < i < b
      ensures Todo(states[i], t) == [Up(w)]
    {
      StaysUp(states, events, a, i, t, w);
    }
    assert Planned(states[b - 1], events[b - 1], states[b]);
    forall i | a < i < b - 1
      ensures !Own(states, events, i, t)
    {
      assert Planned(states[i], events[i], states[i + 1]);
      assert Todo(states[i], t)[1..] == [];
    }
  }

  lemma {:induction false} StaysUp(states: seq<State>, events: seq<Event>, a: nat, i: nat, t: Page, w: SemaId)
    requires PlansOut(states, events) && a < i < |states| && Todo(states[a + 1], t) == [Up(w)]
    requires forall k :: a < k <= i ==> Todo(states[k], t) != []
    ensures Todo(states[i], t) == [Up(w)]
  {
    if i > a + 1 {
      StaysUp(states, events, a, i - 1, t, w);
      assert Planned(states[i - 1], events[i - 1], states[i]);
      assert Todo(states[i - 1], t)[1..] == [];
    }
  }

  /** cond_broadcast() returns with the queue empty, and every waiter that was queued when it was called has been sent its
      one signal meanwhile. */
  lemma BroadcastReturns(states: seq<State>, events: seq<Event>, a: nat, b: nat, c: CondId)
    requires Returned(states, events, a, b, CallBroadcast(c))
    ensures QueueOf(states[b], c) == []
    ensures forall w :: Queued(states[a], c, w) ==> Ups(states, events, w, a) == 0 && Ups(states, events, w, b) == 1
  {
    TakesSteps(states, events, a, b, CallBroadcast(c));
    RunPlansOut(states, events);
    assert Planned(states[a], events[a], states[a + 1]);
    BroadcastWakesAll(states, events, a + 1, b, states[a].current, c);
    forall w | Queued(states[a], c, w)
      ensures Ups(states, events, w, a) == 0 && Ups(states, events, w, b) == 1
    {
      assert Queued(states[a + 1], c, w);
      QueuedIsUnsent(states, events, a, c, w);
    }
  }

  // ----- thread_create() ---------------------------------------------------------------------------------------

  /** The points of thread_create() after the page of the child is set up. */
  predicate CreateStage(ops: seq<Op>, child: Page) {
    || ops == [Down(OfLock(TID_LOCK)), ReadTid(child), Release(TID_LOCK), Unblock(child)]
    || ops == [Asleep(OfLock(TID_LOCK)), ReadTid(child), Release(TID_LOCK), Unblock(child)]
    || ops == [SetHolder(TID_LOCK), ReadTid(child), Release(TID_LOCK), Unblock(child)]
    || ops == [ReadTid(child), Release(TID_LOCK), Unblock(child)]
    || (|ops| == 3 && ops[0].WriteTid? && ops[0].child == child && ops[1..] == [Release(TID_LOCK), Unblock(child)])
    || ops == [Release(TID_LOCK), Unblock(child)]
    || ops == [Up(OfLock(TID_LOCK)), Unblock(child)]
    || ops == [Unblock(child)]
  }

  lemma CreateOwn(st: State, st': State, child: Page)
    requires Planned(st, Continue, st') && CreateStage(Todo(st, st.current), child)
    ensures CreateStage(Todo(st', st.current), child) || (Todo(st', st.current) == [] && Todo(st, st.current) == [Unblock(child)])
  {
    var ops := Todo(st, st.current);
    var rest := ops[1..];
    assert |rest| == |ops| - 1;
    assert rest == [] || rest == [Unblock(child)] || rest == [Release(TID_LOCK), Unblock(child)]
      || rest == [ReadTid(child), Release(TID_LOCK), Unblock(child)];
  }

  lemma CreateStep(st: State, ev: Event, st': State, t: Page, child: Page)
    requires Planned(st, ev, st') && CreateStage(Todo(st, t), child)
    ensures CreateStage(Todo(st', t), child) || (Todo(st', t) == [] && ev.Continue? && st.current == t && Todo(st, t) == [Unblock(child)])
  {
    if ev.Continue? && st.current == t {
      CreateOwn(st, st', child);
    } else {
      assert Todo(st', t) == Todo(st, t);
    }
  }

  lemma {:induction false} CreateRun(states: seq<State>, events: seq<Event>, a: nat, n: nat, child: Page)
    requires PlansOut(states, events) && a < n < |states| && events[a] == Start(CallCreate(child))
    requires forall i :: a < i <= n ==> Todo(states[i], states[a].current) != []
    ensures CreateStage(Todo(states[n], states[a].current), child)
  {
    assert Planned(states[n - 1], events[n - 1], states[n]);
    if n > a + 1 {
      CreateRun(states, events, a, n - 1, child);
      CreateStep(states[n - 1], events[n - 1], states[n], states[a].current, child);
    }
  }

  lemma UnblocksChild(st: State, st': State, child: Page)
    requires StepsTo(st, Continue, st') && HeadIs(st, st.current, Unblock(child))
    ensures st'.ready == st.ready + [child] && child in st'.status && st'.status[child] == Ready
  {
  }

  /** The last step of thread_create() unblocks the child. */
  lemma CreateEnds(states: seq<State>, events: seq<Event>, a: nat, b: nat, child: Page)
    requires Returned(states, events, a, b, CallCreate(child))
    ensures a + 1 < b && Own(states, events, b - 1, states[a].current) && HeadIs(states[b - 1], states[a].current, Unblock(child))
  {
    TakesSteps(states, events, a, b, CallCreate(child));
    RunPlansOut(states, events);
    CreateRun(states, events, a, b - 1, child);
    assert Planned(states[b - 1], events[b - 1], states[b]);
    CreateStep(states[b - 1], events[b - 1], states[b], states[a].current, child);
  }

  /** thread_create() returns with the child ready, at the end of ready_list, and with a tid of its own. */
  lemma CreateReturns(states: seq<State>, events: seq<Event>, a: nat, b: nat, child: Page)
    requires Returned(states, events, a, b, CallCreate(child))
    ensures child !in states[a].status && states[b].ready == states[b - 1].ready + [child]
    ensures child in states[b].status && states[b].status[child] == Ready && OwnTid(states[b], child)
  {
    CreateEnds(states, events, a, b, child);
    assert StepsTo(states[a], events[a], states[a + 1]);
    assert StepsTo(states[b - 1], events[b - 1], states[b]);
    UnblocksChild(states[b - 1], states[b], child);
    ReadyHasTid(states, events, b, child);
  }

  /** t has a positive tid that no other thread has. */
  ghost predicate OwnTid(st: State, t: Page) {
    t in st.tid && st.tid[t] > 0 && forall u :: u in st.tid && u != t ==> st.tid[u] != st.tid[t]
  }

  lemma ReadyHasTid(states: seq<State>, events: seq<Event>, b: nat, t: Page)
    requires BootRun(states, events) && b < |states| && t in states[b].status && states[b].status[t] == Ready
    ensures OwnTid(states[b], t)
  {
    RunInv(states, events, b);
    var st := states[b];
    assert t in st.status.Keys && st.current in st.status.Keys;
    TidsAreUnique(states, events, b, t, st.current);
    forall u | u in st.tid && u != t
      ensures st.tid[u] != st.tid[t]
    {
      TidsAreUnique(states, events, b, t, u);
    }
  }
}
