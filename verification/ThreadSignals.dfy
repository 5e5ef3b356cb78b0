/** Condition variables over whole runs. */
module ThreadSignals {
  import opened Basics
  import opened Threads
  import opened ThreadInvariants
  import opened ThreadSteps
  import opened ThreadPlaces
  import opened ThreadLocks
  import opened ThreadKept
  import opened ThreadRuns
  import opened ThreadProgress

  // ----- what one step does to plans and queues --------------------------------------------------

  /** What the running thread has still to do after a step inside its call. */
  function PlanAfterOp(st: State, op: Op, rest: seq<Op>): seq<Op> {
    match op
    case Down(s) => if Value(st, s) == 0 then [Asleep(s)] + rest else AfterDown(s) + rest
    case Asleep(s) => if Value(st, s) == 0 then [Asleep(s)] + rest else AfterDown(s) + rest
    case Release(l) => [Up(OfLock(l))] + rest
    case Broadcast(c) => if QueueOf(st, c) == [] then [] else [Up(QueueOf(st, c)[0]), Broadcast(c)]
    case ReadTid(child) => [WriteTid(child, st.nextTid)] + rest
    case IdleBlock => [op] + rest
    case _ => rest
  }

  /** What the thread that runs before the step has still to do after it. */
  function PlanAfter(st: State, ev: Event): seq<Op> {
    match ev
    case Continue =>
      if Todo(st, st.current) == [] then []
      else PlanAfterOp(st, Todo(st, st.current)[0], Todo(st, st.current)[1..])
    case Start(call) =>
      (match call
       case CallDown(n) => [Down(User(n))]
       case CallUp(n) => [Up(User(n))]
       case CallAcquire(l) => [Down(OfLock(l))]
       case CallTryAcquire(l) => if Value(st, OfLock(l)) > 0 then [SetHolder(l)] else []
       case CallRelease(l) => [Release(l)]
       case CallWait(c, serial) => [Release(c.lock), Down(OfWaiter(st.current, serial)), Down(OfLock(c.lock))]
       case CallSignal(c) => if QueueOf(st, c) == [] then [] else [Up(QueueOf(st, c)[0])]
       case CallBroadcast(c) => [Broadcast(c)]
       case CallCreate(child) => [Down(OfLock(TID_LOCK)), ReadTid(child), Release(TID_LOCK), Unblock(child)]
       case _ => [])
    case _ => Todo(st, st.current)
  }

  /** The step takes the earliest waiter off c's queue. */
  predicate Pops(st: State, ev: Event, c: CondId) {
    QueueOf(st, c) != [] && ((ev.Continue? && HeadIs(st, st.current, Broadcast(c))) || ev == Start(CallSignal(c)))
  }

  function QueueAfter(st: State, ev: Event, c: CondId): seq<SemaId> {
    if Pops(st, ev, c) then QueueOf(st, c)[1..]
    else if ev.Start? && ev.call.CallWait? && ev.call.c == c then QueueOf(st, c) + [OfWaiter(st.current, ev.call.serial)]
    else QueueOf(st, c)
  }

  ghost predicate Plans(st: State, ev: Event, st': State) {
    && Did(st, st', PlanAfter(st, ev))
    && (forall c :: QueueOf(st', c) == QueueAfter(st, ev, c))
  }

  lemma DownPlans(st: State, s: SemaId, rest: seq<Op>)
    requires s in st.semas && SemaDown(st, s, rest).Ok?
    ensures var st' := SemaDown(st, s, rest).st;
      && st'.queue == st.queue
      && st'.todo == st.todo[st.current := if Value(st, s) == 0 then [Asleep(s)] + rest else AfterDown(s) + rest]
  {
  }

  lemma PerformPlans(st: State, op: Op, rest: seq<Op>)
    requires Perform(st, op, rest).Ok? && Todo(st, st.current) == [op] + rest && Known(st, op)
    ensures Plans(st, Continue, Perform(st, op, rest).st)
  {
    assert ([op] + rest)[1..] == rest;
    match op
    case Down(s) =>
      DownPlans(st, s, rest);
      assert Perform(st, op, rest) == SemaDown(st, s, rest);
    case Asleep(s) =>
      DownPlans(st, s, rest);
      assert Perform(st, op, rest) == SemaDown(st, s, rest);
    case Up(s) =>
      assert Perform(st, op, rest).st.todo == st.todo[st.current := rest];
      assert Perform(st, op, rest).st.queue == st.queue;
    case Broadcast(c) =>
      assert Perform(st, op, rest) == PopWaiter(st, c, [Broadcast(c)]);
      if st.queue[c] != [] {
        assert [Up(st.queue[c][0])] + [Broadcast(c)] == [Up(st.queue[c][0]), Broadcast(c)];
      }
    case IdleBlock =>
      assert Perform(st, op, rest).st.todo == st.todo && Perform(st, op, rest).st.queue == st.queue;
    case _ =>
  }

  /** schedule() changes no plan and no queue; freed pages held threads with nothing to do. */
  lemma DoSchedulePlans(st: State, status: Status)
    requires DoSchedule(st, status).Ok? && DeadOk(st.status, st.destruction, st.initial)
    requires forall t :: t in st.status && st.status[t] == Dying ==> Todo(st, t) == []
    ensures Did(st, DoSchedule(st, status).st, Todo(st, st.current)) && DoSchedule(st, status).st.queue == st.queue
  {
    assert DoSchedule(st, status).st.todo == FreeVictims(st).todo;
    assert DoSchedule(st, status).st.queue == st.queue;
  }

  lemma YieldPlans(st: State)
    requires ThreadYield(st).Ok? && DeadOk(st.status, st.destruction, st.initial)
    requires forall t :: t in st.status && st.status[t] == Dying ==> Todo(st, t) == []
    ensures Did(st, ThreadYield(st).st, Todo(st, st.current)) && ThreadYield(st).st.queue == st.queue
  {
    DoSchedulePlans(if st.idle != Some(st.current) then st.(ready := st.ready + [st.current]) else st, Ready);
  }

  lemma OpeningPlans(st: State, call: Call)
    requires Opening(call) != None
    ensures Begin(st, call) == Ok(SetTodo(st, [Opening(call).value])) && PlanAfter(st, Start(call)) == [Opening(call).value]
  {
  }

  lemma TryPlans(st: State, call: Call)
    requires Begin(st, call).Ok? && Todo(st, st.current) == []
    requires call.CallTryDown? || call.CallTryAcquire?
    ensures Plans(st, Start(call), Begin(st, call).st)
  {
  }

  lemma QueuePlans(st: State, call: Call)
    requires Begin(st, call).Ok? && Todo(st, st.current) == [] && MayCall(st, call)
    requires call.CallWait? || call.CallSignal?
    ensures Plans(st, Start(call), Begin(st, call).st)
  {
  }

  lemma CreatePlans(st: State, child: Page)
    requires Lists(st) && child !in st.status
    ensures Plans(st, Start(CallCreate(child)), Begin(st, CallCreate(child)).st)
  {
  }

  lemma BeginPlans(st: State, call: Call)
    requires Begin(st, call).Ok? && Lists(st) && MayCall(st, call) && Todo(st, st.current) == []
    ensures Plans(st, Start(call), Begin(st, call).st)
  {
    BeginIs(st, call);
    if Opening(call) != None {
      OpeningPlans(st, call);
    } else if call.CallTryDown? || call.CallTryAcquire? {
      TryPlans(st, call);
    } else if call.CallWait? || call.CallSignal? {
      QueuePlans(st, call);
    } else if call.CallCreate? {
      CreatePlans(st, call.child);
    } else if call.CallYield? {
      YieldPlans(st);
    } else {
      DoSchedulePlans(st, Dying);
    }
  }

  lemma TickPlans(st: State)
    requires TimerTick(st).Ok? && Lists(st)
    ensures Plans(st, Tick, TimerTick(st).st)
  {
    if st.ticks + 1 >= TIME_SLICE {
      YieldPlans(st.(ticks := st.ticks + 1));
      assert TimerTick(st) == ThreadYield(st.(ticks := st.ticks + 1));
    } else {
      assert TimerTick(st) == Ok(st.(ticks := st.ticks + 1));
    }
  }

  lemma UpPlans(st: State, n: nat)
    requires SemaUp(st, User(n)).Ok?
    ensures Plans(st, IntrUp(n), SemaUp(st, User(n)).st)
  {
    assert SemaUp(st, User(n)).st.todo == st.todo && SemaUp(st, User(n)).st.queue == st.queue;
  }

  lemma ExecPlans(st: State)
    requires Exec(st).Ok? && References(st) && Todo(st, st.current) != []
    ensures Plans(st, Continue, Exec(st).st)
  {
    var ops := Todo(st, st.current);
    assert ops == [ops[0]] + ops[1..];
    HeadKnown(st);
    ExecPerforms(st);
    PerformPlans(st, ops[0], ops[1..]);
  }

  lemma StepPlans(st: State, ev: Event, st': State)
    requires Lists(st) && References(st) && StepsTo(st, ev, st')
    ensures Plans(st, ev, st')
  {
    StepIs(st, ev);
    match ev
    case Continue => ExecPlans(st);
    case Start(call) => BeginPlans(st, call);
    case Tick => TickPlans(st);
    case IntrUp(n) => UpPlans(st, n);
    case IntrTryDown(n) =>
  }

  // ----- what one step does to the set of semaphores -----------------------------------------------

  /** The semaphore on the stack of a thread that calls cond_wait(). */
  function Enrols(st: State, ev: Event): set<SemaId> {
    if ev.Start? && ev.call.CallWait? then {OfWaiter(st.current, ev.call.serial)} else {}
  }

  lemma PerformSemas(st: State, op: Op, rest: seq<Op>)
    requires Perform(st, op, rest).Ok?
    ensures Perform(st, op, rest).st.semas.Keys == st.semas.Keys
  {
    match op
    case Down(s) => assert SemaDown(st, s, rest).st.semas.Keys == st.semas.Keys;
    case Asleep(s) => assert SemaDown(st, s, rest).st.semas.Keys == st.semas.Keys;
    case Up(s) => assert SemaUp(SetTodo(st, rest), s).st.semas.Keys == st.semas.Keys;
    case _ =>
  }

  lemma BeginSemas(st: State, call: Call)
    requires Begin(st, call).Ok? && Lists(st)
    ensures Begin(st, call).st.semas.Keys == st.semas.Keys + Enrols(st, Start(call))
  {
    BeginIs(st, call);
    match call
    case CallYield => YieldSwitches(st);
    case CallExit => DoScheduleSwitches(st, Dying);
    case _ =>
  }

  /** Only cond_wait() adds a semaphore, and none is dropped. */
  lemma StepSemas(st: State, ev: Event, st': State)
    requires Lists(st) && StepsTo(st, ev, st')
    ensures st'.semas.Keys == st.semas.Keys + Enrols(st, ev)
  {
    StepIs(st, ev);
    match ev
    case Continue =>
      ExecPerforms(st);
      PerformSemas(st, Todo(st, st.current)[0], Todo(st, st.current)[1..]);
    case Start(call) => BeginSemas(st, call);
    case Tick => TickMoves(st);
    case IntrUp(n) =>
    case IntrTryDown(n) =>
  }

  // ----- whole runs ------------------------------------------------------------------------------

  ghost predicate Planned(st: State, ev: Event, st': State) {
    && Todos(st) && Signals(st) && Enabled(st, ev)
    && Plans(st, ev, st') && st'.semas.Keys == st.semas.Keys + Enrols(st, ev)
  }

  ghost predicate PlansOut(states: seq<State>, events: seq<Event>) {
    && |states| == |events| + 1
    && (forall i {:trigger events[i]} :: 0 <= i < |events| ==> Planned(states[i], events[i], states[i + 1]))
    && (forall w: SemaId :: w in states[0].semas ==> !w.OfWaiter?)
  }

  lemma RunPlanned(states: seq<State>, events: seq<Event>, i: nat)
    requires BootRun(states, events) && i < |events|
    ensures Planned(states[i], events[i], states[i + 1])
  {
    RunInv(states, events, i);
    assert StepsTo(states[i], events[i], states[i + 1]);
    StepPlans(states[i], events[i], states[i + 1]);
    StepSemas(states[i], events[i], states[i + 1]);
  }

  lemma RunPlansOut(states: seq<State>, events: seq<Event>)
    requires BootRun(states, events)
    ensures PlansOut(states, events)
  {
    forall i {:trigger events[i]} | 0 <= i < |events|
      ensures Planned(states[i], events[i], states[i + 1])
    {
      RunPlanned(states, events, i);
    }
  }

  // ----- the waiter queue ------------------------------------------------------------------------

  lemma HeadBroadcasts(st: State, t: Page, c: CondId)
    requires Todos(st) && HeadIs(st, t, Broadcast(c))
    ensures Holds(st, t, c.lock) && Todo(st, t) == [Broadcast(c)]
  {
    assert TodoFits(Held(st, t), Todo(st, t));
    assert Todo(st, t) == [Broadcast(c)] + Todo(st, t)[1..];
  }

  /** Only the running thread, holding the lock, changes a condition's queue. */
  lemma QueueChanges(st: State, ev: Event, st': State, c: CondId)
    requires Planned(st, ev, st') && QueueOf(st', c) != QueueOf(st, c)
    ensures Holds(st, st.current, c.lock) && QueueOf(st', c) == QueueAfter(st, ev, c)
    ensures Pops(st, ev, c) || (ev.Start? && ev.call.CallWait? && ev.call.c == c)
  {
    if ev.Continue? { HeadBroadcasts(st, st.current, c); }
  }

  /** A condition's queue is first in, first out, and only the holder of its lock touches
      it: cond_wait() enters at the end, and a signal is on its way to the earliest waiter. */
  lemma SignalsFifo(states: seq<State>, events: seq<Event>, i: nat, c: CondId)
    requires BootRun(states, events) && i < |events| && QueueOf(states[i + 1], c) != QueueOf(states[i], c)
    ensures var st, st', q := states[i], states[i + 1], QueueOf(states[i], c);
      && Holds(st, st.current, c.lock)
      && (|| (exists serial :: events[i] == Start(CallWait(c, serial)) && QueueOf(st', c) == q + [OfWaiter(st.current, serial)])
          || (q != [] && QueueOf(st', c) == q[1..] && HeadIs(st', st.current, Up(q[0]))))
  {
    RunPlanned(states, events, i);
    QueueChanges(states[i], events[i], states[i + 1], c);
    if !Pops(states[i], events[i], c) {
      assert events[i] == Start(CallWait(c, events[i].call.serial));
    }
  }

  // ----- one signal for each wait -------------------------------------------------------------------

  predicate Waiting(ops: seq<Op>, w: SemaId) {
    Down(w) in ops || (ops != [] && ops[0] == Asleep(w))
  }

  lemma TailAwake(held: iset<LockId>, ops: seq<Op>)
    requires OpsFit(held, ops) && |ops| > 1
    ensures !ops[1].Asleep?
  {
    var rest := ops[1..];
    assert rest[0] == ops[1];
    match ops[0]
    case Down(s) => assert OpsFit(if s.OfLock? then held + iset{s.lock} else held, rest);
    case Up(s) => assert OpsFit(held, rest);
    case Release(l) => assert OpsFit(held - iset{l}, rest);
    case SetIdle => assert OpsFit(held, rest);
    case _ =>
  }

  /** Only the first pending step may be the rest of a sema_down. */
  lemma RestAwake(held: iset<LockId>, ops: seq<Op>)
    requires TodoFits(held, ops) && |ops| > 1
    ensures !ops[1].Asleep?
  {
    var rest := ops[1..];
    assert rest[0] == ops[1];
    match ops[0]
    case Asleep(s) => TailAwake(held, [Down(s)] + rest);
    case SetHolder(l) => assert OpsFit(held + iset{l}, rest);
    case Up(s) => assert OpsFit(held, rest);
    case WriteTid(c, id) =>
    case _ => TailAwake(held, ops);
  }

  lemma WaiterFits(held: iset<LockId>, ops: seq<Op>, w: SemaId)
    requires TodoFits(held, ops) && w.OfWaiter? && ops != [] && (ops[0] == Down(w) || ops[0] == Asleep(w))
    ensures |ops| == 2 && ops[1].Down? && ops[1].s.OfLock?
  {
    assert ([Down(w)] + ops[1..])[1..] == ops[1..];
  }

  /** The running thread's step ends its wait on w exactly when it returns from sema_down(w). */
  lemma WaitingOp(st: State, w: SemaId)
    requires Todos(st) && w.OfWaiter? && Todo(st, st.current) != []
    ensures var ops := Todo(st, st.current); var ops' := PlanAfter(st, Continue);
      Waiting(ops', w) <==> Waiting(ops, w) && !(Value(st, w) > 0 && AtDown(st, w))
  {
    var ops := Todo(st, st.current);
    var op, rest := ops[0], ops[1..];
    assert ops == [op] + rest;
    assert TodoFits(Held(st, st.current), ops);
    if rest != [] { RestAwake(Held(st, st.current), ops); }
    if op == Down(w) || op == Asleep(w) {
      WaiterFits(Held(st, st.current), ops, w);
      assert rest == [ops[1]];
    } else if op.Broadcast? {
      HeadBroadcasts(st, st.current, op.c);
    } else {
      assert Waiting(ops, w) <==> Down(w) in rest;
    }
  }

  /** A step starts a wait on w when it enters cond_wait() with w, and ends it when it
      lowers w; a semaphore that has been waited on is never waited on again. */
  lemma WaitStep(st: State, ev: Event, st': State, w: SemaId)
    requires Planned(st, ev, st') && w.OfWaiter?
    ensures w in st.semas ==> (WaitsOn(st', w.owner, w) <==> WaitsOn(st, w.owner, w) && !Lowers(st, ev, w))
    ensures w in st.semas && !WaitsOn(st, w.owner, w) ==> !Lowers(st, ev, w)
    ensures w !in st.semas && w in st'.semas ==> WaitsOn(st', w.owner, w)
  {
    assert AtDown(st, w) ==> WaitsOn(st, st.current, w);
    if ev.Continue? { WaitingOp(st, w); }
  }

  function Waits(st: State, w: SemaId): nat {
    if w.OfWaiter? && w in st.semas && !WaitsOn(st, w.owner, w) then 1 else 0
  }

  lemma WaitsStep(st: State, ev: Event, st': State, w: SemaId)
    requires Planned(st, ev, st') && w.OfWaiter?
    ensures Waits(st', w) == Waits(st, w) + (if Lowers(st, ev, w) then 1 else 0)
  {
    WaitStep(st, ev, st', w);
  }

  ghost predicate WaitsOut(states: seq<State>, events: seq<Event>, w: SemaId) {
    && |states| == |events| + 1 && Waits(states[0], w) == 0
    && (forall i {:trigger events[i]} :: 0 <= i < |events| ==>
          Waits(states[i + 1], w) == Waits(states[i], w) + (if Lowers(states[i], events[i], w) then 1 else 0))
  }

  lemma PlansWaitsOut(states: seq<State>, events: seq<Event>, w: SemaId)
    requires PlansOut(states, events) && w.OfWaiter?
    ensures WaitsOut(states, events, w)
  {
    forall i {:trigger events[i]} | 0 <= i < |events|
      ensures Waits(states[i + 1], w) == Waits(states[i], w) + (if Lowers(states[i], events[i], w) then 1 else 0)
    {
      assert Planned(states[i], events[i], states[i + 1]);
      WaitsStep(states[i], events[i], states[i + 1], w);
    }
  }

  lemma {:induction false} DownsCount(states: seq<State>, events: seq<Event>, w: SemaId, n: nat)
    requires WaitsOut(states, events, w) && n <= |events|
    ensures Downs(states, events, w, n) == Waits(states[n], w)
  {
    if n > 0 {
      DownsCount(states, events, w, n - 1);
      assert Waits(states[n - 1 + 1], w) == Waits(states[n - 1], w) + (if Lowers(states[n - 1], events[n - 1], w) then 1 else 0);
    }
  }

  lemma DownsOnce(states: seq<State>, events: seq<Event>, w: SemaId, n: nat)
    requires PlansOut(states, events) && n <= |events| && w.OfWaiter?
    ensures Downs(states, events, w, n) == Waits(states[n], w)
  {
    PlansWaitsOut(states, events, w);
    DownsCount(states, events, w, n);
  }

  /** Every wait gets one signal and consumes one: a cond_wait() that has not returned from
      its sema_down() has consumed none and was sent at most one, and one that has returned
      was sent exactly one and will never be sent another. */
  lemma OneSignalPerWait(states: seq<State>, events: seq<Event>, w: SemaId, n: nat)
    requires BootRun(states, events) && n <= |events| && w.OfWaiter?
    ensures Ups(states, events, w, n) <= 1
    ensures w !in states[n].semas ==> Downs(states, events, w, n) == 0 == Ups(states, events, w, n)
    ensures WaitsOn(states[n], w.owner, w) ==> Downs(states, events, w, n) == 0 && Ups(states, events, w, n) == Value(states[n], w)
    ensures w in states[n].semas && !WaitsOn(states[n], w.owner, w) ==> Downs(states, events, w, n) == 1 == Ups(states, events, w, n)
  {
    RunPlansOut(states, events);
    DownsOnce(states, events, w, n);
    SemaphoreAccount(states, events, w, n);
    RunInv(states, events, n);
    assert w !in states[0].semas;
    assert Owed(states[n], w) <==> WaitsOn(states[n], w.owner, w);
  }

  lemma RaisedIsAwake(st: State, w: SemaId)
    requires Waiters(st) && NoLostWakeup(st) && Signals(st) && w.OfWaiter? && WaitersOf(st, w) != []
    ensures Value(st, w) == 0
  {
    var t := WaitersOf(st, w)[0];
    OnWaiters(st, w, t);
    assert WaitsOn(st, t, w);
    forall u | u in Woken(st, w)
      ensures false
    {
      assert WaitsOn(st, u, w);
    }
    assert Woken(st, w) == {};
  }

  /** A signal sent between a waiter's lock_release() and its sema_down(), or while it sleeps,
      is not lost: a waiter whose semaphore was raised is not left on the waiters list. */
  lemma SignalledIsAwake(states: seq<State>, events: seq<Event>, i: nat, w: SemaId)
    requires BootRun(states, events) && i < |states| && w.OfWaiter? && Value(states[i], w) > 0
    ensures WaitersOf(states[i], w) == [] && WaitsOn(states[i], w.owner, w)
  {
    RunInv(states, events, i);
    assert Owed(states[i], w);
    if WaitersOf(states[i], w) != [] { RaisedIsAwake(states[i], w); }
  }

  // ----- broadcast ------------------------------------------------------------------------------------

  /** t is inside cond_broadcast() on c, which found q waiting and has popped k of them. */
  ghost predicate Broadcasting(st: State, t: Page, c: CondId, q: seq<SemaId>, k: nat) {
    && k <= |q| && QueueOf(st, c) == q[k..]
    && (Todo(st, t) == [Broadcast(c)] || (k > 0 && Todo(st, t) == [Up(q[k - 1]), Broadcast(c)]))
  }

  /** How many of the popped waiters have been raised. */
  function Raised(st: State, t: Page, k: nat): nat {
    if k > 0 && Todo(st, t) != [] && Todo(st, t)[0].Up? then k - 1 else k
  }

  lemma BroadcastHolds(st: State, t: Page, c: CondId, q: seq<SemaId>, k: nat)
    requires Todos(st) && Broadcasting(st, t, c, q, k)
    ensures Holds(st, t, c.lock)
  {
    assert TodoFits(Held(st, t), Todo(st, t));
    assert Todo(st, t) == [Broadcast(c)] || Todo(st, t)[1..] == [Broadcast(c)];
  }

  /** A step while t broadcasts: t itself pops and raises in turn, and no other thread touches the queue. */
  lemma BroadcastStep(st: State, ev: Event, st': State, t: Page, c: CondId, q: seq<SemaId>, k: nat) returns (k': nat)
    requires Planned(st, ev, st') && Broadcasting(st, t, c, q, k)
    ensures Todo(st', t) != [] ==> Broadcasting(st', t, c, q, k')
    ensures Todo(st', t) == [] ==> QueueOf(st', c) == [] && Raised(st, t, k) == |q|
    ensures var r, r' := Raised(st, t, k), Raised(st', t, k'); r' <= r || (r' == r + 1 && r < |q| && Raises(st, ev, q[r]))
  {
    k' := if Pops(st, ev, c) then k + 1 else k;
    BroadcastHolds(st, t, c, q, k);
    if t != st.current || !ev.Continue? {
      if QueueOf(st', c) != QueueOf(st, c) { QueueChanges(st, ev, st', c); }
    }
  }

  /** The first r waiters of q have been raised by step n. */
  ghost predicate Sent(states: seq<State>, events: seq<Event>, q: seq<SemaId>, r: nat, n: nat)
    requires r <= |q| && n <= |events| < |states|
  {
    forall j :: 0 <= j < r ==> Ups(states, events, q[j], n) >= 1
  }

  lemma SentStep(states: seq<State>, events: seq<Event>, q: seq<SemaId>, r: nat, r': nat, n: nat)
    requires r <= |q| && r' <= |q| && 0 < n <= |events| < |states| && Sent(states, events, q, r, n - 1)
    requires r' <= r || (r' == r + 1 && Raises(states[n - 1], events[n - 1], q[r]))
    ensures Sent(states, events, q, r', n)
  {
  }

  lemma {:induction false} BroadcastRun(states: seq<State>, events: seq<Event>, a: nat, n: nat, t: Page, c: CondId) returns (k: nat)
    requires PlansOut(states, events) && a <= n < |states| && Todo(states[a], t) == [Broadcast(c)]
    requires forall i :: a < i <= n ==> Todo(states[i], t) != []
    ensures Broadcasting(states[n], t, c, QueueOf(states[a], c), k)
    ensures Sent(states, events, QueueOf(states[a], c), Raised(states[n], t, k), n)
  {
    if n == a {
      k := 0;
    } else {
      var m := BroadcastRun(states, events, a, n - 1, t, c);
      assert Planned(states[n - 1], events[n - 1], states[n]);
      var q := QueueOf(states[a], c);
      k := BroadcastStep(states[n - 1], events[n - 1], states[n], t, c, q, m);
      SentStep(states, events, q, Raised(states[n - 1], t, m), Raised(states[n], t, k), n);
    }
  }

  lemma BroadcastEnds(states: seq<State>, events: seq<Event>, a: nat, b: nat, t: Page, c: CondId)
    requires PlansOut(states, events) && a < b < |states| && Todo(states[a], t) == [Broadcast(c)]
    requires (forall i :: a < i < b ==> Todo(states[i], t) != []) && Todo(states[b], t) == []
    ensures QueueOf(states[b], c) == []
    ensures Sent(states, events, QueueOf(states[a], c), |QueueOf(states[a], c)|, b)
  {
    var k := BroadcastRun(states, events, a, b - 1, t, c);
    var q := QueueOf(states[a], c);
    assert Planned(states[b - 1], events[b - 1], states[b]);
    var k' := BroadcastStep(states[b - 1], events[b - 1], states[b], t, c, q, k);
    SentStep(states, events, q, |q|, |q|, b);
  }

  lemma QueuedIsUnsent(states: seq<State>, events: seq<Event>, a: nat, c: CondId, w: SemaId)
    requires BootRun(states, events) && a < |states| && Queued(states[a], c, w)
    ensures w.OfWaiter? && Ups(states, events, w, a) == 0
  {
    RunInv(states, events, a);
    assert Owed(states[a], w);
    OneSignalPerWait(states, events, w, a);
  }

  /** cond_broadcast() wakes every thread that waits when it is called, and no other: when
      it returns the queue is empty and each of them has been sent its one signal. */
  lemma BroadcastWakesAll(states: seq<State>, events: seq<Event>, a: nat, b: nat, t: Page, c: CondId)
    requires BootRun(states, events) && a < b < |states| && Todo(states[a], t) == [Broadcast(c)]
    requires (forall i :: a < i < b ==> Todo(states[i], t) != []) && Todo(states[b], t) == []
    ensures QueueOf(states[b], c) == []
    ensures forall w :: Queued(states[a], c, w) ==> Ups(states, events, w, a) == 0 && Ups(states, events, w, b) == 1
    ensures forall i, w :: a <= i < b && HeadIs(states[i], t, Up(w)) ==> Queued(states[a], c, w)
  {
    RunPlansOut(states, events);
    forall i, w | a <= i < b && HeadIs(states[i], t, Up(w))
      ensures Queued(states[a], c, w)
    {
      var k := BroadcastRun(states, events, a, i, t, c);
    }
    BroadcastEnds(states, events, a, b, t, c);
    var q := QueueOf(states[a], c);
    forall w | Queued(states[a], c, w)
      ensures Ups(states, events, w, a) == 0 && Ups(states, events, w, b) == 1
    {
      QueuedIsUnsent(states, events, a, c, w);
      OneSignalPerWait(states, events, w, b);
      var j :| 0 <= j < |q| && q[j] == w;
      assert Ups(states, events, q[j], b) >= 1;
    }
  }

  // ----- the return of cond_wait() -----------------------------------------------------------------------

  /** The points of cond_wait() with lock l and stack semaphore w. */
  predicate WaitStage(ops: seq<Op>, l: LockId, w: SemaId) {
    || ops == [Release(l), Down(w), Down(OfLock(l))]
    || ops == [Up(OfLock(l)), Down(w), Down(OfLock(l))]
    || ops == [Down(w), Down(OfLock(l))]
    || ops == [Asleep(w), Down(OfLock(l))]
    || ops == [Down(OfLock(l))]
    || ops == [Asleep(OfLock(l))]
    || ops == [SetHolder(l)]
  }

  lemma WaitStages(st: State, ev: Event, st': State, t: Page, l: LockId, w: SemaId)
    requires Planned(st, ev, st') && WaitStage(Todo(st, t), l, w) && w.OfWaiter?
    ensures WaitStage(Todo(st', t), l, w)
      || (Todo(st', t) == [] && t == st.current && ev.Continue? && HeadIs(st, t, SetHolder(l)))
  {
    if t == st.current && ev.Continue? {
      var ops := Todo(st, t);
      var op, rest := ops[0], ops[1..];
      assert |rest| == |ops| - 1;
      assert rest == [] || rest == [Down(OfLock(l))] || rest == [Down(w), Down(OfLock(l))];
    }
  }

  lemma {:induction false} WaitRun(states: seq<State>, events: seq<Event>, a: nat, n: nat, c: CondId, serial: nat)
    requires PlansOut(states, events) && a < n < |states| && events[a] == Start(CallWait(c, serial))
    requires forall i :: a < i <= n ==> Todo(states[i], states[a].current) != []
    ensures WaitStage(Todo(states[n], states[a].current), c.lock, OfWaiter(states[a].current, serial))
  {
    if n == a + 1 {
      assert Planned(states[a], events[a], states[a + 1]);
    } else {
      WaitRun(states, events, a, n - 1, c, serial);
      assert Planned(states[n - 1], events[n - 1], states[n]);
      WaitStages(states[n - 1], events[n - 1], states[n], states[a].current, c.lock, OfWaiter(states[a].current, serial));
    }
  }

  lemma SetsHolder(st: State, st': State, l: LockId)
    requires StepsTo(st, Continue, st') && HeadIs(st, st.current, SetHolder(l))
    ensures Holds(st', st.current, l)
  {
  }

  lemma {:induction false} StaysEnrolled(states: seq<State>, events: seq<Event>, a: nat, b: nat, w: SemaId)
    requires PlansOut(states, events) && a < b < |states| && w in Enrols(states[a], events[a])
    ensures w in states[b].semas
  {
    assert Planned(states[b - 1], events[b - 1], states[b]);
    if a < b - 1 { StaysEnrolled(states, events, a, b - 1, w); }
  }

  /** The last step of cond_wait() is that of lock_acquire() on its lock. */
  lemma WaitEnds(states: seq<State>, events: seq<Event>, a: nat, b: nat, c: CondId, serial: nat)
    requires PlansOut(states, events) && a + 1 < b < |states| && events[a] == Start(CallWait(c, serial))
    requires forall i :: a < i < b ==> Todo(states[i], states[a].current) != []
    requires Todo(states[b], states[a].current) == []
    ensures states[b - 1].current == states[a].current && events[b - 1].Continue?
    ensures HeadIs(states[b - 1], states[a].current, SetHolder(c.lock))
    ensures OfWaiter(states[a].current, serial) in states[b].semas
  {
    var w := OfWaiter(states[a].current, serial);
    WaitRun(states, events, a, b - 1, c, serial);
    assert Planned(states[b - 1], events[b - 1], states[b]);
    WaitStages(states[b - 1], events[b - 1], states[b], states[a].current, c.lock, w);
    StaysEnrolled(states, events, a, b, w);
  }

  /** cond_wait() returns with its lock held, and only once it has been sent a signal. */
  lemma WaitReturnsHolding(states: seq<State>, events: seq<Event>, a: nat, b: nat, c: CondId, serial: nat)
    requires BootRun(states, events) && a + 1 < b < |states| && events[a] == Start(CallWait(c, serial))
    requires forall i :: a < i < b ==> Todo(states[i], states[a].current) != []
    requires Todo(states[b], states[a].current) == []
    ensures Holds(states[b], states[a].current, c.lock)
    ensures Ups(states, events, OfWaiter(states[a].current, serial), b) == 1
  {
    RunPlansOut(states, events);
    WaitEnds(states, events, a, b, c, serial);
    assert StepsTo(states[b - 1], events[b - 1], states[b]);
    SetsHolder(states[b - 1], states[b], c.lock);
    OneSignalPerWait(states, events, OfWaiter(states[a].current, serial), b);
  }
}
