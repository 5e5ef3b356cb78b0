/**
 The scheduler of threads/thread.c and the synchronisation primitives of
 threads/synch.c as one step system.

 Code that runs with interrupts off is one atomic step, up to the next switch
 made by schedule().  Between two such steps a timer interrupt may preempt the
 running thread.  What a thread still has to execute of the calls it is inside
 of is its `todo` list: the ghost program counter.

 Every kernel ASSERT that a step evaluates is modelled: a step whose assertion
 fails yields Panic.
 */
module Threads {
  import opened Basics

  /** The page that holds a `struct thread`; the pointer value itself. */
  type Page = nat
  type LockId = nat

  const TIME_SLICE: nat := 4
  /** The static tid_lock of thread.c. */
  const TID_LOCK: LockId := 0
  /** The semaphore thread_start() waits on. */
  const IDLE_STARTED: SemaId := User(0)

  datatype Status = Running | Ready | Blocked | Dying

  /** A semaphore is one of the program's own, the one inside a lock, or the one
      on the stack of a thread inside cond_wait(). */
  datatype SemaId = User(n: nat) | OfLock(lock: LockId) | OfWaiter(owner: Page, serial: nat)

  /** A condition variable, with the one lock that protects it. */
  datatype CondId = Cond(lock: LockId, n: nat)

  datatype Sema = Sema(value: nat, waiters: seq<Page>)

  /** One atomic step that a thread still has to make inside a call. */
  datatype Op =
    | Down(s: SemaId)                // sema_down, before its interrupts are disabled
    | Asleep(s: SemaId)              // inside sema_down's loop, just after thread_block
    | Up(s: SemaId)                  // sema_up
    | SetHolder(l: LockId)           // lock_acquire, after sema_down returned
    | Release(l: LockId)             // lock_release, clearing the holder
    | Broadcast(c: CondId)           // the test of cond_broadcast's loop
    | ReadTid(child: Page)           // allocate_tid, reading next_tid
    | WriteTid(child: Page, id: nat) // allocate_tid, storing next_tid
    | Unblock(child: Page)           // thread_create's thread_unblock
    | SetIdle                        // idle(), storing idle_thread
    | IdleBlock                      // idle(), intr_disable and thread_block

  datatype State = State(
    status: map<Page, Status>,       // the live `struct thread`s
    todo: map<Page, seq<Op>>,
    tid: map<Page, nat>,
    nextTid: nat,
    ready: seq<Page>,
    destruction: seq<Page>,
    current: Page,
    initial: Page,
    idle: Option<Page>,
    idler: Page,                     // the page thread_start() gave to the idle thread
    ticks: nat,                      // thread_ticks
    semas: map<SemaId, Sema>,
    holder: map<LockId, Option<Page>>,
    queue: map<CondId, seq<SemaId>>
  )

  datatype Outcome = Ok(st: State) | Panic

  // ----- thread.c ------------------------------------------------------------

  function NextThreadToRun(st: State): Option<Page> {
    if st.ready == [] then st.idle else Some(st.ready[0])
  }

  /** schedule(): the running thread's status has already been changed. */
  function Schedule(st: State): Outcome {
    var next := NextThreadToRun(st);
    if st.current !in st.status || st.status[st.current] == Running then Panic
    else if next == None || next.value !in st.status then Panic
    else
      var ready := if st.ready == [] then [] else st.ready[1..];
      var status := st.status[next.value := Running];
      var dead := st.current != next.value && status[st.current] == Dying && st.current != st.initial;
      Ok(st.(ready := ready, status := status, ticks := 0, current := next.value,
             destruction := if dead then st.destruction + [st.current] else st.destruction))
  }

  /** palloc_free_page() on every thread queued for destruction. */
  function FreeVictims(st: State): State {
    var dead := set t | t in st.destruction;
    st.(status := st.status - dead, todo := st.todo - dead, tid := st.tid - dead, destruction := [])
  }

  function DoSchedule(st: State, status: Status): Outcome {
    if st.current !in st.status || st.status[st.current] != Running then Panic
    else
      var freed := FreeVictims(st);
      if st.current !in freed.status then Panic
      else Schedule(freed.(status := freed.status[st.current := status]))
  }

  function ThreadBlock(st: State): Outcome {
    if st.current !in st.status || st.status[st.current] != Running then Panic
    else Schedule(st.(status := st.status[st.current := Blocked]))
  }

  function ThreadUnblock(st: State, t: Page): Outcome {
    if t !in st.status || st.status[t] != Blocked then Panic
    else Ok(st.(ready := st.ready + [t], status := st.status[t := Ready]))
  }

  function ThreadYield(st: State): Outcome {
    var queued := if st.idle != Some(st.current) then st.(ready := st.ready + [st.current]) else st;
    DoSchedule(queued, Ready)
  }

  function ThreadExit(st: State): Outcome {
    DoSchedule(st, Dying)
  }

  /** The timer interrupt: thread_tick() and, when the time slice is used up,
      the yield intr_handler() makes on return. */
  function TimerTick(st: State): Outcome {
    if st.current !in st.status || st.status[st.current] != Running then Panic
    else
      var ticked := st.(ticks := st.ticks + 1);
      if ticked.ticks >= TIME_SLICE then ThreadYield(ticked) else Ok(ticked)
  }

  // ----- synch.c -------------------------------------------------------------

  /** What follows sema_down(s) in the function that called it. */
  function AfterDown(s: SemaId): seq<Op> {
    if s.OfLock? then [SetHolder(s.lock)] else []
  }

  function SetTodo(st: State, ops: seq<Op>): State {
    st.(todo := st.todo[st.current := ops])
  }

  /** One evaluation of sema_down's loop test and what it leads to: the thread
      sleeps on s, or takes one from the value and leaves. */
  function SemaDown(st: State, s: SemaId, rest: seq<Op>): Outcome {
    if s !in st.semas then Panic
    else
      var sema := st.semas[s];
      if sema.value == 0 then
        var queued := st.(semas := st.semas[s := sema.(waiters := sema.waiters + [st.current])]);
        ThreadBlock(SetTodo(queued, [Asleep(s)] + rest))
      else
        Ok(SetTodo(st.(semas := st.semas[s := sema.(value := sema.value - 1)]), AfterDown(s) + rest))
  }

  function SemaTryDown(st: State, s: SemaId, taken: seq<Op>): Outcome {
    if s !in st.semas then Panic
    else if st.semas[s].value == 0 then Ok(st)
    else
      var sema := st.semas[s];
      Ok(SetTodo(st.(semas := st.semas[s := sema.(value := sema.value - 1)]), taken))
  }

  function SemaUp(st: State, s: SemaId): Outcome {
    if s !in st.semas then Panic
    else
      var sema := st.semas[s];
      if sema.waiters == [] then
        Ok(st.(semas := st.semas[s := sema.(value := sema.value + 1)]))
      else
        ThreadUnblock(st.(semas := st.semas[s := Sema(sema.value + 1, sema.waiters[1..])]), sema.waiters[0])
  }

  predicate Holds(st: State, t: Page, l: LockId) {
    l in st.holder && st.holder[l] == Some(t)
  }

  /** cond_signal() up to the call of sema_up(): pops the earliest waiter. */
  function PopWaiter(st: State, c: CondId, rest: seq<Op>): Outcome {
    if c !in st.queue then Panic
    else if st.queue[c] == [] then Ok(SetTodo(st, []))
    else if !Holds(st, st.current, c.lock) then Panic
    else Ok(SetTodo(st.(queue := st.queue[c := st.queue[c][1..]]), [Up(st.queue[c][0])] + rest))
  }

  // ----- steps ---------------------------------------------------------------

  /** The running thread makes the step op, with rest still to do. */
  function Perform(st: State, op: Op, rest: seq<Op>): Outcome {
    match op
    case Down(s) =>
      if s.OfLock? && Holds(st, st.current, s.lock) then Panic else SemaDown(st, s, rest)
    case Asleep(s) => SemaDown(st, s, rest)
    case Up(s) => SemaUp(SetTodo(st, rest), s)
    case SetHolder(l) =>
      if l !in st.holder then Panic else Ok(SetTodo(st, rest).(holder := st.holder[l := Some(st.current)]))
    case Release(l) =>
      if !Holds(st, st.current, l) then Panic
      else Ok(SetTodo(st.(holder := st.holder[l := None]), [Up(OfLock(l))] + rest))
    case Broadcast(c) => PopWaiter(st, c, [Broadcast(c)])
    case ReadTid(child) => Ok(SetTodo(st, [WriteTid(child, st.nextTid)] + rest))
    case WriteTid(child, id) => Ok(SetTodo(st, rest).(nextTid := id + 1, tid := st.tid[child := id]))
    case Unblock(child) => ThreadUnblock(SetTodo(st, rest), child)
    case SetIdle => Ok(SetTodo(st, rest).(idle := Some(st.current)))
    case IdleBlock => ThreadBlock(st)
  }

  /** The running thread makes the next step of the call it is inside of. */
  function Exec(st: State): Outcome {
    if st.current !in st.status || st.status[st.current] != Running then Panic
    else if st.current !in st.todo || st.todo[st.current] == [] then Panic
    else Perform(st, st.todo[st.current][0], st.todo[st.current][1..])
  }

  /** A call that a thread outside any other call may make. */
  datatype Call =
    | CallDown(n: nat) | CallTryDown(n: nat) | CallUp(n: nat)
    | CallAcquire(l: LockId) | CallTryAcquire(l: LockId) | CallRelease(l: LockId)
    | CallWait(c: CondId, serial: nat) | CallSignal(c: CondId) | CallBroadcast(c: CondId)
    | CallCreate(child: Page)
    | CallYield | CallExit

  /** What the primitives demand of their callers, and that the pointers passed
      are valid.  tid_lock is private to thread.c.  A waiter's stack semaphore
      and a page obtained from palloc are objects not in use. */
  predicate MayCall(st: State, call: Call) {
    match call
    case CallDown(n) => User(n) in st.semas
    case CallTryDown(n) => User(n) in st.semas
    case CallUp(n) => User(n) in st.semas
    case CallAcquire(l) => l in st.holder && l != TID_LOCK && !Holds(st, st.current, l)
    case CallTryAcquire(l) => l in st.holder && l != TID_LOCK && !Holds(st, st.current, l)
    case CallRelease(l) => Holds(st, st.current, l)
    case CallWait(c, serial) =>
      c in st.queue && Holds(st, st.current, c.lock) && OfWaiter(st.current, serial) !in st.semas
    case CallSignal(c) => c in st.queue && Holds(st, st.current, c.lock)
    case CallBroadcast(c) => c in st.queue && Holds(st, st.current, c.lock)
    case CallCreate(child) => child !in st.status
    case CallYield => true
    case CallExit => true
  }

  /** The first step of a call. */
  function Begin(st: State, call: Call): Outcome {
    match call
    case CallDown(n) => Ok(SetTodo(st, [Down(User(n))]))
    case CallTryDown(n) => SemaTryDown(st, User(n), [])
    case CallUp(n) => Ok(SetTodo(st, [Up(User(n))]))
    case CallAcquire(l) => Ok(SetTodo(st, [Down(OfLock(l))]))
    case CallTryAcquire(l) => SemaTryDown(st, OfLock(l), [SetHolder(l)])
    case CallRelease(l) => Ok(SetTodo(st, [Release(l)]))
    case CallWait(c, serial) =>
      if c !in st.queue then Panic
      else
        var w := OfWaiter(st.current, serial);
        Ok(SetTodo(st.(semas := st.semas[w := Sema(0, [])], queue := st.queue[c := st.queue[c] + [w]]),
                   [Release(c.lock), Down(w), Down(OfLock(c.lock))]))
    case CallSignal(c) => PopWaiter(st, c, [])
    case CallBroadcast(c) => Ok(SetTodo(st, [Broadcast(c)]))
    case CallCreate(child) =>
      Ok(SetTodo(st.(status := st.status[child := Blocked], todo := st.todo[child := []], tid := st.tid[child := 0]),
                 [Down(OfLock(TID_LOCK)), ReadTid(child), Release(TID_LOCK), Unblock(child)]))
    case CallYield => ThreadYield(st)
    case CallExit => ThreadExit(st)
  }

  datatype Event =
    | Continue               // the running thread's next step inside its call
    | Start(call: Call)      // the running thread makes a new call
    | Tick                   // the timer interrupt
    | IntrUp(n: nat)         // an interrupt handler's sema_up
    | IntrTryDown(n: nat)    // an interrupt handler's sema_try_down

  /** Interrupts are off for a thread that schedule() has just brought back
      inside sema_down, and on everywhere else between two steps. */
  predicate InterruptsOn(st: State) {
    st.current in st.todo && (st.todo[st.current] != [] ==> !st.todo[st.current][0].Asleep?)
  }

  predicate Enabled(st: State, ev: Event) {
    st.current in st.todo &&
    match ev
    case Continue => st.todo[st.current] != []
    case Start(call) => st.todo[st.current] == [] && MayCall(st, call)
    case Tick => InterruptsOn(st)
    case IntrUp(n) => InterruptsOn(st) && User(n) in st.semas
    case IntrTryDown(n) => InterruptsOn(st) && User(n) in st.semas
  }

  function Step(st: State, ev: Event): Outcome {
    match ev
    case Continue => Exec(st)
    case Start(call) => Begin(st, call)
    case Tick => TimerTick(st)
    case IntrUp(n) => SemaUp(st, User(n))
    case IntrTryDown(n) =>
      if st.current !in st.todo then Panic else SemaTryDown(st, User(n), st.todo[st.current])
  }

  /** The state thread_start() reaches when it enables interrupts: only the
      initial thread and the idle thread exist, the initial thread is about to
      wait for the idle thread, and the program's semaphores, locks and
      condition variables are freshly initialised. */
  ghost predicate Boot(st: State) {
    && st.initial != st.idler
    && st.status == map[st.initial := Running, st.idler := Ready]
    && st.todo == map[st.initial := [Down(IDLE_STARTED)], st.idler := [SetIdle, Up(IDLE_STARTED), IdleBlock]]
    && st.tid == map[st.initial := 1, st.idler := 2]
    && st.nextTid == 3
    && st.ready == [st.idler] && st.destruction == [] && st.current == st.initial && st.idle == None
    && st.ticks < TIME_SLICE
    && IDLE_STARTED in st.semas && TID_LOCK in st.holder
    && (forall s :: s in st.semas ==> st.semas[s].waiters == [] && !s.OfWaiter?)
    && (forall s :: s in st.semas && s.OfLock? ==> s.lock in st.holder && st.semas[s].value == 1)
    && (forall l :: l in st.holder ==> st.holder[l] == None && OfLock(l) in st.semas)
    && (forall c :: c in st.queue ==> st.queue[c] == [] && c.lock in st.holder)
  }

  predicate StepsTo(st: State, ev: Event, st': State) {
    Enabled(st, ev) && Step(st, ev) == Ok(st')
  }

  /** A run: consecutive states, each reached from the one before by an enabled step. */
  ghost predicate IsRun(states: seq<State>, events: seq<Event>) {
    && |states| == |events| + 1
    && forall i {:trigger events[i]} :: 0 <= i < |events| ==> StepsTo(states[i], events[i], states[i + 1])
  }

  /** A run of the whole system, from the state thread_start() leaves. */
  ghost predicate BootRun(states: seq<State>, events: seq<Event>) {
    IsRun(states, events) && Boot(states[0])
  }
}
