/** Round-robin order, freed pages, and semaphore values: what single steps add up to over a run. */
module ThreadProgress {
  import opened Basics
  import opened Threads
  import opened ThreadInvariants
  import opened ThreadKept
  import opened ThreadRuns

  // ----- which steps switch, raise and lower ------------------------------------------------------

  /** The step calls schedule(). */
  predicate Schedules(st: State, ev: Event) {
    match ev
    case Continue =>
      Todo(st, st.current) != [] &&
      (match Todo(st, st.current)[0]
       case Down(s) => Value(st, s) == 0
       case Asleep(s) => Value(st, s) == 0
       case IdleBlock => true
       case _ => false)
    case Start(call) => call.CallYield? || call.CallExit?
    case Tick => st.ticks + 1 >= TIME_SLICE
    case _ => false
  }

  /** ready_list at that call. */
  function Lineup(st: State, ev: Event): seq<Page> {
    if (ev.Tick? || ev == Start(CallYield)) && st.idle != Some(st.current) then st.ready + [st.current] else st.ready
  }

  /** The step executes sema_up(s). */
  predicate Raises(st: State, ev: Event, s: SemaId) {
    (ev.Continue? && HeadIs(st, st.current, Up(s))) || (ev.IntrUp? && s == User(ev.n))
  }

  /** The step completes a sema_down(s) or a successful sema_try_down(s). */
  predicate Lowers(st: State, ev: Event, s: SemaId) {
    Value(st, s) > 0 &&
    (|| (ev.Continue? && AtDown(st, s))
     || (ev.Start? && ev.call.CallTryDown? && s == User(ev.call.n))
     || (ev.Start? && ev.call.CallTryAcquire? && s == OfLock(ev.call.l))
     || (ev.IntrTryDown? && s == User(ev.n)))
  }

  // ----- what one step does ---------------------------------------------------------------------------

  /** No switch: the running thread stays, and ready_list only grows at its end. */
  ghost predicate Stays(st: State, st': State, ticks: nat) {
    && st.ready <= st'.ready && st'.current == st.current && st'.ticks == st.ticks + ticks
    && st.status.Keys <= st'.status.Keys && st'.destruction == st.destruction
  }

  /** A switch: the first of the line-up runs, and a new time slice begins. */
  ghost predicate Switches(st: State, st': State, line: seq<Page>) {
    && (line != [] ==> st'.current == line[0] && st'.ready == line[1..])
    && (line == [] ==> st'.ready == [] && st.idle == Some(st'.current))
    && st'.ticks == 0
  }

  /** Every page the step frees is that of a thread queued for destruction. */
  ghost predicate FreesOnly(st: State, st': State) {
    forall t :: t in st.status && t !in st'.status ==> t in st.destruction && t !in st'.destruction
  }

  lemma ScheduleSwitches(st: State)
    requires Schedule(st).Ok?
    ensures Switches(st, Schedule(st).st, st.ready) && Schedule(st).st.status.Keys == st.status.Keys
    ensures Schedule(st).st.semas == st.semas
  {
  }

  lemma BlockSwitches(st: State)
    requires ThreadBlock(st).Ok?
    ensures Switches(st, ThreadBlock(st).st, st.ready) && FreesOnly(st, ThreadBlock(st).st)
    ensures ThreadBlock(st).st.semas == st.semas
  {
    ScheduleSwitches(st.(status := st.status[st.current := Blocked]));
  }

  lemma DoScheduleSwitches(st: State, status: Status)
    requires DoSchedule(st, status).Ok? && DeadOk(st.status, st.destruction, st.initial)
    ensures Switches(st, DoSchedule(st, status).st, st.ready) && FreesOnly(st, DoSchedule(st, status).st)
    ensures DoSchedule(st, status).st.semas == st.semas
  {
    var freed := FreeVictims(st);
    var p := freed.(status := freed.status[st.current := status]);
    ScheduleSwitches(p);
    var st' := Schedule(p).st;
    assert st'.status.Keys == p.status.Keys;
    forall t | t in st.status && t !in st'.status
      ensures t in st.destruction && t !in st'.destruction
    {
      assert t in st.destruction;
      assert t != st.current;
      assert forall u :: u in st'.destruction ==> u == st.current;
    }
  }

  lemma YieldSwitches(st: State)
    requires ThreadYield(st).Ok? && DeadOk(st.status, st.destruction, st.initial)
    ensures Switches(st, ThreadYield(st).st, Lineup(st, Tick)) && FreesOnly(st, ThreadYield(st).st)
    ensures ThreadYield(st).st.semas == st.semas
  {
    DoScheduleSwitches(st.(ready := Lineup(st, Tick)), Ready);
  }

  ghost predicate Moves(st: State, ev: Event, st': State) {
    && (if Schedules(st, ev) then Switches(st, st', Lineup(st, ev)) else Stays(st, st', if ev.Tick? then 1 else 0))
    && FreesOnly(st, st')
  }

  /** The value of s after the step: one more for a sema_up, one less for a sema_down that returns. */
  function ValueAfter(st: State, ev: Event, s: SemaId): int {
    Value(st, s) + (if Raises(st, ev, s) then 1 else 0) - (if Lowers(st, ev, s) then 1 else 0)
  }

  lemma DownMoves(st: State, s: SemaId, rest: seq<Op>)
    requires s in st.semas && SemaDown(st, s, rest).Ok?
    ensures var st' := SemaDown(st, s, rest).st;
      && (if Value(st, s) == 0 then Switches(st, st', st.ready) else Stays(st, st', 0)) && FreesOnly(st, st')
      && (forall r :: Value(st', r) == Value(st, r) - (if r == s && Value(st, s) > 0 then 1 else 0))
  {
    if Value(st, s) == 0 {
      BlockSwitches(Dozing(st, s, rest));
      assert SemaDown(st, s, rest) == ThreadBlock(Dozing(st, s, rest));
    }
  }

  lemma UpMoves(st: State, s: SemaId)
    requires SemaUp(st, s).Ok?
    ensures Stays(st, SemaUp(st, s).st, 0) && FreesOnly(st, SemaUp(st, s).st)
    ensures forall r :: Value(SemaUp(st, s).st, r) == Value(st, r) + (if r == s then 1 else 0)
  {
  }

  lemma TryDownMoves(st: State, s: SemaId, taken: seq<Op>)
    requires SemaTryDown(st, s, taken).Ok?
    ensures Stays(st, SemaTryDown(st, s, taken).st, 0) && FreesOnly(st, SemaTryDown(st, s, taken).st)
    ensures forall r :: Value(SemaTryDown(st, s, taken).st, r) == Value(st, r) - (if r == s && Value(st, s) > 0 then 1 else 0)
  {
  }

  lemma PopMoves(st: State, c: CondId, rest: seq<Op>)
    requires PopWaiter(st, c, rest).Ok?
    ensures Stays(st, PopWaiter(st, c, rest).st, 0) && FreesOnly(st, PopWaiter(st, c, rest).st)
    ensures PopWaiter(st, c, rest).st.semas == st.semas
  {
  }

  lemma PerformMoves(st: State, op: Op, rest: seq<Op>)
    requires Perform(st, op, rest).Ok? && Todo(st, st.current) == [op] + rest && Known(st, op)
    ensures Moves(st, Continue, Perform(st, op, rest).st)
    ensures forall s :: Value(Perform(st, op, rest).st, s) == ValueAfter(st, Continue, s)
  {
    match op
    case Down(s) =>
      DownMoves(st, s, rest);
      assert Perform(st, op, rest) == SemaDown(st, s, rest);
    case Asleep(s) =>
      DownMoves(st, s, rest);
      assert Perform(st, op, rest) == SemaDown(st, s, rest);
    case Up(s) =>
      UpMoves(SetTodo(st, rest), s);
      assert Perform(st, op, rest) == SemaUp(SetTodo(st, rest), s);
    case Broadcast(c) =>
      PopMoves(st, c, [Broadcast(c)]);
      assert Perform(st, op, rest) == PopWaiter(st, c, [Broadcast(c)]);
    case IdleBlock =>
      BlockSwitches(st);
      assert Perform(st, op, rest) == ThreadBlock(st);
    case _ =>
  }

  lemma BeginMoves(st: State, call: Call)
    requires Begin(st, call).Ok? && Lists(st) && MayCall(st, call) && Todo(st, st.current) == []
    ensures Moves(st, Start(call), Begin(st, call).st)
    ensures forall s :: Value(Begin(st, call).st, s) == ValueAfter(st, Start(call), s)
  {
    BeginIs(st, call);
    match call
    case CallTryDown(n) => TryDownMoves(st, User(n), []);
    case CallTryAcquire(l) => TryDownMoves(st, OfLock(l), [SetHolder(l)]);
    case CallSignal(c) => PopMoves(st, c, []);
    case CallYield => YieldSwitches(st);
    case CallExit => DoScheduleSwitches(st, Dying);
    case _ =>
  }

  lemma TickMoves(st: State)
    requires TimerTick(st).Ok? && Lists(st)
    ensures Moves(st, Tick, TimerTick(st).st) && TimerTick(st).st.semas == st.semas
  {
    if st.ticks + 1 >= TIME_SLICE {
      YieldSwitches(st.(ticks := st.ticks + 1));
      assert TimerTick(st) == ThreadYield(st.(ticks := st.ticks + 1));
    } else {
      assert TimerTick(st) == Ok(st.(ticks := st.ticks + 1));
    }
  }

  lemma ExecMoves(st: State)
    requires Exec(st).Ok? && References(st) && Todo(st, st.current) != []
    ensures Moves(st, Continue, Exec(st).st)
    ensures forall s :: Value(Exec(st).st, s) == ValueAfter(st, Continue, s)
  {
    var ops := Todo(st, st.current);
    assert ops == [ops[0]] + ops[1..];
    HeadKnown(st);
    ExecPerforms(st);
    PerformMoves(st, ops[0], ops[1..]);
  }

  lemma StepMoves(st: State, ev: Event, st': State)
    requires Lists(st) && References(st) && StepsTo(st, ev, st')
    ensures Moves(st, ev, st')
    ensures forall s :: Value(st', s) == ValueAfter(st, ev, s)
  {
    StepIs(st, ev);
    match ev
    case Continue => ExecMoves(st);
    case Start(call) => BeginMoves(st, call);
    case Tick => TickMoves(st);
    case IntrUp(n) => UpMoves(st, User(n));
    case IntrTryDown(n) => TryDownMoves(st, User(n), st.todo[st.current]);
  }

  // ----- sums over a run ----------------------------------------------------------------------------------

  lemma RunMoves(states: seq<State>, events: seq<Event>, i: nat)
    requires BootRun(states, events) && i < |events|
    ensures Moves(states[i], events[i], states[i + 1])
    ensures forall s :: Value(states[i + 1], s) == ValueAfter(states[i], events[i], s)
    ensures states[i].ticks < TIME_SLICE && DeadOk(states[i].status, states[i].destruction, states[i].initial)
    ensures RunningOk(states[i].status, states[i].current)
  {
    RunInv(states, events, i);
    assert StepsTo(states[i], events[i], states[i + 1]);
    StepMoves(states[i], events[i], states[i + 1]);
  }

  /** What a run does to ready_list, to the ticks and to the semaphores. */
  ghost predicate Evolved(st: State, ev: Event, st': State) {
    && Moves(st, ev, st') && st.ticks < TIME_SLICE
    && (forall s :: Value(st', s) == ValueAfter(st, ev, s))
  }

  ghost predicate Evolves(states: seq<State>, events: seq<Event>) {
    && |states| == |events| + 1
    && (forall i {:trigger events[i]} :: 0 <= i < |events| ==> Evolved(states[i], events[i], states[i + 1]))
  }

  lemma RunEvolves(states: seq<State>, events: seq<Event>)
    requires BootRun(states, events)
    ensures Evolves(states, events)
  {
    forall i {:trigger events[i]} | 0 <= i < |events|
      ensures Evolved(states[i], events[i], states[i + 1])
    {
      RunMoves(states, events, i);
    }
  }

  /** How many of the steps a, ..., b - 1 call schedule(). */
  function ScheduleCalls(states: seq<State>, events: seq<Event>, a: nat, b: nat): nat
    requires a <= b <= |events| < |states|
  {
    if a == b then 0
    else ScheduleCalls(states, events, a, b - 1) + (if Schedules(states[b - 1], events[b - 1]) then 1 else 0)
  }

  /** How many of the steps a, ..., b - 1 are timer ticks. */
  function Ticks(events: seq<Event>, a: nat, b: nat): nat
    requires a <= b <= |events|
  {
    if a == b then 0 else Ticks(events, a, b - 1) + (if events[b - 1].Tick? then 1 else 0)
  }

  /** How many of the first n steps execute sema_up(s). */
  function Ups(states: seq<State>, events: seq<Event>, s: SemaId, n: nat): nat
    requires n <= |events| < |states|
  {
    if n == 0 then 0
    else Ups(states, events, s, n - 1) + (if Raises(states[n - 1], events[n - 1], s) then 1 else 0)
  }

  /** How many of the first n steps complete a down of s. */
  function Downs(states: seq<State>, events: seq<Event>, s: SemaId, n: nat): nat
    requires n <= |events| < |states|
  {
    if n == 0 then 0
    else Downs(states, events, s, n - 1) + (if Lowers(states[n - 1], events[n - 1], s) then 1 else 0)
  }

  lemma AccountStep(states: seq<State>, events: seq<Event>, s: SemaId, n: nat)
    requires Evolves(states, events) && 0 < n <= |events|
    ensures Value(states[n], s) - Value(states[n - 1], s) ==
      Ups(states, events, s, n) - Ups(states, events, s, n - 1) - Downs(states, events, s, n) + Downs(states, events, s, n - 1)
  {
    assert Evolved(states[n - 1], events[n - 1], states[n]);
  }

  lemma {:induction false} Account(states: seq<State>, events: seq<Event>, s: SemaId, n: nat)
    requires Evolves(states, events) && n <= |events|
    ensures Value(states[n], s) == Value(states[0], s) + Ups(states, events, s, n) - Downs(states, events, s, n)
  {
    if n > 0 {
      Account(states, events, s, n - 1);
      AccountStep(states, events, s, n);
    }
  }

  /** In every run mixing sema_down, sema_try_down, sema_up and preemption, the value of
      a semaphore is its initial value plus the ups minus the completed downs. */
  lemma SemaphoreAccount(states: seq<State>, events: seq<Event>, s: SemaId, n: nat)
    requires BootRun(states, events) && n <= |events|
    ensures Value(states[n], s) == Value(states[0], s) + Ups(states, events, s, n) - Downs(states, events, s, n)
  {
    RunEvolves(states, events);
    Account(states, events, s, n);
  }

  /** While threads wait on s its value does not exceed the number of threads that were
      woken and have not run since; with none of those the value is zero. */
  lemma NoLostWakeups(states: seq<State>, events: seq<Event>, i: nat, s: SemaId)
    requires BootRun(states, events) && i < |states| && WaitersOf(states[i], s) != []
    ensures Value(states[i], s) <= |Woken(states[i], s)|
    ensures Woken(states[i], s) == {} ==> Value(states[i], s) == 0
  {
    RunInv(states, events, i);
  }

  // ----- round robin ----------------------------------------------------------------------------------------

  lemma PlaceMoves(st: State, ev: Event, st': State, p: nat)
    requires Moves(st, ev, st') && p < |st.ready|
    ensures !Schedules(st, ev) ==> p < |st'.ready| && st'.ready[p] == st.ready[p]
    ensures Schedules(st, ev) && p > 0 ==> p - 1 < |st'.ready| && st'.ready[p - 1] == st.ready[p]
    ensures Schedules(st, ev) && p == 0 ==> st'.current == st.ready[p]
  {
    assert st.ready <= Lineup(st, ev);
  }

  /** What the step to state b does to the thread at position p. */
  lemma PlaceStep(states: seq<State>, events: seq<Event>, a: nat, b: nat, p: nat)
    requires Evolves(states, events) && a < b <= |events| && p < |states[b - 1].ready|
    ensures var calls := ScheduleCalls(states, events, a, b) - ScheduleCalls(states, events, a, b - 1);
      && (calls == 0 || calls == 1)
      && (calls == 0 ==> p < |states[b].ready| && states[b].ready[p] == states[b - 1].ready[p])
      && (calls == 1 && p > 0 ==> p - 1 < |states[b].ready| && states[b].ready[p - 1] == states[b - 1].ready[p])
      && (calls == 1 && p == 0 ==> states[b].current == states[b - 1].ready[p])
  {
    assert Evolved(states[b - 1], events[b - 1], states[b]);
    PlaceMoves(states[b - 1], events[b - 1], states[b], p);
  }

  /** Until it is its turn, a thread moves up one place at every call of schedule(). */
  lemma {:induction false} MovesUp(states: seq<State>, events: seq<Event>, a: nat, b: nat, k: nat, t: Page)
    requires Evolves(states, events) && a <= b <= |events|
    requires k < |states[a].ready| && states[a].ready[k] == t
    requires ScheduleCalls(states, events, a, b) <= k
    ensures var p := k - ScheduleCalls(states, events, a, b); p < |states[b].ready| && states[b].ready[p] == t
  {
    if a < b {
      MovesUp(states, events, a, b - 1, k, t);
      PlaceStep(states, events, a, b, k - ScheduleCalls(states, events, a, b - 1));
    }
  }

  lemma Turn(states: seq<State>, events: seq<Event>, a: nat, b: nat, k: nat, t: Page)
    requires Evolves(states, events) && a < b <= |events|
    requires k < |states[a].ready| && states[a].ready[k] == t
    requires ScheduleCalls(states, events, a, b - 1) == k && ScheduleCalls(states, events, a, b) == k + 1
    ensures states[b].current == t
  {
    MovesUp(states, events, a, b - 1, k, t);
    PlaceStep(states, events, a, b, 0);
  }

  /** A thread at position k of ready_list is dispatched by the (k+1)-th call of schedule(). */
  lemma RoundRobin(states: seq<State>, events: seq<Event>, a: nat, b: nat, k: nat, t: Page)
    requires BootRun(states, events) && a < b <= |events|
    requires k < |states[a].ready| && states[a].ready[k] == t
    requires ScheduleCalls(states, events, a, b - 1) == k && ScheduleCalls(states, events, a, b) == k + 1
    ensures states[b].current == t
  {
    RunEvolves(states, events);
    Turn(states, events, a, b, k, t);
  }

  /** At most TIME_SLICE delivered ticks separate consecutive calls of schedule(). */
  lemma {:induction false} TicksBound(states: seq<State>, events: seq<Event>, a: nat, b: nat)
    requires Evolves(states, events) && a <= b <= |events|
    ensures Ticks(events, a, b) + states[a].ticks <= TIME_SLICE * ScheduleCalls(states, events, a, b) + states[b].ticks
  {
    if a < b {
      TicksBound(states, events, a, b - 1);
      assert Evolved(states[b - 1], events[b - 1], states[b]);
    }
  }

  /** The step that makes the m-th call of schedule() after state a. */
  lemma {:induction false} FindCall(states: seq<State>, events: seq<Event>, a: nat, b: nat, m: nat) returns (j: nat)
    requires a <= b <= |events| < |states| && 0 < m <= ScheduleCalls(states, events, a, b)
    ensures a < j <= b && ScheduleCalls(states, events, a, j) == m && ScheduleCalls(states, events, a, j - 1) == m - 1
  {
    if ScheduleCalls(states, events, a, b - 1) >= m {
      j := FindCall(states, events, a, b - 1, m);
    } else {
      j := b;
    }
  }

  /** Bounded waiting: a thread at position k of ready_list runs within
      (k + 1) * TIME_SLICE timer ticks. */
  lemma BoundedWaiting(states: seq<State>, events: seq<Event>, a: nat, b: nat, k: nat, t: Page)
    requires BootRun(states, events) && a <= b <= |events|
    requires k < |states[a].ready| && states[a].ready[k] == t
    requires Ticks(events, a, b) >= (k + 1) * TIME_SLICE
    ensures exists j :: a < j <= b && states[j].current == t
  {
    RunEvolves(states, events);
    TicksBound(states, events, a, b);
    RunInv(states, events, b);
    var j := FindCall(states, events, a, b, k + 1);
    Turn(states, events, a, j, k, t);
  }

  // ----- freed pages ----------------------------------------------------------------------------------------

  /** Every page freed as a thread belongs to a dying thread that is not on the CPU,
      was queued once, and is queued no more: it is freed once. */
  lemma FreedOnce(states: seq<State>, events: seq<Event>, i: nat, t: Page)
    requires BootRun(states, events) && i < |events|
    requires t in states[i].status && t !in states[i + 1].status
    ensures states[i].status[t] == Dying && t != states[i].current && t != states[i + 1].current
    ensures t in states[i].destruction && NoDup(states[i].destruction) && t !in states[i + 1].destruction
  {
    RunMoves(states, events, i);
    RunInv(states, events, i + 1);
  }
}
