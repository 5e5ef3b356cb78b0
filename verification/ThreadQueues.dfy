/** Who leaves destruction_req and the waiters lists, and when. */
module ThreadQueues {
  import opened Basics
  import opened Threads
  import opened ThreadInvariants
  import opened ThreadSteps
  import opened ThreadKept
  import opened ThreadRuns
  import opened ThreadProgress

  // ----- destruction_req -------------------------------------------------------------------------

  /** The step calls do_schedule(). */
  predicate Reaps(st: State, ev: Event) {
    ev == Start(CallYield) || ev == Start(CallExit) || (ev.Tick? && st.ticks + 1 >= TIME_SLICE)
  }

  /** Every thread queued for destruction is freed and dequeued. */
  ghost predicate Reaped(st: State, st': State) {
    forall t :: t in st.destruction ==> t !in st'.status && t !in st'.todo && t !in st'.tid && t !in st'.destruction
  }

  ghost predicate Sweeps(st: State, ev: Event, st': State) {
    if Reaps(st, ev) then Reaped(st, st') else st'.destruction == st.destruction
  }

  lemma ScheduleKeys(st: State)
    requires Schedule(st).Ok?
    ensures var st' := Schedule(st).st;
      && st'.status.Keys == st.status.Keys && st'.todo == st.todo && st'.tid == st.tid
      && (forall t :: t in st'.destruction ==> t in st.destruction || t == st.current)
      && (st.current in st.status && st.status[st.current] != Dying ==> st'.destruction == st.destruction)
  {
  }

  lemma VictimsGone(st: State, t: Page)
    requires t in st.destruction
    ensures var st' := FreeVictims(st); t !in st'.status && t !in st'.todo && t !in st'.tid && st'.destruction == []
  {
  }

  lemma DoScheduleReaps(st: State, status: Status)
    requires DoSchedule(st, status).Ok?
    ensures Reaped(st, DoSchedule(st, status).st)
  {
    var freed := FreeVictims(st);
    var p := freed.(status := freed.status[st.current := status]);
    ScheduleKeys(p);
    forall t | t in st.destruction
      ensures t !in Schedule(p).st.status && t !in Schedule(p).st.destruction
      ensures t !in Schedule(p).st.todo && t !in Schedule(p).st.tid
    {
      VictimsGone(st, t);
    }
  }

  lemma YieldReaps(st: State)
    requires ThreadYield(st).Ok?
    ensures Reaped(st, ThreadYield(st).st)
  {
    DoScheduleReaps(if st.idle != Some(st.current) then st.(ready := st.ready + [st.current]) else st, Ready);
  }

  lemma BlockKeeps(st: State)
    requires ThreadBlock(st).Ok?
    ensures ThreadBlock(st).st.destruction == st.destruction
  {
    ScheduleKeys(st.(status := st.status[st.current := Blocked]));
  }

  lemma DownKeeps(st: State, s: SemaId, rest: seq<Op>)
    requires s in st.semas && SemaDown(st, s, rest).Ok?
    ensures SemaDown(st, s, rest).st.destruction == st.destruction
  {
    if Value(st, s) == 0 {
      assert SemaDown(st, s, rest) == ThreadBlock(Dozing(st, s, rest));
      BlockKeeps(Dozing(st, s, rest));
    }
  }

  lemma PerformKeeps(st: State, op: Op, rest: seq<Op>)
    requires Perform(st, op, rest).Ok?
    ensures Perform(st, op, rest).st.destruction == st.destruction
  {
    match op
    case Down(s) => DownKeeps(st, s, rest);
    case Asleep(s) => DownKeeps(st, s, rest);
    case IdleBlock => BlockKeeps(st);
    case _ =>
  }

  lemma ExecKeeps(st: State)
    requires Exec(st).Ok?
    ensures Exec(st).st.destruction == st.destruction
  {
    PerformKeeps(st, st.todo[st.current][0], st.todo[st.current][1..]);
  }

  lemma BeginSweeps(st: State, call: Call)
    requires Begin(st, call).Ok?
    ensures Sweeps(st, Start(call), Begin(st, call).st)
  {
    BeginIs(st, call);
    if call.CallYield? {
      YieldReaps(st);
    } else if call.CallExit? {
      DoScheduleReaps(st, Dying);
    }
  }

  lemma TickSweeps(st: State)
    requires Lists(st) && TimerTick(st).Ok?
    ensures Sweeps(st, Tick, TimerTick(st).st)
  {
    if st.ticks + 1 >= TIME_SLICE {
      LastTick(st);
      YieldReaps(st);
    } else {
      assert TimerTick(st).st.destruction == st.destruction;
    }
  }

  lemma StepSweeps(st: State, ev: Event, st': State)
    requires Lists(st) && StepsTo(st, ev, st')
    ensures Sweeps(st, ev, st')
  {
    StepIs(st, ev);
    match ev
    case Continue => ExecKeeps(st);
    case Start(call) => BeginSweeps(st, call);
    case Tick => TickSweeps(st);
    case IntrUp(n) =>
    case IntrTryDown(n) =>
  }

  /** The next call of do_schedule() frees every thread queued for destruction. */
  lemma QueuedIsFreed(states: seq<State>, events: seq<Event>, i: nat, t: Page)
    requires BootRun(states, events) && i < |events| && t in states[i].destruction && Reaps(states[i], events[i])
    ensures t !in states[i + 1].status && t !in states[i + 1].todo && t !in states[i + 1].tid && t !in states[i + 1].destruction
  {
    RunInv(states, events, i);
    assert StepsTo(states[i], events[i], states[i + 1]);
    StepSweeps(states[i], events[i], states[i + 1]);
  }

  /** Until then it stays queued. */
  lemma {:induction false} StaysQueued(states: seq<State>, events: seq<Event>, a: nat, b: nat, t: Page)
    requires BootRun(states, events) && a <= b < |states| && t in states[a].destruction
    requires forall i {:trigger events[i]} :: a <= i < b ==> !Reaps(states[i], events[i])
    ensures t in states[b].destruction
  {
    if a < b {
      StaysQueued(states, events, a, b - 1, t);
      RunInv(states, events, b - 1);
      assert StepsTo(states[b - 1], events[b - 1], states[b]) && !Reaps(states[b - 1], events[b - 1]);
      StepSweeps(states[b - 1], events[b - 1], states[b]);
    }
  }

  lemma ScheduleDying(st: State, st': State)
    requires Schedule(st) == Ok(st') && st.current in st.status && st.status[st.current] == Dying && st.current != st.initial
    requires NextThreadToRun(st) != Some(st.current)
    ensures st.current in st'.destruction
  {
  }

  /** A thread that calls thread_exit() is queued, unless it is the initial thread. */
  lemma ExitQueues(st: State)
    requires SchedInv(st) && Todo(st, st.current) == [] && ThreadExit(st).Ok? && st.current != st.initial
    ensures st.current in ThreadExit(st).st.destruction
  {
    var freed := FreeVictims(st);
    var p := freed.(status := freed.status[st.current := Dying]);
    assert Todo(st, st.idler) != [] && st.idle != Some(st.current);
    assert st.current !in st.ready;
    ScheduleDying(p, Schedule(p).st);
  }

  /** A thread that calls thread_exit() is freed by the next call of do_schedule(), and not before. */
  lemma ExitIsFreed(states: seq<State>, events: seq<Event>, a: nat, b: nat)
    requires BootRun(states, events) && a < b < |events| && events[a] == Start(CallExit) && states[a].current != states[a].initial
    requires forall i {:trigger events[i]} :: a < i < b ==> !Reaps(states[i], events[i])
    requires Reaps(states[b], events[b])
    ensures var t := states[a].current; t in states[b].status && t !in states[b + 1].status && t !in states[b + 1].destruction
  {
    RunInv(states, events, a);
    assert StepsTo(states[a], events[a], states[a + 1]);
    StepIs(states[a], events[a]);
    BeginIs(states[a], CallExit);
    ExitQueues(states[a]);
    StaysQueued(states, events, a + 1, b, states[a].current);
    RunInv(states, events, b);
    QueuedIsFreed(states, events, b, states[a].current);
  }

  // ----- waiters lists ------------------------------------------------------------------------------

  /** The step puts the running thread to sleep on s. */
  predicate Sleeps(st: State, ev: Event, s: SemaId) {
    ev.Continue? && AtDown(st, s) && Value(st, s) == 0
  }

  /** sema_down enters at the end and sema_up takes from the front. */
  function WaitersAfter(st: State, ev: Event, s: SemaId): seq<Page> {
    var q := WaitersOf(st, s);
    if Raises(st, ev, s) then (if q == [] then [] else q[1..])
    else if Sleeps(st, ev, s) then q + [st.current]
    else q
  }

  /** Whom sema_up(s) takes off the list goes to the end of ready_list. */
  ghost predicate Wakes(st: State, ev: Event, st': State, s: SemaId) {
    && WaitersOf(st', s) == WaitersAfter(st, ev, s)
    && (Raises(st, ev, s) && WaitersOf(st, s) != [] ==> st'.ready == st.ready + [WaitersOf(st, s)[0]])
  }

  lemma DownWakes(st: State, s: SemaId, rest: seq<Op>, r: SemaId)
    requires s in st.semas && SemaDown(st, s, rest).Ok?
    ensures WaitersOf(SemaDown(st, s, rest).st, r) == WaitersOf(st, r) + (if r == s && Value(st, s) == 0 then [st.current] else [])
  {
    if Value(st, s) == 0 {
      assert SemaDown(st, s, rest) == ThreadBlock(Dozing(st, s, rest));
      BlockSwitches(Dozing(st, s, rest));
    }
  }

  lemma UpWakes(st: State, s: SemaId, r: SemaId)
    requires SemaUp(st, s).Ok?
    ensures var q, st' := WaitersOf(st, r), SemaUp(st, s).st;
      && WaitersOf(st', r) == (if r == s && q != [] then q[1..] else q)
      && (r == s && q != [] ==> st'.ready == st.ready + [q[0]])
  {
  }

  lemma PerformWakes(st: State, op: Op, rest: seq<Op>, s: SemaId)
    requires Perform(st, op, rest).Ok? && Todo(st, st.current) == [op] + rest && Known(st, op)
    ensures Wakes(st, Continue, Perform(st, op, rest).st, s)
  {
    match op
    case Down(r) =>
      DownWakes(st, r, rest, s);
      assert Perform(st, op, rest) == SemaDown(st, r, rest);
    case Asleep(r) =>
      DownWakes(st, r, rest, s);
      assert Perform(st, op, rest) == SemaDown(st, r, rest);
    case Up(r) =>
      UpWakes(SetTodo(st, rest), r, s);
      assert Perform(st, op, rest) == SemaUp(SetTodo(st, rest), r);
    case IdleBlock => BlockSwitches(st);
    case _ =>
  }

  lemma ExecWakes(st: State, s: SemaId)
    requires Exec(st).Ok? && References(st) && Todo(st, st.current) != []
    ensures Wakes(st, Continue, Exec(st).st, s)
  {
    var ops := Todo(st, st.current);
    assert ops == [ops[0]] + ops[1..];
    HeadKnown(st);
    ExecPerforms(st);
    PerformWakes(st, ops[0], ops[1..], s);
  }

  lemma BeginWakes(st: State, call: Call, s: SemaId)
    requires Begin(st, call).Ok? && Lists(st) && MayCall(st, call)
    ensures WaitersOf(Begin(st, call).st, s) == WaitersOf(st, s)
  {
    BeginIs(st, call);
    match call
    case CallYield => YieldSwitches(st);
    case CallExit => DoScheduleSwitches(st, Dying);
    case _ =>
  }

  lemma StepWakes(st: State, ev: Event, st': State, s: SemaId)
    requires Lists(st) && References(st) && StepsTo(st, ev, st')
    ensures Wakes(st, ev, st', s)
  {
    StepIs(st, ev);
    match ev
    case Continue => ExecWakes(st, s);
    case Start(call) => BeginWakes(st, call, s);
    case Tick => TickMoves(st);
    case IntrUp(n) => UpWakes(st, User(n), s);
    case IntrTryDown(n) =>
  }

  lemma RunWakes(states: seq<State>, events: seq<Event>, i: nat, s: SemaId)
    requires BootRun(states, events) && i < |events|
    ensures Wakes(states[i], events[i], states[i + 1], s)
  {
    RunInv(states, events, i);
    assert StepsTo(states[i], events[i], states[i + 1]);
    StepWakes(states[i], events[i], states[i + 1], s);
  }

  ghost predicate WakesAlong(states: seq<State>, events: seq<Event>, s: SemaId) {
    && |states| == |events| + 1
    && (forall i {:trigger events[i]} :: 0 <= i < |events| ==> Wakes(states[i], events[i], states[i + 1], s))
  }

  lemma RunWakesAlong(states: seq<State>, events: seq<Event>, s: SemaId)
    requires BootRun(states, events)
    ensures WakesAlong(states, events, s)
  {
    forall i {:trigger events[i]} | 0 <= i < |events|
      ensures Wakes(states[i], events[i], states[i + 1], s)
    {
      RunWakes(states, events, i, s);
    }
  }

  lemma PlaceAfter(st: State, ev: Event, st': State, s: SemaId, p: nat)
    requires Wakes(st, ev, st', s) && p < |WaitersOf(st, s)|
    ensures Raises(st, ev, s) && p > 0 ==> p - 1 < |WaitersOf(st', s)| && WaitersOf(st', s)[p - 1] == WaitersOf(st, s)[p]
    ensures !Raises(st, ev, s) ==> p < |WaitersOf(st', s)| && WaitersOf(st', s)[p] == WaitersOf(st, s)[p]
  {
  }

  /** A thread moves up one place on a waiters list at every sema_up(), and at no other step. */
  lemma {:induction false} WaitsItsTurn(states: seq<State>, events: seq<Event>, a: nat, b: nat, s: SemaId, k: nat)
    requires WakesAlong(states, events, s) && a <= b <= |events| && k < |WaitersOf(states[a], s)|
    requires Ups(states, events, s, b) - Ups(states, events, s, a) <= k
    ensures 0 <= Ups(states, events, s, b) - Ups(states, events, s, a)
    ensures var p := k - (Ups(states, events, s, b) - Ups(states, events, s, a));
      p < |WaitersOf(states[b], s)| && WaitersOf(states[b], s)[p] == WaitersOf(states[a], s)[k]
  {
    if a < b {
      WaitsItsTurn(states, events, a, b - 1, s, k);
      assert Wakes(states[b - 1], events[b - 1], states[b], s);
      PlaceAfter(states[b - 1], events[b - 1], states[b], s, k - (Ups(states, events, s, b - 1) - Ups(states, events, s, a)));
    }
  }

  /** The thread at position k of a waiters list is the one that the (k+1)-th sema_up() from there makes
      ready, at the end of ready_list. */
  lemma WokenInOrder(states: seq<State>, events: seq<Event>, a: nat, b: nat, s: SemaId, k: nat)
    requires BootRun(states, events) && a <= b < |events| && k < |WaitersOf(states[a], s)|
    requires Ups(states, events, s, b) - Ups(states, events, s, a) == k && Raises(states[b], events[b], s)
    ensures states[b + 1].ready == states[b].ready + [WaitersOf(states[a], s)[k]]
  {
    RunWakesAlong(states, events, s);
    WokenAlong(states, events, a, b, s, k);
  }

  lemma WokenAlong(states: seq<State>, events: seq<Event>, a: nat, b: nat, s: SemaId, k: nat)
    requires WakesAlong(states, events, s) && a <= b < |events| && k < |WaitersOf(states[a], s)|
    requires Ups(states, events, s, b) - Ups(states, events, s, a) == k && Raises(states[b], events[b], s)
    ensures states[b + 1].ready == states[b].ready + [WaitersOf(states[a], s)[k]]
  {
    WaitsItsTurn(states, events, a, b, s, k);
    assert Wakes(states[b], events[b], states[b + 1], s);
  }
}
