/** Every step keeps every invariant, and no kernel assertion fails. */
module ThreadSteps {
  import opened Basics
  import opened Threads
  import opened ThreadInvariants

  // ----- how a step may change the state ---------------------------------------------

  /** The running thread of st now has ops to do; nobody else's plans changed. */
  ghost predicate Did(st: State, st': State, ops: seq<Op>) {
    && Todo(st', st.current) == ops
    && (forall t :: t != st.current ==> Todo(st', t) == Todo(st, t))
  }

  ghost predicate SameSemas(st: State, st': State) {
    && (forall s :: Value(st', s) == Value(st, s))
    && (forall s :: WaitersOf(st', s) == WaitersOf(st, s))
  }

  ghost predicate OneSema(st: State, st': State, s: SemaId, value: nat, waiters: seq<Page>) {
    && Value(st', s) == value && WaitersOf(st', s) == waiters
    && (forall r :: r != s ==> Value(st', r) == Value(st, r))
    && (forall r :: r != s ==> WaitersOf(st', r) == WaitersOf(st, r))
  }

  /** Nobody but the running thread and the idle thread may have been blocked or unblocked. */
  ghost predicate SameBlocked(st: State, st': State) {
    && st'.idler == st.idler
    && (forall t :: t != st.current && t != st.idler ==> (IsBlocked(st', t) <==> IsBlocked(st, t)))
  }

  // ----- the scheduler -----------------------------------------------------------------

  lemma RetireReady(status: map<Page, Status>, ready: seq<Page>, idle: Option<Page>, t: Page, to: Status)
    requires ReadyOk(status, ready, idle) && t in status && status[t] != Ready && to != Ready
    ensures ReadyOk(status[t := to], ready, idle)
  {
  }

  lemma EnqueueReady(status: map<Page, Status>, ready: seq<Page>, idle: Option<Page>, t: Page)
    requires ReadyOk(status, ready, idle) && t in status && status[t] != Ready
    ensures idle != Some(t) ==> ReadyOk(status[t := Ready], ready + [t], idle)
    ensures idle == Some(t) ==> ReadyOk(status[t := Ready], ready, idle)
  {
  }

  lemma DispatchReady(status: map<Page, Status>, ready: seq<Page>, idle: Option<Page>)
    requires ReadyOk(status, ready, idle)
    ensures ready == [] && idle != None ==> ReadyOk(status[idle.value := Running], [], idle)
    ensures ready != [] ==> ReadyOk(status[ready[0] := Running], ready[1..], idle)
  {
    if ready != [] {
      assert ready == [ready[0]] + ready[1..];
      assert forall t :: t in ready[1..] ==> t in ready;
    }
  }

  lemma KeepDead(status: map<Page, Status>, destruction: seq<Page>, initial: Page, t: Page, to: Status)
    requires DeadOk(status, destruction, initial) && t in status && status[t] != Dying && to != Dying
    ensures DeadOk(status[t := to], destruction, initial)
  {
  }

  lemma AddDead(status: map<Page, Status>, destruction: seq<Page>, initial: Page, t: Page)
    requires DeadOk(status, destruction, initial) && t in status && status[t] != Dying
    ensures t != initial ==> DeadOk(status[t := Dying], destruction + [t], initial)
    ensures t == initial ==> DeadOk(status[t := Dying], destruction, initial)
  {
  }

  /** The threads schedule() leaves in destruction_req when it switches away from st.current. */
  function Condemned(st: State): seq<Page> {
    if st.current in st.status && st.status[st.current] == Dying && st.current != st.initial
    then st.destruction + [st.current] else st.destruction
  }

  /** The state right before schedule(): the lists are in order, and nobody runs. */
  ghost predicate Poised(st: State) {
    && st.current in st.status
    && (forall t :: t in st.status ==> st.status[t] != Running)
    && ReadyOk(st.status, st.ready, st.idle)
    && DeadOk(st.status, Condemned(st), st.initial)
    && st.status.Keys == st.todo.Keys == st.tid.Keys
    && (forall t :: t in st.status && st.status[t] == Dying ==> Todo(st, t) == [])
  }

  /** next is the thread schedule() picks. */
  ghost predicate Picks(st: State, next: Page) {
    && next in st.status && st.status[next] != Dying
    && if st.ready == [] then st.idle == Some(next) else st.ready[0] == next
  }

  ghost predicate SameRest(st: State, st': State) {
    && st'.todo == st.todo && st'.tid == st.tid && st'.nextTid == st.nextTid && st'.initial == st.initial
    && st'.idle == st.idle && st'.idler == st.idler
    && st'.semas == st.semas && st'.holder == st.holder && st'.queue == st.queue
  }

  ghost predicate Dispatched(st: State, st': State, next: Page) {
    && st'.status == st.status[next := Running]
    && st'.ready == (if st.ready == [] then [] else st.ready[1..])
    && st'.current == next && st'.ticks == 0 && st'.destruction == Condemned(st)
    && SameRest(st, st')
  }

  lemma ScheduleDispatches(st: State, next: Page)
    requires st.current in st.status && st.status[st.current] != Running && Picks(st, next)
    ensures Schedule(st).Ok? && Dispatched(st, Schedule(st).st, next)
  {
  }

  lemma DispatchedLists(st: State, st': State, next: Page)
    requires Poised(st) && Picks(st, next) && Dispatched(st, st', next)
    ensures Lists(st')
  {
    DispatchReady(st.status, st.ready, st.idle);
    KeepDead(st.status, Condemned(st), st.initial, next, Running);
  }

  /** Idle() is about the idle thread and about where plans say so. */
  lemma MovesIdle(st: State, st': State)
    requires Idle(st) && SameRest(st, st') && st.idler in st'.status
    requires st.idle == None ==> st'.current == st.idler || st.idler in st'.ready
    ensures Idle(st')
  {
    assert forall t :: Todo(st', t) == Todo(st, t);
  }

  lemma DispatchedIdle(st: State, st': State, next: Page)
    requires Idle(st) && Dispatched(st, st', next) && Picks(st, next)
    requires st.idle == None ==> st.idler in st.ready
    ensures Idle(st')
  {
    if st.ready != [] { assert st.ready == [st.ready[0]] + st.ready[1..]; }
    MovesIdle(st, st');
  }

  /** next is ready, or the idle thread. */
  lemma PickedIsReady(st: State) returns (next: Page)
    requires Idle(st) && ReadyOk(st.status, st.ready, st.idle)
    requires st.idle == None ==> st.idler in st.ready
    requires st.status[st.idler] != Dying
    ensures Picks(st, next) && (next == st.idler || st.status[next] == Ready)
  {
    if st.ready == [] { next := st.idler; } else { next := st.ready[0]; assert next in st.ready; }
  }

  function WithStatus(st: State, to: Status): State {
    st.(status := st.status[st.current := to])
  }

  lemma BlockPoised(st: State)
    requires Lists(st)
    ensures Poised(WithStatus(st, Blocked))
  {
    RetireReady(st.status, st.ready, st.idle, st.current, Blocked);
    KeepDead(st.status, st.destruction, st.initial, st.current, Blocked);
  }

  lemma IdlerAlive(st: State)
    requires Lists(st) && Idle(st)
    ensures st.status[st.idler] != Dying
  {
  }

  lemma BlockDispatches(st: State) returns (next: Page)
    requires Lists(st) && Idle(st) && (st.current == st.idler ==> st.idle != None)
    ensures Poised(WithStatus(st, Blocked)) && Picks(WithStatus(st, Blocked), next)
    ensures next == st.idler || st.status[next] == Ready
    ensures ThreadBlock(st).Ok? && Dispatched(WithStatus(st, Blocked), ThreadBlock(st).st, next)
    ensures Idle(ThreadBlock(st).st)
  {
    var blocked := WithStatus(st, Blocked);
    BlockPoised(st);
    IdlerAlive(st);
    MovesIdle(st, blocked);
    next := PickedIsReady(blocked);
    ScheduleDispatches(blocked, next);
    DispatchedIdle(blocked, ThreadBlock(st).st, next);
  }

  lemma DispatchedBlocked(st: State, st': State, next: Page, to: Status)
    requires st.current in st.status && (next == st.idler || (next in st.status && st.status[next] == Ready))
    requires Dispatched(WithStatus(st, to), st', next)
    ensures SameBlocked(st, st') && SameRest(st, st')
    ensures st.current != st.idler ==> (IsBlocked(st', st.current) <==> to == Blocked && st.current != next)
  {
  }

  lemma BlockStep(st: State)
    requires Lists(st) && Idle(st) && (st.current == st.idler ==> st.idle != None)
    ensures ThreadBlock(st).Ok? && Lists(ThreadBlock(st).st) && Idle(ThreadBlock(st).st)
    ensures SameRest(st, ThreadBlock(st).st)
    ensures SameBlocked(st, ThreadBlock(st).st)
    ensures st.current != st.idler ==> IsBlocked(ThreadBlock(st).st, st.current)
  {
    var next := BlockDispatches(st);
    DispatchedLists(WithStatus(st, Blocked), ThreadBlock(st).st, next);
    DispatchedBlocked(st, ThreadBlock(st).st, next, Blocked);
  }

  // ----- do_schedule: freeing, yielding, exiting -----------------------------------------

  lemma FreeKeepsReady(status: map<Page, Status>, ready: seq<Page>, idle: Option<Page>, dead: set<Page>)
    requires ReadyOk(status, ready, idle)
    requires forall t :: t in dead && t in status ==> status[t] == Dying
    ensures ReadyOk(status - dead, ready, idle)
  {
  }

  lemma FreeEmptiesDead(status: map<Page, Status>, destruction: seq<Page>, initial: Page, dead: set<Page>)
    requires DeadOk(status, destruction, initial)
    requires dead == set t | t in destruction
    ensures DeadOk(status - dead, [], initial)
  {
  }

  /** What freeing the victims leaves as it was. */
  ghost predicate Freed(st: State, st': State) {
    && (forall t :: Todo(st', t) == Todo(st, t))
    && (forall t :: IsBlocked(st', t) <==> IsBlocked(st, t))
    && (forall t :: t in st'.tid ==> t in st.tid && st'.tid[t] == st.tid[t])
    && st'.ready == st.ready && st'.current == st.current && st'.ticks == st.ticks
    && st'.nextTid == st.nextTid && st'.initial == st.initial && st'.idle == st.idle && st'.idler == st.idler
    && st'.semas == st.semas && st'.holder == st.holder && st'.queue == st.queue
  }

  lemma FreeIsFreed(st: State)
    requires DeadOk(st.status, st.destruction, st.initial)
    requires forall t :: t in st.status && st.status[t] == Dying ==> Todo(st, t) == []
    ensures Freed(st, FreeVictims(st))
  {
  }

  lemma FreeLists(st: State)
    requires Lists(st)
    ensures Lists(FreeVictims(st)) && Freed(st, FreeVictims(st))
  {
    FreeIsFreed(st);
    var dead := set t | t in st.destruction;
    FreeKeepsReady(st.status, st.ready, st.idle, dead);
    FreeEmptiesDead(st.status, st.destruction, st.initial, dead);
  }

  lemma FreeIdle(st: State)
    requires Lists(st) && Idle(st)
    ensures Idle(FreeVictims(st))
  {
    FreeIsFreed(st);
    IdlerAlive(st);
  }

  /** The running thread, back in ready_list unless it is the idle thread. */
  function Yielding(st: State): State {
    WithStatus(st.(ready := if st.idle != Some(st.current) then st.ready + [st.current] else st.ready), Ready)
  }

  lemma YieldPoised(st: State)
    requires Lists(st)
    ensures Poised(Yielding(st))
  {
    EnqueueReady(st.status, st.ready, st.idle, st.current);
    KeepDead(st.status, st.destruction, st.initial, st.current, Ready);
  }

  lemma ExitPoised(st: State)
    requires Lists(st) && Todo(st, st.current) == []
    ensures Poised(WithStatus(st, Dying))
  {
    RetireReady(st.status, st.ready, st.idle, st.current, Dying);
    AddDead(st.status, st.destruction, st.initial, st.current);
  }

  lemma YieldDispatches(st: State) returns (next: Page)
    requires Lists(st) && Idle(st)
    ensures Poised(Yielding(st)) && Picks(Yielding(st), next)
    ensures next == st.idler || next == st.current || st.status[next] == Ready
    ensures Schedule(Yielding(st)).Ok? && Dispatched(Yielding(st), Schedule(Yielding(st)).st, next)
    ensures Idle(Schedule(Yielding(st)).st)
  {
    YieldPoised(st);
    IdlerAlive(st);
    MovesIdle(st, Yielding(st));
    next := PickedIsReady(Yielding(st));
    ScheduleDispatches(Yielding(st), next);
    DispatchedIdle(Yielding(st), Schedule(Yielding(st)).st, next);
  }

  lemma ExitDispatches(st: State) returns (next: Page)
    requires Lists(st) && Idle(st) && Todo(st, st.current) == []
    ensures Poised(WithStatus(st, Dying)) && Picks(WithStatus(st, Dying), next)
    ensures next == st.idler || st.status[next] == Ready
    ensures Schedule(WithStatus(st, Dying)).Ok? && Dispatched(WithStatus(st, Dying), Schedule(WithStatus(st, Dying)).st, next)
    ensures Idle(Schedule(WithStatus(st, Dying)).st)
  {
    ExitPoised(st);
    IdlerAlive(st);
    MovesIdle(st, WithStatus(st, Dying));
    next := PickedIsReady(WithStatus(st, Dying));
    ScheduleDispatches(WithStatus(st, Dying), next);
    DispatchedIdle(WithStatus(st, Dying), Schedule(WithStatus(st, Dying)).st, next);
  }

  /** No plan and no synchronisation object changed; at most the idle thread was unblocked. */
  ghost predicate Quiet(st: State, st': State) {
    && (forall t :: Todo(st', t) == Todo(st, t))
    && SameBlocked(st, st')
    && (st.current != st.idler ==> !IsBlocked(st', st.current))
    && (forall t :: t in st'.tid ==> t in st.tid && st'.tid[t] == st.tid[t])
    && st'.nextTid == st.nextTid && st'.semas == st.semas && st'.holder == st.holder && st'.queue == st.queue
  }

  lemma DispatchedQuiet(st: State, p: State, st': State, next: Page, to: Status)
    requires st.current in st.status && (next == st.idler || next == st.current || (next in st.status && st.status[next] == Ready))
    requires to != Blocked && p.status == st.status[st.current := to] && SameRest(st, p) && Dispatched(p, st', next)
    ensures Quiet(st, st')
  {
    assert st'.todo == st.todo && st'.tid == st.tid;
  }

  lemma FreedQuiet(st: State, f: State, st': State)
    requires Freed(st, f) && Quiet(f, st')
    ensures Quiet(st, st')
  {
  }

  lemma YieldStep(st: State)
    requires Lists(st) && Idle(st)
    ensures ThreadYield(st).Ok? && Lists(ThreadYield(st).st) && Idle(ThreadYield(st).st) && Quiet(st, ThreadYield(st).st)
  {
    FreeLists(st);
    FreeIdle(st);
    var f := FreeVictims(st);
    var next := YieldDispatches(f);
    assert ThreadYield(st) == Schedule(Yielding(f));
    var st' := Schedule(Yielding(f)).st;
    DispatchedLists(Yielding(f), st', next);
    DispatchedQuiet(f, Yielding(f), st', next, Ready);
    FreedQuiet(st, f, st');
  }

  lemma ExitStep(st: State)
    requires Lists(st) && Idle(st) && Todo(st, st.current) == []
    ensures ThreadExit(st).Ok? && Lists(ThreadExit(st).st) && Idle(ThreadExit(st).st) && Quiet(st, ThreadExit(st).st)
  {
    FreeLists(st);
    FreeIdle(st);
    var f := FreeVictims(st);
    var next := ExitDispatches(f);
    assert ThreadExit(st) == Schedule(WithStatus(f, Dying));
    var st' := Schedule(WithStatus(f, Dying)).st;
    DispatchedLists(WithStatus(f, Dying), st', next);
    DispatchedQuiet(f, WithStatus(f, Dying), st', next, Dying);
    FreedQuiet(st, f, st');
  }

  /** The tick counter makes no difference to a yield, which resets it. */
  lemma YieldTicked(st: State, ticks: nat)
    ensures ThreadYield(st.(ticks := ticks)) == ThreadYield(st)
  {
    var ticked := st.(ticks := ticks);
    assert FreeVictims(ticked) == FreeVictims(st).(ticks := ticks);
  }

  lemma TickedQuiet(st: State, ticks: nat)
    requires Lists(st) && Idle(st) && ticks < TIME_SLICE
    ensures var st' := st.(ticks := ticks); Lists(st') && Idle(st') && Quiet(st, st')
  {
    var st' := st.(ticks := ticks);
    MovesIdle(st, st');
    assert forall t :: Todo(st', t) == Todo(st, t);
  }

  lemma EarlyTick(st: State)
    requires Lists(st) && Idle(st) && st.ticks + 1 < TIME_SLICE
    ensures TimerTick(st) == Ok(st.(ticks := st.ticks + 1))
    ensures Lists(TimerTick(st).st) && Idle(TimerTick(st).st) && Quiet(st, TimerTick(st).st)
  {
    TickedQuiet(st, st.ticks + 1);
  }

  lemma LastTick(st: State)
    requires Lists(st) && st.ticks + 1 >= TIME_SLICE
    ensures TimerTick(st) == ThreadYield(st)
  {
    YieldTicked(st, st.ticks + 1);
  }

  lemma TickStep(st: State)
    requires Lists(st) && Idle(st)
    ensures TimerTick(st).Ok? && Lists(TimerTick(st).st) && Idle(TimerTick(st).st) && Quiet(st, TimerTick(st).st)
  {
    if st.ticks + 1 < TIME_SLICE {
      EarlyTick(st);
    } else {
      LastTick(st);
      YieldStep(st);
    }
  }
}
