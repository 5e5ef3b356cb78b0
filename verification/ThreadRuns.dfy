/** Whole runs of the kernel: no assertion ever fails, and what that means for its users. */
module ThreadRuns {
  import opened Basics
  import opened Threads
  import opened ThreadInvariants
  import opened ThreadSteps
  import opened ThreadPlaces
  import opened ThreadLocks
  import opened ThreadConds
  import opened ThreadKept

  // ----- the steps of a thread inside a call ---------------------------------------------------

  lemma HeadKnown(st: State)
    requires References(st) && Todo(st, st.current) != []
    ensures Known(st, Todo(st, st.current)[0])
  {
    assert Todo(st, st.current)[0] in Todo(st, st.current);
  }

  lemma DownInv(st: State, s: SemaId, rest: seq<Op>)
    requires Inv(st) && AtDown(st, s) && Todo(st, st.current)[1..] == rest && s in st.semas
    ensures SemaDown(st, s, rest).Ok? && Inv(SemaDown(st, s, rest).st)
  {
    if Value(st, s) == 0 {
      SleepsSlept(st, s, rest);
      SleptInv(st, SemaDown(st, s, rest).st, s, rest);
    } else {
      TakesTook(st, s);
      TookInv(st, SemaDown(st, s, rest).st, s, rest);
    }
  }

  /** The ASSERT of lock_acquire, wherever it is called from. */
  lemma AcquirerDoesNotHold(st: State, l: LockId)
    requires Todos(st) && HeadIs(st, st.current, Down(OfLock(l)))
    ensures !Holds(st, st.current, l)
  {
    assert TodoFits(Held(st, st.current), Todo(st, st.current));
  }

  lemma DoneSched(st: State, s: SemaId, rest: seq<Op>)
    requires SchedInv(st) && Todos(st) && Todo(st, st.current) == [Up(s)] + rest
    ensures SchedInv(SetTodo(st, rest))
  {
    var done := SetTodo(st, rest);
    if st.current == st.idler {
      assert Todo(st, st.current) == WAKE_PLAN;
      assert rest == ([Up(s)] + rest)[1..] == IDLE_PLAN;
      IdlerDone(st);
    } else {
      assert TodoFits(Held(st, st.current), Todo(st, st.current));
      UpFits(Held(st, st.current), s, rest);
      FitIsFresh(Held(st, st.current), rest);
      assert [] + rest == rest && ([Up(s)] + rest)[1..] == rest;
      assert SameSched(st, done) && Advances(st, done, [], rest);
      AdvanceSched(st, done, [], rest);
    }
  }

  lemma UpInv(st: State, s: SemaId, rest: seq<Op>)
    requires Inv(st) && Todo(st, st.current) == [Up(s)] + rest && s in st.semas
    ensures SemaUp(SetTodo(st, rest), s).Ok? && Inv(SemaUp(SetTodo(st, rest), s).st)
  {
    DoneSched(st, s, rest);
    UpStep(st, s, rest);
    RaisedByInv(st, SemaUp(SetTodo(st, rest), s).st, s, rest);
  }

  lemma BroadcastPlan(st: State, c: CondId)
    requires Todos(st) && HeadIs(st, st.current, Broadcast(c))
    ensures Todo(st, st.current) == [Broadcast(c)] && Holds(st, st.current, c.lock)
  {
    assert TodoFits(Held(st, st.current), Todo(st, st.current));
    var ops := Todo(st, st.current);
    assert ops == [ops[0]] + ops[1..];
  }

  lemma BroadcastInv(st: State, c: CondId)
    requires Inv(st) && HeadIs(st, st.current, Broadcast(c)) && c in st.queue
    ensures PopWaiter(st, c, [Broadcast(c)]).Ok? && Inv(PopWaiter(st, c, [Broadcast(c)]).st)
  {
    BroadcastPlan(st, c);
    var st' := PopWaiter(st, c, [Broadcast(c)]).st;
    if st.queue[c] == [] {
      assert Finished(st, st', c);
      FinishedInv(st, st', c);
    } else {
      assert Dequeued(st, st', c, [Broadcast(c)]);
      DequeuedInv(st, st', c, [Broadcast(c)]);
    }
  }

  lemma SetHolderInv(st: State, l: LockId, rest: seq<Op>)
    requires Inv(st) && Todo(st, st.current) == [SetHolder(l)] + rest && l in st.holder
    ensures Perform(st, SetHolder(l), rest).Ok? && Inv(Perform(st, SetHolder(l), rest).st)
  {
    var st' := SetTodo(st, rest).(holder := st.holder[l := Some(st.current)]);
    CurrentRuns(st);
    IsStored(st, st', l, rest);
    StoredInv(st, st', l, rest);
  }

  lemma IsStored(st: State, st': State, l: LockId, rest: seq<Op>)
    requires Todo(st, st.current) == [SetHolder(l)] + rest && l in st.holder
    requires st' == SetTodo(st, rest).(holder := st.holder[l := Some(st.current)])
    ensures Stored(st, st', l, rest) && Perform(st, SetHolder(l), rest) == Ok(st')
  {
  }

  lemma CurrentRuns(st: State)
    requires Lists(st)
    ensures st.current in st.status && st.status[st.current] == Running && st.current in st.todo
  {
    assert st.current in st.status.Keys;
  }

  lemma ReleaseInv(st: State, l: LockId, rest: seq<Op>)
    requires Inv(st) && Todo(st, st.current) == [Release(l)] + rest
    ensures Perform(st, Release(l), rest).Ok? && Inv(Perform(st, Release(l), rest).st)
  {
    var st' := SetTodo(st.(holder := st.holder[l := None]), [Up(OfLock(l))] + rest);
    CurrentRuns(st);
    ReleaserHolds(st, l);
    IsCleared(st, st', l, rest);
    ClearedInv(st, st', l, rest);
  }

  lemma IsCleared(st: State, st': State, l: LockId, rest: seq<Op>)
    requires Todo(st, st.current) == [Release(l)] + rest && Holds(st, st.current, l)
    requires st' == SetTodo(st.(holder := st.holder[l := None]), [Up(OfLock(l))] + rest)
    ensures Cleared(st, st', l, rest) && Perform(st, Release(l), rest) == Ok(st')
  {
  }

  lemma ReadTidInv(st: State, child: Page, rest: seq<Op>)
    requires Inv(st) && Todo(st, st.current) == [ReadTid(child)] + rest
    ensures Perform(st, ReadTid(child), rest).Ok? && Inv(Perform(st, ReadTid(child), rest).st)
  {
    ReadPlan(st, child, rest);
    var st' := SetTodo(st, Numbering(WriteTid(child, st.nextTid), child));
    IsReadIt(st, st', child, rest);
    ReadInv(st, st', child);
  }

  lemma IsReadIt(st: State, st': State, child: Page, rest: seq<Op>)
    requires Todo(st, st.current) == [ReadTid(child)] + rest && rest == [Release(TID_LOCK), Unblock(child)]
    requires st' == SetTodo(st, Numbering(WriteTid(child, st.nextTid), child))
    ensures ReadIt(st, st', child) && Perform(st, ReadTid(child), rest) == Ok(st')
  {
    assert [WriteTid(child, st.nextTid)] + rest == Numbering(WriteTid(child, st.nextTid), child);
  }

  lemma WriteTidInv(st: State, child: Page, id: nat, rest: seq<Op>)
    requires Inv(st) && Todo(st, st.current) == [WriteTid(child, id)] + rest
    ensures Perform(st, WriteTid(child, id), rest).Ok? && Inv(Perform(st, WriteTid(child, id), rest).st)
  {
    WritePlan(st, child, id, rest);
    var st' := SetTodo(st, rest).(nextTid := id + 1, tid := st.tid[child := id]);
    IsWroteIt(st, st', child, id, rest);
    WroteInv(st, st', child, id);
  }

  lemma IsWroteIt(st: State, st': State, child: Page, id: nat, rest: seq<Op>)
    requires Todo(st, st.current) == [WriteTid(child, id)] + rest && rest == [Release(TID_LOCK), Unblock(child)]
    requires st' == SetTodo(st, rest).(nextTid := id + 1, tid := st.tid[child := id])
    ensures WroteIt(st, st', child, id) && Perform(st, WriteTid(child, id), rest) == Ok(st')
  {
  }

  lemma UnblockInv(st: State, child: Page)
    requires Inv(st) && Todo(st, st.current) == [Unblock(child)]
    ensures Perform(st, Unblock(child), []).Ok? && Inv(Perform(st, Unblock(child), []).st)
  {
    PerformUnblock(st, child);
    LaunchSched(st, child);
    LaunchedInv(st, ThreadUnblock(SetTodo(st, []), child).st, child);
  }

  lemma PerformUnblock(st: State, child: Page)
    ensures Perform(st, Unblock(child), []) == ThreadUnblock(SetTodo(st, []), child)
  {
  }

  lemma UnblockPlan(st: State, child: Page, rest: seq<Op>)
    requires Todos(st) && Todo(st, st.current) == [Unblock(child)] + rest
    ensures rest == [] && Todo(st, st.current) == [Unblock(child)]
  {
    assert TodoFits(Held(st, st.current), Todo(st, st.current));
    assert ([Unblock(child)] + rest)[1..] == rest;
  }

  lemma SetIdleInv(st: State, rest: seq<Op>)
    requires Inv(st) && Todo(st, st.current) == [SetIdle] + rest
    ensures Perform(st, SetIdle, rest).Ok? && Inv(Perform(st, SetIdle, rest).st)
  {
    SetIdleClaims(st, rest);
    ClaimedInv(st, Perform(st, SetIdle, rest).st);
  }

  lemma SetIdleClaims(st: State, rest: seq<Op>)
    requires Idle(st) && Todo(st, st.current) == [SetIdle] + rest
    ensures Perform(st, SetIdle, rest).Ok? && Claimed(st, Perform(st, SetIdle, rest).st)
  {
    IdlerRuns(st);
    assert rest == ([SetIdle] + rest)[1..] == BOOT_PLAN[1..] == WAKE_PLAN;
  }

  lemma IdleBlockInv(st: State, rest: seq<Op>)
    requires Inv(st) && Todo(st, st.current) == [IdleBlock] + rest
    ensures Perform(st, IdleBlock, rest).Ok? && Inv(Perform(st, IdleBlock, rest).st)
  {
    IdlerRuns(st);
    BlockStep(st);
    IdleBlockQuiet(st, ThreadBlock(st).st);
    QuietInv(st, ThreadBlock(st).st);
    PerformIdleBlock(st, rest);
  }

  lemma PerformIdleBlock(st: State, rest: seq<Op>)
    ensures Perform(st, IdleBlock, rest) == ThreadBlock(st)
  {
  }

  lemma IdlerRuns(st: State)
    requires Idle(st) && (HeadIs(st, st.current, SetIdle) || HeadIs(st, st.current, IdleBlock))
    ensures st.current == st.idler
    ensures HeadIs(st, st.current, SetIdle) ==> Todo(st, st.current) == BOOT_PLAN
    ensures HeadIs(st, st.current, IdleBlock) ==> st.idle != None
  {
  }

  lemma IdleBlockQuiet(st: State, st': State)
    requires st.current == st.idler && SameRest(st, st') && SameBlocked(st, st')
    ensures Quiet(st, st')
  {
    assert forall t :: Todo(st', t) == Todo(st, t);
  }

  lemma PerformSema(st: State, s: SemaId, rest: seq<Op>)
    requires s.OfLock? && HeadIs(st, st.current, Down(s)) ==> !Holds(st, st.current, s.lock)
    ensures HeadIs(st, st.current, Down(s)) ==> Perform(st, Down(s), rest) == SemaDown(st, s, rest)
    ensures Perform(st, Asleep(s), rest) == SemaDown(st, s, rest)
    ensures Perform(st, Up(s), rest) == SemaUp(SetTodo(st, rest), s)
  {
  }

  lemma SemaOpInv(st: State, op: Op, s: SemaId, rest: seq<Op>)
    requires Inv(st) && Todo(st, st.current) == [op] + rest && s in st.semas
    requires op == Down(s) || op == Asleep(s) || op == Up(s)
    ensures Perform(st, op, rest).Ok? && Inv(Perform(st, op, rest).st)
  {
    if op == Down(s) && s.OfLock? { AcquirerDoesNotHold(st, s.lock); }
    PerformSema(st, s, rest);
    if op == Up(s) { UpInv(st, s, rest); } else { DownInv(st, s, rest); }
  }

  lemma PerformBroadcast(st: State, c: CondId, rest: seq<Op>)
    ensures Perform(st, Broadcast(c), rest) == PopWaiter(st, c, [Broadcast(c)])
  {
  }

  lemma PerformInv(st: State, op: Op, rest: seq<Op>)
    requires Inv(st) && Todo(st, st.current) == [op] + rest && Known(st, op)
    ensures Perform(st, op, rest).Ok? && Inv(Perform(st, op, rest).st)
  {
    match op
    case Down(s) => SemaOpInv(st, op, s, rest);
    case Asleep(s) => SemaOpInv(st, op, s, rest);
    case Up(s) => SemaOpInv(st, op, s, rest);
    case SetHolder(l) => SetHolderInv(st, l, rest);
    case Release(l) => ReleaseInv(st, l, rest);
    case Broadcast(c) =>
      PerformBroadcast(st, c, rest);
      BroadcastInv(st, c);
    case ReadTid(child) => ReadTidInv(st, child, rest);
    case WriteTid(child, id) => WriteTidInv(st, child, id, rest);
    case Unblock(child) =>
      UnblockPlan(st, child, rest);
      UnblockInv(st, child);
    case SetIdle => SetIdleInv(st, rest);
    case IdleBlock => IdleBlockInv(st, rest);
  }

  /** The running thread's next step inside a call never fails an assertion. */
  lemma ExecInv(st: State)
    requires Inv(st) && Todo(st, st.current) != []
    ensures Exec(st).Ok? && Inv(Exec(st).st)
  {
    var ops := Todo(st, st.current);
    assert ops == [ops[0]] + ops[1..];
    HeadKnown(st);
    PerformInv(st, ops[0], ops[1..]);
    CurrentExecs(st);
  }

  lemma CurrentExecs(st: State)
    requires Lists(st) && Todo(st, st.current) != []
    ensures Exec(st) == Perform(st, Todo(st, st.current)[0], Todo(st, st.current)[1..])
  {
    CurrentRuns(st);
    ExecPerforms(st);
  }

  lemma ExecPerforms(st: State)
    requires st.current in st.status && st.status[st.current] == Running && Todo(st, st.current) != []
    ensures Exec(st) == Perform(st, Todo(st, st.current)[0], Todo(st, st.current)[1..])
  {
  }

  // ----- the first step of a call -------------------------------------------------------------------

  /** The calls that only set out to make one step. */
  function Opening(call: Call): Option<Op> {
    match call
    case CallDown(n) => Some(Down(User(n)))
    case CallUp(n) => Some(Up(User(n)))
    case CallAcquire(l) => Some(Down(OfLock(l)))
    case CallRelease(l) => Some(Release(l))
    case CallBroadcast(c) => Some(Broadcast(c))
    case _ => None
  }

  lemma OpeningCalled(st: State, call: Call)
    requires Todos(st) && References(st) && Todo(st, st.current) == [] && MayCall(st, call) && Opening(call) != None
    ensures Begin(st, call).Ok? && Called(st, Begin(st, call).st, Opening(call).value)
  {
    assert TodoFits(Held(st, st.current), Todo(st, st.current));
    var plan := [Opening(call).value];
    assert plan[1..] == [];
  }

  lemma TryAcquireInv(st: State, l: LockId)
    requires Inv(st) && Todo(st, st.current) == [] && MayCall(st, CallTryAcquire(l))
    ensures SemaTryDown(st, OfLock(l), [SetHolder(l)]).Ok? && Inv(SemaTryDown(st, OfLock(l), [SetHolder(l)]).st)
  {
    CurrentRuns(st);
    TryAcquireGrabs(st, l);
    var st' := SemaTryDown(st, OfLock(l), [SetHolder(l)]).st;
    if st' != st { GrabbedInv(st, st', l); }
  }

  lemma TryAcquireGrabs(st: State, l: LockId)
    requires st.current in st.todo && Todo(st, st.current) == [] && References(st) && MayCall(st, CallTryAcquire(l))
    ensures SemaTryDown(st, OfLock(l), [SetHolder(l)]).Ok?
    ensures var st' := SemaTryDown(st, OfLock(l), [SetHolder(l)]).st; st' == st || Grabbed(st, st', l)
  {
    assert OfLock(l) in st.semas;
  }

  lemma WaitInv(st: State, c: CondId, serial: nat)
    requires Inv(st) && Todo(st, st.current) == [] && MayCall(st, CallWait(c, serial))
    ensures Begin(st, CallWait(c, serial)).Ok? && Inv(Begin(st, CallWait(c, serial)).st)
  {
    WaitJoins(st, c, serial);
    JoinedInv(st, Begin(st, CallWait(c, serial)).st, c, OfWaiter(st.current, serial));
  }

  lemma WaitJoins(st: State, c: CondId, serial: nat)
    requires Todo(st, st.current) == [] && MayCall(st, CallWait(c, serial))
    ensures Begin(st, CallWait(c, serial)).Ok?
    ensures Joined(st, Begin(st, CallWait(c, serial)).st, c, OfWaiter(st.current, serial))
  {
  }

  lemma SignalInv(st: State, c: CondId)
    requires Inv(st) && Todo(st, st.current) == [] && MayCall(st, CallSignal(c))
    ensures PopWaiter(st, c, []).Ok? && Inv(PopWaiter(st, c, []).st)
  {
    CurrentRuns(st);
    SignalPops(st, c);
    var st' := PopWaiter(st, c, []).st;
    if st' != st { DequeuedInv(st, st', c, []); }
  }

  lemma SignalPops(st: State, c: CondId)
    requires st.current in st.todo && Todo(st, st.current) == [] && MayCall(st, CallSignal(c))
    ensures PopWaiter(st, c, []).Ok?
    ensures var st' := PopWaiter(st, c, []).st; st' == st || Dequeued(st, st', c, [])
  {
    if st.queue[c] == [] { assert st.todo[st.current := []] == st.todo; }
  }

  lemma CreateInv(st: State, child: Page)
    requires Inv(st) && Todo(st, st.current) == [] && MayCall(st, CallCreate(child))
    ensures Begin(st, CallCreate(child)).Ok? && Inv(Begin(st, CallCreate(child)).st)
  {
    CreateCreates(st, child);
    CreatedInv(st, Begin(st, CallCreate(child)).st, child);
  }

  lemma CreateCreates(st: State, child: Page)
    requires Todo(st, st.current) == [] && MayCall(st, CallCreate(child))
    ensures Begin(st, CallCreate(child)).Ok? && Created(st, Begin(st, CallCreate(child)).st, child)
  {
  }

  lemma TryDownInv(st: State, n: nat)
    requires Inv(st) && Todo(st, st.current) == [] && User(n) in st.semas
    ensures SemaTryDown(st, User(n), []).Ok? && Inv(SemaTryDown(st, User(n), []).st)
  {
    CurrentRuns(st);
    IntrTryDownInv(st, User(n));
  }

  lemma YieldInv(st: State)
    requires Inv(st)
    ensures ThreadYield(st).Ok? && Inv(ThreadYield(st).st)
  {
    YieldStep(st);
    QuietInv(st, ThreadYield(st).st);
  }

  lemma ExitInv(st: State)
    requires Inv(st) && Todo(st, st.current) == []
    ensures ThreadExit(st).Ok? && Inv(ThreadExit(st).st)
  {
    ExitStep(st);
    QuietInv(st, ThreadExit(st).st);
  }

  lemma BeginIs(st: State, call: Call)
    ensures call.CallTryDown? ==> Begin(st, call) == SemaTryDown(st, User(call.n), [])
    ensures call.CallTryAcquire? ==> Begin(st, call) == SemaTryDown(st, OfLock(call.l), [SetHolder(call.l)])
    ensures call.CallSignal? ==> Begin(st, call) == PopWaiter(st, call.c, [])
    ensures call.CallYield? ==> Begin(st, call) == ThreadYield(st)
    ensures call.CallExit? ==> Begin(st, call) == ThreadExit(st)
  {
  }

  lemma BeginInv(st: State, call: Call)
    requires Inv(st) && Todo(st, st.current) == [] && MayCall(st, call)
    ensures Begin(st, call).Ok? && Inv(Begin(st, call).st)
  {
    BeginIs(st, call);
    if Opening(call) != None {
      OpeningCalled(st, call);
      CalledInv(st, Begin(st, call).st, Opening(call).value);
    } else {
      match call
      case CallTryDown(n) => TryDownInv(st, n);
      case CallTryAcquire(l) => TryAcquireInv(st, l);
      case CallWait(c, serial) => WaitInv(st, c, serial);
      case CallSignal(c) => SignalInv(st, c);
      case CallCreate(child) => CreateInv(st, child);
      case CallYield => YieldInv(st);
      case CallExit => ExitInv(st);
    }
  }

  // ----- every step, every run -----------------------------------------------------------------------

  lemma StepIs(st: State, ev: Event)
    ensures ev.Continue? ==> Step(st, ev) == Exec(st)
    ensures ev.Start? ==> Step(st, ev) == Begin(st, ev.call)
    ensures ev.Tick? ==> Step(st, ev) == TimerTick(st)
    ensures ev.IntrUp? ==> Step(st, ev) == SemaUp(st, User(ev.n))
    ensures ev.IntrTryDown? && st.current in st.todo ==> Step(st, ev) == SemaTryDown(st, User(ev.n), st.todo[st.current])
  {
  }

  /** An enabled step fails no kernel assertion and keeps the invariant. */
  lemma StepInv(st: State, ev: Event)
    requires Inv(st) && Enabled(st, ev)
    ensures Step(st, ev).Ok? && Inv(Step(st, ev).st)
  {
    StepIs(st, ev);
    match ev
    case Continue => ExecInv(st);
    case Start(call) => BeginInv(st, call);
    case Tick =>
      TickStep(st);
      QuietInv(st, TimerTick(st).st);
    case IntrUp(n) => IntrUpInv(st, n);
    case IntrTryDown(n) => IntrTryDownInv(st, User(n));
  }

  // ----- the state thread_start() leaves -----------------------------------------------------------------

  function BootPlan(st: State, t: Page): seq<Op> {
    if t == st.initial then [Down(IDLE_STARTED)] else if t == st.idler then BOOT_PLAN else []
  }

  lemma BootTodo(st: State)
    requires Boot(st)
    ensures forall t :: Todo(st, t) == BootPlan(st, t)
    ensures forall t, op :: HeadIs(st, t, op) ==> op == Down(IDLE_STARTED) || op == SetIdle
    ensures forall t, c :: !Creates(st, t, c) && !Numbers(st, t, c)
    ensures forall t :: !IsBlocked(st, t)
  {
    assert BOOT_PLAN[2] == IdleBlock;
  }

  lemma BootSched(st: State)
    requires Boot(st)
    ensures SchedInv(st)
  {
    BootTodo(st);
    BootLists(st);
    BootIdle(st);
  }

  lemma BootLists(st: State)
    requires Boot(st)
    ensures Lists(st)
  {
    BootTodo(st);
  }

  lemma BootIdle(st: State)
    requires Boot(st)
    ensures Idle(st)
  {
    BootTodo(st);
  }

  lemma BootPlaces(st: State)
    requires Boot(st)
    ensures PlaceInv(st)
  {
    BootTodo(st);
    assert forall s :: WaitersOf(st, s) == [];
  }

  lemma BootTodos(st: State)
    requires Boot(st)
    ensures Todos(st)
  {
    BootTodo(st);
    var plan: seq<Op> := [Down(IDLE_STARTED)];
    assert plan[1..] == [];
    assert BOOT_PLAN[1..] == WAKE_PLAN && WAKE_PLAN[1..] == IDLE_PLAN && IDLE_PLAN[1..] == [];
    forall t
      ensures TodoFits(Held(st, t), Todo(st, t))
    {
      assert Held(st, t) == iset{};
    }
  }

  lemma BootReferences(st: State)
    requires Boot(st)
    ensures References(st)
  {
    BootTodo(st);
    forall t, op | op in Todo(st, t)
      ensures Known(st, op)
    {
      assert BOOT_PLAN == [SetIdle, Up(IDLE_STARTED), IdleBlock];
    }
  }

  lemma BootPlans(st: State)
    requires Boot(st)
    ensures PlanInv(st)
  {
    BootTodos(st);
    BootReferences(st);
    BootTodo(st);
    forall l | l in st.holder
      ensures LockOk(st, l)
    {
      assert forall t :: !InSection(st, t, l);
    }
  }

  lemma BootConds(st: State)
    requires Boot(st)
    ensures CondInv(st)
  {
    BootTodo(st);
    assert forall c :: QueueOf(st, c) == [];
    assert forall w: SemaId :: w.OfWaiter? ==> Value(st, w) == 0;
    forall t, w: SemaId | w.OfWaiter?
      ensures !WaitsOn(st, t, w)
    {
      assert BOOT_PLAN == [SetIdle, Up(IDLE_STARTED), IdleBlock];
    }
  }

  lemma BootInv(st: State)
    requires Boot(st)
    ensures Inv(st)
  {
    BootSched(st);
    BootPlaces(st);
    BootPlans(st);
    BootConds(st);
  }

  lemma RunStepInv(states: seq<State>, events: seq<Event>, i: nat)
    requires IsRun(states, events) && 0 < i < |states| && Inv(states[i - 1])
    ensures Inv(states[i])
  {
    assert StepsTo(states[i - 1], events[i - 1], states[i]);
    StepInv(states[i - 1], events[i - 1]);
  }

  /** The invariant holds at every state of every run. */
  lemma {:induction false} RunInv(states: seq<State>, events: seq<Event>, i: nat)
    requires BootRun(states, events) && i < |states|
    ensures Inv(states[i])
  {
    if i == 0 {
      BootInv(states[i]);
    } else {
      RunInv(states, events, i - 1);
      RunStepInv(states, events, i);
    }
  }

  /** No run of the kernel comes to a failing assertion: whatever the threads and
      the devices do next, within what the primitives ask of their callers, succeeds. */
  lemma NoPanic(states: seq<State>, events: seq<Event>, ev: Event)
    requires BootRun(states, events) && Enabled(states[|events|], ev)
    ensures Step(states[|events|], ev).Ok?
  {
    RunInv(states, events, |events|);
    StepInv(states[|events|], ev);
  }
}
