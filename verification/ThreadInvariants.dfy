/** What every step of the scheduler and of the synchronisation primitives keeps. */
module ThreadInvariants {
  import opened Basics
  import opened Threads

  /** The pending steps of t; none for a page that holds no thread. */
  function Todo(st: State, t: Page): seq<Op> {
    if t in st.todo then st.todo[t] else []
  }

  predicate HeadIs(st: State, t: Page, op: Op) {
    Todo(st, t) != [] && Todo(st, t)[0] == op
  }

  predicate IsBlocked(st: State, t: Page) {
    t in st.status && st.status[t] == Blocked
  }

  function Value(st: State, s: SemaId): nat {
    if s in st.semas then st.semas[s].value else 0
  }

  function WaitersOf(st: State, s: SemaId): seq<Page> {
    if s in st.semas then st.semas[s].waiters else []
  }

  function QueueOf(st: State, c: CondId): seq<SemaId> {
    if c in st.queue then st.queue[c] else []
  }

  // ----- the scheduler ------------------------------------------------------------

  /** ready_list holds exactly the ready threads, the idle thread excepted. */
  ghost predicate ReadyOk(status: map<Page, Status>, ready: seq<Page>, idle: Option<Page>) {
    && NoDup(ready)
    && (forall t :: t in ready ==> t in status && status[t] == Ready && idle != Some(t))
    && (forall t :: t in status && status[t] == Ready ==> t in ready || idle == Some(t))
  }

  /** destruction_req holds exactly the dying threads, the initial thread excepted. */
  ghost predicate DeadOk(status: map<Page, Status>, destruction: seq<Page>, initial: Page) {
    && NoDup(destruction)
    && (forall t :: t in destruction ==> t in status && status[t] == Dying && t != initial)
    && (forall t :: t in status && status[t] == Dying ==> t in destruction || t == initial)
  }

  /** Exactly one thread runs. */
  ghost predicate RunningOk(status: map<Page, Status>, current: Page) {
    forall t :: t in status && status[t] == Running <==> t == current
  }

  ghost predicate Lists(st: State) {
    && RunningOk(st.status, st.current)
    && ReadyOk(st.status, st.ready, st.idle)
    && DeadOk(st.status, st.destruction, st.initial)
    && st.status.Keys == st.todo.Keys == st.tid.Keys
    && (forall t :: t in st.status && st.status[t] == Dying ==> Todo(st, t) == [])
    && st.ticks < TIME_SLICE
  }

  ghost predicate Idle(st: State) {
    && st.idler in st.status && st.idler != st.initial
    && (st.idle == None || st.idle == Some(st.idler))
    && (st.idle == None ==>
      && (st.idler == st.current || st.idler in st.ready)
      && Todo(st, st.idler) == [SetIdle, Up(IDLE_STARTED), IdleBlock])
    && (st.idle != None ==> Todo(st, st.idler) == [Up(IDLE_STARTED), IdleBlock] || Todo(st, st.idler) == [IdleBlock])
    && (forall t :: SetIdle in Todo(st, t) || IdleBlock in Todo(st, t) ==> t == st.idler)
  }

  // ----- where blocked threads are ----------------------------------------------------

  /** Every waiters list holds blocked threads, each inside sema_down on that very semaphore. */
  ghost predicate Waiters(st: State) {
    && (forall s :: NoDup(WaitersOf(st, s)))
    && (forall s, t :: t in WaitersOf(st, s) ==> IsBlocked(st, t) && HeadIs(st, t, Asleep(s)))
  }

  /** t is inside thread_create() and has not yet unblocked its child c. */
  predicate Creates(st: State, t: Page, c: Page) {
    Todo(st, t) != [] && Todo(st, t)[|Todo(st, t)| - 1] == Unblock(c)
  }

  /** No blocked thread is lost: it is the idle thread, or a thread that its
      creator is about to unblock, or it is on the waiters list of the semaphore it
      sleeps on. */
  ghost predicate Parked(st: State) {
    forall t :: IsBlocked(st, t) && t != st.idler ==>
      (exists u :: Creates(st, u, t)) || (exists s :: t in WaitersOf(st, s))
  }

  /** A thread under creation is blocked, is on no list, and has one creator. */
  ghost predicate Newborns(st: State) {
    && (forall t, c :: Creates(st, t, c) ==> IsBlocked(st, c) && Todo(st, c) == [] && c != st.idler)
    && (forall t, u, c :: Creates(st, t, c) && Creates(st, u, c) ==> t == u)
  }

  // ----- what a thread still has to do -----------------------------------------

  ghost function Held(st: State, t: Page): iset<LockId> {
    iset l | Holds(st, t, l)
  }

  /** A thread that holds exactly `held` may execute ops, from a point where it is
      not in the middle of an acquire, a release or a wake-up. */
  ghost predicate OpsFit(held: iset<LockId>, ops: seq<Op>)
    decreases |ops|
  {
    if ops == [] then TID_LOCK !in held
    else
      match ops[0]
      case Down(s) =>
        && (s.OfWaiter? ==> |ops| == 2 && ops[1].Down? && ops[1].s.OfLock?)
        && if s.OfLock? then s.lock !in held && OpsFit(held + iset{s.lock}, ops[1..]) else OpsFit(held, ops[1..])
      case Up(s) => s.User? && OpsFit(held, ops[1..])
      case Release(l) => l in held && OpsFit(held - iset{l}, ops[1..])
      case Broadcast(c) => c.lock in held && TID_LOCK !in held && ops[1..] == []
      case ReadTid(c) => TID_LOCK in held && ops[1..] == [Release(TID_LOCK), Unblock(c)]
      case Unblock(c) => TID_LOCK !in held && ops[1..] == []
      case SetIdle => OpsFit(held, ops[1..])
      case IdleBlock => ops[1..] == []
      case Asleep(s) => false
      case SetHolder(l) => false
      case WriteTid(c, id) => false
  }

  /** As OpsFit, but the first of ops may be the rest of a step already begun. */
  ghost predicate TodoFits(held: iset<LockId>, ops: seq<Op>) {
    if ops == [] then OpsFit(held, ops)
    else
      match ops[0]
      case Asleep(s) => OpsFit(held, [Down(s)] + ops[1..])
      case SetHolder(l) => l !in held && OpsFit(held + iset{l}, ops[1..])
      case Up(s) => (s.OfLock? ==> s.lock !in held) && OpsFit(held, ops[1..])
      case WriteTid(c, id) => TID_LOCK in held && ops[1..] == [Release(TID_LOCK), Unblock(c)]
      case _ => OpsFit(held, ops)
  }

  ghost predicate Todos(st: State) {
    forall t :: TodoFits(Held(st, t), Todo(st, t))
  }

  predicate Known(st: State, op: Op) {
    match op
    case Down(s) => s in st.semas
    case Asleep(s) => s in st.semas
    case Up(s) => s in st.semas
    case SetHolder(l) => l in st.holder
    case Release(l) => l in st.holder
    case Broadcast(c) => c in st.queue
    case _ => true
  }

  /** Every object a pending step refers to exists. */
  ghost predicate References(st: State) {
    && (forall t, op :: op in Todo(st, t) ==> Known(st, op))
    && TID_LOCK in st.holder
    && (forall l :: l in st.holder ==> OfLock(l) in st.semas)
    && (forall l :: OfLock(l) in st.semas ==> l in st.holder)
    && (forall c :: c in st.queue ==> c.lock in st.holder)
  }

  // ----- locks ------------------------------------------------------------------

  /** t is between its return from sema_down on the lock's semaphore and its sema_up. */
  predicate InSection(st: State, t: Page, l: LockId) {
    Holds(st, t, l) || HeadIs(st, t, SetHolder(l)) || HeadIs(st, t, Up(OfLock(l)))
  }

  ghost predicate LockOk(st: State, l: LockId) {
    && Value(st, OfLock(l)) <= 1
    && (Value(st, OfLock(l)) == 1 ==> forall t :: !InSection(st, t, l))
    && (Value(st, OfLock(l)) == 0 ==> exists t :: InSection(st, t, l))
    && (forall t, u :: InSection(st, t, l) && InSection(st, u, l) ==> t == u)
  }

  ghost predicate Locks(st: State) {
    forall l :: l in st.holder ==> LockOk(st, l)
  }

  // ----- semaphores ---------------------------------------------------------------

  /** Threads that sema_up(s) has taken off s's waiters list and that have not run since. */
  ghost function Woken(st: State, s: SemaId): set<Page> {
    set t | t in st.todo && HeadIs(st, t, Asleep(s)) && t !in WaitersOf(st, s)
  }

  ghost predicate NoLostWakeup(st: State) {
    forall s :: WaitersOf(st, s) != [] ==> Value(st, s) <= |Woken(st, s)|
  }

  // ----- condition variables --------------------------------------------------------

  /** t is inside cond_wait() and has still to return from sema_down(w). */
  predicate WaitsOn(st: State, t: Page, w: SemaId) {
    Down(w) in Todo(st, t) || HeadIs(st, t, Asleep(w))
  }

  predicate Queued(st: State, c: CondId, w: SemaId) {
    w in QueueOf(st, c)
  }

  /** The one signal a waiter w is owed is at most at one place: not sent yet,
      taken by a signaller that has not called sema_up yet, or stored in w's value. */
  ghost predicate Conds(st: State) {
    && (forall c :: NoDup(QueueOf(st, c)))
    && (forall c, w :: Queued(st, c, w) ==> w.OfWaiter? && w in st.semas && Value(st, w) == 0)
    && (forall c, d, w :: Queued(st, c, w) && Queued(st, d, w) ==> c == d)
    && (forall c, w, t :: Queued(st, c, w) ==> !HeadIs(st, t, Up(w)))
    && (forall w: SemaId, t, u :: w.OfWaiter? && HeadIs(st, t, Up(w)) && HeadIs(st, u, Up(w)) ==> t == u)
    && (forall w: SemaId, t :: w.OfWaiter? && HeadIs(st, t, Up(w)) ==> Value(st, w) == 0)
    && (forall w: SemaId :: w.OfWaiter? ==> Value(st, w) <= 1)
  }

  /** w has been signalled and its owner has not consumed the signal, or w has not been signalled. */
  ghost predicate Owed(st: State, w: SemaId) {
    Value(st, w) == 1 || (exists c :: Queued(st, c, w)) || (exists t :: HeadIs(st, t, Up(w)))
  }

  /** A waiter still inside sema_down(w) is owed a signal; one that has returned
      has left no trace of w behind. */
  ghost predicate Signals(st: State) {
    && (forall w: SemaId :: w.OfWaiter? ==> (Owed(st, w) <==> WaitsOn(st, w.owner, w)))
    && (forall t, w: SemaId :: w.OfWaiter? && WaitsOn(st, t, w) ==> w.owner == t)
  }

  // ----- thread identifiers ---------------------------------------------------------

  /** u is inside thread_create() and has not yet given its child c a tid. */
  predicate Numbers(st: State, u: Page, c: Page) {
    ReadTid(c) in Todo(st, u) || HeadIs(st, u, WriteTid(c, st.nextTid))
  }

  ghost predicate Tids(st: State) {
    && st.nextTid >= 1
    && (forall t :: t in st.tid ==> st.tid[t] < st.nextTid)
    && (forall t, u :: t in st.tid && u in st.tid && t != u && st.tid[t] == st.tid[u] ==> st.tid[t] == 0)
    && (forall t, c, id :: HeadIs(st, t, WriteTid(c, id)) ==> id == st.nextTid)
    && (forall u, c :: Numbers(st, u, c) ==> c in st.tid && st.tid[c] == 0 && Creates(st, u, c))
    && (forall t :: t in st.tid && st.tid[t] == 0 ==> exists u :: Numbers(st, u, t))
  }

  // ----- all of it ------------------------------------------------------------------

  ghost predicate SchedInv(st: State) {
    Lists(st) && Idle(st)
  }

  ghost predicate PlaceInv(st: State) {
    Waiters(st) && Parked(st) && Newborns(st) && NoLostWakeup(st)
  }

  ghost predicate PlanInv(st: State) {
    Todos(st) && References(st) && Locks(st) && Tids(st)
  }

  ghost predicate CondInv(st: State) {
    Conds(st) && Signals(st)
  }

  ghost predicate Inv(st: State) {
    SchedInv(st) && PlaceInv(st) && PlanInv(st) && CondInv(st)
  }
}
