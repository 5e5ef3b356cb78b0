/** The kernel's global variables as an object, and the functions of thread.c and
    synch.c that update them, each equal to the step it makes in the step system. */
module Kernels {
  import opened Basics
  import opened Threads
  import opened ThreadInvariants
  import opened ThreadRuns

  ghost function Elems(s: seq<Page>): set<Page> {
    set t | t in s
  }

  lemma ElemsSplit(s: seq<Page>, freed: set<Page>)
    requires s != []
    ensures freed + Elems(s) == freed + {s[0]} + Elems(s[1..])
  {
    assert s == [s[0]] + s[1..];
  }

  lemma MinusTwice<V>(m: map<Page, V>, dead: set<Page>, t: Page)
    ensures (m - dead) - {t} == m - (dead + {t})
  {
  }

  class Kernel {
    var status: map<Page, Status>
    var todo: map<Page, seq<Op>>
    var tid: map<Page, nat>
    var nextTid: nat
    var ready: seq<Page>
    var destruction: seq<Page>
    var current: Page
    var initial: Page
    var idle: Option<Page>
    var idler: Page
    var ticks: nat
    var semas: map<SemaId, Sema>
    var holder: map<LockId, Option<Page>>
    var queue: map<CondId, seq<SemaId>>

    function Abs(): State
      reads this
    {
      State(status, todo, tid, nextTid, ready, destruction, current, initial, idle, idler, ticks, semas, holder, queue)
    }

    // ----- thread.c ------------------------------------------------------------

    method PopNext() returns (next: Option<Page>)
      modifies `ready
      ensures next == NextThreadToRun(old(Abs()))
      ensures Abs() == old(Abs()).(ready := if old(ready) == [] then [] else old(ready)[1..])
    {
      if ready == [] {
        next := idle;
      } else {
        next := Some(ready[0]);
        ready := ready[1..];
      }
    }

    method RunSchedule()
      requires Schedule(Abs()).Ok?
      modifies this
      ensures Abs() == Schedule(old(Abs())).st
    {
      var curr := current;
      var next := PopNext();
      status := status[next.value := Running];
      ticks := 0;
      if curr != next.value {
        if status[curr] == Dying && curr != initial {
          destruction := destruction + [curr];
        }
        current := next.value;
      }
    }

    /** The loop of do_schedule() that frees every thread queued for destruction. */
    method FreeAll()
      modifies `status, `todo, `tid, `destruction
      ensures Abs() == FreeVictims(old(Abs()))
    {
      ghost var freed: set<Page> := {};
      while destruction != []
        invariant status == old(status) - freed && todo == old(todo) - freed && tid == old(tid) - freed
        invariant Elems(old(destruction)) == freed + Elems(destruction)
        decreases |destruction|
      {
        var victim := destruction[0];
        ElemsSplit(destruction, freed);
        MinusTwice(old(status), freed, victim);
        MinusTwice(old(todo), freed, victim);
        MinusTwice(old(tid), freed, victim);
        destruction := destruction[1..];
        status, todo, tid := status - {victim}, todo - {victim}, tid - {victim};
        freed := freed + {victim};
      }
    }

    method RunDoSchedule(to: Status)
      requires DoSchedule(Abs(), to).Ok?
      modifies this
      ensures Abs() == DoSchedule(old(Abs()), to).st
    {
      FreeAll();
      status := status[current := to];
      RunSchedule();
    }

    method Block()
      requires ThreadBlock(Abs()).Ok?
      modifies this
      ensures Abs() == ThreadBlock(old(Abs())).st
    {
      status := status[current := Blocked];
      RunSchedule();
    }

    method Unblock(t: Page)
      requires ThreadUnblock(Abs(), t).Ok?
      modifies `ready, `status
      ensures Abs() == ThreadUnblock(old(Abs()), t).st
    {
      ready := ready + [t];
      status := status[t := Ready];
    }

    method Yield()
      requires ThreadYield(Abs()).Ok?
      modifies this
      ensures Abs() == ThreadYield(old(Abs())).st
    {
      if idle != Some(current) {
        ready := ready + [current];
      }
      RunDoSchedule(Ready);
    }

    method Exit()
      requires ThreadExit(Abs()).Ok?
      modifies this
      ensures Abs() == ThreadExit(old(Abs())).st
    {
      RunDoSchedule(Dying);
    }

    /** thread_tick(), and the yield that intr_handler() makes on its return. */
    method Tick()
      requires TimerTick(Abs()).Ok?
      modifies this
      ensures Abs() == TimerTick(old(Abs())).st
    {
      ticks := ticks + 1;
      var yieldOnReturn := ticks >= TIME_SLICE;
      if yieldOnReturn {
        Yield();
      }
    }

    // ----- synch.c -------------------------------------------------------------

    /** One turn of sema_down's loop, or its exit from it. */
    method Down(s: SemaId, rest: seq<Op>)
      requires SemaDown(Abs(), s, rest).Ok?
      modifies this
      ensures Abs() == SemaDown(old(Abs()), s, rest).st
    {
      var sema := semas[s];
      if sema.value == 0 {
        semas := semas[s := sema.(waiters := sema.waiters + [current])];
        todo := todo[current := [Asleep(s)] + rest];
        Block();
      } else {
        semas := semas[s := sema.(value := sema.value - 1)];
        todo := todo[current := AfterDown(s) + rest];
      }
    }

    method TryDown(s: SemaId, taken: seq<Op>) returns (success: bool)
      requires SemaTryDown(Abs(), s, taken).Ok?
      modifies `semas, `todo
      ensures Abs() == SemaTryDown(old(Abs()), s, taken).st
      ensures success <==> old(semas)[s].value > 0
    {
      var sema := semas[s];
      success := sema.value > 0;
      if success {
        semas := semas[s := sema.(value := sema.value - 1)];
        todo := todo[current := taken];
      }
    }

    method Up(s: SemaId)
      requires SemaUp(Abs(), s).Ok?
      modifies `semas, `ready, `status
      ensures Abs() == SemaUp(old(Abs()), s).st
    {
      if semas[s].waiters != [] {
        var first := semas[s].waiters[0];
        semas := semas[s := semas[s].(waiters := semas[s].waiters[1..])];
        Unblock(first);
      }
      semas := semas[s := semas[s].(value := semas[s].value + 1)];
    }

    /** cond_signal() up to its call of sema_up(), which is then the thread's next step. */
    method Signal(c: CondId, rest: seq<Op>)
      requires PopWaiter(Abs(), c, rest).Ok?
      modifies `queue, `todo
      ensures Abs() == PopWaiter(old(Abs()), c, rest).st
    {
      if queue[c] != [] {
        var first := queue[c][0];
        queue := queue[c := queue[c][1..]];
        todo := todo[current := [Op.Up(first)] + rest];
      } else {
        todo := todo[current := []];
      }
    }

    // ----- whole steps -----------------------------------------------------------

    /** The steps inside calls that are assignments only. */
    method Assign(op: Op, rest: seq<Op>)
      requires op.SetHolder? || op.Release? || op.ReadTid? || op.WriteTid? || op.SetIdle?
      requires Perform(Abs(), op, rest).Ok?
      modifies this
      ensures Abs() == Perform(old(Abs()), op, rest).st
    {
      match op
      case SetHolder(l) =>
        todo, holder := todo[current := rest], holder[l := Some(current)];
      case Release(l) =>
        todo, holder := todo[current := [Op.Up(OfLock(l))] + rest], holder[l := None];
      case ReadTid(child) =>
        todo := todo[current := [WriteTid(child, nextTid)] + rest];
      case WriteTid(child, id) =>
        todo, nextTid, tid := todo[current := rest], id + 1, tid[child := id];
      case SetIdle =>
        todo, idle := todo[current := rest], Some(current);
    }

    /** The running thread makes the step op, with rest still to do. */
    method PerformOp(op: Op, rest: seq<Op>)
      requires Perform(Abs(), op, rest).Ok?
      modifies this
      ensures Abs() == Perform(old(Abs()), op, rest).st
    {
      match op
      case Down(s) => Down(s, rest);
      case Asleep(s) => Down(s, rest);
      case Up(s) =>
        todo := todo[current := rest];
        Up(s);
      case Broadcast(c) => Signal(c, [Broadcast(c)]);
      case Unblock(child) =>
        todo := todo[current := rest];
        Unblock(child);
      case IdleBlock => Block();
      case _ => Assign(op, rest);
    }

    /** cond_wait() up to its lock_release(). */
    method Enqueue(c: CondId, serial: nat)
      requires Begin(Abs(), CallWait(c, serial)).Ok?
      modifies `semas, `queue, `todo
      ensures Abs() == Begin(old(Abs()), CallWait(c, serial)).st
    {
      var w := OfWaiter(current, serial);
      semas := semas[w := Sema(0, [])];
      queue := queue[c := queue[c] + [w]];
      todo := todo[current := [Op.Release(c.lock), Op.Down(w), Op.Down(OfLock(c.lock))]];
    }

    /** thread_create() up to allocate_tid(). */
    method Create(child: Page)
      modifies `status, `tid, `todo
      ensures Abs() == Begin(old(Abs()), CallCreate(child)).st
    {
      status, tid := status[child := Blocked], tid[child := 0];
      todo := todo[child := []];
      todo := todo[current := [Op.Down(OfLock(TID_LOCK)), ReadTid(child), Op.Release(TID_LOCK), Op.Unblock(child)]];
    }

    /** The first step of a call. */
    method BeginCall(call: Call)
      requires Begin(Abs(), call).Ok?
      modifies this
      ensures Abs() == Begin(old(Abs()), call).st
    {
      match call
      case CallDown(n) => todo := todo[current := [Op.Down(User(n))]];
      case CallTryDown(n) => var success := TryDown(User(n), []);
      case CallUp(n) => todo := todo[current := [Op.Up(User(n))]];
      case CallAcquire(l) => todo := todo[current := [Op.Down(OfLock(l))]];
      case CallTryAcquire(l) => var success := TryDown(OfLock(l), [SetHolder(l)]);
      case CallRelease(l) => todo := todo[current := [Op.Release(l)]];
      case CallWait(c, serial) => Enqueue(c, serial);
      case CallSignal(c) => Signal(c, []);
      case CallBroadcast(c) => todo := todo[current := [Broadcast(c)]];
      case CallCreate(child) => Create(child);
      case CallYield => Yield();
      case CallExit => Exit();
    }

    /** Any enabled step: under the invariant no ASSERT fails, the new state is that of the step
        system, and the invariant holds again. */
    method Run(ev: Event)
      requires Inv(Abs()) && Enabled(Abs(), ev)
      modifies this
      ensures Inv(Abs()) && Step(old(Abs()), ev) == Ok(Abs())
    {
      StepInv(Abs(), ev);
      match ev
      case Continue => PerformOp(todo[current][0], todo[current][1..]);
      case Start(call) => BeginCall(call);
      case Tick => Tick();
      case IntrUp(n) => Up(User(n));
      case IntrTryDown(n) => var success := TryDown(User(n), todo[current]);
    }
  }
}
