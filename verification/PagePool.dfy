/** One pool of threads/palloc.c under interleaving: palloc_get_multiple() scans and marks the
    bitmap bit by bit with the pool's lock held, and palloc_free_multiple() fills the pages and
    clears their bits without taking it. */
module PagePool {
  import opened Basics
  import opened Intervals

  type Tid = nat

  /** Where a thread is in the two functions; each step tests or changes one bit, or fills one page. */
  datatype Pc =
    | Idle
    | Acquire(cnt: nat, zero: bool)                   // before lock_acquire
    | Scan(cnt: nat, zero: bool, i: nat, j: nat)      // bitmap_scan: about to test bit i + j
    | Mark(cnt: nat, zero: bool, idx: nat, k: nat)    // bitmap_set_multiple: about to set bit idx + k
    | Release(cnt: nat, zero: bool, got: Option<nat>) // before lock_release
    | Zero(idx: nat, cnt: nat, k: nat)                // PAL_ZERO: about to zero page idx + k
    | Poison(idx: nat, cnt: nat, k: nat)              // about to fill page idx + k with 0xcc
    | Check(idx: nat, cnt: nat, k: nat)               // bitmap_all: about to test bit idx + k
    | Clear(idx: nat, cnt: nat, k: nat)               // about to clear bit idx + k

  /** out: the pages handed out, and those that never were usable. */
  datatype State = State(bits: seq<bool>, out: set<nat>, pcs: map<Tid, Pc>, holder: Option<Tid>, contents: seq<nat>)

  datatype Outcome = Ok(st: State) | Panic

  datatype Event = Get(t: Tid, cnt: nat, zero: bool) | Put(t: Tid, idx: nat, cnt: nat) | Go(t: Tid)

  function PcOf(st: State, t: Tid): Pc {
    if t in st.pcs then st.pcs[t] else Idle
  }

  function At(st: State, t: Tid, pc: Pc): State {
    st.(pcs := st.pcs[t := pc])
  }

  /** A caller frees pages that it was handed. */
  predicate Enabled(st: State, ev: Event) {
    match ev
    case Get(t, cnt, zero) => PcOf(st, t) == Idle && cnt > 0
    case Put(t, idx, cnt) => PcOf(st, t) == Idle && cnt > 0 && Interval(idx, cnt) <= st.out
    case Go(t) => PcOf(st, t) != Idle && (PcOf(st, t).Acquire? ==> st.holder == None)
  }

  function GoFrom(st: State, t: Tid, pc: Pc): Outcome {
    match pc
    case Idle => Panic
    case Acquire(cnt, zero) => Ok(At(st, t, Scan(cnt, zero, 0, 0)).(holder := Some(t)))
    case Scan(cnt, zero, i, j) =>
      if i + cnt > |st.bits| then Ok(At(st, t, Release(cnt, zero, None)))
      else if j >= cnt then Ok(At(st, t, Mark(cnt, zero, i, 0)))
      else if st.bits[i + j] then Ok(At(st, t, Scan(cnt, zero, i + 1, 0)))
      else Ok(At(st, t, Scan(cnt, zero, i, j + 1)))
    case Mark(cnt, zero, idx, k) =>
      if k >= cnt then Ok(At(st, t, Release(cnt, zero, Some(idx))))
      else if idx + k >= |st.bits| then Panic
      else Ok(At(st, t, Mark(cnt, zero, idx, k + 1)).(bits := st.bits[idx + k := true]))
    case Release(cnt, zero, got) =>
      if got.None? then Ok(At(st, t, Idle).(holder := None))
      else if zero then Ok(At(st, t, Zero(got.value, cnt, 0)).(holder := None))
      else Ok(At(st, t, Idle).(holder := None, out := st.out + Interval(got.value, cnt)))
    case Zero(idx, cnt, k) =>
      if k >= cnt then Ok(At(st, t, Idle).(out := st.out + Interval(idx, cnt)))
      else if idx + k >= |st.contents| then Panic
      else Ok(At(st, t, Zero(idx, cnt, k + 1)).(contents := st.contents[idx + k := 0]))
    case Poison(idx, cnt, k) =>
      if k >= cnt then Ok(At(st, t, Check(idx, cnt, 0)))
      else if idx + k >= |st.contents| then Panic
      else Ok(At(st, t, Poison(idx, cnt, k + 1)).(contents := st.contents[idx + k := 0xcc]))
    case Check(idx, cnt, k) =>
      if k >= cnt then Ok(At(st, t, Clear(idx, cnt, 0)))
      else if idx + k >= |st.bits| || !st.bits[idx + k] then Panic
      else Ok(At(st, t, Check(idx, cnt, k + 1)))
    case Clear(idx, cnt, k) =>
      if k >= cnt then Ok(At(st, t, Idle))
      else if idx + k >= |st.bits| then Panic
      else Ok(At(st, t, Clear(idx, cnt, k + 1)).(bits := st.bits[idx + k := false]))
  }

  function Step(st: State, ev: Event): Outcome {
    match ev
    case Get(t, cnt, zero) => Ok(At(st, t, Acquire(cnt, zero)))
    case Put(t, idx, cnt) => Ok(At(st, t, Poison(idx, cnt, 0)).(out := st.out - Interval(idx, cnt)))
    case Go(t) => GoFrom(st, t, PcOf(st, t))
  }

  // ----- the invariant --------------------------------------------------------------------------

  /** The pages in the hands of a thread inside the two functions, whose bits are set. */
  function Claim(pc: Pc): set<nat> {
    match pc
    case Mark(_, _, idx, k) => Interval(idx, k)
    case Release(cnt, _, Some(idx)) => Interval(idx, cnt)
    case Zero(idx, cnt, _) => Interval(idx, cnt)
    case Poison(idx, cnt, _) => Interval(idx, cnt)
    case Check(idx, cnt, _) => Interval(idx, cnt)
    case Clear(idx, cnt, k) => if k <= cnt then Interval(idx + k, cnt - k) else {}
    case _ => {}
  }

  /** The pages a thread has seen free and counts on. */
  function Seen(pc: Pc): set<nat> {
    match pc
    case Scan(_, _, i, j) => Interval(i, j)
    case Mark(cnt, _, idx, k) => if k <= cnt then Interval(idx + k, cnt - k) else {}
    case _ => {}
  }

  predicate Locked(pc: Pc) {
    pc.Scan? || pc.Mark? || pc.Release?
  }

  predicate Bounded(pc: Pc, n: nat) {
    match pc
    case Scan(cnt, _, i, j) => j <= cnt && (j > 0 ==> i + cnt <= n)
    case Mark(cnt, _, idx, k) => k <= cnt && idx + cnt <= n
    case Zero(idx, cnt, k) => k <= cnt && idx + cnt <= n
    case Poison(idx, cnt, k) => k <= cnt && idx + cnt <= n
    case Check(idx, cnt, k) => k <= cnt && idx + cnt <= n
    case Clear(idx, cnt, k) => k <= cnt && idx + cnt <= n
    case Release(cnt, _, Some(idx)) => idx + cnt <= n
    case _ => true
  }

  ghost predicate Marked(bits: seq<bool>, xs: set<nat>) {
    forall p :: p in xs ==> p < |bits| && bits[p]
  }

  ghost predicate Unmarked(bits: seq<bool>, xs: set<nat>) {
    forall p :: p in xs ==> p < |bits| && !bits[p]
  }

  ghost predicate ThreadOk(st: State, t: Tid) {
    var pc := PcOf(st, t);
    && Bounded(pc, |st.bits|) && (Locked(pc) ==> st.holder == Some(t))
    && Marked(st.bits, Claim(pc)) && Unmarked(st.bits, Seen(pc)) && Claim(pc) !! st.out
  }

  ghost predicate Inv(st: State) {
    && |st.contents| == |st.bits| && Marked(st.bits, st.out)
    && (forall t :: ThreadOk(st, t))
    && (forall t, u :: t != u ==> Claim(PcOf(st, t)) !! Claim(PcOf(st, u)))
  }

  // ----- what every step keeps ---------------------------------------------------------------------

  /** Only t has moved, to pc, and the lock has at most been taken or given up by t. */
  ghost predicate Moved(st: State, st': State, t: Tid, pc: Pc) {
    && st'.pcs == st.pcs[t := pc] && |st'.bits| == |st.bits| && |st'.contents| == |st.contents|
    && (st'.holder == st.holder || st.holder == None || st.holder == Some(t))
    && (Locked(pc) ==> st'.holder == Some(t)) && Bounded(pc, |st.bits|)
  }

  lemma MovedPcs(st: State, st': State, t: Tid, pc: Pc, u: Tid)
    requires Moved(st, st', t, pc)
    ensures PcOf(st', u) == if u == t then pc else PcOf(st, u)
  {
  }

  /** Bits and handed-out pages stay. */
  lemma QuietInv(st: State, st': State, t: Tid, pc: Pc)
    requires Inv(st) && Moved(st, st', t, pc) && st'.bits == st.bits && st'.out == st.out
    requires Claim(pc) <= Claim(PcOf(st, t)) && Unmarked(st.bits, Seen(pc))
    ensures Inv(st')
  {
    assert ThreadOk(st, t);
    forall u: Tid
      ensures ThreadOk(st', u)
    {
      assert ThreadOk(st, u);
      MovedPcs(st, st', t, pc, u);
    }
    forall u: Tid, v: Tid | u != v
      ensures Claim(PcOf(st', u)) !! Claim(PcOf(st', v))
    {
      MovedPcs(st, st', t, pc, u);
      MovedPcs(st, st', t, pc, v);
      assert Claim(PcOf(st, u)) !! Claim(PcOf(st, v));
    }
  }

  /** t, holding the lock, sets a bit it has seen clear. */
  lemma MarkInv(st: State, st': State, t: Tid, pc: Pc, p: nat)
    requires Inv(st) && Moved(st, st', t, pc) && Locked(PcOf(st, t)) && p in Seen(PcOf(st, t))
    requires p < |st.bits| && st'.bits == st.bits[p := true] && st'.out == st.out
    requires Claim(pc) == Claim(PcOf(st, t)) + {p} && Seen(pc) <= Seen(PcOf(st, t)) - {p}
    ensures Inv(st')
  {
    assert ThreadOk(st, t);
    forall u: Tid
      ensures ThreadOk(st', u)
    {
      assert ThreadOk(st, u);
      MovedPcs(st, st', t, pc, u);
    }
    forall u: Tid, v: Tid | u != v
      ensures Claim(PcOf(st', u)) !! Claim(PcOf(st', v))
    {
      MovedPcs(st, st', t, pc, u);
      MovedPcs(st, st', t, pc, v);
      assert ThreadOk(st, u) && ThreadOk(st, v);
      assert Claim(PcOf(st, u)) !! Claim(PcOf(st, v));
    }
  }

  /** t clears the bit of a page in its hands, and lets go of the page. */
  lemma ClearInv(st: State, st': State, t: Tid, pc: Pc, p: nat)
    requires Inv(st) && Moved(st, st', t, pc) && p in Claim(PcOf(st, t))
    requires p < |st.bits| && st'.bits == st.bits[p := false] && st'.out == st.out
    requires Claim(pc) == Claim(PcOf(st, t)) - {p} && Seen(pc) == {}
    ensures Inv(st')
  {
    assert ThreadOk(st, t);
    forall u: Tid
      ensures ThreadOk(st', u)
    {
      assert ThreadOk(st, u);
      MovedPcs(st, st', t, pc, u);
      assert u != t ==> Claim(PcOf(st, t)) !! Claim(PcOf(st, u));
    }
    forall u: Tid, v: Tid | u != v
      ensures Claim(PcOf(st', u)) !! Claim(PcOf(st', v))
    {
      MovedPcs(st, st', t, pc, u);
      MovedPcs(st, st', t, pc, v);
      assert Claim(PcOf(st, u)) !! Claim(PcOf(st, v));
    }
  }

  /** Pages pass between t's hands and its caller's. */
  lemma PassInv(st: State, st': State, t: Tid, pc: Pc)
    requires Inv(st) && Moved(st, st', t, pc) && st'.bits == st.bits && Seen(pc) == {}
    requires st'.out + Claim(pc) == st.out + Claim(PcOf(st, t)) && st'.out !! Claim(pc)
    ensures Inv(st')
  {
    assert ThreadOk(st, t);
    forall u: Tid
      ensures ThreadOk(st', u)
    {
      assert ThreadOk(st, u);
      MovedPcs(st, st', t, pc, u);
      assert u != t ==> Claim(PcOf(st, t)) !! Claim(PcOf(st, u));
      assert forall p :: p in st'.out || p in Claim(pc) ==> p in st.out || p in Claim(PcOf(st, t));
    }
    forall u: Tid, v: Tid | u != v
      ensures Claim(PcOf(st', u)) !! Claim(PcOf(st', v))
    {
      MovedPcs(st, st', t, pc, u);
      MovedPcs(st, st', t, pc, v);
      assert ThreadOk(st, u) && ThreadOk(st, v);
      assert Claim(PcOf(st, u)) !! Claim(PcOf(st, v));
      assert forall p :: p in Claim(pc) ==> p in st.out || p in Claim(PcOf(st, t));
    }
  }

  lemma DropFirst(p: nat, n: nat)
    requires n > 0
    ensures Interval(p, n) - {p} == Interval(p + 1, n - 1) && p in Interval(p, n)
  {
    IntervalHas(p, n);
    IntervalHas(p + 1, n - 1);
  }

  lemma ScanInv(st: State, t: Tid, pc: Pc)
    requires Inv(st) && PcOf(st, t) == pc && pc.Scan?
    ensures GoFrom(st, t, pc).Ok? && Inv(GoFrom(st, t, pc).st)
  {
    assert ThreadOk(st, t);
    var st' := GoFrom(st, t, pc).st;
    QuietInv(st, st', t, PcOf(st', t));
  }

  lemma MarkStepInv(st: State, t: Tid, pc: Pc)
    requires Inv(st) && PcOf(st, t) == pc && pc.Mark?
    ensures GoFrom(st, t, pc).Ok? && Inv(GoFrom(st, t, pc).st)
  {
    assert ThreadOk(st, t);
    var st' := GoFrom(st, t, pc).st;
    if pc.k >= pc.cnt {
      QuietInv(st, st', t, PcOf(st', t));
    } else {
      DropFirst(pc.idx + pc.k, pc.cnt - pc.k);
      MarkInv(st, st', t, PcOf(st', t), pc.idx + pc.k);
    }
  }

  lemma ClearStepInv(st: State, t: Tid, pc: Pc)
    requires Inv(st) && PcOf(st, t) == pc && pc.Clear?
    ensures GoFrom(st, t, pc).Ok? && Inv(GoFrom(st, t, pc).st)
  {
    assert ThreadOk(st, t);
    var st' := GoFrom(st, t, pc).st;
    if pc.k >= pc.cnt {
      QuietInv(st, st', t, PcOf(st', t));
    } else {
      DropFirst(pc.idx + pc.k, pc.cnt - pc.k);
      ClearInv(st, st', t, PcOf(st', t), pc.idx + pc.k);
    }
  }

  /** The steps that fill pages. */
  lemma FillInv(st: State, t: Tid, pc: Pc)
    requires Inv(st) && PcOf(st, t) == pc && (pc.Poison? || (pc.Zero? && pc.k < pc.cnt))
    ensures GoFrom(st, t, pc).Ok? && Inv(GoFrom(st, t, pc).st)
  {
    assert ThreadOk(st, t);
    var st' := GoFrom(st, t, pc).st;
    QuietInv(st, st', t, PcOf(st', t));
  }

  lemma BitIsSet(st: State, t: Tid, pc: Pc)
    requires ThreadOk(st, t) && PcOf(st, t) == pc && pc.Check? && pc.k < pc.cnt
    ensures pc.idx + pc.k < |st.bits| && st.bits[pc.idx + pc.k]
  {
    IntervalHas(pc.idx, pc.cnt);
    assert pc.idx + pc.k in Claim(pc);
  }

  /** The check before pages are freed never fails. */
  lemma CheckInv(st: State, t: Tid, pc: Pc)
    requires Inv(st) && PcOf(st, t) == pc && pc.Check?
    ensures GoFrom(st, t, pc).Ok? && Inv(GoFrom(st, t, pc).st)
  {
    assert ThreadOk(st, t);
    if pc.k < pc.cnt { BitIsSet(st, t, pc); }
    var st' := GoFrom(st, t, pc).st;
    QuietInv(st, st', t, PcOf(st', t));
  }

  lemma ReturnInv(st: State, t: Tid, pc: Pc)
    requires Inv(st) && PcOf(st, t) == pc && (pc.Release? || (pc.Zero? && pc.k >= pc.cnt))
    ensures GoFrom(st, t, pc).Ok? && Inv(GoFrom(st, t, pc).st)
  {
    assert ThreadOk(st, t);
    var st' := GoFrom(st, t, pc).st;
    PassInv(st, st', t, PcOf(st', t));
  }

  lemma GoInv(st: State, t: Tid)
    requires Inv(st) && Enabled(st, Go(t))
    ensures GoFrom(st, t, PcOf(st, t)).Ok? && Inv(GoFrom(st, t, PcOf(st, t)).st)
  {
    var pc := PcOf(st, t);
    if pc.Acquire? {
      QuietInv(st, GoFrom(st, t, pc).st, t, Scan(pc.cnt, pc.zero, 0, 0));
    } else if pc.Scan? {
      ScanInv(st, t, pc);
    } else if pc.Mark? {
      MarkStepInv(st, t, pc);
    } else if pc.Clear? {
      ClearStepInv(st, t, pc);
    } else if pc.Release? || (pc.Zero? && pc.k >= pc.cnt) {
      ReturnInv(st, t, pc);
    } else if pc.Check? {
      CheckInv(st, t, pc);
    } else {
      FillInv(st, t, pc);
    }
  }

  lemma PutInv(st: State, t: Tid, idx: nat, cnt: nat)
    requires Inv(st) && Enabled(st, Put(t, idx, cnt))
    ensures Inv(Step(st, Put(t, idx, cnt)).st)
  {
    IntervalHas(idx, cnt);
    assert idx + cnt - 1 in st.out;
    PassInv(st, Step(st, Put(t, idx, cnt)).st, t, Poison(idx, cnt, 0));
  }

  lemma StartInv(st: State, ev: Event)
    requires Inv(st) && Enabled(st, ev) && !ev.Go?
    ensures Step(st, ev).Ok? && Inv(Step(st, ev).st)
  {
    if ev.Get? {
      QuietInv(st, Step(st, ev).st, ev.t, Acquire(ev.cnt, ev.zero));
    } else {
      PutInv(st, ev.t, ev.idx, ev.cnt);
    }
  }

  /** Every step of every interleaving keeps the invariant, and no assertion fails. */
  lemma StepInv(st: State, ev: Event)
    requires Inv(st) && Enabled(st, ev)
    ensures Step(st, ev).Ok? && Inv(Step(st, ev).st)
  {
    if ev.Go? { GoInv(st, ev.t); } else { StartInv(st, ev); }
  }

  // ----- whole runs -----------------------------------------------------------------------------------

  /** A pool just set up: its set bits are the pages that are not usable, or handed out. */
  ghost predicate Init(st: State) {
    && |st.contents| == |st.bits| && st.pcs == map[] && st.holder == None
    && (forall p: nat :: p in st.out <==> p < |st.bits| && st.bits[p])
  }

  ghost predicate IsRun(states: seq<State>, events: seq<Event>) {
    && |states| == |events| + 1 && Init(states[0])
    && (forall i {:trigger events[i]} :: 0 <= i < |events| ==> Enabled(states[i], events[i]) && Step(states[i], events[i]) == Ok(states[i + 1]))
  }

  lemma {:induction false} RunInv(states: seq<State>, events: seq<Event>, i: nat)
    requires IsRun(states, events) && i < |states|
    ensures Inv(states[i])
  {
    if i > 0 {
      RunInv(states, events, i - 1);
      assert Step(states[i - 1], events[i - 1]) == Ok(states[i]);
      StepInv(states[i - 1], events[i - 1]);
    }
  }

  /** The pages that the step hands to the thread that asked for them. */
  function HandedOut(st: State, ev: Event): set<nat> {
    if !ev.Go? then {}
    else match PcOf(st, ev.t)
    case Release(cnt, zero, Some(idx)) => if zero then {} else Interval(idx, cnt)
    case Zero(idx, cnt, k) => if k >= cnt then Interval(idx, cnt) else {}
    case _ => {}
  }

  /** In no interleaving is a page handed out while it is handed out already, or while a thread is
      still freeing it or about to receive it. */
  lemma NeverTwice(states: seq<State>, events: seq<Event>, i: nat, p: nat)
    requires IsRun(states, events) && i < |events| && p in HandedOut(states[i], events[i])
    ensures p !in states[i].out && p in states[i + 1].out
    ensures forall u :: u != events[i].t ==> p !in Claim(PcOf(states[i], u))
  {
    RunInv(states, events, i);
    assert ThreadOk(states[i], events[i].t) && Step(states[i], events[i]) == Ok(states[i + 1]);
    forall u: Tid | u != events[i].t
      ensures p !in Claim(PcOf(states[i], u))
    {
      assert Claim(PcOf(states[i], events[i].t)) !! Claim(PcOf(states[i], u));
    }
  }

  /** No step changes the contents of a page that is handed out: neither the 0xcc of a free nor the
      zeros of an allocation land on a page that has been allocated again. */
  lemma ContentsKept(states: seq<State>, events: seq<Event>, i: nat, p: nat)
    requires IsRun(states, events) && i < |events| && p in states[i].out
    ensures p < |states[i].contents| == |states[i + 1].contents| && states[i + 1].contents[p] == states[i].contents[p]
  {
    RunInv(states, events, i);
    var st, ev := states[i], events[i];
    assert ThreadOk(st, ev.t) && Step(st, ev) == Ok(states[i + 1]);
    var pc := PcOf(st, ev.t);
    if pc.Zero? || pc.Poison? {
      IntervalHas(pc.idx, pc.cnt);
      assert ev.Go? && pc.k < pc.cnt ==> pc.idx + pc.k in Claim(pc);
    }
  }

  /** And no page that is handed out is marked free. */
  lemma HandedOutIsMarked(states: seq<State>, events: seq<Event>, i: nat, p: nat)
    requires IsRun(states, events) && i < |states| && p in states[i].out
    ensures p < |states[i].bits| && states[i].bits[p]
  {
    RunInv(states, events, i);
  }
}
