/** What callers of threads/palloc.c get: the first fit, zeros, their pages back in the pool, and an answer. */
module PoolService {
  import opened Basics
  import opened Intervals
  import opened PagePool

  // ----- no page is lost -----------------------------------------------------------------------------

  predicate Claimed(st: State, t: Tid, p: nat) {
    p in Claim(PcOf(st, t))
  }

  /** A marked page is handed out, or in the hands of a thread inside the two functions. */
  ghost predicate Accounted(st: State) {
    forall p :: 0 <= p < |st.bits| && st.bits[p] ==> p in st.out || exists t :: Claimed(st, t, p)
  }

  /** A page that is marked after t's step, and is neither handed out nor in t's hands, was so before. */
  ghost predicate NoneDropped(st: State, st': State, t: Tid) {
    && |st'.bits| == |st.bits| && (forall u :: u != t ==> PcOf(st', u) == PcOf(st, u))
    && (forall p :: 0 <= p < |st.bits| && st'.bits[p] && p !in st'.out && !Claimed(st', t, p) ==>
          st.bits[p] && p !in st.out && !Claimed(st, t, p))
  }

  lemma KeepsAccounted(st: State, st': State, t: Tid)
    requires Accounted(st) && NoneDropped(st, st', t)
    ensures Accounted(st')
  {
    forall p | 0 <= p < |st'.bits| && st'.bits[p] && p !in st'.out && !Claimed(st', t, p)
      ensures exists u :: Claimed(st', u, p)
    {
      var u :| Claimed(st, u, p);
      assert Claimed(st', u, p);
    }
    forall p | 0 <= p < |st'.bits| && st'.bits[p]
      ensures p in st'.out || exists u :: Claimed(st', u, p)
    {
      if p !in st'.out && Claimed(st', t, p) { assert exists u :: Claimed(st', u, p); }
    }
  }

  lemma MarkKeepsPages(st: State, t: Tid, pc: Pc)
    requires Inv(st) && PcOf(st, t) == pc && pc.Mark? && GoFrom(st, t, pc).Ok?
    ensures NoneDropped(st, GoFrom(st, t, pc).st, t)
  {
    assert ThreadOk(st, t);
  }

  lemma ClearKeepsPages(st: State, t: Tid, pc: Pc)
    requires Inv(st) && PcOf(st, t) == pc && pc.Clear? && GoFrom(st, t, pc).Ok?
    ensures NoneDropped(st, GoFrom(st, t, pc).st, t)
  {
    assert ThreadOk(st, t);
    if pc.k < pc.cnt { DropFirst(pc.idx + pc.k, pc.cnt - pc.k); }
  }

  lemma ReturnKeepsPages(st: State, t: Tid, pc: Pc)
    requires Inv(st) && PcOf(st, t) == pc && (pc.Release? || pc.Zero?) && GoFrom(st, t, pc).Ok?
    ensures NoneDropped(st, GoFrom(st, t, pc).st, t)
  {
    assert ThreadOk(st, t);
  }

  lemma OtherKeepsPages(st: State, t: Tid, pc: Pc)
    requires Inv(st) && PcOf(st, t) == pc && GoFrom(st, t, pc).Ok?
    requires pc.Acquire? || pc.Scan? || pc.Poison? || pc.Check?
    ensures NoneDropped(st, GoFrom(st, t, pc).st, t)
  {
    assert ThreadOk(st, t);
  }

  lemma StepKeepsPages(st: State, ev: Event, st': State)
    requires Inv(st) && Enabled(st, ev) && Step(st, ev) == Ok(st')
    ensures NoneDropped(st, st', ev.t)
  {
    if ev.Go? {
      var pc := PcOf(st, ev.t);
      if pc.Mark? {
        MarkKeepsPages(st, ev.t, pc);
      } else if pc.Clear? {
        ClearKeepsPages(st, ev.t, pc);
      } else if pc.Release? || pc.Zero? {
        ReturnKeepsPages(st, ev.t, pc);
      } else {
        OtherKeepsPages(st, ev.t, pc);
      }
    } else {
      assert Claim(Idle) == {};
    }
  }

  /** Every page is handed out, on its way in or out of the pool, or marked free: no free loses a page. */
  lemma {:induction false} NoPageLost(states: seq<State>, events: seq<Event>, i: nat)
    requires IsRun(states, events) && i < |states|
    ensures Accounted(states[i])
  {
    if i > 0 {
      NoPageLost(states, events, i - 1);
      RunInv(states, events, i - 1);
      assert Enabled(states[i - 1], events[i - 1]);
      StepKeepsPages(states[i - 1], events[i - 1], states[i]);
      KeepsAccounted(states[i - 1], states[i], events[i - 1].t);
    }
  }

  // ----- fills -----------------------------------------------------------------------------------------

  /** How many of a thread's pages are filled, and with what. */
  function Filling(pc: Pc): (nat, nat, nat) {
    match pc
    case Zero(idx, cnt, k) => (idx, k, 0)
    case Poison(idx, cnt, k) => (idx, k, 0xcc)
    case Check(idx, cnt, _) => (idx, cnt, 0xcc)
    case Clear(idx, cnt, k) => if k <= cnt then (idx + k, cnt - k, 0xcc) else (0, 0, 0)
    case _ => (0, 0, 0)
  }

  ghost predicate Filled(st: State, t: Tid) {
    var (idx, n, v) := Filling(PcOf(st, t));
    idx + n <= |st.contents| && forall p :: idx <= p < idx + n ==> st.contents[p] == v
  }

  ghost predicate AllFilled(st: State) {
    forall t :: Filled(st, t)
  }

  lemma FillingClaimed(pc: Pc, n: nat, p: nat)
    requires Bounded(pc, n) && Filling(pc).0 <= p < Filling(pc).0 + Filling(pc).1
    ensures p in Claim(pc)
  {
    match pc
    case Zero(idx, cnt, k) => IntervalHas(idx, cnt);
    case Poison(idx, cnt, k) => IntervalHas(idx, cnt);
    case Check(idx, cnt, k) => IntervalHas(idx, cnt);
    case Clear(idx, cnt, k) => IntervalHas(idx + k, cnt - k);
    case _ =>
  }

  lemma OwnFill(st: State, t: Tid, st': State)
    requires Inv(st) && Filled(st, t) && GoFrom(st, t, PcOf(st, t)) == Ok(st')
    ensures Filled(st', t)
  {
    assert ThreadOk(st, t);
  }

  /** The one page whose contents t's step changes is in t's hands. */
  lemma ChangesOwn(st: State, t: Tid, st': State, p: nat)
    requires Inv(st) && GoFrom(st, t, PcOf(st, t)) == Ok(st') && p < |st.contents| && p !in Claim(PcOf(st, t))
    ensures |st'.contents| == |st.contents| && st'.contents[p] == st.contents[p]
  {
    var pc := PcOf(st, t);
    assert ThreadOk(st, t);
    if (pc.Zero? || pc.Poison?) && pc.k < pc.cnt {
      IntervalHas(pc.idx, pc.cnt);
      assert pc.idx + pc.k in Claim(pc);
    }
  }

  lemma OtherFill(st: State, t: Tid, st': State, u: Tid)
    requires Inv(st) && Filled(st, u) && u != t && GoFrom(st, t, PcOf(st, t)) == Ok(st')
    ensures Filled(st', u)
  {
    var pc := PcOf(st, u);
    assert ThreadOk(st, u) && Claim(PcOf(st, t)) !! Claim(pc);
    assert PcOf(st', u) == pc && |st'.contents| == |st.contents|;
    var (idx, n, v) := Filling(pc);
    forall p | idx <= p < idx + n
      ensures st'.contents[p] == v
    {
      FillingClaimed(pc, |st.bits|, p);
      ChangesOwn(st, t, st', p);
    }
  }

  lemma StepFill(st: State, ev: Event, st': State, u: Tid)
    requires Inv(st) && Enabled(st, ev) && Filled(st, u) && Step(st, ev) == Ok(st')
    ensures Filled(st', u)
  {
    if ev.Go? {
      if u == ev.t { OwnFill(st, u, st'); } else { OtherFill(st, ev.t, st', u); }
    } else {
      assert st'.contents == st.contents && (u != ev.t ==> PcOf(st', u) == PcOf(st, u));
    }
  }

  /** At every point of every run, pages on their way out have been zeroed, and pages on their way back
      filled with 0xcc, as far as the thread has come. */
  lemma {:induction false} FillsHold(states: seq<State>, events: seq<Event>, i: nat)
    requires IsRun(states, events) && i < |states|
    ensures AllFilled(states[i])
  {
    if i > 0 {
      FillsHold(states, events, i - 1);
      RunInv(states, events, i - 1);
      assert Enabled(states[i - 1], events[i - 1]) && Step(states[i - 1], events[i - 1]) == Ok(states[i]);
      forall u: Tid
        ensures Filled(states[i], u)
      {
        StepFill(states[i - 1], events[i - 1], states[i], u);
      }
    }
  }

  // ----- what a call finds ------------------------------------------------------------------------------

  /** One of the cnt pages from q on is marked. */
  ghost predicate Taken(bits: seq<bool>, q: nat, cnt: nat) {
    exists p :: q <= p < q + cnt && p < |bits| && bits[p]
  }

  /** got is the first run of cnt pages, or there is none. */
  ghost predicate Answers(bits: seq<bool>, cnt: nat, got: Option<nat>) {
    match got
    case None => forall q :: 0 <= q && q + cnt <= |bits| ==> Taken(bits, q, cnt)
    case Some(idx) => idx + cnt <= |bits| && forall q :: 0 <= q < idx ==> Taken(bits, q, cnt)
  }

  /** A call for cnt pages that took the lock when the bitmap was bits is on its way: every place before the
      one it is at is taken. */
  ghost predicate Searched(bits: seq<bool>, cnt: nat, zero: bool, pc: Pc) {
    match pc
    case Scan(c, z, i, _) => c == cnt && z == zero && forall q :: 0 <= q < i ==> Taken(bits, q, cnt)
    case Mark(c, z, idx, _) => c == cnt && z == zero && Answers(bits, cnt, Some(idx))
    case Release(c, z, got) => c == cnt && z == zero && Answers(bits, cnt, got)
    case Zero(idx, c, _) => c == cnt && zero && Answers(bits, cnt, Some(idx))
    case _ => false
  }

  /** While t has the lock others only clear bits. */
  ghost predicate OnlyCleared(bits: seq<bool>, st: State, t: Tid) {
    |st.bits| == |bits| && forall p :: 0 <= p < |bits| && st.bits[p] ==> bits[p] || p in Claim(PcOf(st, t))
  }

  ghost predicate Searching(bits: seq<bool>, cnt: nat, zero: bool, st: State, t: Tid) {
    Searched(bits, cnt, zero, PcOf(st, t)) && |st.bits| == |bits| && (Locked(PcOf(st, t)) ==> OnlyCleared(bits, st, t))
  }

  lemma OthersOnlyClear(bits: seq<bool>, st: State, ev: Event, st': State, t: Tid)
    requires Inv(st) && Enabled(st, ev) && Step(st, ev) == Ok(st') && ev.t != t && Locked(PcOf(st, t)) && OnlyCleared(bits, st, t)
    ensures OnlyCleared(bits, st', t) && PcOf(st', t) == PcOf(st, t)
  {
    assert ThreadOk(st, t) && ThreadOk(st, ev.t);
  }

  lemma ScanSearches(bits: seq<bool>, cnt: nat, zero: bool, st: State, t: Tid, st': State)
    requires Inv(st) && Searching(bits, cnt, zero, st, t) && PcOf(st, t).Scan? && GoFrom(st, t, PcOf(st, t)) == Ok(st')
    ensures Searching(bits, cnt, zero, st', t)
  {
    var pc := PcOf(st, t);
    assert ThreadOk(st, t);
    if pc.i + cnt <= |bits| && pc.j < cnt && st.bits[pc.i + pc.j] {
      assert Taken(bits, pc.i, cnt);
    }
  }

  lemma MarkSearches(bits: seq<bool>, cnt: nat, zero: bool, st: State, t: Tid, st': State)
    requires Inv(st) && Searching(bits, cnt, zero, st, t) && PcOf(st, t).Mark? && GoFrom(st, t, PcOf(st, t)) == Ok(st')
    ensures Searching(bits, cnt, zero, st', t)
  {
    assert ThreadOk(st, t);
  }

  lemma SearchStep(bits: seq<bool>, cnt: nat, zero: bool, st: State, ev: Event, st': State, t: Tid)
    requires Inv(st) && Enabled(st, ev) && Step(st, ev) == Ok(st') && Searching(bits, cnt, zero, st, t) && PcOf(st', t) != Idle
    ensures Searching(bits, cnt, zero, st', t)
  {
    var pc := PcOf(st, t);
    if ev.t != t {
      assert PcOf(st', t) == pc && |st'.bits| == |st.bits|;
      if Locked(pc) { OthersOnlyClear(bits, st, ev, st', t); }
    } else if pc.Scan? {
      ScanSearches(bits, cnt, zero, st, t, st');
    } else if pc.Mark? {
      MarkSearches(bits, cnt, zero, st, t, st');
    }
  }

  /** t is inside a call of palloc_get_multiple(cnt), with the lock taken at step a, up to state n. */
  ghost predicate InCall(states: seq<State>, events: seq<Event>, a: nat, n: nat, t: Tid, cnt: nat, zero: bool) {
    && IsRun(states, events) && a < n < |states| && events[a] == Go(t) && PcOf(states[a], t) == Acquire(cnt, zero)
    && forall i :: a < i <= n ==> PcOf(states[i], t) != Idle
  }

  lemma {:induction false} SearchRun(states: seq<State>, events: seq<Event>, a: nat, n: nat, t: Tid, cnt: nat, zero: bool)
    requires InCall(states, events, a, n, t, cnt, zero)
    ensures Searching(states[a].bits, cnt, zero, states[n], t)
  {
    RunInv(states, events, n - 1);
    assert Enabled(states[n - 1], events[n - 1]) && Step(states[n - 1], events[n - 1]) == Ok(states[n]);
    if n > a + 1 {
      SearchRun(states, events, a, n - 1, t, cnt, zero);
      SearchStep(states[a].bits, cnt, zero, states[n - 1], events[n - 1], states[n], t);
    }
  }

  ghost predicate Zeroed(st: State, idx: nat, cnt: nat) {
    idx + cnt <= |st.contents| && forall p :: idx <= p < idx + cnt ==> st.contents[p] == 0
  }

  /** The last step of a call. */
  lemma LastStep(bits: seq<bool>, cnt: nat, zero: bool, st: State, ev: Event, st': State, t: Tid) returns (got: Option<nat>)
    requires Inv(st) && AllFilled(st) && Enabled(st, ev) && Step(st, ev) == Ok(st') && Searching(bits, cnt, zero, st, t)
    requires PcOf(st, t) != Idle && PcOf(st', t) == Idle
    ensures Answers(bits, cnt, got) && ev == Go(t)
    ensures HandedOut(st, ev) == match got { case None => {} case Some(idx) => Interval(idx, cnt) }
    ensures st'.out == st.out + HandedOut(st, ev)
    ensures zero && got.Some? ==> Zeroed(st', got.value, cnt)
  {
    var pc := PcOf(st, t);
    assert ThreadOk(st, t) && Filled(st, t);
    assert ev == Go(t);
    got := if pc.Release? then pc.got else Some(pc.idx);
  }

  /** A call of palloc_get_multiple() that returns hands out the first run of cnt pages free when it took
      the lock, zeroed if that was asked for; or one that comes before it and became free meanwhile; and it
      hands out nothing only if there was no such run. */
  lemma Serves(states: seq<State>, events: seq<Event>, a: nat, n: nat, t: Tid, cnt: nat, zero: bool) returns (got: Option<nat>)
    requires InCall(states, events, a, n, t, cnt, zero) && n < |events| && PcOf(states[n + 1], t) == Idle
    ensures Answers(states[a].bits, cnt, got)
    ensures HandedOut(states[n], events[n]) == match got { case None => {} case Some(idx) => Interval(idx, cnt) }
    ensures states[n + 1].out == states[n].out + HandedOut(states[n], events[n])
    ensures zero && got.Some? ==> Zeroed(states[n + 1], got.value, cnt)
  {
    SearchRun(states, events, a, n, t, cnt, zero);
    RunInv(states, events, n);
    FillsHold(states, events, n);
    assert Enabled(states[n], events[n]) && Step(states[n], events[n]) == Ok(states[n + 1]);
    got := LastStep(states[a].bits, cnt, zero, states[n], events[n], states[n + 1], t);
  }

  /** If the cnt pages from q on were free when it took the lock, it hands out cnt pages from q or before. */
  lemma ServesIfFree(states: seq<State>, events: seq<Event>, a: nat, n: nat, t: Tid, cnt: nat, zero: bool, q: nat) returns (idx: nat)
    requires InCall(states, events, a, n, t, cnt, zero) && n < |events| && PcOf(states[n + 1], t) == Idle
    requires q + cnt <= |states[a].bits| && !Taken(states[a].bits, q, cnt)
    ensures idx <= q && HandedOut(states[n], events[n]) == Interval(idx, cnt) && Interval(idx, cnt) <= states[n + 1].out
  {
    var got := Serves(states, events, a, n, t, cnt, zero);
    assert got.Some?;
    idx := got.value;
  }

  // ----- every call returns ---------------------------------------------------------------------------

  /** A bound on the steps that a thread at pc has still to make, in a pool of n pages. */
  function StepsLeft(pc: Pc, n: nat): nat {
    match pc
    case Idle => 0
    case Acquire(cnt, _) => (n + 1) * (cnt + 2) + 3 * cnt + 6
    case Scan(cnt, _, i, j) => (if i <= n then (n + 1 - i) * (cnt + 2) else 0) + (if j <= cnt then cnt - j else 0) + 2 * cnt + 5
    case Mark(cnt, _, _, k) => (if k <= cnt then cnt - k else 0) + cnt + 4
    case Release(cnt, _, _) => cnt + 3
    case Zero(_, cnt, k) => (if k <= cnt then cnt - k else 0) + 1
    case Poison(_, cnt, k) => (if k <= cnt then cnt - k else 0) + 2 * cnt + 3
    case Check(_, cnt, k) => (if k <= cnt then cnt - k else 0) + cnt + 2
    case Clear(_, cnt, k) => (if k <= cnt then cnt - k else 0) + 1
  }

  lemma ScanFewer(n: nat, cnt: nat, i: nat)
    requires i <= n
    ensures (n + 1 - i) * (cnt + 2) == (n - i) * (cnt + 2) + (cnt + 2)
  {
  }

  lemma ScanCounts(st: State, t: Tid, st': State)
    requires ThreadOk(st, t) && PcOf(st, t).Scan? && GoFrom(st, t, PcOf(st, t)) == Ok(st')
    ensures StepsLeft(PcOf(st', t), |st.bits|) < StepsLeft(PcOf(st, t), |st.bits|)
  {
    var pc, pc', n := PcOf(st, t), PcOf(st', t), |st.bits|;
    if pc.i + pc.cnt <= n { ScanFewer(n, pc.cnt, pc.i); }
    if pc'.Scan? {
      assert pc' == Scan(pc.cnt, pc.zero, pc.i + 1, 0) || pc' == Scan(pc.cnt, pc.zero, pc.i, pc.j + 1);
    } else {
      ScanAtLeast(pc, n);
    }
  }

  lemma ScanAtLeast(pc: Pc, n: nat)
    requires pc.Scan?
    ensures StepsLeft(pc, n) >= 2 * pc.cnt + 5
  {
    if pc.i <= n { assert (n + 1 - pc.i) * (pc.cnt + 2) >= 0; }
  }

  lemma GetCounts(st: State, t: Tid, st': State)
    requires ThreadOk(st, t) && GoFrom(st, t, PcOf(st, t)) == Ok(st')
    requires var pc := PcOf(st, t); pc.Acquire? || pc.Mark? || pc.Release? || pc.Zero?
    ensures StepsLeft(PcOf(st', t), |st.bits|) < StepsLeft(PcOf(st, t), |st.bits|)
  {
  }

  lemma PutCounts(st: State, t: Tid, st': State)
    requires ThreadOk(st, t) && GoFrom(st, t, PcOf(st, t)) == Ok(st')
    requires var pc := PcOf(st, t); pc.Poison? || pc.Check? || pc.Clear?
    ensures StepsLeft(PcOf(st', t), |st.bits|) < StepsLeft(PcOf(st, t), |st.bits|)
  {
  }

  lemma SameSize(st: State, ev: Event, st': State)
    requires Step(st, ev) == Ok(st')
    ensures |st'.bits| == |st.bits|
  {
  }

  lemma OwnStepCounts(st: State, t: Tid, st': State)
    requires Inv(st) && Enabled(st, Go(t)) && Step(st, Go(t)) == Ok(st')
    ensures |st'.bits| == |st.bits| && StepsLeft(PcOf(st', t), |st.bits|) < StepsLeft(PcOf(st, t), |st.bits|)
  {
    var pc := PcOf(st, t);
    assert ThreadOk(st, t);
    SameSize(st, Go(t), st');
    if pc.Scan? {
      ScanCounts(st, t, st');
    } else if pc.Poison? || pc.Check? || pc.Clear? {
      PutCounts(st, t, st');
    } else {
      GetCounts(st, t, st');
    }
  }

  /** The steps that t itself makes from state a up to state b. */
  function OwnSteps(events: seq<Event>, t: Tid, a: nat, b: nat): nat
    requires a <= b <= |events|
  {
    if a == b then 0 else OwnSteps(events, t, a, b - 1) + (if events[b - 1].t == t then 1 else 0)
  }

  /** A call returns within StepsLeft steps of its own thread, whatever the others do. */
  lemma {:induction false} CallReturns(states: seq<State>, events: seq<Event>, t: Tid, a: nat, b: nat)
    requires IsRun(states, events) && a <= b <= |events| && forall i :: a <= i < b ==> PcOf(states[i], t) != Idle
    ensures |states[b].bits| == |states[a].bits|
    ensures OwnSteps(events, t, a, b) + StepsLeft(PcOf(states[b], t), |states[a].bits|) <= StepsLeft(PcOf(states[a], t), |states[a].bits|)
  {
    if a < b {
      CallReturns(states, events, t, a, b - 1);
      RunInv(states, events, b - 1);
      var st, ev := states[b - 1], events[b - 1];
      assert Enabled(st, ev) && Step(st, ev) == Ok(states[b]);
      if ev.t == t {
        assert ev == Go(t);
        OwnStepCounts(st, t, states[b]);
      } else {
        OtherStepCounts(st, ev, states[b], t);
      }
    }
  }

  lemma OtherStepCounts(st: State, ev: Event, st': State, t: Tid)
    requires Step(st, ev) == Ok(st') && ev.t != t
    ensures |st'.bits| == |st.bits| && PcOf(st', t) == PcOf(st, t)
  {
  }
}
