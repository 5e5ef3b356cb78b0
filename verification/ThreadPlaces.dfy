/** Where threads that do not run are kept, and that no wake-up is lost. */
module ThreadPlaces {
  import opened Threads
  import opened ThreadInvariants
  import opened ThreadSteps

  // ----- steps that move no thread to or from a waiters list ---------------------------

  ghost predicate SameWaiters(st: State, st': State) {
    forall s :: WaitersOf(st', s) == WaitersOf(st, s)
  }

  ghost predicate OthersPlans(st: State, st': State) {
    forall t :: t != st.current ==> Todo(st', t) == Todo(st, t)
  }

  ghost predicate Unmoved(st: State, st': State) {
    && OthersPlans(st, st') && SameBlocked(st, st') && SameWaiters(st, st')
    && (st.current != st.idler ==> !IsBlocked(st', st.current))
    && (forall c :: Creates(st', st.current, c) <==> Creates(st, st.current, c))
  }

  lemma OnWaiters(st: State, s: SemaId, t: Page)
    requires Waiters(st) && t in WaitersOf(st, s)
    ensures IsBlocked(st, t) && HeadIs(st, t, Asleep(s))
  {
  }

  lemma UnmovedWaiters(st: State, st': State)
    requires Waiters(st) && Unmoved(st, st') && !IsBlocked(st, st.current)
    requires forall s :: !HeadIs(st, st.idler, Asleep(s))
    ensures Waiters(st')
  {
    forall s, t | t in WaitersOf(st', s)
      ensures IsBlocked(st', t) && HeadIs(st', t, Asleep(s))
    {
      assert t in WaitersOf(st, s);
      assert IsBlocked(st, t) && HeadIs(st, t, Asleep(s));
      assert Todo(st', t) == Todo(st, t);
    }
  }

  lemma UnmovedCreates(st: State, st': State)
    requires Unmoved(st, st')
    ensures forall t, c :: Creates(st', t, c) <==> Creates(st, t, c)
  {
    forall t, c
      ensures Creates(st', t, c) <==> Creates(st, t, c)
    {
      if t != st.current { assert Todo(st', t) == Todo(st, t); }
    }
  }

  lemma UnmovedParked(st: State, st': State)
    requires Parked(st) && Unmoved(st, st')
    ensures Parked(st')
  {
    UnmovedCreates(st, st');
    forall t | IsBlocked(st', t) && t != st'.idler
      ensures (exists u :: Creates(st', u, t)) || (exists s :: t in WaitersOf(st', s))
    {
      assert IsBlocked(st, t);
      if u :| Creates(st, u, t) {
        assert Creates(st', u, t);
      } else {
        var s :| t in WaitersOf(st, s);
        assert t in WaitersOf(st', s);
      }
    }
  }

  lemma UnmovedNewborns(st: State, st': State)
    requires Newborns(st) && Unmoved(st, st') && !IsBlocked(st, st.current)
    ensures Newborns(st')
  {
    UnmovedCreates(st, st');
    forall t, c | Creates(st', t, c)
      ensures IsBlocked(st', c) && Todo(st', c) == [] && c != st'.idler
    {
      assert Creates(st, t, c);
      assert Todo(st', c) == Todo(st, c);
    }
  }

  // ----- thread_block inside sema_down --------------------------------------------------

  ghost predicate WentToSleep(st: State, st': State, s: SemaId, rest: seq<Op>) {
    && Did(st, st', [Asleep(s)] + rest)
    && OneSema(st, st', s, 0, WaitersOf(st, s) + [st.current])
    && SameBlocked(st, st') && IsBlocked(st', st.current)
  }

  lemma SleepWaiters(st: State, st': State, s: SemaId, rest: seq<Op>)
    requires Waiters(st) && WentToSleep(st, st', s, rest) && !IsBlocked(st, st.current)
    requires forall s :: !HeadIs(st, st.idler, Asleep(s))
    ensures Waiters(st')
  {
    forall r, t | t in WaitersOf(st', r)
      ensures IsBlocked(st', t) && HeadIs(st', t, Asleep(r))
    {
      if t != st.current {
        OnWaiters(st, r, t);
        assert Todo(st', t) == Todo(st, t);
      } else if r != s {
        OnWaiters(st, r, t);
      }
    }
    if st.current in WaitersOf(st, s) { OnWaiters(st, s, st.current); }
  }

  lemma SleepCreates(st: State, st': State, s: SemaId, op: Op, rest: seq<Op>)
    requires WentToSleep(st, st', s, rest) && Todo(st, st.current) == [op] + rest && !op.Unblock?
    ensures forall t, c :: Creates(st', t, c) <==> Creates(st, t, c)
  {
    forall t, c
      ensures Creates(st', t, c) <==> Creates(st, t, c)
    {
      if t != st.current { assert Todo(st', t) == Todo(st, t); }
    }
  }

  lemma SleepParked(st: State, st': State, s: SemaId, op: Op, rest: seq<Op>)
    requires Parked(st) && WentToSleep(st, st', s, rest) && Todo(st, st.current) == [op] + rest && !op.Unblock?
    ensures Parked(st')
  {
    SleepCreates(st, st', s, op, rest);
    forall t | IsBlocked(st', t) && t != st'.idler
      ensures (exists u :: Creates(st', u, t)) || (exists s :: t in WaitersOf(st', s))
    {
      if t == st.current {
        assert t in WaitersOf(st', s);
      } else {
        assert IsBlocked(st, t);
        if u :| Creates(st, u, t) {
          assert Creates(st', u, t);
        } else {
          var r :| t in WaitersOf(st, r);
          assert t in WaitersOf(st', r);
        }
      }
    }
  }

  lemma SleepNewborns(st: State, st': State, s: SemaId, op: Op, rest: seq<Op>)
    requires Newborns(st) && WentToSleep(st, st', s, rest) && Todo(st, st.current) == [op] + rest && !op.Unblock?
    requires !IsBlocked(st, st.current)
    ensures Newborns(st')
  {
    SleepCreates(st, st', s, op, rest);
    forall t, c | Creates(st', t, c)
      ensures IsBlocked(st', c) && Todo(st', c) == [] && c != st'.idler
    {
      assert Creates(st, t, c);
      assert Todo(st', c) == Todo(st, c);
    }
  }

  // ----- sema_up ---------------------------------------------------------------------------

  /** sema_up(s): the first waiter, if there is one, is ready again. */
  ghost predicate Upped(st: State, st': State, s: SemaId) {
    && OthersPlans(st, st') && st'.idler == st.idler
    && (forall c :: Creates(st', st.current, c) <==> Creates(st, st.current, c))
    && (forall r :: r != s ==> WaitersOf(st', r) == WaitersOf(st, r))
    && if WaitersOf(st, s) == [] then
         WaitersOf(st', s) == [] && forall t :: IsBlocked(st', t) <==> IsBlocked(st, t)
       else
         && WaitersOf(st', s) == WaitersOf(st, s)[1..]
         && forall t :: IsBlocked(st', t) <==> IsBlocked(st, t) && t != WaitersOf(st, s)[0]
  }

  lemma UpWaiters(st: State, st': State, s: SemaId)
    requires Waiters(st) && Upped(st, st', s) && !IsBlocked(st, st.current)
    ensures Waiters(st')
  {
    var ws := WaitersOf(st, s);
    forall r, t | t in WaitersOf(st', r)
      ensures IsBlocked(st', t) && HeadIs(st', t, Asleep(r))
    {
      OnWaiters(st, r, t);
      assert Todo(st', t) == Todo(st, t);
      if ws != [] && t == ws[0] { OnWaiters(st, s, t); }
    }
  }

  lemma UpCreates(st: State, st': State, s: SemaId)
    requires Upped(st, st', s)
    ensures forall t, c :: Creates(st', t, c) <==> Creates(st, t, c)
  {
    forall t, c
      ensures Creates(st', t, c) <==> Creates(st, t, c)
    {
      if t != st.current { assert Todo(st', t) == Todo(st, t); }
    }
  }

  lemma UpParked(st: State, st': State, s: SemaId)
    requires Parked(st) && Upped(st, st', s)
    ensures Parked(st')
  {
    UpCreates(st, st', s);
    var ws := WaitersOf(st, s);
    if ws != [] { assert ws == [ws[0]] + ws[1..]; }
    forall t | IsBlocked(st', t) && t != st'.idler
      ensures (exists u :: Creates(st', u, t)) || (exists s :: t in WaitersOf(st', s))
    {
      assert IsBlocked(st, t);
      if u :| Creates(st, u, t) {
        assert Creates(st', u, t);
      } else {
        var r :| t in WaitersOf(st, r);
        assert t in WaitersOf(st', r);
      }
    }
  }

  lemma UpNewborns(st: State, st': State, s: SemaId)
    requires Newborns(st) && Waiters(st) && Upped(st, st', s) && !IsBlocked(st, st.current)
    ensures Newborns(st')
  {
    UpCreates(st, st', s);
    var ws := WaitersOf(st, s);
    if ws != [] { assert ws[0] in ws; }
    forall t, c | Creates(st', t, c)
      ensures IsBlocked(st', c) && Todo(st', c) == [] && c != st'.idler
    {
      assert Creates(st, t, c);
      assert Todo(st', c) == Todo(st, c);
      if ws != [] && c == ws[0] { OnWaiters(st, s, c); }
    }
  }

  // ----- thread_create ------------------------------------------------------------------------

  ghost predicate Conceived(st: State, st': State, child: Page) {
    && child != st.current && child != st.idler && !IsBlocked(st, child) && Todo(st, child) == []
    && Todo(st, st.current) == []
    && OthersPlans(st, st') && st'.idler == st.idler && SameWaiters(st, st')
    && (forall t :: IsBlocked(st', t) <==> IsBlocked(st, t) || t == child)
    && (forall c :: Creates(st', st.current, c) <==> c == child)
  }

  lemma ConceivedPlaces(st: State, st': State, child: Page)
    requires Waiters(st) && Conceived(st, st', child) && !IsBlocked(st, st.current)
    ensures Waiters(st')
  {
    forall s, t | t in WaitersOf(st', s)
      ensures IsBlocked(st', t) && HeadIs(st', t, Asleep(s))
    {
      assert t in WaitersOf(st, s);
      assert Todo(st', t) == Todo(st, t);
    }
  }

  lemma ConceivedCreates(st: State, st': State, child: Page)
    requires Conceived(st, st', child)
    ensures forall t, c :: Creates(st', t, c) <==> Creates(st, t, c) || (t == st.current && c == child)
  {
    forall t, c
      ensures Creates(st', t, c) <==> Creates(st, t, c) || (t == st.current && c == child)
    {
      if t != st.current { assert Todo(st', t) == Todo(st, t); }
    }
  }

  lemma ConceivedParked(st: State, st': State, child: Page)
    requires Parked(st) && Conceived(st, st', child)
    ensures Parked(st')
  {
    ConceivedCreates(st, st', child);
    forall t | IsBlocked(st', t) && t != st'.idler
      ensures (exists u :: Creates(st', u, t)) || (exists s :: t in WaitersOf(st', s))
    {
      if t == child {
        assert Creates(st', st.current, t);
      } else if u :| Creates(st, u, t) {
        assert Creates(st', u, t);
      } else {
        var r :| t in WaitersOf(st, r);
        assert t in WaitersOf(st', r);
      }
    }
  }

  lemma ConceivedNewborns(st: State, st': State, child: Page)
    requires Newborns(st) && Conceived(st, st', child) && !IsBlocked(st, st.current)
    ensures Newborns(st')
  {
    ConceivedCreates(st, st', child);
    forall t, c | Creates(st', t, c)
      ensures IsBlocked(st', c) && Todo(st', c) == [] && c != st'.idler
    {
      if c != child { assert Creates(st, t, c); }
      assert c != st.current;
      assert Todo(st', c) == Todo(st, c);
    }
  }

  // ----- thread_unblock of a new thread ------------------------------------------------------

  ghost predicate Born(st: State, st': State, child: Page) {
    && Todo(st, st.current) == [Unblock(child)] && Todo(st', st.current) == []
    && OthersPlans(st, st') && st'.idler == st.idler && SameWaiters(st, st')
    && (forall t :: IsBlocked(st', t) <==> IsBlocked(st, t) && t != child)
  }

  lemma BornWaiters(st: State, st': State, child: Page)
    requires Waiters(st) && Newborns(st) && Born(st, st', child) && !IsBlocked(st, st.current)
    ensures Waiters(st')
  {
    assert Creates(st, st.current, child);
    forall s, t | t in WaitersOf(st', s)
      ensures IsBlocked(st', t) && HeadIs(st', t, Asleep(s))
    {
      OnWaiters(st, s, t);
      assert Todo(st', t) == Todo(st, t);
    }
  }

  lemma BornCreates(st: State, st': State, child: Page)
    requires Born(st, st', child)
    ensures forall t, c :: Creates(st', t, c) <==> Creates(st, t, c) && t != st.current
  {
    forall t, c
      ensures Creates(st', t, c) <==> Creates(st, t, c) && t != st.current
    {
      if t != st.current { assert Todo(st', t) == Todo(st, t); }
    }
  }

  lemma BornParked(st: State, st': State, child: Page)
    requires Parked(st) && Born(st, st', child)
    ensures Parked(st')
  {
    BornCreates(st, st', child);
    forall t | IsBlocked(st', t) && t != st'.idler
      ensures (exists u :: Creates(st', u, t)) || (exists s :: t in WaitersOf(st', s))
    {
      if u :| Creates(st, u, t) {
        assert u != st.current;
        assert Creates(st', u, t);
      } else {
        var r :| t in WaitersOf(st, r);
        assert t in WaitersOf(st', r);
      }
    }
  }

  lemma BornNewborns(st: State, st': State, child: Page)
    requires Newborns(st) && Born(st, st', child) && !IsBlocked(st, st.current)
    ensures Newborns(st')
  {
    BornCreates(st, st', child);
    assert Creates(st, st.current, child);
    forall t, c | Creates(st', t, c)
      ensures IsBlocked(st', c) && Todo(st', c) == [] && c != st'.idler
    {
      assert Creates(st, t, c);
      assert Todo(st', c) == Todo(st, c);
    }
  }

  // ----- no wake-up is lost ---------------------------------------------------------------------

  lemma WokenSame(st: State, st': State, s: SemaId)
    requires forall t :: HeadIs(st', t, Asleep(s)) <==> HeadIs(st, t, Asleep(s))
    requires WaitersOf(st', s) == WaitersOf(st, s)
    ensures Woken(st', s) == Woken(st, s)
  {
    forall t
      ensures t in Woken(st', s) <==> t in Woken(st, s)
    {
      assert HeadIs(st', t, Asleep(s)) <==> HeadIs(st, t, Asleep(s));
    }
  }

  /** Nobody fell asleep or left sema_down, and no value grew. */
  lemma IdleWakeups(st: State, st': State)
    requires NoLostWakeup(st) && OthersPlans(st, st') && SameWaiters(st, st')
    requires forall s :: Value(st', s) <= Value(st, s)
    requires forall s :: !HeadIs(st, st.current, Asleep(s)) && !HeadIs(st', st.current, Asleep(s))
    ensures NoLostWakeup(st')
  {
    forall s | WaitersOf(st', s) != []
      ensures Value(st', s) <= |Woken(st', s)|
    {
      forall t ensures HeadIs(st', t, Asleep(s)) <==> HeadIs(st, t, Asleep(s)) {
        if t != st.current { assert Todo(st', t) == Todo(st, t); }
      }
      WokenSame(st, st', s);
    }
  }

  /** As IdleWakeups, for steps that change no plan at all. */
  lemma QuietWakeups(st: State, st': State)
    requires NoLostWakeup(st) && SameWaiters(st, st')
    requires forall t :: Todo(st', t) == Todo(st, t)
    requires forall s :: Value(st', s) <= Value(st, s)
    ensures NoLostWakeup(st')
  {
    forall s | WaitersOf(st', s) != []
      ensures Value(st', s) <= |Woken(st', s)|
    {
      WokenSame(st, st', s);
    }
  }

  /** The running thread was woken and takes one from s. */
  lemma TakeWakeups(st: State, st': State, s: SemaId, ops: seq<Op>)
    requires NoLostWakeup(st) && Waiters(st) && !IsBlocked(st, st.current)
    requires HeadIs(st, st.current, Asleep(s)) && Value(st, s) > 0
    requires Did(st, st', ops) && OneSema(st, st', s, Value(st, s) - 1, WaitersOf(st, s))
    requires ops != [] ==> !ops[0].Asleep?
    ensures NoLostWakeup(st')
  {
    forall r | WaitersOf(st', r) != []
      ensures Value(st', r) <= |Woken(st', r)|
    {
      if r == s {
        assert st.current in Woken(st, s);
        assert Woken(st', s) == Woken(st, s) - {st.current} by {
          forall t ensures t in Woken(st', s) <==> t in Woken(st, s) - {st.current} {
            if t != st.current { assert Todo(st', t) == Todo(st, t); }
          }
        }
      } else {
        forall t ensures HeadIs(st', t, Asleep(r)) <==> HeadIs(st, t, Asleep(r)) {
          if t != st.current { assert Todo(st', t) == Todo(st, t); }
        }
        WokenSame(st, st', r);
      }
    }
  }

  lemma SleepWakeups(st: State, st': State, s: SemaId, rest: seq<Op>)
    requires NoLostWakeup(st) && Did(st, st', [Asleep(s)] + rest)
    requires OneSema(st, st', s, 0, WaitersOf(st, s) + [st.current])
    requires forall r :: r != s ==> !HeadIs(st, st.current, Asleep(r))
    ensures NoLostWakeup(st')
  {
    forall r | WaitersOf(st', r) != [] && r != s
      ensures Value(st', r) <= |Woken(st', r)|
    {
      forall t ensures HeadIs(st', t, Asleep(r)) <==> HeadIs(st, t, Asleep(r)) {
        if t != st.current { assert Todo(st', t) == Todo(st, t); }
      }
      WokenSame(st, st', r);
    }
  }

  lemma UpWakeups(st: State, st': State, s: SemaId)
    requires NoLostWakeup(st) && Waiters(st) && Upped(st, st', s)
    requires Value(st', s) == Value(st, s) + 1 && forall r :: r != s ==> Value(st', r) == Value(st, r)
    requires forall r :: !HeadIs(st, st.current, Asleep(r)) && !HeadIs(st', st.current, Asleep(r))
    ensures NoLostWakeup(st')
  {
    forall r | WaitersOf(st', r) != []
      ensures Value(st', r) <= |Woken(st', r)|
    {
      forall t ensures HeadIs(st', t, Asleep(r)) <==> HeadIs(st, t, Asleep(r)) {
        if t != st.current { assert Todo(st', t) == Todo(st, t); }
      }
      if r == s {
        UpWakesOne(st, st', s);
      } else {
        WokenSame(st, st', r);
      }
    }
  }

  lemma UpWakesOne(st: State, st': State, s: SemaId)
    requires Waiters(st) && WaitersOf(st, s) != [] && WaitersOf(st', s) == WaitersOf(st, s)[1..]
    requires forall t :: HeadIs(st', t, Asleep(s)) <==> HeadIs(st, t, Asleep(s))
    ensures |Woken(st', s)| == |Woken(st, s)| + 1
  {
    var ws := WaitersOf(st, s);
    assert ws == [ws[0]] + ws[1..] && ws[0] !in ws[1..];
    OnWaiters(st, s, ws[0]);
    assert HeadIs(st', ws[0], Asleep(s));
    assert ws[0] !in Woken(st, s);
    assert Woken(st', s) == Woken(st, s) + {ws[0]} by {
      forall t ensures t in Woken(st', s) <==> t in Woken(st, s) + {ws[0]} {
        assert HeadIs(st', t, Asleep(s)) <==> HeadIs(st, t, Asleep(s));
      }
    }
  }
}
