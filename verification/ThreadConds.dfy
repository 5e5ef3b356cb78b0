/** Condition variables: the signal a waiter is owed is at exactly one place until it is consumed. */
module ThreadConds {
  import opened Basics
  import opened Threads
  import opened ThreadInvariants
  import opened ThreadSteps
  import opened ThreadPlaces

  ghost predicate SameQueues(st: State, st': State) {
    forall c :: QueueOf(st', c) == QueueOf(st, c)
  }

  /** Nothing about waiters changed. */
  ghost predicate WaitersUntouched(st: State, st': State) {
    && SameQueues(st, st') && OthersPlans(st, st')
    && st.semas.Keys <= st'.semas.Keys
    && (forall w: SemaId :: w.OfWaiter? ==> Value(st', w) == Value(st, w))
    && (forall w: SemaId :: w.OfWaiter? ==> (HeadIs(st', st.current, Up(w)) <==> HeadIs(st, st.current, Up(w))))
    && (forall w: SemaId :: w.OfWaiter? ==> (WaitsOn(st', st.current, w) <==> WaitsOn(st, st.current, w)))
  }

  lemma UntouchedFacts(st: State, st': State)
    requires WaitersUntouched(st, st')
    ensures forall c, w :: Queued(st', c, w) <==> Queued(st, c, w)
    ensures forall t, w: SemaId :: w.OfWaiter? ==> (HeadIs(st', t, Up(w)) <==> HeadIs(st, t, Up(w)))
    ensures forall t, w: SemaId :: w.OfWaiter? ==> (WaitsOn(st', t, w) <==> WaitsOn(st, t, w))
  {
    forall t, w: SemaId | w.OfWaiter?
      ensures HeadIs(st', t, Up(w)) <==> HeadIs(st, t, Up(w))
      ensures WaitsOn(st', t, w) <==> WaitsOn(st, t, w)
    {
      if t != st.current { assert Todo(st', t) == Todo(st, t); }
    }
  }

  lemma KeepConds(st: State, st': State)
    requires Conds(st) && WaitersUntouched(st, st')
    ensures Conds(st')
  {
    UntouchedFacts(st, st');
  }

  lemma SameOwed(st: State, st': State, w: SemaId)
    requires w.OfWaiter? && Value(st', w) == Value(st, w)
    requires forall c :: Queued(st', c, w) <==> Queued(st, c, w)
    requires forall t :: HeadIs(st', t, Up(w)) <==> HeadIs(st, t, Up(w))
    ensures Owed(st', w) <==> Owed(st, w)
  {
    if c :| Queued(st, c, w) { assert Queued(st', c, w); }
    if t :| HeadIs(st, t, Up(w)) { assert HeadIs(st', t, Up(w)); }
  }

  lemma KeepSignals(st: State, st': State)
    requires Signals(st) && WaitersUntouched(st, st')
    ensures Signals(st')
  {
    UntouchedFacts(st, st');
    forall w: SemaId | w.OfWaiter?
      ensures Owed(st', w) <==> WaitsOn(st', w.owner, w)
    {
      SameOwed(st, st', w);
    }
  }

  // ----- cond_wait ---------------------------------------------------------------------------

  /** A new waiter w is at the end of c's queue, with nobody's signal yet. */
  ghost predicate Enrolled(st: State, st': State, c: CondId, w: SemaId) {
    && w.OfWaiter? && w.owner == st.current && w !in st.semas && w in st'.semas && st.semas.Keys <= st'.semas.Keys
    && OthersPlans(st, st') && Todo(st, st.current) == []
    && Todo(st', st.current) == [Release(c.lock), Down(w), Down(OfLock(c.lock))]
    && QueueOf(st', c) == QueueOf(st, c) + [w] && (forall d :: d != c ==> QueueOf(st', d) == QueueOf(st, d))
    && Value(st', w) == 0 && (forall v :: v != w ==> Value(st', v) == Value(st, v))
  }

  lemma EnrolledFacts(st: State, st': State, c: CondId, w: SemaId)
    requires Enrolled(st, st', c, w)
    ensures forall d, v :: Queued(st', d, v) <==> Queued(st, d, v) || (d == c && v == w)
    ensures forall t, v: SemaId :: v.OfWaiter? ==> (HeadIs(st', t, Up(v)) <==> HeadIs(st, t, Up(v)))
    ensures forall t, v: SemaId :: v.OfWaiter? ==> (WaitsOn(st', t, v) <==> WaitsOn(st, t, v) || (t == st.current && v == w))
  {
    forall t, v: SemaId | v.OfWaiter?
      ensures HeadIs(st', t, Up(v)) <==> HeadIs(st, t, Up(v))
      ensures WaitsOn(st', t, v) <==> WaitsOn(st, t, v) || (t == st.current && v == w)
    {
      if t != st.current {
        assert Todo(st', t) == Todo(st, t);
      } else {
        assert Todo(st', t)[1] == Down(w);
      }
    }
  }

  lemma UpKnown(st: State, t: Page, w: SemaId)
    requires References(st) && HeadIs(st, t, Up(w))
    ensures w in st.semas
  {
    assert Up(w) in Todo(st, t);
    assert Known(st, Up(w));
  }

  lemma EnrollConds(st: State, st': State, c: CondId, w: SemaId)
    requires Conds(st) && Enrolled(st, st', c, w) && References(st)
    ensures Conds(st')
  {
    EnrolledFacts(st, st', c, w);
    assert forall d :: !Queued(st, d, w);
    assert w !in QueueOf(st, c) by { assert !Queued(st, c, w); }
    assert forall t :: !HeadIs(st, t, Up(w)) by {
      forall t ensures !HeadIs(st, t, Up(w)) {
        if HeadIs(st, t, Up(w)) { UpKnown(st, t, w); }
      }
    }
  }

  lemma EnrollSignals(st: State, st': State, c: CondId, w: SemaId)
    requires Signals(st) && Enrolled(st, st', c, w)
    ensures Signals(st')
  {
    EnrolledFacts(st, st', c, w);
    forall v: SemaId | v.OfWaiter?
      ensures Owed(st', v) <==> WaitsOn(st', v.owner, v)
    {
      if v == w {
        assert Queued(st', c, w);
      } else {
        SameOwed(st, st', v);
      }
    }
  }

  // ----- cond_signal: taking the earliest waiter off the queue ----------------------------------

  ghost predicate Popped(st: State, st': State, c: CondId, rest: seq<Op>) {
    && QueueOf(st, c) != []
    && Did(st, st', [Up(QueueOf(st, c)[0])] + rest)
    && (forall w: SemaId :: w.OfWaiter? ==> !HeadIs(st, st.current, Up(w)))
    && (forall w: SemaId :: w.OfWaiter? ==> !WaitsOn(st, st.current, w))
    && (forall w: SemaId :: Down(w) !in rest)
    && QueueOf(st', c) == QueueOf(st, c)[1..] && (forall d :: d != c ==> QueueOf(st', d) == QueueOf(st, d))
    && st'.semas == st.semas
  }

  lemma PoppedFacts(st: State, st': State, c: CondId, rest: seq<Op>)
    requires Conds(st) && Popped(st, st', c, rest)
    ensures forall d, v :: Queued(st', d, v) <==> Queued(st, d, v) && v != QueueOf(st, c)[0]
    ensures forall t, v: SemaId :: v.OfWaiter? ==>
      (HeadIs(st', t, Up(v)) <==> HeadIs(st, t, Up(v)) || (t == st.current && v == QueueOf(st, c)[0]))
    ensures forall t, v: SemaId :: v.OfWaiter? ==> (WaitsOn(st', t, v) <==> WaitsOn(st, t, v))
  {
    var q := QueueOf(st, c);
    var w := q[0];
    forall d, v
      ensures Queued(st', d, v) <==> Queued(st, d, v) && v != w
    {
      if d == c { assert q == [w] + q[1..]; }
      if d != c && v == w { assert Queued(st, c, w); assert !Queued(st, d, w); }
    }
    forall t, v: SemaId | v.OfWaiter?
      ensures HeadIs(st', t, Up(v)) <==> HeadIs(st, t, Up(v)) || (t == st.current && v == w)
      ensures WaitsOn(st', t, v) <==> WaitsOn(st, t, v)
    {
      if t != st.current {
        assert Todo(st', t) == Todo(st, t);
      } else {
        assert Down(v) !in [Up(w)] + rest;
      }
    }
  }

  lemma PopConds(st: State, st': State, c: CondId, rest: seq<Op>)
    requires Conds(st) && Popped(st, st', c, rest)
    ensures Conds(st')
  {
    PoppedFacts(st, st', c, rest);
    var w := QueueOf(st, c)[0];
    assert Queued(st, c, w);
    assert forall v: SemaId :: Value(st', v) == Value(st, v);
    forall d ensures NoDup(QueueOf(st', d)) { assert NoDup(QueueOf(st, d)); }
  }

  lemma PopSignals(st: State, st': State, c: CondId, rest: seq<Op>)
    requires Conds(st) && Signals(st) && Popped(st, st', c, rest)
    ensures Signals(st')
  {
    PoppedFacts(st, st', c, rest);
    var w := QueueOf(st, c)[0];
    assert Queued(st, c, w);
    forall v: SemaId | v.OfWaiter?
      ensures Owed(st', v) <==> WaitsOn(st', v.owner, v)
    {
      if v == w {
        assert Owed(st, w);
        assert HeadIs(st', st.current, Up(w));
      } else {
        SameOwed(st, st', v);
      }
    }
  }

  // ----- sema_up on a waiter's semaphore ------------------------------------------------------------

  ghost predicate Delivered(st: State, st': State, w: SemaId, rest: seq<Op>) {
    && w.OfWaiter? && Todo(st, st.current) == [Up(w)] + rest && Did(st, st', rest)
    && (forall v: SemaId :: v.OfWaiter? ==> !HeadIs(st', st.current, Up(v)))
    && (forall v: SemaId :: !HeadIs(st', st.current, Asleep(v)))
    && SameQueues(st, st') && st.semas.Keys <= st'.semas.Keys
    && Value(st', w) == Value(st, w) + 1 && (forall v :: v != w ==> Value(st', v) == Value(st, v))
  }

  lemma DeliveredFacts(st: State, st': State, w: SemaId, rest: seq<Op>)
    requires Conds(st) && Delivered(st, st', w, rest)
    ensures forall d, v :: Queued(st', d, v) <==> Queued(st, d, v)
    ensures forall t, v: SemaId :: v.OfWaiter? ==> (HeadIs(st', t, Up(v)) <==> HeadIs(st, t, Up(v)) && v != w)
    ensures forall t, v: SemaId :: v.OfWaiter? ==> (WaitsOn(st', t, v) <==> WaitsOn(st, t, v))
    ensures HeadIs(st, st.current, Up(w))
  {
    assert HeadIs(st, st.current, Up(w));
    forall t, v: SemaId | v.OfWaiter?
      ensures HeadIs(st', t, Up(v)) <==> HeadIs(st, t, Up(v)) && v != w
      ensures WaitsOn(st', t, v) <==> WaitsOn(st, t, v)
    {
      if t != st.current {
        assert Todo(st', t) == Todo(st, t);
        assert !HeadIs(st, t, Up(w));
      }
    }
  }

  lemma DeliverConds(st: State, st': State, w: SemaId, rest: seq<Op>)
    requires Conds(st) && Delivered(st, st', w, rest)
    ensures Conds(st')
  {
    DeliveredFacts(st, st', w, rest);
    assert forall c :: !Queued(st, c, w);
  }

  lemma DeliverSignals(st: State, st': State, w: SemaId, rest: seq<Op>)
    requires Conds(st) && Signals(st) && Delivered(st, st', w, rest)
    ensures Signals(st')
  {
    DeliveredFacts(st, st', w, rest);
    forall v: SemaId | v.OfWaiter?
      ensures Owed(st', v) <==> WaitsOn(st', v.owner, v)
    {
      if v == w {
        assert Owed(st, w);
        assert Value(st', w) == 1;
      } else {
        SameOwed(st, st', v);
      }
    }
  }

  // ----- sema_down on a waiter's semaphore returns ---------------------------------------------------

  ghost predicate Consumed(st: State, st': State, w: SemaId, rest: seq<Op>) {
    && w.OfWaiter? && (HeadIs(st, st.current, Down(w)) || HeadIs(st, st.current, Asleep(w)))
    && Todo(st, st.current) == [Todo(st, st.current)[0]] + rest
    && Did(st, st', rest) && (exists l :: rest == [Down(OfLock(l))])
    && SameQueues(st, st') && st.semas.Keys <= st'.semas.Keys
    && Value(st, w) > 0 && Value(st', w) == Value(st, w) - 1 && (forall v :: v != w ==> Value(st', v) == Value(st, v))
  }

  lemma ConsumedFacts(st: State, st': State, w: SemaId, rest: seq<Op>)
    requires Conds(st) && Consumed(st, st', w, rest)
    ensures forall d, v :: Queued(st', d, v) <==> Queued(st, d, v)
    ensures forall t, v: SemaId :: v.OfWaiter? ==> (HeadIs(st', t, Up(v)) <==> HeadIs(st, t, Up(v)))
    ensures forall t, v: SemaId :: v.OfWaiter? && v != w ==> (WaitsOn(st', t, v) <==> WaitsOn(st, t, v))
    ensures WaitsOn(st, st.current, w) && !WaitsOn(st', st.current, w)
  {
    forall t, v: SemaId | v.OfWaiter?
      ensures HeadIs(st', t, Up(v)) <==> HeadIs(st, t, Up(v))
      ensures v != w ==> (WaitsOn(st', t, v) <==> WaitsOn(st, t, v))
    {
      if t != st.current {
        assert Todo(st', t) == Todo(st, t);
      }
    }
  }

  lemma ConsumeConds(st: State, st': State, w: SemaId, rest: seq<Op>)
    requires Conds(st) && Consumed(st, st', w, rest)
    ensures Conds(st')
  {
    ConsumedFacts(st, st', w, rest);
  }

  lemma ConsumeSignals(st: State, st': State, w: SemaId, rest: seq<Op>)
    requires Conds(st) && Signals(st) && Consumed(st, st', w, rest)
    ensures Signals(st')
  {
    ConsumedFacts(st, st', w, rest);
    assert WaitsOn(st, st.current, w);
    assert w.owner == st.current;
    assert forall c :: !Queued(st, c, w);
    assert forall t :: !HeadIs(st, t, Up(w));
    forall v: SemaId | v.OfWaiter?
      ensures Owed(st', v) <==> WaitsOn(st', v.owner, v)
    {
      if v == w {
        assert forall c :: !Queued(st', c, w);
        assert forall t :: !HeadIs(st', t, Up(w));
      } else {
        SameOwed(st, st', v);
      }
    }
    forall t, v: SemaId | v.OfWaiter? && WaitsOn(st', t, v)
      ensures v.owner == t
    {
      if t != st.current { assert Todo(st', t) == Todo(st, t); }
      assert v != w || t != st.current;
      assert WaitsOn(st, t, v);
    }
  }
}
