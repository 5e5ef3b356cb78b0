/** Sets of consecutive page or sector numbers. */
module Intervals {

  /** The numbers from p up to p + n. */
  function Interval(p: nat, n: nat): set<nat> {
    if n == 0 then {} else Interval(p, n - 1) + {p + n - 1}
  }

  lemma {:induction false} IntervalHas(p: nat, n: nat)
    ensures |Interval(p, n)| == n && forall q :: q in Interval(p, n) <==> p <= q < p + n
  {
    if n > 0 { IntervalHas(p, n - 1); }
  }
}
