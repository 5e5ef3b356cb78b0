/** The 64-bit division routines of lib/arithmetic.c, built from a 64-by-32-bit divide. */
module Division {
  import opened Basics

  /** The DIVL instruction: the quotient, or a trap if it does not fit in 32 bits. */
  function Divl(n: nat, d: nat): Option<nat> {
    if d == 0 || n / d >= 0x1_0000_0000 then None else Some(n / d)
  }

  function Pow2(n: nat): (r: nat)
    ensures r > 0
  {
    if n == 0 then 1 else 2 * Pow2(n - 1)
  }

  /** One step of nlz(): if x leaves the top k bits clear, count them and shift them out. */
  function Shifted(p: (nat, nat), k: nat, limit: nat): (nat, nat) {
    if p.0 <= limit then (p.0 * Pow2(k), p.1 + k) else p
  }

  /** nlz() of a nonzero 32-bit word. */
  function Nlz(x: nat): nat {
    var p := Shifted((x, 0), 16, 0x0000_FFFF);
    var p := Shifted(p, 8, 0x00FF_FFFF);
    var p := Shifted(p, 4, 0x0FFF_FFFF);
    var p := Shifted(p, 2, 0x3FFF_FFFF);
    if p.0 <= 0x7FFF_FFFF then p.1 + 1 else p.1
  }

  /** The branch of udiv64() for a divisor of 32 bits. */
  function Narrow(n: nat, d: nat): Option<nat>
    requires d > 0
  {
    var n1, n0 := n / 0x1_0000_0000, n % 0x1_0000_0000;
    match Divl(0x1_0000_0000 * (n1 % d) + n0, d)
    case None => None
    case Some(q) => Some((q + 0x1_0000_0000 * (n1 / d)) % 0x1_0000_0000_0000_0000)
  }

  /** (d << s) >> 32 in 64 bits. */
  function HighWord(d: nat, s: nat): nat {
    d * Pow2(s) % 0x1_0000_0000_0000_0000 / 0x1_0000_0000
  }

  /** q >> k */
  function ShiftRight(q: nat, k: nat): nat {
    if k == 0 then q else ShiftRight(q, k - 1) / 2
  }

  function EstimateFrom(n: nat, v: nat, s: nat): Option<nat> {
    match Divl(n / 2, v)
    case None => None
    case Some(q) => Some(ShiftRight(q, if s <= 31 then 31 - s else 0))
  }

  /** The estimate of the quotient in the other branch. */
  function Estimate(n: nat, d: nat): Option<nat> {
    var s := Nlz(d / 0x1_0000_0000);
    EstimateFrom(n, HighWord(d, s), s)
  }

  /** The correction of an estimate, in 64-bit arithmetic. */
  function Corrected(n: nat, d: nat, q: nat): nat {
    var less := (q + 0xFFFF_FFFF_FFFF_FFFF) % 0x1_0000_0000_0000_0000;
    if (n - less * d) % 0x1_0000_0000_0000_0000 < d then less else q
  }

  /** udiv64() */
  function Udiv64(n: nat, d: nat): Option<nat> {
    if d == 0 then None
    else if d / 0x1_0000_0000 == 0 then Narrow(n, d)
    else if n < d then Some(0)
    else
      match Estimate(n, d)
      case None => None
      case Some(q) => Some(Corrected(n, d, q))
  }

  // ----- division ------------------------------------------------------------------------------

  lemma {:induction false} AtLeast(k: nat, m: nat)
    requires k >= 1
    ensures k * m >= m
    decreases k
  {
    if k > 1 {
      AtLeast(k - 1, m);
      assert k * m == (k - 1) * m + m;
    }
  }

  lemma Difference(p: nat, q: nat, m: nat)
    requires q <= p
    ensures (p - q) * m == p * m - q * m
  {
  }

  lemma Unique(m: nat, q: nat, r: nat, p: nat, s: nat)
    requires q * m + r == p * m + s && r < m && s < m
    ensures q == p
  {
    if q < p {
      Difference(p, q, m);
      AtLeast(p - q, m);
    } else if q > p {
      Difference(q, p, m);
      AtLeast(q - p, m);
    }
  }

  lemma DivIs(a: nat, m: nat, q: nat, r: nat)
    requires m > 0 && a == q * m + r && r < m
    ensures a / m == q
  {
    var p, s := a / m, a % m;
    DivMod(a, m);
    Unique(m, q, r, p, s);
  }

  lemma DivMod(a: nat, m: nat)
    requires m > 0
    ensures a == a / m * m + a % m && a % m < m
  {
  }

  lemma {:induction false} MulMono(a: nat, b: nat, m: nat)
    requires a <= b
    ensures a * m <= b * m
    decreases b
  {
    Difference(b, a, m);
    if a < b { AtLeast(b - a, m); }
  }

  lemma Nested(a: nat, b: nat, c: nat, q: nat, r: nat, t: nat)
    requires a == (q * c + r) * b + t
    ensures a == q * (b * c) + (r * b + t)
  {
    assert (q * c + r) * b == q * (b * c) + r * b;
  }

  lemma NestedSmall(b: nat, c: nat, r: nat, t: nat)
    requires r < c && t < b
    ensures r * b + t < b * c && b * c > 0
  {
    MulMono(r + 1, c, b);
    assert (r + 1) * b == r * b + b;
    assert c * b == b * c;
  }

  /** Dividing twice is dividing by the product. */
  lemma DivDiv(a: nat, b: nat, c: nat)
    requires b > 0 && c > 0
    ensures b * c > 0 && a / b / c == a / (b * c)
  {
    DivMod(a, b);
    DivMod(a / b, c);
    var q, r, t := a / b / c, a / b % c, a % b;
    Nested(a, b, c, q, r, t);
    NestedSmall(b, c, r, t);
    DivIs(a, b * c, q, r * b + t);
  }

  lemma DivLess(x: nat, m: nat, k: nat)
    requires m > 0 && x < k * m
    ensures x / m < k
  {
    DivMod(x, m);
    if x / m >= k { MulMono(k, x / m, m); }
  }

  lemma Increment(q: nat, k: nat, m: nat)
    requires q < k
    ensures q * m + m <= k * m
  {
    MulMono(q + 1, k, m);
    assert (q + 1) * m == q * m + m;
  }

  lemma DivAtLeast(x: nat, m: nat, k: nat)
    requires m > 0 && x >= k * m
    ensures x / m >= k
  {
    DivMod(x, m);
    if x / m < k { Increment(x / m, k, m); }
  }

  // ----- divisors of 32 bits ---------------------------------------------------------------------

  lemma Recompose(n1: nat, n0: nat, t: nat, r1: nat, d: nat, q: nat, r: nat)
    requires n1 == t * d + r1 && 0x1_0000_0000 * r1 + n0 == q * d + r
    ensures 0x1_0000_0000 * n1 + n0 == (q + 0x1_0000_0000 * t) * d + r
  {
    assert (q + 0x1_0000_0000 * t) * d == q * d + 0x1_0000_0000 * (t * d);
  }

  lemma NarrowAt(n: nat, n1: nat, n0: nat, t: nat, r1: nat, d: nat)
    requires n == 0x1_0000_0000 * n1 + n0 && n0 < 0x1_0000_0000 && n1 == t * d + r1 && r1 < d
    ensures var x := 0x1_0000_0000 * r1 + n0; x / d < 0x1_0000_0000 && n / d == x / d + 0x1_0000_0000 * t
  {
    var x := 0x1_0000_0000 * r1 + n0;
    DivLess(x, d, 0x1_0000_0000);
    DivMod(x, d);
    var q, r := x / d, x % d;
    Recompose(n1, n0, t, r1, d, q, r);
    DivIs(n, d, q + 0x1_0000_0000 * t, r);
  }

  /** With a divisor of 32 bits the divide does not trap, and the two parts add up. */
  lemma NarrowFits(n: nat, d: nat)
    requires 0 < d
    ensures var n1 := n / 0x1_0000_0000; var x := 0x1_0000_0000 * (n1 % d) + n % 0x1_0000_0000;
      x / d < 0x1_0000_0000 && n / d == x / d + 0x1_0000_0000 * (n1 / d)
  {
    var n1 := n / 0x1_0000_0000;
    DivMod(n1, d);
    NarrowAt(n, n1, n % 0x1_0000_0000, n1 / d, n1 % d, d);
  }

  // ----- leading zeros ------------------------------------------------------------------------------

  lemma {:induction false} PowAdd(a: nat, b: nat)
    ensures Pow2(a + b) == Pow2(a) * Pow2(b)
    decreases b
  {
    if b > 0 {
      PowAdd(a, b - 1);
      assert Pow2(a + b) == 2 * Pow2(a + (b - 1));
    }
  }

  /** p is x shifted by p.1, has not overflowed, and is at least low. */
  ghost predicate Normal(x: nat, p: (nat, nat), low: nat) {
    p.0 == x * Pow2(p.1) && low <= p.0 < 0x1_0000_0000
  }

  lemma ShiftProduct(x: nat, a: nat, k: nat)
    ensures x * Pow2(a) * Pow2(k) == x * Pow2(a + k)
  {
    PowAdd(a, k);
    assert x * Pow2(a) * Pow2(k) == x * (Pow2(a) * Pow2(k));
  }

  lemma ShiftNormal(x: nat, p: (nat, nat), k: nat, limit: nat, low: nat, m: nat)
    requires Normal(x, p, low) && m == Pow2(k) && (limit + 1) * m == 0x1_0000_0000 && low * m <= limit + 1
    ensures Normal(x, Shifted(p, k, limit), low * m)
  {
    ShiftProduct(x, p.1, k);
    if p.0 <= limit {
      MulMono(low, p.0, m);
      Increment(p.0, limit + 1, m);
    }
  }

  lemma Powers()
    ensures Pow2(1) == 2 && Pow2(2) == 4 && Pow2(4) == 16 && Pow2(8) == 256 && Pow2(16) == 65536
  {
  }

  lemma NlzLast(x: nat, p: (nat, nat))
    requires Normal(x, p, 0x4000_0000)
    ensures Normal(x, Shifted(p, 1, 0x7FFF_FFFF), 0x8000_0000)
  {
    Powers();
    ShiftNormal(x, p, 1, 0x7FFF_FFFF, 0x4000_0000, 2);
  }

  lemma NlzSteps(x: nat)
    requires 0 < x < 0x1_0000_0000
    ensures Normal(x, Shifted(Shifted(Shifted(Shifted((x, 0), 16, 0x0000_FFFF), 8, 0x00FF_FFFF), 4, 0x0FFF_FFFF), 2, 0x3FFF_FFFF), 0x4000_0000)
  {
    Powers();
    var p0 := (x, 0);
    assert Normal(x, p0, 1);
    ShiftNormal(x, p0, 16, 0x0000_FFFF, 1, 65536);
    var p1 := Shifted(p0, 16, 0x0000_FFFF);
    ShiftNormal(x, p1, 8, 0x00FF_FFFF, 65536, 256);
    var p2 := Shifted(p1, 8, 0x00FF_FFFF);
    ShiftNormal(x, p2, 4, 0x0FFF_FFFF, 0x100_0000, 16);
    var p3 := Shifted(p2, 4, 0x0FFF_FFFF);
    ShiftNormal(x, p3, 2, 0x3FFF_FFFF, 0x1000_0000, 4);
  }

  /** nlz() is the shift that brings the highest bit to the top. */
  lemma NlzIs(x: nat)
    requires 0 < x < 0x1_0000_0000
    ensures Nlz(x) <= 31 && 0x8000_0000 <= x * Pow2(Nlz(x)) < 0x1_0000_0000
  {
    NlzSteps(x);
    var p := Shifted(Shifted(Shifted(Shifted((x, 0), 16, 0x0000_FFFF), 8, 0x00FF_FFFF), 4, 0x0FFF_FFFF), 2, 0x3FFF_FFFF);
    NlzLast(x, p);
    assert Shifted(p, 1, 0x7FFF_FFFF).1 == Nlz(x);
  }

  // ----- wide divisors ----------------------------------------------------------------------------------

  lemma Square(p: nat, v: nat)
    requires v >= 0x8000_0000 && p > 0
    ensures 0x1_0000_0000_0000_0000 * (p - 1) <= v * p * (v * p)
  {
    MulMono(0x8000_0000, v, p);
    var e, f := v * p, 0x8000_0000 * p;
    MulMono(f, e, f);
    MulMono(f, e, e);
    assert f * f == 0x4000_0000_0000_0000 * (p * p);
    assert e * f == f * e;
    assert p * p >= 4 * p - 4 by { assert (p - 2) * (p - 2) >= 0; assert (p - 2) * (p - 2) == p * p - 4 * p + 4; }
  }

  /** With e below d by less than p, and large enough, n / e exceeds n / d by less than one. */
  lemma Close(n: nat, d: nat, e: nat, p: nat, v: nat)
    requires e == v * p && e <= d < e + p && v >= 0x8000_0000 && p > 0 && n < 0x1_0000_0000_0000_0000
    ensures n * (d - e) < d * e
  {
    var g := d - e;
    Square(p, v);
    MulMono(e, d, e);
    AtLeast(v, p);
    if g == 0 {
      assert n * g == 0;
      AtLeast(d, e);
    } else {
      MulMono(g, p - 1, n);
      assert g * n == n * g;
      Increment(n, 0x1_0000_0000_0000_0000, p - 1);
      assert (p - 1) * n == n * (p - 1);
    }
  }

  /** So the quotient by e is that by d, or one more. */
  lemma CloseQuotient(n: nat, d: nat, e: nat)
    requires 0 < e <= d && n * (d - e) < d * e
    ensures n / d <= n / e <= n / d + 1
  {
    DivMod(n, d);
    DivMod(n, e);
    var q0, q := n / d, n / e;
    MulMono(e, d, q0);
    assert e * q0 == q0 * e && d * q0 == q0 * d;
    DivAtLeast(n, e, q0);
    NotFar(n, d, e, q0, q);
  }

  lemma Cancel(a: nat, b: nat, e: nat)
    requires a * e < b * e
    ensures a < b
  {
    if a >= b { MulMono(b, a, e); }
  }

  lemma Rearrange(q0: nat, d: nat, e: nat)
    ensures (q0 + 2) * e * d == (q0 * d + 2 * d) * e
  {
  }

  lemma Spread(n: nat, d: nat, e: nat)
    requires e <= d
    ensures n * (d - e) == n * d - n * e && (n + d) * e == n * e + d * e
  {
  }

  lemma NotFar(n: nat, d: nat, e: nat, q0: nat, q: nat)
    requires 0 < e <= d && n * (d - e) < d * e && q * e <= n && n < q0 * d + d
    ensures q <= q0 + 1
  {
    if q >= q0 + 2 {
      MulMono(q0 + 2, q, e);
      MulMono((q0 + 2) * e, n, d);
      Rearrange(q0, d, e);
      Spread(n, d, e);
      Cancel(q0 * d + 2 * d, n + d, e);
    }
  }

  // ----- putting it together ------------------------------------------------------------------------------

  /** The shifted divisor is d / p, with p * 2^s = 2^32. */
  lemma HighWordIs(d: nat, s: nat, p: nat)
    requires p * Pow2(s) == 0x1_0000_0000 && p > 0 && d * Pow2(s) < 0x1_0000_0000_0000_0000
    ensures HighWord(d, s) == d / p
  {
    var t := Pow2(s);
    DivDiv(d * t, t, p);
    DivIs(d * t, t, d, 0);
    assert t * p == p * t;
  }

  lemma Expand(d1: nat, t: nat)
    ensures (d1 * 0x1_0000_0000 + 0xFFFF_FFFF) * t == 0x1_0000_0000 * (d1 * t) + 0xFFFF_FFFF * t
  {
  }

  /** The shift loses no bits of the divisor. */
  lemma ShiftFits(d: nat, d1: nat, t: nat, p: nat)
    requires d <= d1 * 0x1_0000_0000 + 0xFFFF_FFFF && t > 0 && p * t == 0x1_0000_0000 && d1 * t < 0x1_0000_0000
    ensures d * t < 0x1_0000_0000_0000_0000
  {
    Cancel(d1, p, t);
    Increment(d1, p, t);
    MulMono(d, d1 * 0x1_0000_0000 + 0xFFFF_FFFF, t);
    Expand(d1, t);
  }

  /** And it fills its word. */
  lemma ShiftFills(d: nat, d1: nat, t: nat, p: nat)
    requires d1 * 0x1_0000_0000 <= d && p * t == 0x1_0000_0000 && 0x8000_0000 <= d1 * t
    ensures 0x8000_0000 * p <= d
  {
    MulMono(0x8000_0000, d1 * t, p);
    assert d1 * t * p == d1 * (p * t);
  }

  /** What nlz() makes of the divisor. */
  lemma DivisorIs(d: nat)
    requires 0x1_0000_0000 <= d < 0x1_0000_0000_0000_0000
    ensures var s := Nlz(d / 0x1_0000_0000);
      s <= 31 && HighWord(d, s) == d / Pow2(32 - s) && d / Pow2(32 - s) >= 0x8000_0000
  {
    var d1 := d / 0x1_0000_0000;
    var s := Nlz(d1);
    NlzIs(d1);
    var p, t := Pow2(32 - s), Pow2(s);
    PowAdd(32 - s, s);
    Pow32();
    ShiftFits(d, d1, t, p);
    ShiftFills(d, d1, t, p);
    HighWordIs(d, s, p);
    DivAtLeast(d, p, 0x8000_0000);
  }

  lemma EstimateFromIs(n: nat, d: nat, v: nat, s: nat)
    requires n < 0x1_0000_0000_0000_0000 && d > 0 && s <= 31 && v == d / Pow2(32 - s) && v >= 0x8000_0000
    ensures EstimateFrom(n, v, s).Some? && n / d <= EstimateFrom(n, v, s).value <= n / d + 1
  {
    EstimateAt(n, d, Pow2(32 - s), Pow2(31 - s), v);
    ShiftRightIs(n / 2 / v, 31 - s);
  }

  lemma EstimateIs(n: nat, d: nat)
    requires n < 0x1_0000_0000_0000_0000 && 0x1_0000_0000 <= d < 0x1_0000_0000_0000_0000
    ensures Estimate(n, d).Some? && n / d <= Estimate(n, d).value <= n / d + 1
  {
    DivisorIs(d);
    EstimateFromIs(n, d, HighWord(d, Nlz(d / 0x1_0000_0000)), Nlz(d / 0x1_0000_0000));
  }

  lemma {:induction false} ShiftRightIs(q: nat, k: nat)
    ensures ShiftRight(q, k) == q / Pow2(k)
  {
    if k > 0 {
      ShiftRightIs(q, k - 1);
      DivDiv(q, Pow2(k - 1), 2);
      assert Pow2(k) == Pow2(k - 1) * 2;
    } else {
      DivOne(q);
    }
  }

  lemma Pow32()
    ensures Pow2(32) == 0x1_0000_0000
  {
    PowAdd(16, 16);
    Powers();
  }

  lemma EstimateAt(n: nat, d: nat, p: nat, half: nat, v: nat)
    requires n < 0x1_0000_0000_0000_0000 && p == 2 * half > 0 && v == d / p && v >= 0x8000_0000
    ensures n / 2 / v < 0x1_0000_0000 && n / d <= n / 2 / v / half <= n / d + 1
  {
    MulMono(0x8000_0000, v, 0x1_0000_0000);
    DivLess(n / 2, v, 0x1_0000_0000);
    DivDiv(n, 2, v);
    DivDiv(n, 2 * v, half);
    var e := v * p;
    assert 2 * v * half == e;
    DivMod(d, p);
    Close(n, d, e, p, v);
    AtLeast(v, p);
    CloseQuotient(n, d, e);
  }

  lemma CorrectedAt(n: nat, d: nat, q: nat, q0: nat, r: nat)
    requires n < 0x1_0000_0000_0000_0000 && n == q0 * d + r && r < d && 1 <= q0 <= q <= q0 + 1 && q0 <= n
    ensures Corrected(n, d, q) == q0
  {
    assert (q + 0xFFFF_FFFF_FFFF_FFFF) % 0x1_0000_0000_0000_0000 == q - 1;
    if q == q0 {
      Difference(q0, 1, d);
      assert n - (q0 - 1) * d == d + r;
    } else {
      assert n - q0 * d == r;
    }
  }

  lemma CorrectedIs(n: nat, d: nat, q: nat)
    requires n < 0x1_0000_0000_0000_0000 && 0 < d <= n && n / d <= q <= n / d + 1
    ensures Corrected(n, d, q) == n / d
  {
    DivMod(n, d);
    DivAtLeast(n, d, 1);
    QuotientSize(n, d);
    CorrectedAt(n, d, q, n / d, n % d);
  }

  lemma NarrowIs(n: nat, d: nat)
    requires n < 0x1_0000_0000_0000_0000 && 0 < d
    ensures Narrow(n, d) == Some(n / d)
  {
    NarrowFits(n, d);
    QuotientSize(n, d);
  }

  lemma QuotientSize(a: nat, b: nat)
    requires b > 0
    ensures 0 <= a / b <= a && (a > 0 && b > 1 ==> a / b < a)
  {
    DivMod(a, b);
    AtLeast(b, a / b);
    assert b * (a / b) == a / b * b;
    if b > 1 && a > 0 { MulMono(2, b, a / b); }
  }

  lemma WideIs(n: nat, d: nat)
    requires n < 0x1_0000_0000_0000_0000 && 0x1_0000_0000 <= d < 0x1_0000_0000_0000_0000 && d <= n
    ensures Estimate(n, d).Some? && Corrected(n, d, Estimate(n, d).value) == n / d
  {
    EstimateIs(n, d);
    CorrectedIs(n, d, Estimate(n, d).value);
  }

  /** udiv64() is the quotient rounded down, for all 64-bit n and nonzero d; no divide traps. */
  lemma Udiv64Is(n: nat, d: nat)
    requires n < 0x1_0000_0000_0000_0000 && 0 < d < 0x1_0000_0000_0000_0000
    ensures Udiv64(n, d) == Some(n / d)
  {
    if d < 0x1_0000_0000 {
      assert d / 0x1_0000_0000 == 0;
      NarrowIs(n, d);
    } else if n >= d {
      WideIs(n, d);
    } else {
      DivIs(n, d, 0, n);
    }
  }

  // ----- remainders and signed division -------------------------------------------------------------------

  /** umod64(), which returns 32 bits, from the quotient. */
  function RemainderOf(n: nat, d: nat, q: nat): nat {
    (n - d * q) % 0x1_0000_0000
  }

  function Umod64(n: nat, d: nat): Option<nat> {
    match Udiv64(n, d)
    case None => None
    case Some(q) => Some(RemainderOf(n, d, q))
  }

  lemma RemainderOfIs(n: nat, d: nat)
    requires 0 < d
    ensures RemainderOf(n, d, n / d) == n % d % 0x1_0000_0000
  {
    DivMod(n, d);
    assert n / d * d == d * (n / d);
  }

  /** umod64() is the remainder exactly when that fits in 32 bits. */
  lemma Umod64Is(n: nat, d: nat)
    requires n < 0x1_0000_0000_0000_0000 && 0 < d < 0x1_0000_0000_0000_0000
    ensures Umod64(n, d).Some? && (Umod64(n, d).value == n % d <==> n % d < 0x1_0000_0000)
  {
    Udiv64Is(n, d);
    RemainderOfIs(n, d);
  }

  /** So it is the remainder for every n exactly if the divisor is at most 2^32. */
  lemma Umod64Divisors(d: nat)
    requires 0 < d < 0x1_0000_0000_0000_0000
    ensures (forall n: nat :: n < 0x1_0000_0000_0000_0000 ==> Umod64(n, d) == Some(n % d)) <==> d <= 0x1_0000_0000
  {
    if d <= 0x1_0000_0000 {
      forall n: nat | n < 0x1_0000_0000_0000_0000
        ensures Umod64(n, d) == Some(n % d)
      {
        Umod64Is(n, d);
        DivMod(n, d);
      }
    } else {
      Umod64Short(d);
    }
  }

  /** For every greater divisor 2^32 is its own remainder, and umod64() returns 0. */
  lemma Umod64Short(d: nat)
    requires 0x1_0000_0000 < d < 0x1_0000_0000_0000_0000
    ensures 0x1_0000_0000 % d == 0x1_0000_0000 && Umod64(0x1_0000_0000, d) == Some(0)
  {
    var n := 0x1_0000_0000;
    DivIs(n, d, 0, n);
    DivMod(n, d);
    Udiv64Is(n, d);
    RemainderOfIs(n, d);
  }

  function Abs(x: int): nat {
    if x >= 0 then x else -x
  }

  /** A 64-bit word read as a signed number. */
  function AsSigned(x: int): int {
    var u := x % 0x1_0000_0000_0000_0000;
    if u < 0x8000_0000_0000_0000 then u else u - 0x1_0000_0000_0000_0000
  }

  /** sdiv64() from the quotient of the absolute values, with wrap-around where it does not fit. */
  function Signed(n: int, d: int, q: nat): int {
    if (n < 0) == (d < 0) then AsSigned(q) else AsSigned(-AsSigned(q))
  }

  function Sdiv64(n: int, d: int): Option<int> {
    match Udiv64(Abs(n), Abs(d))
    case None => None
    case Some(q) => Some(Signed(n, d, q))
  }

  /** Division truncated toward zero. */
  function Truncated(n: int, d: int): int
    requires d != 0
  {
    if (n < 0) == (d < 0) then Abs(n) / Abs(d) else -(Abs(n) / Abs(d))
  }

  /** Only 2^63, as a quotient of equal signs, does not fit. */
  lemma SignedFits(n: int, d: int, q: int)
    requires 0 <= q <= 0x8000_0000_0000_0000
    ensures Signed(n, d, q) == (if (n < 0) == (d < 0) then q else -q) <==> !((n < 0) == (d < 0) && q == 0x8000_0000_0000_0000)
    ensures (n < 0) == (d < 0) && q == 0x8000_0000_0000_0000 ==> Signed(n, d, q) == -0x8000_0000_0000_0000
  {
  }

  lemma DivOne(a: nat)
    ensures a / 1 == a
  {
  }

  lemma SignedIs(n: int, d: int)
    requires -0x8000_0000_0000_0000 <= n < 0x8000_0000_0000_0000 && -0x8000_0000_0000_0000 <= d < 0x8000_0000_0000_0000 && d != 0
    ensures Signed(n, d, Abs(n) / Abs(d)) == Truncated(n, d) <==> !(n == -0x8000_0000_0000_0000 && d == -1)
    ensures n == -0x8000_0000_0000_0000 && d == -1 ==> Signed(n, d, Abs(n) / Abs(d)) == n
  {
    var a, b := Abs(n), Abs(d);
    QuotientSize(a, b);
    DivOne(a);
    SignedFits(n, d, a / b);
  }

  /** sdiv64() truncates toward zero, except for the one quotient that does not fit. */
  lemma Sdiv64Is(n: int, d: int)
    requires -0x8000_0000_0000_0000 <= n < 0x8000_0000_0000_0000 && -0x8000_0000_0000_0000 <= d < 0x8000_0000_0000_0000 && d != 0
    ensures Sdiv64(n, d).Some?
    ensures Sdiv64(n, d).value == Truncated(n, d) <==> !(n == -0x8000_0000_0000_0000 && d == -1)
    ensures n == -0x8000_0000_0000_0000 && d == -1 ==> Sdiv64(n, d).value == n
  {
    Udiv64Is(Abs(n), Abs(d));
    SignedIs(n, d);
  }
}
