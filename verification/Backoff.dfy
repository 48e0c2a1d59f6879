/**
 Exponential backoff with a cap and jitter, over the reals (internal/retry/policy.go:46-60).
 The random draw is a parameter in [0, 1).
 */
module Backoff {

  datatype Policy = Policy(initial: real, max: real, multiplier: real, jitter: real)

  const DEFAULT_POLICY := Policy(1.0, 3600.0, 2.0, 0.1)

  function Pow(m: real, n: nat): real {
    if n == 0 then 1.0 else Pow(m, n - 1) * m
  }

  lemma {:induction false} PowPositive(m: real, n: nat)
    requires m > 0.0
    ensures Pow(m, n) > 0.0
  {
    if n > 0 {
      PowPositive(m, n - 1);
    }
  }

  /** Any whole exponent, as the library's power function takes it. */
  function Power(m: real, e: int): real
    requires e >= 0 || m > 0.0
  {
    if e >= 0 then Pow(m, e)
    else
      PowPositive(m, -e);
      1.0 / Pow(m, -e)
  }

  /** The delay before jitter: geometric growth, capped. */
  function Capped(p: Policy, attempt: int): real
    requires attempt >= 1 || p.multiplier > 0.0
  {
    var delay := p.initial * Power(p.multiplier, attempt - 1);
    if delay > p.max then p.max else delay
  }

  function CalculateDelay(p: Policy, attempt: int, draw: real): real
    requires attempt >= 1 || p.multiplier > 0.0
  {
    var delay := Capped(p, attempt);
    if p.jitter > 0.0 then
      var jitterRange := delay * p.jitter;
      delay + (draw * 2.0 - 1.0) * jitterRange
    else delay
  }

  predicate Draw(r: real) {
    0.0 <= r < 1.0
  }

  predicate Sane(p: Policy) {
    0.0 <= p.initial && 0.0 <= p.max && 1.0 < p.multiplier && 0.0 <= p.jitter < 1.0
  }

  /* Real arithmetic, one product at a time. */

  lemma Scale(a: real, b: real, c: real, ca: real, cb: real)
    requires a < b && c > 0.0 && ca == c * a && cb == c * b
    ensures ca < cb
  {
  }

  lemma ScaleLe(a: real, b: real, c: real, ca: real, cb: real)
    requires a <= b && c >= 0.0 && ca == c * a && cb == c * b
    ensures ca <= cb
  {
    if a < b && c > 0.0 {
      Scale(a, b, c, ca, cb);
    }
  }

  lemma Associate(a: real, b: real, c: real, ab: real, bc: real)
    requires ab == a * b && bc == b * c
    ensures a * bc == ab * c
  {
  }

  lemma CappedNonNegative(p: Policy, attempt: nat)
    requires Sane(p) && 1 <= attempt
    ensures 0.0 <= Capped(p, attempt)
  {
    var w := Pow(p.multiplier, attempt - 1);
    PowPositive(p.multiplier, attempt - 1);
    ScaleLe(0.0, w, p.initial, 0.0, p.initial * w);
  }

  /** The delay before jitter is the smaller of the geometric term and the cap. */
  lemma CappedIsSmaller(p: Policy, attempt: nat)
    requires 1 <= attempt
    ensures var geometric := p.initial * Pow(p.multiplier, attempt - 1);
            Capped(p, attempt) <= p.max && Capped(p, attempt) <= geometric
            && (Capped(p, attempt) == p.max || Capped(p, attempt) == geometric)
  {
  }

  /** The jittered delay is the capped one times a factor. */
  lemma DelayIsScaled(p: Policy, attempt: nat, draw: real, c: real, t: real, f: real)
    requires Sane(p) && 1 <= attempt && c == Capped(p, attempt)
    requires t == draw * 2.0 - 1.0 && f == 1.0 + t * p.jitter
    ensures CalculateDelay(p, attempt, draw) == c * f
  {
    assert c * (1.0 + t * p.jitter) == c + t * (c * p.jitter);
  }

  /** The factor lies between 1 - J and 1 + J. */
  lemma FactorBounds(j: real, draw: real, t: real, f: real)
    requires 0.0 <= j < 1.0 && Draw(draw) && t == draw * 2.0 - 1.0 && f == 1.0 + t * j
    ensures 1.0 - j <= f <= 1.0 + j && (j > 0.0 ==> f < 1.0 + j)
  {
    ScaleLe(t, 1.0, j, t * j, j);
    ScaleLe(-1.0, t, j, -j, t * j);
    if j > 0.0 {
      Scale(t, 1.0, j, t * j, j);
    }
  }

  /** Every delay lies within (1 - J, 1 + J) times the capped geometric term. */
  lemma {:induction false} DelayWithinJitter(p: Policy, attempt: nat, draw: real)
    requires Sane(p) && 1 <= attempt && Draw(draw)
    ensures var c := Capped(p, attempt);
            c * (1.0 - p.jitter) <= CalculateDelay(p, attempt, draw) <= c * (1.0 + p.jitter)
  {
    var c, t := Capped(p, attempt), draw * 2.0 - 1.0;
    var lo, hi := c * (1.0 - p.jitter), c * (1.0 + p.jitter);
    var f := 1.0 + t * p.jitter;
    var d := c * f;
    CappedNonNegative(p, attempt);
    DelayIsScaled(p, attempt, draw, c, t, f);
    FactorBounds(p.jitter, draw, t, f);
    ScaleLe(f, 1.0 + p.jitter, c, d, hi);
    ScaleLe(1.0 - p.jitter, f, c, lo, d);
  }

  /** Each attempt waits longer than the one before, whatever the two draws. */
  ghost predicate AlwaysLonger(p: Policy, attempt: nat)
    requires 1 <= attempt
  {
    forall r, r' :: Draw(r) && Draw(r') ==> CalculateDelay(p, attempt, r) < CalculateDelay(p, attempt + 1, r')
  }

  /** While the cap is not reached, two delays before jitter are `b` and `b * M`. */
  lemma UncappedPair(p: Policy, attempt: nat, w: real, b: real, c: real)
    requires Sane(p) && p.initial > 0.0 && 1 <= attempt
    requires w == Pow(p.multiplier, attempt - 1) && b == p.initial * w && c == b * p.multiplier && c <= p.max
    ensures b > 0.0 && Capped(p, attempt) == b && Capped(p, attempt + 1) == c
  {
    PowPositive(p.multiplier, attempt - 1);
    Scale(0.0, w, p.initial, 0.0, b);
    Scale(1.0, p.multiplier, b, b, c);
    var w' := Pow(p.multiplier, attempt);
    assert w' == w * p.multiplier;
    Associate(p.initial, w, p.multiplier, b, w');
  }

  /** Fast growth: the longest first delay stays below the shortest second one. */
  lemma GrowingPair(p: Policy, attempt: nat, b: real, c: real, g: real, r: real, r': real)
    requires Sane(p) && p.jitter > 0.0 && 1 <= attempt && b > 0.0 && Draw(r) && Draw(r')
    requires Capped(p, attempt) == b && Capped(p, attempt + 1) == c && c == b * p.multiplier
    requires g == p.multiplier * (1.0 - p.jitter) && g >= 1.0 + p.jitter
    ensures CalculateDelay(p, attempt, r) < CalculateDelay(p, attempt + 1, r')
  {
    var t, t' := r * 2.0 - 1.0, r' * 2.0 - 1.0;
    var f, f' := 1.0 + t * p.jitter, 1.0 + t' * p.jitter;
    DelayIsScaled(p, attempt, r, b, t, f);
    DelayIsScaled(p, attempt + 1, r', c, t', f');
    FactorBounds(p.jitter, r, t, f);
    FactorBounds(p.jitter, r', t', f');
    ProductsGrow(b, p.multiplier, c, 1.0 - p.jitter, g, f, f');
  }

  lemma ProductsGrow(b: real, m: real, c: real, s: real, g: real, f: real, f': real)
    requires b > 0.0 && m > 0.0 && c == b * m && g == m * s && s <= f' && f < g
    ensures b * f < c * f'
  {
    var y := m * f';
    ScaleLe(s, f', m, g, y);
    Scale(f, y, b, b * f, b * y);
    Associate(b, m, f', c, y);
  }

  /** Slow growth: some draw makes the first delay reach the shortest second one. */
  lemma StallingPair(p: Policy, attempt: nat, b: real, c: real, g: real) returns (r: real)
    requires Sane(p) && p.jitter > 0.0 && 1 <= attempt && b > 0.0
    requires Capped(p, attempt) == b && Capped(p, attempt + 1) == c && c == b * p.multiplier
    requires g == p.multiplier * (1.0 - p.jitter) && g < 1.0 + p.jitter
    ensures Draw(r) && CalculateDelay(p, attempt, r) >= CalculateDelay(p, attempt + 1, 0.0)
  {
    var t, f := FactorAtLeast(p.jitter, g);
    r := (t + 1.0) / 2.0;
    DelayIsScaled(p, attempt, r, b, t, f);
    DelayIsScaled(p, attempt + 1, 0.0, c, -1.0, 1.0 - p.jitter);
    ScaleLe(g, f, b, b * g, b * f);
    Associate(b, p.multiplier, 1.0 - p.jitter, c, g);
  }

  lemma FactorAtLeast(j: real, g: real) returns (t: real, f: real)
    requires 0.0 < j < 1.0 && g < 1.0 + j
    ensures -1.0 <= t < 1.0 && f == 1.0 + t * j && f >= g
  {
    var u := (g - 1.0) / j;
    assert u * j == g - 1.0;
    if u < -1.0 {
      t := -1.0;
      Scale(u, -1.0, j, g - 1.0, -j);
    } else {
      t := u;
      assert u < 1.0 by {
        if u >= 1.0 {
          ScaleLe(1.0, u, j, j, g - 1.0);
        }
      }
    }
    f := 1.0 + t * j;
  }

  /**
   Strict growth, exactly: while the cap is not reached, every attempt waits longer than the one before,
   for all draws, if and only if M * (1 - J) >= 1 + J.
   */
  lemma {:induction false} StrictGrowth(p: Policy, attempt: nat)
    requires Sane(p) && p.initial > 0.0 && 1 <= attempt && p.initial * Pow(p.multiplier, attempt) <= p.max
    ensures AlwaysLonger(p, attempt) <==> p.multiplier * (1.0 - p.jitter) >= 1.0 + p.jitter
  {
    var w, w' := Pow(p.multiplier, attempt - 1), Pow(p.multiplier, attempt);
    var b := p.initial * w;
    var c := b * p.multiplier;
    assert w' == w * p.multiplier;
    Associate(p.initial, w, p.multiplier, b, w');
    var g := p.multiplier * (1.0 - p.jitter);
    UncappedPair(p, attempt, w, b, c);
    if p.jitter == 0.0 {
      Scale(1.0, p.multiplier, b, b, c);
    } else if g >= 1.0 + p.jitter {
      forall r, r' | Draw(r) && Draw(r')
        ensures CalculateDelay(p, attempt, r) < CalculateDelay(p, attempt + 1, r')
      {
        GrowingPair(p, attempt, b, c, g, r, r');
      }
    } else {
      var r := StallingPair(p, attempt, b, c, g);
      assert Draw(0.0);
    }
  }

  function Sum(ds: seq<real>): real {
    if ds == [] then 0.0 else Sum(ds[..|ds| - 1]) + ds[|ds| - 1]
  }

  /** The delays before attempts 2, 3, ..., one draw each. */
  function Delays(p: Policy, draws: seq<real>): seq<real> {
    seq(|draws|, i requires 0 <= i < |draws| => CalculateDelay(p, i + 1, draws[i]))
  }

  function Term(a: real, m: real, n: nat): real {
    a * Pow(m, n)
  }

  ghost predicate BelowTerms(ds: seq<real>, a: real, m: real) {
    forall i :: 0 <= i < |ds| ==> ds[i] <= Term(a, m, i)
  }

  lemma DelaysBelowTerms(p: Policy, draws: seq<real>, a: real)
    requires Sane(p) && (forall r <- draws :: Draw(r)) && a == (1.0 + p.jitter) * p.initial
    ensures BelowTerms(Delays(p, draws), a, p.multiplier)
  {
    forall i | 0 <= i < |draws|
      ensures Delays(p, draws)[i] <= Term(a, p.multiplier, i)
    {
      DelayAtMost(p, i + 1, draws[i], a);
    }
  }

  /** a + a * m + ... + a * m^(n - 1), in closed form */
  function GeometricTotal(a: real, m: real, n: nat): real
    requires 1.0 < m
  {
    a * (Pow(m, n) - 1.0) / (m - 1.0)
  }

  /** n delays add up to at most (1 + J) * I * (M^n - 1) / (M - 1). */
  lemma {:induction false} TotalBounded(p: Policy, draws: seq<real>)
    requires Sane(p) && forall r <- draws :: Draw(r)
    ensures Sum(Delays(p, draws)) <= GeometricTotal((1.0 + p.jitter) * p.initial, p.multiplier, |draws|)
  {
    var a := (1.0 + p.jitter) * p.initial;
    var w, q := ClosedForm(a, p.multiplier, |draws|);
    DelaysBelowTerms(p, draws, a);
    DividedBound(Delays(p, draws), a, p.multiplier, w, q);
  }

  lemma ClosedForm(a: real, m: real, n: nat) returns (w: real, q: real)
    requires 1.0 < m
    ensures w == Pow(m, n) && q == a * (w - 1.0) && GeometricTotal(a, m, n) == q / (m - 1.0)
  {
    w := Pow(m, n);
    q := a * (w - 1.0);
  }

  lemma DividedBound(ds: seq<real>, a: real, m: real, w: real, q: real)
    requires 1.0 < m && BelowTerms(ds, a, m) && w == Pow(m, |ds|) && q == a * (w - 1.0)
    ensures Sum(ds) <= q / (m - 1.0)
  {
    var d, total := m - 1.0, Sum(ds);
    GeometricScaled(ds, a, m, d, total, w, q);
    DivideOut(total, d, q, total * d);
  }

  lemma DivideOut(x: real, d: real, q: real, xd: real)
    requires d > 0.0 && xd == x * d && xd <= q
    ensures x <= q / d
  {
    var y := q / d;
    assert y * d == q;
    if x > y {
      Scale(y, x, d, q, xd);
    }
  }

  lemma {:induction false} GeometricScaled(ds: seq<real>, a: real, m: real, d: real, total: real, w: real, q: real)
    requires 1.0 < m && d == m - 1.0 && BelowTerms(ds, a, m)
    requires total == Sum(ds) && w == Pow(m, |ds|) && q == a * (w - 1.0)
    ensures total * d <= q
  {
    if ds == [] {
      assert w == 1.0 && total == 0.0;
    } else {
      var n := |ds| - 1;
      var before, v := Sum(ds[..n]), Pow(m, n);
      assert BelowTerms(ds[..n], a, m);
      GeometricScaled(ds[..n], a, m, d, before, v, a * (v - 1.0));
      OneMoreTerm(before, ds[n], total, m, d, a, v, Term(a, m, n), before * d, w, q);
    }
  }

  /** Arithmetic of one more term of the geometric sum. */
  lemma OneMoreTerm(total: real, x: real, total': real, m: real, d: real, a: real, w: real, aw: real, td: real,
                    w': real, q': real)
    requires d > 0.0 && d == m - 1.0 && aw == a * w && td == total * d && td <= a * (w - 1.0) && x <= aw
    requires total' == total + x && w' == w * m && q' == a * (w' - 1.0)
    ensures total' * d <= q'
  {
    var xd, awd := d * x, d * aw;
    ScaleLe(x, aw, d, xd, awd);
    assert (total + x) * d == td + xd;
    assert awd == a * (w * m) - aw;
    assert a * (w - 1.0) == aw - a;
    assert a * (w * m - 1.0) == a * (w * m) - a;
  }

  lemma DelayAtMost(p: Policy, attempt: nat, draw: real, a: real)
    requires Sane(p) && 1 <= attempt && Draw(draw) && a == (1.0 + p.jitter) * p.initial
    ensures CalculateDelay(p, attempt, draw) <= Term(a, p.multiplier, attempt - 1)
  {
    var w := Pow(p.multiplier, attempt - 1);
    var g, s := p.initial * w, 1.0 + p.jitter;
    var hi := Capped(p, attempt) * s;
    DelayWithinJitter(p, attempt, draw);
    ScaleLe(Capped(p, attempt), g, s, hi, s * g);
    Associate(s, p.initial, w, a, g);
  }

  /** The cap survives the jitter for every draw. */
  ghost predicate CapHolds(p: Policy, attempt: nat)
    requires 1 <= attempt
  {
    forall r :: Draw(r) ==> CalculateDelay(p, attempt, r) <= p.max
  }

  /**
   The cap is not a bound on the delay, since jitter is added after it: no draw exceeds MaxInterval
   exactly when the capped delay leaves room for the whole jitter.
   */
  lemma {:induction false} CapHoldsIff(p: Policy, attempt: nat)
    requires Sane(p) && 1 <= attempt
    ensures CapHolds(p, attempt) <==> Capped(p, attempt) * (1.0 + p.jitter) <= p.max
  {
    var c := Capped(p, attempt);
    var hi := c * (1.0 + p.jitter);
    CappedNonNegative(p, attempt);
    if hi <= p.max {
      forall r | Draw(r)
        ensures CalculateDelay(p, attempt, r) <= p.max
      {
        DelayWithinJitter(p, attempt, r);
      }
    } else {
      var r := OvershootingDraw(p, attempt, c, hi);
      assert CalculateDelay(p, attempt, r) > p.max;
    }
  }

  lemma OvershootingDraw(p: Policy, attempt: nat, c: real, hi: real) returns (r: real)
    requires Sane(p) && 1 <= attempt && c == Capped(p, attempt) && hi == c * (1.0 + p.jitter) && hi > p.max && c >= 0.0
    ensures Draw(r) && CalculateDelay(p, attempt, r) > p.max
  {
    CappedIsSmaller(p, attempt);
    var room := c * p.jitter;
    assert hi == c + room;
    var over := hi - p.max;
    assert 0.0 < over <= room;
    var cut := over / room;
    assert cut * room == over;
    assert 0.0 < cut <= 1.0;
    r := 1.0 - cut / 4.0;
    var t := r * 2.0 - 1.0;
    var f := 1.0 + t * p.jitter;
    DelayIsScaled(p, attempt, r, c, t, f);
    JitterRoom(c, p.jitter, room, cut, t, f);
  }

  lemma JitterRoom(c: real, j: real, room: real, cut: real, t: real, f: real)
    requires room == c * j && t == 1.0 - cut / 2.0 && f == 1.0 + t * j
    ensures c * f == c + room - cut * room / 2.0
  {
    assert c * f == c + t * room;
    assert t * room == room - cut * room / 2.0;
  }

  /** With the default policy the thirteenth attempt may wait longer than the hour it is capped at. */
  lemma DefaultCapExceeded()
    ensures CalculateDelay(DEFAULT_POLICY, 13, 0.75) > DEFAULT_POLICY.max
  {
    assert Pow(2.0, 4) == 16.0;
    assert Pow(2.0, 8) == 256.0;
    assert Pow(2.0, 12) == 4096.0;
  }

  /** The default policy waits about 1, 2, 4, 8 and 16 seconds, each ten percent either way. */
  lemma DefaultDelays(attempt: nat, draw: real)
    requires 1 <= attempt <= 5 && Draw(draw)
    ensures var seconds := if attempt == 1 then 1.0 else if attempt == 2 then 2.0 else if attempt == 3 then 4.0
                           else if attempt == 4 then 8.0 else 16.0;
            0.9 * seconds <= CalculateDelay(DEFAULT_POLICY, attempt, draw) <= 1.1 * seconds
  {
    assert Pow(2.0, 0) == 1.0 && Pow(2.0, 1) == 2.0 && Pow(2.0, 2) == 4.0 && Pow(2.0, 3) == 8.0 && Pow(2.0, 4) == 16.0;
    DelayWithinJitter(DEFAULT_POLICY, attempt, draw);
  }
}
