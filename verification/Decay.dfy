/** Real arithmetic for first-order lags: powers, products and an explicit rate of decay. */
module Decay {
  import opened Operation

  function Pow(b: real, n: nat): real {
    if n == 0 then 1.0 else Pow(b, n - 1) * b
  }

  function Abs(x: real): real { if x < 0.0 then -x else x }

  lemma ProductGrows(a: real, b: real, c: real, d: real)
    requires 0.0 <= a <= b && 0.0 <= c <= d
    ensures 0.0 <= a * c <= b * d
  {
    assert (b - a) * d >= 0.0;
    assert a * (d - c) >= 0.0;
  }

  /** A weighted mean is monotone in both of its parts. */
  lemma MeanIsMonotone(x: real, y: real, s: real, t: real, alpha: real)
    requires x <= y && s <= t && 0.0 <= alpha <= 1.0
    ensures x + (s - x) * alpha <= y + (t - y) * alpha
  {
    assert (y - x) * (1.0 - alpha) >= 0.0;
    assert (t - s) * alpha >= 0.0;
  }

  lemma MeanIsBetween(x: real, t: real, low: real, high: real, alpha: real)
    requires low <= x <= high && low <= t <= high && 0.0 <= alpha <= 1.0
    ensures low <= x + (t - x) * alpha <= high
  {
    MeanIsMonotone(low, x, low, t, alpha);
    MeanIsMonotone(x, high, t, high, alpha);
  }

  lemma {:induction false} PowInUnit(b: real, n: nat)
    requires 0.0 <= b <= 1.0
    ensures 0.0 <= Pow(b, n) <= 1.0
  {
    if n > 0 {
      PowInUnit(b, n - 1);
      ProductGrows(0.0, Pow(b, n - 1), 0.0, b);
      ProductGrows(Pow(b, n - 1), 1.0, b, 1.0);
    }
  }

  lemma Scale(p: real, x: real, y: real)
    requires 0.0 <= p && x <= y
    ensures p * x <= p * y
  {
    assert p * (y - x) >= 0.0;
  }

  lemma BernoulliStep(a: real, m: real)
    requires 0.0 < a <= 1.0 && m >= 0.0
    ensures (1.0 - a) * (1.0 + (m + 1.0) * a) <= 1.0 + m * a
  {
    var aa := a * a;
    assert (1.0 - a) * (1.0 + (m + 1.0) * a) == 1.0 + m * a - aa * (m + 1.0);
    Scale(aa, 0.0, m + 1.0);
  }

  /** Bernoulli's inequality, read as a decay: `(1-a)^n (1+na) <= 1`. */
  lemma {:induction false} PowDecays(a: real, n: nat)
    requires 0.0 < a <= 1.0
    ensures Pow(1.0 - a, n) * (1.0 + n as real * a) <= 1.0
  {
    if n > 0 {
      var p, m := Pow(1.0 - a, n - 1), (n - 1) as real;
      PowDecays(a, n - 1);
      PowInUnit(1.0 - a, n - 1);
      BernoulliStep(a, m);
      Scale(p, (1.0 - a) * (1.0 + (m + 1.0) * a), 1.0 + m * a);
      assert n as real == m + 1.0;
      Regroup(p, 1.0 - a, 1.0 + (m + 1.0) * a);
    }
  }

  lemma Regroup(p: real, q: real, r: real)
    ensures (p * q) * r == p * (q * r)
  {
  }

  /** Enough steps for `m (1-a)^n` to come down to `eps`. */
  function StepsTo(a: real, m: real, eps: real): (n: nat)
    requires 0.0 < a <= 1.0 && m >= 0.0 && eps > 0.0
    ensures n as real * a >= m / eps
  {
    var x := m / eps / a;
    assert x >= 0.0;
    var n := x.Floor + 1;
    assert n as real * a >= x * a;
    n
  }

  lemma ScaleBack(p: real, r: real, eps: real)
    requires p * r <= 1.0 && eps > 0.0
    ensures p * (r * eps) <= eps
  {
    Regroup(p, r, eps);
    Scale(eps, p * r, 1.0);
  }

  /** From `p (1 + n a) <= 1` and `n a >= r`, with `m = r eps`: `p m <= eps`. */
  lemma EnoughSteps(p: real, s: real, r: real, eps: real)
    requires 0.0 <= p && p * (1.0 + s) <= 1.0 && s >= r && eps > 0.0
    ensures p * (r * eps) <= eps
  {
    Scale(p, r, 1.0 + s);
    ScaleBack(p, r, eps);
  }

  lemma StepsSuffice(a: real, m: real, eps: real, n: nat)
    requires 0.0 < a <= 1.0 && m >= 0.0 && eps > 0.0 && n >= StepsTo(a, m, eps)
    ensures 0.0 <= Pow(1.0 - a, n) * m <= eps
  {
    PowInUnit(1.0 - a, n);
    Scale(Pow(1.0 - a, n), 0.0, m);
    assert n as real * a >= m / eps by { StepsAreEnough(a, m, eps, n); }
    PowDecays(a, n);
    EnoughSteps(Pow(1.0 - a, n), n as real * a, m / eps, eps);
    Quotient(m, eps);
  }

  lemma Quotient(m: real, eps: real)
    requires eps > 0.0
    ensures m / eps * eps == m
  {
  }

  lemma StepsAreEnough(a: real, m: real, eps: real, n: nat)
    requires 0.0 < a <= 1.0 && m >= 0.0 && eps > 0.0 && n >= StepsTo(a, m, eps)
    ensures n as real * a >= m / eps
  {
    Scale(a, StepsTo(a, m, eps) as real, n as real);
  }

  /** `Abs` of a weighted mean. */
  lemma AbsOfMean(e: real, d: real, alpha: real, bound: real, inner: real)
    requires 0.0 <= alpha <= 1.0 && Abs(e) <= bound && Abs(d) <= inner
    ensures Abs(e + (d - e) * alpha) <= bound + (inner - bound) * alpha
  {
    MeanIsMonotone(e, bound, d, inner, alpha);
    MeanIsMonotone(-bound, e, -inner, d, alpha);
  }

  // ---------- Sequences ----------

  /** What is left of `v` after `n` steps that each take the share `a`. */
  function Left(v: real, a: real, n: nat): real {
    if n == 0 then v else Left(v, a, n - 1) * (1.0 - a)
  }

  lemma {:induction false} LeftIsPower(v: real, a: real, n: nat)
    ensures Left(v, a, n) == Pow(1.0 - a, n) * v
  {
    if n > 0 {
      LeftIsPower(v, a, n - 1);
      Regroup(Pow(1.0 - a, n - 1), 1.0 - a, v);
      Regroup(Pow(1.0 - a, n - 1), v, 1.0 - a);
    }
  }

  /** The same, in closed form. */
  function Decayed(v: real, a: real, n: nat): real { Pow(1.0 - a, n) * v }

  lemma LeftIsDecayed(v: real, a: real, n: nat)
    ensures Left(v, a, n) == Decayed(v, a, n)
  {
    LeftIsPower(v, a, n);
  }

  lemma EqualProducts(p: real, x: real, y: real)
    requires x == y
    ensures p * x == p * y
  {
  }

  lemma AbsOfProduct(x: real, y: real)
    ensures Abs(x * y) == Abs(x) * Abs(y)
  {
    var p, q := Abs(x), Abs(y);
    if x < 0.0 && y < 0.0 {
      assert p * q == x * y && p * q >= 0.0;
    } else if x < 0.0 {
      assert p * q == -(x * y) && p * q >= 0.0;
    } else if y < 0.0 {
      assert p * q == -(x * y) && p * q >= 0.0;
    } else {
      assert p * q == x * y && p * q >= 0.0;
    }
  }

  lemma {:induction false} AbsOfPow(b: real, n: nat)
    ensures Abs(Pow(b, n)) == Pow(Abs(b), n)
  {
    if n > 0 {
      AbsOfPow(b, n - 1);
      AbsOfProduct(Pow(b, n - 1), b);
    }
  }

  /** What a share is worth that may take more than there is: the rate at which sizes shrink. */
  function Rate(a: real): real { 1.0 - Abs(1.0 - a) }

  lemma SizeOfDecayed(v: real, a: real, n: nat)
    ensures Abs(Decayed(v, a, n)) == Pow(1.0 - Rate(a), n) * Abs(v)
  {
    AbsOfProduct(Pow(1.0 - a, n), v);
    AbsOfPow(1.0 - a, n);
    assert 1.0 - Rate(a) == Abs(1.0 - a);
  }

  lemma DecayedIsSmall(v: real, a: real, eps: real, n: nat)
    requires 0.0 < a < 2.0 && eps > 0.0 && n >= StepsTo(Rate(a), Abs(v), eps)
    ensures Abs(Decayed(v, a, n)) <= eps
  {
    SizeOfDecayed(v, a, n);
    StepsSuffice(Rate(a), Abs(v), eps, n);
  }

  lemma {:induction false} PowGrows(b: real, n: nat)
    requires b >= 1.0
    ensures Pow(b, n) >= 1.0
  {
    if n > 0 {
      PowGrows(b, n - 1);
      ProductGrows(1.0, Pow(b, n - 1), 1.0, b);
    }
  }

  lemma DecayedIsLarge(v: real, a: real, n: nat)
    requires a >= 2.0
    ensures Abs(Decayed(v, a, n)) >= Abs(v)
  {
    SizeOfDecayed(v, a, n);
    PowGrows(1.0 - Rate(a), n);
    Scale(Abs(v), 1.0, Pow(1.0 - Rate(a), n));
  }

  lemma ShareTaken(v: real, a: real)
    requires 0.0 < a < 1.0 && v >= 0.0
    ensures 0.0 <= v * (1.0 - a) <= v
  {
    Scale(v, 0.0, 1.0 - a);
    Scale(v, 1.0 - a, 1.0);
  }

  lemma {:induction false} LeftShrinks(v: real, a: real, n: nat)
    requires 0.0 < a < 1.0 && v >= 0.0
    ensures 0.0 <= Left(v, a, n) <= v
    ensures n > 0 ==> Left(v, a, n) <= Left(v, a, n - 1)
  {
    if n > 0 {
      LeftShrinks(v, a, n - 1);
      ShareTaken(Left(v, a, n - 1), a);
    }
  }

  lemma {:induction false} LeftThroughout(v: seq<real>, a: real, n: nat)
    requires n < |v| && forall k: nat | k < n :: v[k + 1] == v[k] * (1.0 - a)
    ensures v[n] == Left(v[0], a, n)
  {
    if n > 0 { LeftThroughout(v, a, n - 1); }
  }

  lemma LeftVanishes(v: real, a: real, eps: real, n: nat)
    requires 0.0 < a < 1.0 && v >= 0.0 && eps > 0.0 && n >= StepsTo(a, v, eps)
    ensures Left(v, a, n) <= eps
  {
    LeftIsPower(v, a, n);
    StepsSuffice(a, v, eps, n);
    var q := Pow(1.0 - a, n) * v;
    assert q <= eps;
  }

  /** Along a run, action `k` takes the share `a` if it is a tick, and nothing otherwise. */
  ghost predicate LosesAt(v: seq<real>, actions: seq<Action>, a: real, k: nat)
    requires |v| == |actions| + 1
  {
    k < |actions| ==> v[k + 1] == if actions[k].Tick? then v[k] * (1.0 - a) else v[k]
  }

  lemma {:induction false} LeftAlong(v: seq<real>, actions: seq<Action>, a: real, n: nat)
    requires |v| == |actions| + 1 && n <= |actions| && forall k: nat | k < n :: LosesAt(v, actions, a, k)
    ensures v[n] == Left(v[0], a, Ticks(actions, n))
  {
    if n > 0 {
      LeftAlong(v, actions, a, n - 1);
      assert LosesAt(v, actions, a, n - 1);
    }
  }

  /** What loses the same share at every tick decays geometrically in their number. */
  lemma DecayedAlong(v: seq<real>, actions: seq<Action>, a: real, n: nat)
    requires |v| == |actions| + 1 && n <= |actions| && forall k: nat | k < n :: LosesAt(v, actions, a, k)
    ensures v[n] == Decayed(v[0], a, Ticks(actions, n))
  {
    LeftAlong(v, actions, a, n);
    LeftIsDecayed(v[0], a, Ticks(actions, n));
  }

  /** `e` is drawn towards `d` by a first-order lag. */
  ghost predicate Relaxes(e: int -> real, d: int -> real, a: real) {
    forall k: nat :: RelaxesAt(e, d, a, k)
  }

  ghost predicate RelaxesAt(e: int -> real, d: int -> real, a: real, k: nat) {
    e(k + 1) == e(k) + (d(k) - e(k)) * a
  }

  lemma StaysBounded(e: real, d: real, a: real, bound: real)
    requires 0.0 < a < 1.0 && Abs(e) <= bound && Abs(d) <= bound
    ensures Abs(e + (d - e) * a) <= bound
  {
    AbsOfMean(e, d, a, bound, bound);
  }

  /** The error never exceeds its first value by more than the bound on what draws it. */
  lemma {:induction false} ErrorIsBounded(e: int -> real, d: int -> real, a: real, bound: real, n: nat)
    requires Relaxes(e, d, a) && 0.0 < a < 1.0
    requires Abs(e(0)) <= bound && forall k: nat :: Abs(d(k)) <= bound
    ensures Abs(e(n)) <= bound
  {
    if n > 0 {
      ErrorIsBounded(e, d, a, bound, n - 1);
      assert RelaxesAt(e, d, a, n - 1);
      StaysBounded(e(n - 1), d(n - 1), a, bound);
    }
  }

  ghost predicate Near(x: real, bound: real, a: real, m: nat, delta: real) {
    Abs(x) <= Left(bound, a, m) + delta
  }

  /** From step `k` on, while `d` is at most `delta`, the error shrinks geometrically to within `delta`. */
  lemma {:induction false} ErrorShrinks(e: int -> real, d: int -> real, a: real, bound: real, delta: real, k: nat,
                                        m: nat)
    requires Relaxes(e, d, a) && 0.0 < a < 1.0 && delta >= 0.0
    requires Abs(e(k)) <= bound && forall n: nat :: n >= k ==> Abs(d(n)) <= delta
    ensures Near(e(k + m), bound, a, m, delta)
  {
    if m > 0 {
      ErrorShrinks(e, d, a, bound, delta, k, m - 1);
      assert RelaxesAt(e, d, a, k + m - 1);
      NearNext(e(k + m - 1), d(k + m - 1), bound, a, m, delta);
    }
  }

  lemma NearNext(e: real, d: real, bound: real, a: real, m: nat, delta: real)
    requires m > 0 && 0.0 < a < 1.0 && Near(e, bound, a, m - 1, delta) && Abs(d) <= delta
    ensures Near(e + (d - e) * a, bound, a, m, delta)
  {
    ShrinkStep(e, d, a, Left(bound, a, m - 1), delta);
  }

  lemma ShrinkStep(e: real, d: real, a: real, last: real, delta: real)
    requires 0.0 < a < 1.0 && Abs(e) <= last + delta && Abs(d) <= delta
    ensures Abs(e + (d - e) * a) <= last * (1.0 - a) + delta
  {
    AbsOfMean(e, d, a, last + delta, delta);
    assert last + delta + (delta - (last + delta)) * a == last * (1.0 - a) + delta;
  }

  /** After how many steps two cascaded lags have settled to within `eps`. */
  function SettlingSteps(a: real, b: real, first: real, excess: real, eps: real): nat
    requires 0.0 < a < 1.0 && 0.0 < b < 1.0 && first >= 0.0 && excess >= 0.0 && eps > 0.0
  {
    StepsTo(b, excess, eps / 2.0) + StepsTo(a, first + excess, eps / 2.0)
  }

  /** What `d` decays like what is left of `excess` is at most `excess` always and at most `half` eventually. */
  lemma PullIsBounded(d: int -> real, b: real, excess: real, half: real)
    requires 0.0 < b < 1.0 && excess >= 0.0 && half > 0.0
    requires forall k: nat :: Abs(d(k)) <= Left(excess, b, k)
    ensures forall m: nat :: Abs(d(m)) <= excess
    ensures forall m: nat :: m >= StepsTo(b, excess, half) ==> Abs(d(m)) <= half
  {
    forall m: nat ensures Abs(d(m)) <= excess {
      LeftShrinks(excess, b, m);
    }
    forall m: nat | m >= StepsTo(b, excess, half) ensures Abs(d(m)) <= half {
      LeftVanishes(excess, b, half, m);
    }
  }

  lemma SettlesOnce(e: int -> real, d: int -> real, a: real, bound: real, half: real, k: nat, m: nat)
    requires Relaxes(e, d, a) && 0.0 < a < 1.0 && bound >= 0.0 && half > 0.0 && m >= StepsTo(a, bound, half)
    requires Abs(e(0)) <= bound && forall n: nat :: Abs(d(n)) <= bound
    requires forall n: nat :: n >= k ==> Abs(d(n)) <= half
    ensures Abs(e(k + m)) <= half + half
  {
    ErrorIsBounded(e, d, a, bound, k);
    ErrorShrinks(e, d, a, bound, half, k, m);
    LeftVanishes(bound, a, half, m);
  }

  /** A lag with gain `a`, drawn by something that itself decays with gain `b`, settles on zero. */
  lemma CascadeSettles(e: int -> real, d: int -> real, a: real, b: real, excess: real, eps: real, n: nat)
    requires Relaxes(e, d, a) && 0.0 < a < 1.0 && 0.0 < b < 1.0 && excess >= 0.0 && eps > 0.0
    requires forall k: nat :: Abs(d(k)) <= Left(excess, b, k)
    requires n >= SettlingSteps(a, b, Abs(e(0)), excess, eps)
    ensures Abs(e(n)) <= eps
  {
    var half, k := eps / 2.0, StepsTo(b, excess, eps / 2.0);
    PullIsBounded(d, b, excess, half);
    assert k + (n - k) == n;
    SettlesOnce(e, d, a, Abs(e(0)) + excess, half, k, n - k);
  }

  /** What is drawn towards non-negative values from a non-negative one stays non-negative. */
  lemma {:induction false} StaysAbove(e: int -> real, d: int -> real, a: real, n: nat)
    requires Relaxes(e, d, a) && 0.0 < a < 1.0 && e(0) >= 0.0 && forall k: nat :: d(k) >= 0.0
    ensures e(n) >= 0.0
  {
    if n > 0 {
      StaysAbove(e, d, a, n - 1);
      assert RelaxesAt(e, d, a, n - 1);
      MeanIsMonotone(0.0, e(n - 1), 0.0, d(n - 1), a);
    }
  }

  lemma Distribute(x: real, y: real, c: real)
    ensures (x + y) * c == x * c + y * c
  {
  }
}
