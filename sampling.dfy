/** The value-level transforms PDGenerator applies to uniform draws in [0, 1]:
    affine scaling (unif), scaling and truncation to an integer (disc_unif),
    thresholding (bern), counting successes (bino), the sign function, and
    the inverse-cumulative search of pois over an abstract mass function.
    Floating point is modelled by exact reals. */
module Sampling {

  datatype Option<T> = None | Some(value: T)

  /** The length of `range(n)`: n for positive n, otherwise 0. */
  function Count(n: int): (c: nat)
  {
    if n > 0 then n else 0
  }

  /** `a + (b - a) * u`: a uniform draw moved to the interval from a to b. */
  function Affine(a: real, b: real, u: real): (r: real)
    ensures a <= b && 0.0 <= u <= 1.0 ==> a <= r <= b
    ensures u == 0.0 ==> r == a
    ensures u == 1.0 ==> r == b
  {
    assert 0.0 <= u <= 1.0 && a <= b ==> (b - a) * u <= (b - a) * 1.0;
    a + (b - a) * u
  }

  /** For a < b the scaling is undone by `(r - a) / (b - a)`: distinct draws
      give distinct values, and the draw can be read back from the value. */
  lemma AffineInverse(a: real, b: real, u: real)
    requires a < b
    ensures (Affine(a, b, u) - a) / (b - a) == u
  {
    assert Affine(a, b, u) - a == (b - a) * u;
  }

  /** Python's `int(x)` on a float: rounds toward zero. */
  function Truncate(x: real): (r: int)
    ensures 0.0 <= x ==> 0 <= r && r as real <= x < r as real + 1.0
    ensures x < 0.0 ==> r <= 0 && r as real - 1.0 < x <= r as real
  {
    if x >= 0.0 then x.Floor else -((-x).Floor)
  }

  /** The disc_unif transform as written: `int(a + (b - a + 1) * u)`, which
      truncates toward zero. */
  function DiscreteTruncated(a: int, b: int, u: real): int
  {
    Truncate(a as real + (b - a + 1) as real * u)
  }

  /** For 0 <= a <= b the value lies in a..b + 1, and is b + 1 only for the
      draw u = 1. */
  lemma DiscreteTruncatedRange(a: int, b: int, u: real)
    requires 0 <= a <= b && 0.0 <= u <= 1.0
    ensures a <= DiscreteTruncated(a, b, u) <= b + 1
    ensures DiscreteTruncated(a, b, u) == b + 1 <==> u == 1.0
  {
    DiscreteAgree(a, b, u);
    DiscreteFloorRange(a, b, u);
  }

  /** With a negative lower end, truncation rounds the scaled value up
      instead of down: a = -3, b = -1 and the draw 0.9 give 0, which is
      b + 1, although the draw is below 1. */
  lemma DiscreteNegativeOvershoot()
    ensures DiscreteTruncated(-3, -1, 0.9) == 0 == -1 + 1
  {
    assert -3 as real + (-1 - -3 + 1) as real * 0.9 == -0.3;
  }

  /** The evidently intended transform: the floor of `a + (b - a + 1) * u`. */
  function DiscreteFloor(a: int, b: int, u: real): int
  {
    (a as real + (b - a + 1) as real * u).Floor
  }

  /** For any a <= b the value lies in a..b + 1, and is b + 1 only for the
      draw u = 1. */
  lemma DiscreteFloorRange(a: int, b: int, u: real)
    requires a <= b && 0.0 <= u <= 1.0
    ensures a <= DiscreteFloor(a, b, u) <= b + 1
    ensures DiscreteFloor(a, b, u) == b + 1 <==> u == 1.0
  {
    var w := (b - a + 1) as real;
    assert w * u <= w * 1.0;
    assert u < 1.0 ==> w * u < w * 1.0;
  }

  /** Each value k of a..b is returned exactly for the draws u with
      (k - a) <= (b - a + 1) u < (k - a + 1): an interval of width
      1 / (b - a + 1), the same for every k. */
  lemma DiscreteFloorInterval(a: int, b: int, u: real, k: int)
    ensures DiscreteFloor(a, b, u) == k <==>
            (k - a) as real <= (b - a + 1) as real * u < (k - a + 1) as real
  {}

  /** Where the scaled value is not negative (0 <= a, as at every call site of
      disc_unif in the Python implementation) truncation and floor agree. */
  lemma DiscreteAgree(a: int, b: int, u: real)
    requires 0 <= a && a <= b + 1 && 0.0 <= u
    ensures DiscreteTruncated(a, b, u) == DiscreteFloor(a, b, u)
  {
    var w := (b - a + 1) as real;
    assert 0.0 <= w;
    assert 0.0 * u <= w * u;
  }

  /** One Bernoulli trial: 1 when the draw is at most p, otherwise 0. */
  function Bernoulli(p: real, u: real): (r: int)
    ensures r == 0 || r == 1
    ensures r == 1 <==> u <= p
  {
    if u <= p then 1 else 0
  }

  /** A larger p never turns a success into a failure. */
  lemma BernoulliMonotone(p: real, q: real, u: real)
    requires p <= q
    ensures Bernoulli(p, u) <= Bernoulli(q, u)
  {}

  /** The trials of a run of draws, in order (the list bern returns). */
  function Bernoullis(p: real, us: seq<real>): (ts: seq<int>)
    ensures |ts| == |us|
  {
    seq(|us|, k requires 0 <= k < |us| => Bernoulli(p, us[k]))
  }

  /** Python's `sum` of a list of integers. */
  function Sum(xs: seq<int>): int
  {
    if |xs| == 0 then 0 else xs[0] + Sum(xs[1..])
  }

  /** The number of draws of a run that are at most p: one binomial variate. */
  function Successes(p: real, us: seq<real>): (c: int)
    ensures 0 <= c <= |us|
  {
    if |us| == 0 then 0 else Bernoulli(p, us[0]) + Successes(p, us[1..])
  }

  /** A binomial variate is the sum of the Bernoulli trials of its draws. */
  lemma {:induction false} SuccessesIsSum(p: real, us: seq<real>)
    ensures Successes(p, us) == Sum(Bernoullis(p, us))
  {
    if |us| > 0 {
      SuccessesIsSum(p, us[1..]);
      assert Bernoullis(p, us)[1..] == Bernoullis(p, us[1..]);
    }
  }

  /** Every trial succeeds exactly when every draw is at most p. */
  lemma {:induction false} SuccessesAll(p: real, us: seq<real>)
    ensures Successes(p, us) == |us| <==> forall k :: 0 <= k < |us| ==> us[k] <= p
  {
    if |us| > 0 {
      SuccessesAll(p, us[1..]);
      assert forall k :: 1 <= k < |us| ==> us[k] == us[1..][k - 1];
    }
  }

  /** No trial succeeds exactly when every draw is above p. */
  lemma {:induction false} SuccessesNone(p: real, us: seq<real>)
    ensures Successes(p, us) == 0 <==> forall k :: 0 <= k < |us| ==> us[k] > p
  {
    if |us| > 0 {
      SuccessesNone(p, us[1..]);
      assert forall k :: 1 <= k < |us| ==> us[k] == us[1..][k - 1];
    }
  }

  /** The count grows with p. */
  lemma {:induction false} SuccessesMonotone(p: real, q: real, us: seq<real>)
    requires p <= q
    ensures Successes(p, us) <= Successes(q, us)
  {
    if |us| > 0 {
      SuccessesMonotone(p, q, us[1..]);
    }
  }

  /** Counting over two consecutive runs adds up. */
  lemma {:induction false} SuccessesAppend(p: real, us: seq<real>, vs: seq<real>)
    ensures Successes(p, us + vs) == Successes(p, us) + Successes(p, vs)
  {
    if |us| > 0 {
      SuccessesAppend(p, us[1..], vs);
      assert (us + vs)[1..] == us[1..] + vs;
    } else {
      assert us + vs == vs;
    }
  }

  function Abs(x: real): (r: real)
    ensures 0.0 <= r && (r == x || r == -x)
  {
    if x < 0.0 then -x else x
  }

  /** The sign of x: 1, -1 or 0. */
  function Sign(x: real): (s: int)
    ensures s == -1 || s == 0 || s == 1
  {
    if x > 0.0 then 1 else if x < 0.0 then -1 else 0
  }

  /** The sign times the magnitude gives x back, and the sign is odd. */
  lemma SignAbs(x: real)
    ensures Sign(x) as real * Abs(x) == x
    ensures Sign(-x) == -Sign(x)
    ensures Sign(x) == 0 <==> x == 0.0
  {}

  /** The cumulative mass `pmf(0) + ... + pmf(x)`, as pois accumulates it in P. */
  function Mass(pmf: nat -> real, x: nat): real
  {
    if x == 0 then pmf(0) else Mass(pmf, x - 1) + pmf(x)
  }

  /** x is the first value whose cumulative mass exceeds u. */
  ghost predicate FirstAbove(pmf: nat -> real, u: real, x: nat)
  {
    Mass(pmf, x) > u && forall y: nat :: y < x ==> Mass(pmf, y) <= u
  }

  /** At most one value is the first one above u: the search has one answer. */
  lemma FirstAboveUnique(pmf: nat -> real, u: real, x: nat, y: nat)
    requires FirstAbove(pmf, u, x) && FirstAbove(pmf, u, y)
    ensures x == y
  {}

  /** With a non-negative mass function the cumulative mass never decreases. */
  lemma {:induction false} MassMonotone(pmf: nat -> real, x: nat, y: nat)
    requires forall i: nat :: 0.0 <= pmf(i)
    requires x <= y
    ensures Mass(pmf, x) <= Mass(pmf, y)
    decreases y
  {
    if x < y {
      MassMonotone(pmf, x, y - 1);
    }
  }

  /** The inner loop of pois: X starts at 0 with P = pmf(0) and, while
      u >= P, moves to X + 1 and adds pmf(X + 1) to P. Over an arbitrary mass
      function such a loop need not end (u = 1 with masses summing to 1), so
      this one gives up with None after `fuel` steps. With the `pois_pmf` of
      PDGenerator.py the search always ends: either P passes u, or X reaches
      171 at the latest, where `math.factorial(171)` is beyond the float
      range and the division raises OverflowError; None at fuel 170 stands
      for that exception. */
  method PoissonSearch(u: real, pmf: nat -> real, fuel: nat) returns (r: Option<nat>)
    ensures r.Some? ==> r.value <= fuel && FirstAbove(pmf, u, r.value)
    ensures r.None? <==> forall y: nat :: y <= fuel ==> Mass(pmf, y) <= u
  {
    var x: nat := 0;
    var p := pmf(0);
    while u >= p && x < fuel
      invariant x <= fuel && p == Mass(pmf, x)
      invariant forall y: nat :: y < x ==> Mass(pmf, y) <= u
      decreases fuel - x
    {
      x := x + 1;
      p := p + pmf(x);
    }
    if u < p {
      r := Some(x);
    } else {
      r := None;
    }
  }
}
