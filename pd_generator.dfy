/** The PDGenerator class: a seed and one MersenneTwister, and the samplers
    that turn its extractions into variates. Each sampler consumes a fixed
    number of extractions in order, and its results are the Sampling
    transforms of exactly those reference draws. */
module Generator {
  import opened Recurrence
  import opened Extraction
  import opened TwisterSpec
  import opened Twister
  import opened Sampling

  class PDGenerator {
    const randomSeed: int
    const random: MersenneTwister
    /** The number of extractions made from `random` since it was seeded. */
    ghost var drawn: nat

    /** `random` is in the state reached from the seed by `drawn` extractions. */
    ghost predicate Valid()
      reads this, random, random.mt
    {
      random.Valid() && random.View() == StateAfter(Recur, SeedWords(randomSeed), drawn)
    }

    constructor (seed: int)
      ensures Valid() && randomSeed == seed && drawn == 0
      ensures fresh(random) && fresh(random.mt)
    {
      randomSeed := seed;
      random := new MersenneTwister(seed);
      drawn := 0;
    }

    /** n uniform values on [a, b]: value k scales the k-th next draw. */
    method Unif(n: int, a: real, b: real) returns (rvs: seq<real>)
      requires Valid()
      modifies this, random, random.mt
      ensures Valid() && random.mt == old(random.mt) && drawn == old(drawn) + Count(n)
      ensures |rvs| == Count(n)
      ensures forall k :: 0 <= k < |rvs| ==>
                rvs[k] == Affine(a, b, Draw(SeedWords(randomSeed), old(drawn) + k))
      ensures a <= b ==> forall k :: 0 <= k < |rvs| ==> a <= rvs[k] <= b
    {
      var us := Extractions(random, SeedWords(randomSeed), drawn, Count(n));
      rvs := seq(|us|, k requires 0 <= k < |us| => Affine(a, b, us[k]));
      drawn := drawn + Count(n);
    }

    /** n integers from a..b, one draw each. This is the corrected transform
        (the floor); PDGenerator.py truncates toward zero, see DiscreteTruncated. */
    method DiscUnif(n: int, a: int, b: int) returns (rvs: seq<int>)
      requires Valid()
      modifies this, random, random.mt
      ensures Valid() && random.mt == old(random.mt) && drawn == old(drawn) + Count(n)
      ensures |rvs| == Count(n)
      ensures forall k :: 0 <= k < |rvs| ==>
                rvs[k] == DiscreteFloor(a, b, Draw(SeedWords(randomSeed), old(drawn) + k))
      ensures a <= b ==> forall k :: 0 <= k < |rvs| ==>
                a <= rvs[k] <= b + 1 &&
                (rvs[k] == b + 1 <==> Draw(SeedWords(randomSeed), old(drawn) + k) == 1.0)
    {
      var us := Unif(n, 0.0, 1.0);
      rvs := seq(|us|, k requires 0 <= k < |us| => DiscreteFloor(a, b, us[k]));
      forall k | 0 <= k < |us| && a <= b
        ensures a <= rvs[k] <= b + 1 && (rvs[k] == b + 1 <==> us[k] == 1.0)
      {
        DiscreteFloorRange(a, b, us[k]);
      }
    }

    /** n Bernoulli trials with success probability p, one draw each. */
    method Bern(n: int, p: real) returns (rvs: seq<int>)
      requires Valid()
      modifies this, random, random.mt
      ensures Valid() && random.mt == old(random.mt) && drawn == old(drawn) + Count(n)
      ensures rvs == Bernoullis(p, Draws(SeedWords(randomSeed), old(drawn), Count(n)))
    {
      var us := Unif(n, 0.0, 1.0);
      rvs := seq(|us|, k requires 0 <= k < |us| => Bernoulli(p, us[k]));
    }

    /** n binomial variates of m trials each: variate i counts the draws at
        most p among the m draws that follow the first i * m. */
    method Bino(n: int, m: int, p: real) returns (rvs: seq<int>)
      requires Valid()
      modifies this, random, random.mt
      ensures Valid() && random.mt == old(random.mt)
      ensures drawn == old(drawn) + Count(n) * Count(m)
      ensures |rvs| == Count(n)
      ensures forall i :: 0 <= i < |rvs| ==>
                rvs[i] == Successes(p, Draws(SeedWords(randomSeed), old(drawn) + i * Count(m), Count(m)))
      ensures forall i :: 0 <= i < |rvs| ==> 0 <= rvs[i] <= Count(m)
    {
      ghost var init, d0 := SeedWords(randomSeed), drawn;
      rvs := [];
      for i := 0 to Count(n)
        invariant Valid() && random.mt == old(random.mt)
        invariant drawn == d0 + i * Count(m) && |rvs| == i
        invariant forall j :: 0 <= j < i ==>
                    rvs[j] == Successes(p, Draws(init, d0 + j * Count(m), Count(m)))
      {
        ghost var us := Draws(init, drawn, Count(m));
        var trials := Bern(m, p);
        SuccessesIsSum(p, us);
        assert d0 + (i + 1) * Count(m) == drawn;
        rvs := rvs + [Sum(trials)];
      }
    }

    /** n Poisson variates by inverse-cumulative search, one draw each, for a
        mass function given as values. Each search is cut off after `fuel`
        steps; on the first search that runs out the result is None, at most n
        draws were made, and the last one was never exceeded by the
        cumulative mass up to `fuel`. */
    method Pois(n: int, pmf: nat -> real, fuel: nat) returns (r: Option<seq<nat>>)
      requires Valid()
      modifies this, random, random.mt
      ensures Valid() && random.mt == old(random.mt)
      ensures r.Some? ==> |r.value| == Count(n) && drawn == old(drawn) + Count(n)
      ensures r.Some? ==> forall i :: 0 <= i < |r.value| ==>
                FirstAbove(pmf, Draw(SeedWords(randomSeed), old(drawn) + i), r.value[i])
      ensures r.None? ==> old(drawn) < drawn <= old(drawn) + Count(n)
      ensures r.None? ==> forall y: nat :: y <= fuel ==>
                Mass(pmf, y) <= Draw(SeedWords(randomSeed), drawn - 1)
    {
      ghost var init, d0 := SeedWords(randomSeed), drawn;
      var xs: seq<nat> := [];
      while |xs| < n
        invariant Valid() && random.mt == old(random.mt)
        invariant |xs| <= Count(n) && drawn == d0 + |xs|
        invariant forall i :: 0 <= i < |xs| ==> FirstAbove(pmf, Draw(init, d0 + i), xs[i])
        decreases n - |xs|
      {
        var us := Unif(1, 0.0, 1.0);
        var x := PoissonSearch(us[0], pmf, fuel);
        if x.None? {
          return None;
        }
        xs := xs + [x.value];
      }
      r := Some(xs);
    }
  }
}
