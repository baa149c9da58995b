/** The MersenneTwister class: 624 words in an array updated in place and a
    cursor. Each method is proved against the value-level definitions of
    TwisterSpec; SameSeedSameDraws runs two instances side by side and ties
    their outputs to the reference stream of the recurrence. */
module Twister {
  import opened Tempering
  import opened Recurrence
  import opened Extraction
  import opened TwisterSpec

  class MersenneTwister {
    var index: nat
    var mt: array<bv32>

    /** The state as a value of TwisterSpec. */
    ghost function View(): State<bv32>
      reads this, mt
    {
      State(mt[..], index)
    }

    ghost predicate Valid()
      reads this, mt
    {
      mt.Length == N && index < N
    }

    /** Seeding: word 0 is the seed and each later word is computed from the
        one before it. Word 1 reads the seed at full width, since PDGenerator.py
        stores the seed itself (not its low 32 bits) in word 0. */
    constructor (seed: int)
      ensures Valid() && fresh(mt)
      ensures index == 0 && mt[..] == SeedWords(seed)
    {
      index := 0;
      var a := new bv32[624];
      a[0] := Low32(seed);
      for i := 1 to 624
        invariant forall j :: 0 <= j < i ==> a[j] == SeedWord(seed, j)
      {
        if i == 1 {
          a[i] := SeedFirst(seed);
        } else {
          a[i] := SeedNext(a[i - 1], i);
        }
      }
      mt := a;
    }

    /** The twist: rewrites the 624 words in place, in ascending order, each
        from the words as they stand when its step runs. */
    method GenerateNumbers()
      requires mt.Length == N
      modifies mt
      ensures mt[..] == Twisted(old(mt[..]))
    {
      ghost var s := mt[..];
      for i := 0 to 624
        invariant mt[..] == Partial(Recur, s, i)
      {
        mt[i] := Recur(mt[i], mt[(i + 1) % 624], mt[(i + M) % 624]);
      }
    }

    /** One extraction: refill when the cursor is 0, temper the word under
        the cursor, advance the cursor modulo 624, and scale the word by
        1 / (2^32 - 1). No word changes except through the refill. */
    method ExtractNumber() returns (u: real)
      requires Valid()
      modifies this, mt
      ensures Valid() && mt == old(mt)
      ensures index == (old(index) + 1) % 624
      ensures mt[..] == if old(index) == 0 then Twisted(old(mt[..])) else old(mt[..])
      ensures u == Unit(Temper(mt[old(index)]))
    {
      if index == 0 {
        GenerateNumbers();
      }
      var y := mt[index];
      y := ShiftRight11(y);
      y := ShiftLeft7(y);
      y := ShiftLeft15(y);
      y := ShiftRight18(y);
      index := (index + 1) % 624;
      u := Unit(y);
    }
  }

  /** n extractions in a row from a generator that has made k0 so far since
      seeding with `init`: they return the reference draws k0, k0 + 1, ...
      and leave the generator in the state after k0 + n extractions. */
  method Extractions(g: MersenneTwister, ghost init: seq<bv32>, ghost k0: nat, n: nat)
    returns (us: seq<real>)
    requires g.Valid() && |init| == N && g.View() == StateAfter(Recur, init, k0)
    modifies g, g.mt
    ensures g.Valid() && g.mt == old(g.mt) && g.View() == StateAfter(Recur, init, k0 + n)
    ensures |us| == n && forall j :: 0 <= j < n ==> us[j] == Draw(init, k0 + j)
  {
    us := [];
    for k := 0 to n
      invariant g.Valid() && g.mt == old(g.mt) && g.View() == StateAfter(Recur, init, k0 + k)
      invariant |us| == k && forall j :: 0 <= j < k ==> us[j] == Draw(init, k0 + j)
    {
      ExtractStep(init, k0 + k, g.mt[..], g.index);
      var u := g.ExtractNumber();
      us := us + [u];
    }
  }

  /** Two generators built from the same seed return the same values, and
      those values are the reference draws of that seed: extraction k returns
      term k + 624 of the recurrence started from the seeded words, tempered
      and scaled. */
  method SameSeedSameDraws(seed: int, n: nat) returns (us: seq<real>, vs: seq<real>)
    ensures us == vs && |us| == n
    ensures forall j :: 0 <= j < n ==> us[j] == Draw(SeedWords(seed), j)
  {
    var g := new MersenneTwister(seed);
    var h := new MersenneTwister(seed);
    us := Extractions(g, SeedWords(seed), 0, n);
    vs := Extractions(h, SeedWords(seed), 0, n);
  }
}
