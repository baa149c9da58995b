/** The MT19937 bit generator as values: seeding, the twist, the extraction
    stream, and its closed form through the reference recurrence. The class in
    module Twister is proved against these definitions. */
module TwisterSpec {
  import opened Tempering
  import opened Recurrence
  import opened Extraction

  /** The twist matrix constant, 2567483615. */
  const MatrixA: bv32 := 0x9908_B0DF
  const UpperMask: bv32 := 0x8000_0000
  const LowerMask: bv32 := 0x7FFF_FFFF
  const InitMultiplier: bv32 := 1812433253
  /** The largest word, 2^32 - 1: extracted words are divided by it. */
  const MaxWord: bv32 := 0xFFFF_FFFF
  const WordModulus: int := 0x1_0000_0000

  /** The low 32 bits of an unbounded integer (Python's `& 0xFFFFFFFF`, also for negatives). */
  function Low32(x: int): bv32
  {
    (x % WordModulus) as bv32
  }

  /** `seed ^ (seed >> 30)` taken modulo 2^32, for a seed of any size or sign:
      the low 32 bits of an exclusive or are the exclusive or of the low 32 bits,
      and `>> 30` on an integer is floor division by 2^30. */
  function SeedSpread(seed: int): bv32
  {
    Low32(seed) ^ Low32(seed / 0x4000_0000)
  }

  /** The index i as a word, i modulo 2^32, counted up from 0. */
  function WordOf(i: nat): bv32
    decreases i
  {
    if i == 0 then 0 else WordOf(i - 1) + 1
  }

  /** `w ^ (w >> 30)` for a state word. */
  function Spread(w: bv32): bv32
  {
    w ^ (w >> 30)
  }

  /** The seeding step for word i > 1:
      (1812433253 * (w ^ (w >> 30)) + i) mod 2^32, w being word i - 1. */
  function SeedNext(w: bv32, i: nat): bv32
    requires i < N
  {
    InitMultiplier * Spread(w) + WordOf(i)
  }

  /** Word 1 of the seeded state, computed from the whole seed:
      (1812433253 * (seed ^ (seed >> 30)) + 1) mod 2^32. */
  function SeedFirst(seed: int): bv32
  {
    InitMultiplier * SeedSpread(seed) + 1
  }

  /** Word i of the freshly seeded state: the seed itself (its low 32 bits),
      then each word from the one before it. Word 1 is computed from the
      whole seed, as PDGenerator.py does, since it stores the seed itself in word 0. */
  function SeedWord(seed: int, i: nat): bv32
    requires i < N
    decreases i
  {
    if i == 0 then Low32(seed)
    else if i == 1 then SeedFirst(seed)
    else SeedNext(SeedWord(seed, i - 1), i)
  }

  function SeedWords(seed: int): (mt: seq<bv32>)
    ensures |mt| == N
  {
    seq(N, i requires 0 <= i < N => SeedWord(seed, i))
  }

  /** The seeded words: word 0 is the seed modulo 2^32, word 1 comes from the
      whole seed, and every later word follows from the one before it. */
  lemma SeedWordsRecurrence(seed: int)
    ensures SeedWords(seed)[0] == Low32(seed)
    ensures SeedWords(seed)[1] == SeedFirst(seed)
    ensures forall i :: 2 <= i < N ==> SeedWords(seed)[i] == SeedNext(SeedWords(seed)[i - 1], i)
  {
    forall i | 2 <= i < N
      ensures SeedWords(seed)[i] == SeedNext(SeedWords(seed)[i - 1], i)
    {
      assert SeedWords(seed)[i - 1] == SeedWord(seed, i - 1);
    }
  }

  /** One step of the MT19937 recurrence: the top bit of `upper` joined to the
      low 31 bits of `lower`, shifted right once into `far`, with the matrix
      constant folded in when the joined value is odd. */
  function Recur(upper: bv32, lower: bv32, far: bv32): bv32
  {
    var y := (upper & UpperMask) + (lower & LowerMask);
    var w := far ^ (y >> 1);
    if y % 2 != 0 then w ^ MatrixA else w
  }

  /** The state after a twist (`generate_numbers` in PDGenerator.py): the
      in-place pass of the recurrence step over the 624 words. */
  function Twisted(s: seq<bv32>): (t: seq<bv32>)
    requires |s| == N
    ensures |t| == N
  {
    Pass(Recur, s)
  }

  /** The tempered word an extraction returns (before scaling). */
  function Extracted(g: State<bv32>): bv32
    requires g.Valid()
  {
    Temper(Refreshed(Recur, g)[g.index])
  }

  /** The reference output stream: extraction k returns term k + 624 of the
      recurrence, tempered. ExtractionIsOutput ties it to the generator. */
  function Output(init: seq<bv32>, k: nat): bv32
    requires |init| == N
  {
    Temper(Term(Recur, init, k + N))
  }

  /** The integer value of a word lies in [0, 2^32 - 1] and is the largest
      value exactly for the all-ones word. */
  lemma WordValue(w: bv32)
    ensures 0 <= w as int <= 0xFFFF_FFFF
    ensures w as int == 0xFFFF_FFFF <==> w == MaxWord
  {}

  /** An integer in [0, 2^32 - 1] divided by 2^32 - 1. */
  function Fraction(v: int): (u: real)
    requires 0 <= v <= 0xFFFF_FFFF
    ensures 0.0 <= u <= 1.0
    ensures u == 1.0 <==> v == 0xFFFF_FFFF
  {
    v as real / 4294967295.0
  }

  /** A tempered word divided by 2^32 - 1: a value in [0, 1] that is 1 only for the all-ones word. */
  function Unit(w: bv32): (u: real)
    ensures 0.0 <= u <= 1.0
    ensures u == 1.0 <==> w == MaxWord
  {
    WordValue(w);
    Fraction(w as int)
  }

  /** The value extraction k returns. */
  function Draw(init: seq<bv32>, k: nat): (u: real)
    requires |init| == N
    ensures 0.0 <= u <= 1.0
  {
    Unit(Output(init, k))
  }

  /** The n values returned by extractions start, start + 1, ..., in order. */
  function Draws(init: seq<bv32>, start: nat, n: nat): (us: seq<real>)
    requires |init| == N
    ensures |us| == n
  {
    seq(n, j requires 0 <= j < n => Draw(init, start + j))
  }

  /** Extraction k, run on the state after k extractions, returns the
      reference output k. */
  lemma ExtractionIsOutput(init: seq<bv32>, k: nat)
    requires |init| == N
    ensures Extracted(StateAfter(Recur, init, k)) == Output(init, k)
  {
    ReadTerm(Recur, init, k);
  }

  /** One extraction from the state after k extractions, spelled out on its
      words s and cursor c: the next state refills s exactly when c is 0, and
      the value is the scaled tempered word under the cursor, which is the
      reference draw k. */
  lemma ExtractStep(init: seq<bv32>, k: nat, s: seq<bv32>, c: nat)
    requires |init| == N && State(s, c) == StateAfter(Recur, init, k)
    ensures StateAfter(Recur, init, k + 1) == State(if c == 0 then Twisted(s) else s, (c + 1) % 624)
    ensures Draw(init, k) == Unit(Temper((if c == 0 then Twisted(s) else s)[c]))
  {
    ExtractionIsOutput(init, k);
  }
}
