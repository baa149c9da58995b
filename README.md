# Distribution_Generator: MT19937 and the PDGenerator samplers in Dafny

`PDGenerator.py` builds random variates from its own Mersenne Twister
(MT19937). The `MersenneTwister` class keeps 624 32-bit words and a cursor:
- It seeds the words with the standard linear recurrence.
- When the cursor is 0, it refills all 624 words in place with one pass of
  the twist recurrence.
- It tempers the word under the cursor and divides it by 2^32 - 1.

`PDGenerator` wraps one such generator. It turns the resulting uniform
draws into variates:
- uniform on [a, b];
- discrete uniform on a..b;
- Bernoulli;
- binomial;
- Poisson, by inverse-cumulative search;
- a sign helper.

The model has these layers:

- `Tempering` (tempering.dfy): the tempering map and its inverse. Tempering is a bijection of 32-bit words.
- `Recurrence` (recurrence.dfy): the in-place twist pass for an arbitrary step function.
  - The reference recurrence is x[k + 624] = f(x[k], x[k + 1], x[k + 397]).
  - One pass maps each window of 624 consecutive terms to the next window.
- `Extraction` (extraction.dfy): the extraction schedule (refill at cursor 0, read, advance).
  - It gives the state after k extractions in closed form.
  - Extraction k reads term k + 624 of the recurrence.
- `TwisterSpec` (twister_spec.dfy): MT19937 seeding, the twist step, and scaling into [0, 1].
  - The reference output stream `Draw(init, k)` is term k + 624 of the recurrence, tempered and scaled.
- `Twister` (twister.dfy): the `MersenneTwister` class over an `array<bv32>`. Its methods are proved against `TwisterSpec`.
- `Sampling` (sampling.dfy): the value-level transforms of the samplers.
- `Generator` (pd_generator.dfy): the `PDGenerator` class.
  - Every sampler states which extractions it consumes.
  - Every sampler states which transform of those reference draws it returns.

## Model

| member | source | states |
|---|---|---|
| Tempering.TemperBijective | PDGenerator.py:21-25 | The four tempering steps form a bijection of 32-bit words: `Temper(x) == y` exactly when `Untemper(y) == x`. |
| Tempering.ShiftLeft7Inverse | PDGenerator.py:23 | The `(y << 7) & 0x9D2C5680` step is undone by four correction rounds, on both sides. |
| Tempering.ShiftRight11Inverse | PDGenerator.py:22 | The `y >> 11` step is undone by two corrections, on both sides. |
| Tempering.ShiftLeft15Involution | PDGenerator.py:24 | The `(y << 15) & 0xEFC60000` step is its own inverse. |
| Tempering.ShiftRight18Involution | PDGenerator.py:25 | The `y >> 18` step is its own inverse. |
| Tempering.ShiftRight11 | PDGenerator.py:22 | `y ^ (y >> 11)` on a 32-bit word. |
| Tempering.ShiftLeft7 | PDGenerator.py:23 | `y ^ ((y << 7) & 0x9D2C5680)`, the left shift dropping bits above 31. |
| Tempering.ShiftLeft15 | PDGenerator.py:24 | `y ^ ((y << 15) & 0xEFC60000)`. |
| Tempering.ShiftRight18 | PDGenerator.py:25 | `y ^ (y >> 18)`. |
| Tempering.Temper | PDGenerator.py:21-25 | The four steps in the order `extract_number` applies them. |
| Tempering.Untemper | PDGenerator.py:21-25 | The inverse steps in reverse order. |
| Recurrence.StepAt | PDGenerator.py:13-16 | Step i of the pass reads words i, `(i + 1) % 624` and `(i + 397) % 624` of the buffer as it stands. |
| Recurrence.Partial | PDGenerator.py:12-16 | The buffer after the first j iterations of the ascending in-place loop, each rewriting word j - 1. |
| Recurrence.Pass | PDGenerator.py:11-16 | The buffer after all 624 iterations. |
| Recurrence.Term | PDGenerator.py:11-16 | The reference recurrence x[k + 624] = f(x[k], x[k + 1], x[k + 397]) from the first 624 words. |
| Recurrence.Window | PDGenerator.py:11-16 | Terms 624q..624q + 623 of the recurrence. |
| Extraction.Refreshed | PDGenerator.py:19-21 | The words an extraction reads: the buffer after a pass when the cursor is 0, else unchanged. |
| Extraction.Refills | PDGenerator.py:19-20 | The number of refills among the first k extractions: one per extraction finding the cursor at 0. |
| Extraction.StateAfter | PDGenerator.py:18-26 | The seeded state advanced by k extractions. Every such state is valid (624 words, cursor below 624). |
| TwisterSpec.Low32 | PDGenerator.py:9 | `x & 0xFFFFFFFF` for any integer, negatives included. |
| TwisterSpec.SeedSpread | PDGenerator.py:9 | `(seed ^ (seed >> 30))` modulo 2^32, computed from the seed at full width. |
| TwisterSpec.WordOf | PDGenerator.py:9 | The loop index i as a 32-bit word, counted up from 0. |
| TwisterSpec.Spread | PDGenerator.py:9 | `w ^ (w >> 30)` on a word. |
| TwisterSpec.SeedNext | PDGenerator.py:9 | `(1812433253 * (w ^ (w >> 30)) + i) & 0xFFFFFFFF` from the previous word w. |
| TwisterSpec.SeedFirst | PDGenerator.py:7-9 | Word 1, computed from the raw seed stored in `MT[0]`. |
| TwisterSpec.SeedWord | PDGenerator.py:4-9 | Word i after seeding: the seed's low 32 bits, then word 1 from the seed, then each word from the one before it. |
| TwisterSpec.SeedWords | PDGenerator.py:4-9 | The 624 seeded words. |
| TwisterSpec.Recur | PDGenerator.py:13-16 | One twist step: the top bit of word i joined to the low 31 bits of word i + 1, shifted right once into word i + 397, with 2567483615 folded in when the joined value is odd. |
| TwisterSpec.Twisted | PDGenerator.py:11-16 | `generate_numbers`: the in-place pass of Recur over the buffer. It always has 624 words. |
| TwisterSpec.Extracted | PDGenerator.py:19-25 | The tempered word an extraction reads, after the refill at cursor 0. |
| TwisterSpec.Output | PDGenerator.py:18-25 | The reference stream: extraction k returns term k + 624 of the recurrence, tempered. |
| TwisterSpec.Draws | PDGenerator.py:34 | The values of n consecutive extractions, in order. |
| Sampling.Count | PDGenerator.py:34 | `len(range(n))`: n for positive n, else 0. |
| Sampling.Sum | PDGenerator.py:104 | Python's `sum` of a list of integers. |
| Sampling.DiscreteTruncated | PDGenerator.py:38 | `int(a + (b - a + 1) * U)` as written, truncating toward zero. |
| Sampling.DiscreteFloor | PDGenerator.py:38 | The corrected transform: the floor of `a + (b - a + 1) * U`. |
| Sampling.Mass | PDGenerator.py:124-127 | The P of pois after reaching X = x: `pmf(0) + ... + pmf(x)`. |
| Sampling.FirstAbove | PDGenerator.py:125-127 | x is where the search stops: its mass exceeds U and no earlier mass does. |
| Recurrence.PartialFrame | PDGenerator.py:12-16 | After j steps of the in-place pass, words j and later are untouched. Each earlier word keeps the value its own step wrote. |
| Recurrence.PassAt | PDGenerator.py:12-16 | Closed form of the pass. Word i combines old words i and i + 1 and far word i + 397. For i = 623 the next word, and for i >= 227 the far word, are ones already rewritten in the same pass. |
| Recurrence.PassTerm | PDGenerator.py:11-16 | If the buffer holds terms base..base + 623 of the recurrence, word i after the pass is term base + 624 + i. |
| Recurrence.PassWindow | PDGenerator.py:11-16 | A pass maps window q of the recurrence (terms 624q..624q + 623) to window q + 1. |
| Recurrence.FirstWindow | PDGenerator.py:4-9 | Window 0 is the seeded buffer itself. |
| Extraction.Advance | PDGenerator.py:18-26 | One extraction leaves a valid state and moves the cursor to `(index + 1) % 624`. |
| Extraction.StateAfterClosed | PDGenerator.py:18-26 | After k extractions the cursor is `k % 624`. The buffer is the recurrence window reached by the refills so far, one refill per extraction that found the cursor at 0. |
| Extraction.ReadWindow | PDGenerator.py:19-21 | Extraction k reads window `k / 624 + 1`, refilling first exactly when the cursor is 0. |
| Extraction.ReadTerm | PDGenerator.py:18-26 | Extraction k reads term k + 624 of the recurrence. |
| TwisterSpec.SeedWordsRecurrence | PDGenerator.py:4-9 | The seeded words: word 0 is the seed (mod 2^32). Word 1 is `1812433253 * (seed ^ (seed >> 30)) + 1` from the whole seed. Each later word i is `1812433253 * (w ^ (w >> 30)) + i` mod 2^32 of the word before it. |
| TwisterSpec.Unit | PDGenerator.py:27 | The scaled output lies in [0, 1] and equals 1 exactly when the tempered word is 0xFFFFFFFF. |
| TwisterSpec.Fraction | PDGenerator.py:27 | Division by 2^32 - 1 maps 0..2^32 - 1 into [0, 1], hitting 1 only at the top. |
| TwisterSpec.WordValue | PDGenerator.py:27 | A word's integer value lies in 0..2^32 - 1 and is the largest exactly for the all-ones word. |
| TwisterSpec.Draw | PDGenerator.py:18-27 | Every reference draw lies in [0, 1]. |
| TwisterSpec.ExtractionIsOutput | PDGenerator.py:18-27 | Extraction k, applied to the state after k extractions from the seeded words, returns the tempered term k + 624 of the reference recurrence. |
| TwisterSpec.ExtractStep | PDGenerator.py:18-27 | One extraction on concrete words s and cursor c. The state after k + 1 extractions refills s exactly when c == 0 and has cursor `(c + 1) % 624`. The value is the scaled tempered word under the cursor, which is reference draw k. |
| Twister.MersenneTwister.constructor | PDGenerator.py:4-9 | A fresh 624-word buffer with the cursor at 0, holding exactly the seeded words. |
| Twister.MersenneTwister.GenerateNumbers | PDGenerator.py:11-16 | The in-place loop leaves the buffer equal to the twist pass of the old buffer. Its properties are PassAt and PassWindow. |
| Twister.MersenneTwister.ExtractNumber | PDGenerator.py:18-27 | The buffer is twisted iff the cursor was 0 and no word changes otherwise. The cursor becomes `(index + 1) % 624`. The value is the word under the old cursor, tempered and divided by 2^32 - 1. |
| Twister.Extractions | PDGenerator.py:18-27 | n extractions starting from the state after k0 return reference draws k0..k0 + n - 1 in order and leave the state after k0 + n. |
| Twister.SameSeedSameDraws | PDGenerator.py:4-27 | Two generators with the same seed return the same values, and those values are the seed's reference draws. |
| Generator.PDGenerator.constructor | PDGenerator.py:29-31 | Keeps the seed and a fresh generator in the seeded state, with no extractions made. |
| Generator.PDGenerator.Unif | PDGenerator.py:33-35 | Consumes exactly `max(n, 0)` extractions. Value k is `a + (b - a) * U` for the k-th of those draws, and lies in [a, b] when a <= b. |
| Generator.PDGenerator.DiscUnif | PDGenerator.py:36-39 | Consumes `max(n, 0)` draws from `unif(n)`. Value k is the floor of `a + (b - a + 1) * U_k` and lies in a..b + 1 when a <= b. It is b + 1 exactly when the draw is 1. |
| Generator.PDGenerator.Bern | PDGenerator.py:98-101 | Consumes `max(n, 0)` draws and returns the Bernoulli trial of each, in order. |
| Generator.PDGenerator.Bino | PDGenerator.py:103-105 | Consumes `max(n, 0) * max(m, 0)` draws. Variate i counts the draws at most p among the m draws after the first i * m, and lies in 0..m. |
| Generator.PDGenerator.Pois | PDGenerator.py:119-129 | Consumes one draw per variate. Each variate is the first x whose cumulative mass exceeds its draw. If a search runs out of fuel, at most n draws were made and the masses up to the fuel never exceeded the last one. So when each of the n draws has a mass above it within the fuel, the result is Some. |
| Sampling.Affine | PDGenerator.py:34 | `a + (b - a) * u` lies in [a, b] for a <= b and u in [0, 1], giving a at u = 0 and b at u = 1. |
| Sampling.AffineInverse | PDGenerator.py:34 | For a < b the draw is recovered from the value: the scaling is injective. |
| Sampling.Truncate | PDGenerator.py:38 | Python's `int()` rounds toward zero: the floor for non-negative values and the ceiling for negative ones. |
| Sampling.DiscreteTruncatedRange | PDGenerator.py:38 | For 0 <= a <= b the transform as written lies in a..b + 1 and is b + 1 exactly for the draw 1. |
| Sampling.DiscreteNegativeOvershoot | PDGenerator.py:38 | As written, a = -3, b = -1 and the draw 0.9 give 0 = b + 1. |
| Sampling.DiscreteFloorRange | PDGenerator.py:38 | The floor transform lies in a..b + 1 for every a <= b and is b + 1 exactly for the draw 1. |
| Sampling.DiscreteFloorInterval | PDGenerator.py:38 | The floor transform returns k exactly for draws in an interval of width 1 / (b - a + 1), the same for every k. |
| Sampling.DiscreteAgree | PDGenerator.py:38 | For 0 <= a the truncation and the floor agree. |
| Sampling.Bernoulli | PDGenerator.py:100 | The trial is 0 or 1, and it is 1 exactly when `U <= p`. |
| Sampling.BernoulliMonotone | PDGenerator.py:100 | A larger p never turns a success into a failure. |
| Sampling.Bernoullis | PDGenerator.py:100 | One trial per draw. |
| Sampling.Successes | PDGenerator.py:104 | A binomial variate of m trials lies in 0..m. |
| Sampling.SuccessesIsSum | PDGenerator.py:104 | The variate is `sum` of the Bernoulli list. |
| Sampling.SuccessesAll | PDGenerator.py:104 | The count is m exactly when every draw is at most p. |
| Sampling.SuccessesNone | PDGenerator.py:104 | The count is 0 exactly when every draw is above p. |
| Sampling.SuccessesMonotone | PDGenerator.py:104 | The count grows with p. |
| Sampling.SuccessesAppend | PDGenerator.py:104 | Counts over consecutive runs of draws add up. |
| Sampling.Sign | PDGenerator.py:66-69 | The sign is -1, 0 or 1. |
| Sampling.SignAbs | PDGenerator.py:66-69 | `sign(x) * abs(x) == x`. The sign is odd and is 0 only at 0. |
| Sampling.FirstAboveUnique | PDGenerator.py:123-127 | The inverse-cumulative search has at most one answer for each draw. |
| Sampling.MassMonotone | PDGenerator.py:124-127 | With non-negative masses, the accumulated P never decreases. |
| Sampling.PoissonSearch | PDGenerator.py:122-128 | The loop returns the first x whose cumulative mass exceeds the draw (within the fuel). It returns None exactly when no mass up to the fuel exceeds the draw. |

## Left out

- Floating point: draws and variates are exact reals. Rounding in `y / 0xFFFFFFFF`, `a + (b - a) * U` and the cumulative sums of pois is not modelled.
- Twister.MersenneTwister.constructor: word 0 holds the seed modulo 2^32, where Python keeps the unbounded seed in `MT[0]`. The two never differ in what is observed, for every integer seed:
  - The raw word is read in only two places: to compute word 1, and through `MT[0] & 0x80000000` at step 0 of the first twist.
  - Word 1 is computed from the whole seed (`TwisterSpec.SeedFirst`).
  - For any Python int, `seed & 0x80000000` is bit 31 of the seed's low 32 bits, which is what the model reads.
  - Steps 227 and 623 of the first twist read word 0 only after step 0 has rewritten it.
- TwisterSpec.SeedSpread: `Low32(seed) ^ Low32(seed / 2^30)` stands for Python's `(seed ^ (seed >> 30)) & 0xFFFFFFFF` on an unbounded seed. The equivalence follows from two's-complement semantics but is not proved.
- TwisterSpec.WordOf: the index added in seeding is counted up as a 32-bit word from 0. The model does not prove that this equals `i as bv32`.
- Generator.PDGenerator.Pois: the mass function is a parameter, where PDGenerator.py uses `pois_pmf`, which needs `math.e`, powers and factorials. Each search has a step limit (fuel), and the result is None when it runs out. Over an arbitrary mass function the search need not end (U = 1 with masses summing to 1). With `pois_pmf` the Python search always ends: either P passes U, or `pois_pmf` raises OverflowError once X reaches 171 at the latest (earlier for large `lamb`, when `lamb**n` overflows), since `math.factorial(171)` exceeds the largest float. None at fuel 170 stands for that exception; the exception itself is not modelled.
- Generator.PDGenerator.DiscUnif: uses the floor, the corrected transform (see Findings), not the `int()` truncation of PDGenerator.py. The two agree for 0 <= a (`Sampling.DiscreteAgree`).
- The samplers built on transcendental functions are not modelled: `triangular`, `expo`, `weibull`, `erlang`, `t`, `norm`, `chi2`, `lognorm`, `t_student`, `geom`, `negbin` and `pois_pmf`. They need square roots, logarithms, powers or exponentials, which are not exact over reals.
- Statistical quality of the output (uniformity, independence, period) is not modelled.
- GOFTester.py and plot.py are not part of this model: they test and plot samples.
- Default arguments (`n=1`, `a=0`, `b=1`, ...) are not modelled: every parameter is explicit.

## Findings

| source | as written | input that shows it | evidently intended | confidence | as-written member | corrected member |
|---|---|---|---|---|---|---|
| PDGenerator.py:38 | `int(a + (b - a + 1) * U)` truncates toward zero, so for negative values it rounds up | a = -3, b = -1, U = 0.9: `-3 + 3 * 0.9 = -0.3`, and `int` gives 0, which is b + 1 although U < 1 | the floor, so that each of a..b gets an interval of draws of equal width and b + 1 needs U = 1 | not executed | Sampling.DiscreteNegativeOvershoot | Sampling.DiscreteFloorRange |
