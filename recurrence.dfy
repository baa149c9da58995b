/** The shape of the MT19937 state update, independent of what one step
    computes: a recurrence x[k + 624] = f(x[k], x[k + 1], x[k + 397]) over
    some word type, and the in-place pass that rewrites a 624-word buffer in
    ascending order. The pass turns one window of 624 consecutive terms into
    the next window, even though some of the words it reads were already
    rewritten earlier in the same pass. */
module Recurrence {

  /** Number of words in the state (MT19937's degree n). Index arithmetic
      modulo the state size is written with the literal 624, as PDGenerator.py does. */
  const N: nat := 624
  /** Offset of the middle word in the recurrence (MT19937's m). */
  const M: nat := 397

  /** Step i of the pass, reading the buffer as it stands when the step runs:
      word i, word i + 1 and word i + 397, both taken modulo 624. */
  function StepAt<T>(f: (T, T, T) -> T, t: seq<T>, i: nat): T
    requires |t| == N && i < N
  {
    f(t[i], t[(i + 1) % 624], t[(i + M) % 624])
  }

  /** The buffer after the first j steps of the pass. */
  function Partial<T>(f: (T, T, T) -> T, s: seq<T>, j: nat): (t: seq<T>)
    requires |s| == N && j <= N
    ensures |t| == N
    decreases j
  {
    if j == 0 then s
    else
      var t := Partial(f, s, j - 1);
      t[j - 1 := StepAt(f, t, j - 1)]
  }

  /** The buffer after the whole pass. */
  function Pass<T>(f: (T, T, T) -> T, s: seq<T>): (t: seq<T>)
    requires |s| == N
    ensures |t| == N
  {
    Partial(f, s, N)
  }

  /** Steps j and later have not touched word k >= j yet; a word k < j
      keeps the value step k gave it. */
  lemma {:induction false} PartialFrame<T>(f: (T, T, T) -> T, s: seq<T>, j: nat, k: nat)
    requires |s| == N && j <= N && k < N
    ensures k >= j ==> Partial(f, s, j)[k] == s[k]
    ensures k < j ==> Partial(f, s, j)[k] == Partial(f, s, k + 1)[k]
    decreases j
  {
    if j > 0 {
      PartialFrame(f, s, j - 1, k);
    }
  }

  /** Where step i reads its "next" and "far" words. */
  lemma StepIndices(i: nat)
    requires i < N
    ensures (i + 1) % 624 == if i + 1 < N then i + 1 else 0
    ensures (i + M) % 624 == if i + M < N then i + M else i + M - N
  {}

  /** The words the pass writes, in closed form. Word i combines the old
      words i and i + 1 and, for i < 227, the old word i + 397. For i = 623
      the "next" word is word 0 and, for i >= 227, the "far" word is
      i + 397 - 624: both were already rewritten earlier in the same pass. */
  lemma PassAt<T>(f: (T, T, T) -> T, s: seq<T>, i: nat)
    requires |s| == N && i < N
    ensures Pass(f, s)[i] ==
            f(s[i],
              if i + 1 < N then s[i + 1] else Pass(f, s)[0],
              if i + M < N then s[i + M] else Pass(f, s)[i + M - N])
  {
    var t := Partial(f, s, i);
    PartialFrame(f, s, N, i);
    PartialFrame(f, s, i, i);
    StepIndices(i);
    var nextAt, farAt := (i + 1) % 624, (i + M) % 624;
    assert Pass(f, s)[i] == f(t[i], t[nextAt], t[farAt]);
    PartialFrame(f, s, i, nextAt);
    PartialFrame(f, s, N, nextAt);
    PartialFrame(f, s, i, farAt);
    PartialFrame(f, s, N, farAt);
  }

  /** The reference definition: term k of the recurrence
      x[k + 624] = f(x[k], x[k + 1], x[k + 397]), started from the given
      first 624 words. */
  function Term<T>(f: (T, T, T) -> T, init: seq<T>, k: nat): T
    requires |init| == N
    decreases k
  {
    if k < N then init[k]
    else f(Term(f, init, k - N), Term(f, init, k - N + 1), Term(f, init, k - N + M))
  }

  /** A run of 624 words that equals terms base, base + 1, ..., base + 623. */
  ghost predicate HoldsWindow<T>(f: (T, T, T) -> T, s: seq<T>, init: seq<T>, base: nat)
  {
    |s| == N && |init| == N && forall j :: 0 <= j < N ==> s[j] == Term(f, init, base + j)
  }

  /** Term k, for k past the initial words, from the three earlier terms it reads. */
  lemma TermStep<T>(f: (T, T, T) -> T, init: seq<T>, base: nat, i: nat)
    requires |init| == N
    ensures Term(f, init, base + N + i) ==
            f(Term(f, init, base + i), Term(f, init, base + (i + 1)), Term(f, init, base + (i + M)))
  {
    assert base + N + i - N == base + i;
  }

  /** Word i of the pass over window `base` is term base + 624 + i. The words
      step i reads that were already rewritten (word 0 for i = 623, word
      i + 397 - 624 for i >= 227) are earlier words of the new window. */
  lemma {:induction false} PassTerm<T>(f: (T, T, T) -> T, init: seq<T>, base: nat, s: seq<T>, i: nat)
    requires HoldsWindow(f, s, init, base) && i < N
    ensures Pass(f, s)[i] == Term(f, init, base + N + i)
    decreases i
  {
    PassAt(f, s, i);
    TermStep(f, init, base, i);
    if i + 1 == N {
      PassTerm(f, init, base, s, 0);
      assert base + (i + 1) == base + N + 0;
    }
    if i + M >= N {
      PassTerm(f, init, base, s, i + M - N);
      assert base + (i + M) == base + N + (i + M - N);
    }
  }

  /** The pass moves a buffer from one window of the recurrence to the next. */
  lemma PassAdvancesWindow<T>(f: (T, T, T) -> T, init: seq<T>, base: nat, s: seq<T>)
    requires HoldsWindow(f, s, init, base)
    ensures HoldsWindow(f, Pass(f, s), init, base + N)
  {
    forall j | 0 <= j < N
      ensures Pass(f, s)[j] == Term(f, init, base + N + j)
    {
      PassTerm(f, init, base, s, j);
    }
  }

  /** Window q of the recurrence: terms 624 q, 624 q + 1, ..., 624 q + 623. */
  function Window<T>(f: (T, T, T) -> T, init: seq<T>, q: nat): (t: seq<T>)
    requires |init| == N
    ensures |t| == N
  {
    seq(N, j requires 0 <= j < N => Term(f, init, 624 * q + j))
  }

  /** The window as a run of terms. */
  lemma WindowHolds<T>(f: (T, T, T) -> T, init: seq<T>, q: nat)
    requires |init| == N
    ensures HoldsWindow(f, Window(f, init, q), init, 624 * q)
  {}

  /** The initial words are window 0. */
  lemma FirstWindow<T>(f: (T, T, T) -> T, init: seq<T>)
    requires |init| == N
    ensures Window(f, init, 0) == init
  {
    forall j | 0 <= j < N
      ensures Window(f, init, 0)[j] == init[j]
    {
      assert Window(f, init, 0)[j] == Term(f, init, 624 * 0 + j);
      assert 624 * 0 + j == j;
      assert Term(f, init, j) == init[j];
    }
  }

  /** A pass moves the buffer from window q to window q + 1. */
  lemma PassWindow<T>(f: (T, T, T) -> T, init: seq<T>, q: nat)
    requires |init| == N
    ensures Pass(f, Window(f, init, q)) == Window(f, init, q + 1)
  {
    WindowHolds(f, init, q);
    PassAdvancesWindow(f, init, 624 * q, Window(f, init, q));
    assert 624 * q + N == 624 * (q + 1);
  }
}
