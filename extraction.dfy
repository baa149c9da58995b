/** The extraction schedule of MT19937, independent of what one recurrence
    step computes: a state is a 624-word buffer and a cursor; an extraction
    first refills the buffer with a whole pass when the cursor is 0, then
    reads the word under the cursor and advances the cursor modulo 624.
    Extraction k reads term k + 624 of the recurrence. */
module Extraction {
  import opened Recurrence

  /** A generator state: the words and the cursor of the next extraction. */
  datatype State<T> = State(mt: seq<T>, index: nat)
  {
    predicate Valid()
    {
      |mt| == N && index < N
    }
  }

  /** The words an extraction reads from: refilled by a pass exactly when the cursor is 0. */
  function Refreshed<T>(f: (T, T, T) -> T, g: State<T>): (mt: seq<T>)
    requires g.Valid()
    ensures |mt| == N
  {
    if g.index == 0 then Pass(f, g.mt) else g.mt
  }

  /** The state after one extraction. */
  function Advance<T>(f: (T, T, T) -> T, g: State<T>): (h: State<T>)
    requires g.Valid()
    ensures h.Valid() && h.index == (g.index + 1) % 624
  {
    State(Refreshed(f, g), (g.index + 1) % 624)
  }

  /** The number of passes the first k extractions perform: one for each
      extraction that finds the cursor at 0, that is extractions 0, 624, 1248, ... */
  function Refills(k: nat): nat
  {
    if k == 0 then 0 else (k - 1) / 624 + 1
  }

  /** The state of a generator whose first words are `init`, after k
      extractions: `init` with the cursor at 0, advanced k times. */
  function StateAfter<T>(f: (T, T, T) -> T, init: seq<T>, k: nat): (g: State<T>)
    requires |init| == N
    ensures g.Valid()
    decreases k
  {
    if k == 0 then State(init, 0) else Advance(f, StateAfter(f, init, k - 1))
  }

  lemma RefillsAt(k: nat)
    ensures Refills(k) == if k % 624 == 0 then k / 624 else k / 624 + 1
  {}

  lemma RefillsStep(k: nat)
    ensures Refills(k + 1) == if k % 624 == 0 then Refills(k) + 1 else Refills(k)
    ensures (k % 624 + 1) % 624 == (k + 1) % 624
  {
    RefillsAt(k);
    RefillsAt(k + 1);
  }

  /** One extraction on the closed form of the state after k extractions
      gives the closed form after k + 1: the words move to the next window
      exactly when the cursor is 0. */
  lemma AdvanceWindow<T>(f: (T, T, T) -> T, init: seq<T>, k: nat)
    requires |init| == N
    ensures Advance(f, State(Window(f, init, Refills(k)), k % 624)) ==
            State(Window(f, init, Refills(k + 1)), (k + 1) % 624)
  {
    RefillsStep(k);
    if k % 624 == 0 {
      PassWindow(f, init, Refills(k));
    }
  }

  /** The state after k extractions in closed form: the window of the
      recurrence reached by the refills so far, and the cursor at k mod 624. */
  lemma {:induction false} StateAfterClosed<T>(f: (T, T, T) -> T, init: seq<T>, k: nat)
    requires |init| == N
    ensures StateAfter(f, init, k) == State(Window(f, init, Refills(k)), k % 624)
    decreases k
  {
    if k == 0 {
      FirstWindow(f, init);
    } else {
      StateAfterClosed(f, init, k - 1);
      AdvanceWindow(f, init, k - 1);
    }
  }

  /** Extraction k reads window k / 624 + 1: the state it finds, refilled
      when the cursor is 0. */
  lemma ReadWindow<T>(f: (T, T, T) -> T, init: seq<T>, k: nat)
    requires |init| == N
    ensures Refreshed(f, StateAfter(f, init, k)) == Window(f, init, k / 624 + 1)
  {
    StateAfterClosed(f, init, k);
    RefillsAt(k);
    if k % 624 == 0 {
      PassWindow(f, init, Refills(k));
    }
  }

  /** Extraction k reads term k + 624 of the recurrence. */
  lemma ReadTerm<T>(f: (T, T, T) -> T, init: seq<T>, k: nat)
    requires |init| == N
    ensures StateAfter(f, init, k).index == k % 624
    ensures Refreshed(f, StateAfter(f, init, k))[k % 624] == Term(f, init, k + N)
  {
    ReadWindow(f, init, k);
    StateAfterClosed(f, init, k);
    WindowHolds(f, init, k / 624 + 1);
    assert 624 * (k / 624 + 1) + k % 624 == k + N;
  }
}
