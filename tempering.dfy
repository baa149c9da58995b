/** Tempering: the fixed bit-shuffle MT19937 applies to a state word before it
    leaves the generator. Each of the four steps is a bijection of 32-bit words,
    so the whole map is one too: Untemper undoes it, and TemperBijective says so
    in both directions. */
module Tempering {

  const MaskB: bv32 := 0x9D2C_5680
  const MaskC: bv32 := 0xEFC6_0000

  /** y ^= y >> 11 */
  function ShiftRight11(x: bv32): bv32 { x ^ (x >> 11) }

  /** y ^= (y << 7) & 0x9D2C5680 */
  function ShiftLeft7(x: bv32): bv32 { x ^ ((x << 7) & MaskB) }

  /** y ^= (y << 15) & 0xEFC60000 */
  function ShiftLeft15(x: bv32): bv32 { x ^ ((x << 15) & MaskC) }

  /** y ^= y >> 18 */
  function ShiftRight18(x: bv32): bv32 { x ^ (x >> 18) }

  /** The tempering of one word, the four steps in the order the generator applies them. */
  function Temper(x: bv32): bv32
  {
    ShiftRight18(ShiftLeft15(ShiftLeft7(ShiftRight11(x))))
  }

  /** Inverse of ShiftRight11: the shifted copy reaches 22 bits down, so two corrections. */
  function UndoShiftRight11(y: bv32): bv32 { y ^ (y >> 11) ^ (y >> 22) }

  /** Inverse of ShiftLeft7: each round fixes 7 more low bits, four rounds cover all 32. */
  function UndoShiftLeft7(y: bv32): bv32
  {
    var c1 := y ^ ((y << 7) & MaskB);
    var c2 := y ^ ((c1 << 7) & MaskB);
    var c3 := y ^ ((c2 << 7) & MaskB);
    y ^ ((c3 << 7) & MaskB)
  }

  /** Untempering: the steps undone in reverse order (the 15- and 18-bit steps are their own inverses). */
  function Untemper(y: bv32): bv32
  {
    UndoShiftRight11(UndoShiftLeft7(ShiftLeft15(ShiftRight18(y))))
  }

  // The 18- and 11-bit inverses below are proved in two moves: unfold the first
  // step at a plain word, then apply the second step to the unfolded expression
  // itself, where the solver can evaluate the composition bit by bit. The 15-
  // and 7-bit ones need no such help.

  lemma ShiftRight18Unfold(x: bv32)
    ensures ShiftRight18(x) == x ^ (x >> 18)
  {}

  lemma ShiftRight18Undone(x: bv32)
    ensures ShiftRight18(x ^ (x >> 18)) == x
  {}

  /** The 18-bit step is its own inverse. */
  lemma ShiftRight18Involution(x: bv32)
    ensures ShiftRight18(ShiftRight18(x)) == x
  {
    ShiftRight18Unfold(x);
    ShiftRight18Undone(x);
  }

  /** The 15-bit step is its own inverse. */
  lemma ShiftLeft15Involution(x: bv32)
    ensures ShiftLeft15(ShiftLeft15(x)) == x
  {}

  /** UndoShiftLeft7 inverts the 7-bit step on both sides. */
  lemma ShiftLeft7Inverse(x: bv32)
    ensures UndoShiftLeft7(ShiftLeft7(x)) == x
    ensures ShiftLeft7(UndoShiftLeft7(x)) == x
  {}

  lemma ShiftRight11Unfold(x: bv32)
    ensures ShiftRight11(x) == x ^ (x >> 11)
  {}

  lemma UndoShiftRight11Unfold(y: bv32)
    ensures UndoShiftRight11(y) == y ^ (y >> 11) ^ (y >> 22)
  {}

  lemma ShiftRight11Undone(x: bv32)
    ensures UndoShiftRight11(x ^ (x >> 11)) == x
  {}

  lemma UndoShiftRight11Undone(y: bv32)
    ensures ShiftRight11(y ^ (y >> 11) ^ (y >> 22)) == y
  {}

  /** UndoShiftRight11 inverts the 11-bit step on both sides. */
  lemma ShiftRight11Inverse(x: bv32)
    ensures UndoShiftRight11(ShiftRight11(x)) == x
    ensures ShiftRight11(UndoShiftRight11(x)) == x
  {
    ShiftRight11Unfold(x);
    ShiftRight11Undone(x);
    UndoShiftRight11Unfold(x);
    UndoShiftRight11Undone(x);
  }

  /** Tempering loses no information: it is a bijection of 32-bit words and
      Untemper is its inverse on both sides. */
  lemma TemperBijective(x: bv32, y: bv32)
    ensures Temper(x) == y <==> Untemper(y) == x
  {
    var a := ShiftRight11(x);
    var b := ShiftLeft7(a);
    var c := ShiftLeft15(b);
    ShiftRight18Involution(c);
    ShiftLeft15Involution(b);
    ShiftLeft7Inverse(a);
    ShiftRight11Inverse(x);
    var d := ShiftRight18(y);
    var e := ShiftLeft15(d);
    var f := UndoShiftLeft7(e);
    ShiftRight11Inverse(f);
    ShiftLeft7Inverse(e);
    ShiftLeft15Involution(d);
    ShiftRight18Involution(y);
  }
}
