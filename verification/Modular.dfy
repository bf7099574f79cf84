/** Unsigned 16-bit sequence arithmetic (utils.py). */
module Modular {
  const WRAP: int := 0x1_0000

  type Seq16 = x: int | 0 <= x < 0x1_0000

  /** `gap_wrapped`: how many numbers lie strictly between `a` and `b`, going up from `a`. */
  function GapWrapped(a: int, b: int): (r: Seq16) {
    (b - (a + 1) + WRAP) % WRAP
  }

  /** `add_wrapped`. */
  function AddWrapped(a: int, b: int, wrap: int := WRAP): (r: int)
    requires wrap > 0
    ensures 0 <= r < wrap
  {
    (a + b) % wrap
  }

  /** Going up by the gap and one more arrives. */
  lemma GapArrives(a: Seq16, b: Seq16)
    ensures AddWrapped(a, GapWrapped(a, b) + 1) == b
  {
  }

  /** No gap means consecutive numbers, and closing a gap by one leaves one less. */
  lemma GapStep(a: Seq16, b: Seq16)
    ensures GapWrapped(a, b) == 0 <==> b == AddWrapped(a, 1)
    ensures GapWrapped(a, b) > 0 ==> GapWrapped(AddWrapped(a, 1), b) == GapWrapped(a, b) - 1
    ensures GapWrapped(AddWrapped(b, -1), b) == 0
  {
  }

  /** Without rollover the gap is a plain difference going up, and nearly a whole turn going down. */
  lemma GapPlain(a: Seq16, b: Seq16)
    ensures GapWrapped(a, b) == if a < b then b - a - 1 else WRAP - 1 - (a - b)
  {
  }
}
