/**
 * Status codes returned by command actions, and the bitwise OR with which the
 * aggregate command combines them (`rc |= ...` on a C++ `int`).
 */
module Status {

  /**
   * A C++ `int` status, held as its 32-bit two's-complement pattern: the only
   * arithmetic the dispatch layer does on statuses is bitwise OR.
   */
  type Code = bv32

  /** `a |= b` on two C++ ints: the combined status fails when either fails. */
  function Combine(a: Code, b: Code): (r: Code)
    ensures r == 0 <==> a == 0 && b == 0
    ensures a == 0 ==> r == b
  {
    a | b
  }

  /** On the statuses 0 and 1 that the dispatch layer produces, OR is "either failed". */
  lemma CombineFlags(a: Code, b: Code)
    requires a <= 1 && b <= 1
    ensures Combine(a, b) == (if a == 1 || b == 1 then 1 else 0)
  {
  }
}
