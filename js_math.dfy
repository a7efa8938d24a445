/** The one JavaScript `Math` function the client's image helpers share. */
module JsMath {

  /** `Math.round(x)`: the integer nearest to `x`, halves rounding up. */
  function Round(x: real): (r: int)
    ensures x - 0.5 < r as real <= x + 0.5
  {
    (x + 0.5).Floor
  }
}
