/** Integer pixel geometry shared by the renderer, the differ and the frame loop. */
module Geometry {

  /** C's `(int)` cast of a float: truncation toward zero. */
  function Trunc(r: real): (n: int)
    ensures r >= 0.0 ==> n as real <= r < n as real + 1.0
    ensures r < 0.0 ==> n as real - 1.0 < r <= n as real
  {
    if r >= 0.0 then r.Floor else -((-r).Floor)
  }

  lemma TruncMonotone(a: real, b: real)
    requires a <= b
    ensures Trunc(a) <= Trunc(b)
  {
  }

  /** Moving a coordinate by `d` pixels moves its truncation by at most `d` rounded outward. */
  lemma TruncShift(a: real, d: real, k: nat)
    requires 0.0 <= d <= k as real
    ensures Trunc(a + d) <= Trunc(a) + k + 1
    ensures Trunc(a) - k - 1 <= Trunc(a - d)
  {
  }

  function Min(a: int, b: int): int { if a < b then a else b }

  function Max(a: int, b: int): int { if a > b then a else b }

  /** A half-open pixel rectangle `[x0,x1) x [y0,y1)`. */
  datatype Rect = Rect(x0: int, y0: int, x1: int, y1: int) {
    predicate Has(x: int, y: int) { x0 <= x < x1 && y0 <= y < y1 }

    predicate Empty() { x1 <= x0 || y1 <= y0 }

    predicate Disjoint(r: Rect) { x1 <= r.x0 || r.x1 <= x0 || y1 <= r.y0 || r.y1 <= y0 }
  }
}
