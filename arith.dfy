/** Small facts about multiplication, division and remainder by a positive number. */
module Arith {
  lemma MulBelow(a: int, g: int)
    requires g > 0 && a >= 1
    ensures a * g >= g
  {
    assert a * g == (a - 1) * g + g;
  }

  lemma MulLe(a: nat, b: nat, k: nat)
    requires a <= b
    ensures a * k <= b * k
  {
  }

  /** q * g + c with 0 <= c < g leaves remainder c and quotient q. */
  lemma DivMod(g: int, q: int, c: int)
    requires 0 <= q && 0 <= c < g
    ensures (q * g + c) % g == c && (q * g + c) / g == q
  {
    var x := q * g + c;
    var q', m := x / g, x % g;
    assert x == q' * g + m;
    var d := q - q';
    assert d * g == m - c;
    if d >= 1 {
      MulBelow(d, g);
    }
  }

  /** The quotient q of x by g is the one with q * g <= x < q * g + g. */
  lemma DivBounds(x: nat, g: nat)
    requires g >= 1
    ensures (x / g) * g <= x < (x / g) * g + g
  {
    DivMod(g, x / g, x % g);
  }
}
