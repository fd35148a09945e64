/** Small facts about multiplication, Euclidean remainder and real division that the
    solver does not find on its own; the other modules use them for index bounds
    and for the sampling grid. */
module Arith {

  lemma MulMono(a: nat, b: nat, c: nat)
    requires a <= b
    ensures a * c <= b * c
  {
    if c > 0 {
      MulMono(a, b, c - 1);
      assert a * c == a * (c - 1) + a;
      assert b * c == b * (c - 1) + b;
    }
  }

  /** The remainder is the `r` of any decomposition `a == q * s + r` with `0 <= r < s`. */
  lemma ModUnique(a: int, s: int, q: int, r: int)
    requires s > 0 && a == q * s + r && 0 <= r < s
    ensures a % s == r
  {
    var q', r' := a / s, a % s;
    assert a == q' * s + r';
    assert (q - q') * s == r' - r;
    if q > q' {
      MulMono(1, q - q', s);
    } else if q < q' {
      MulMono(1, q' - q, s);
    }
  }

  lemma ModShift(d: int, s: int)
    requires s > 0
    ensures (d + s) % s == d % s
  {
    var q, r := d / s, d % s;
    assert d + s == (q + 1) * s + r;
    ModUnique(d + s, s, q + 1, r);
  }

  /** Stepping from `x` by `s` reaches `a` exactly when `a` is `x` itself or is
      reached from `x + s`. */
  lemma ModStep(a: int, x: int, s: int)
    requires s > 0 && x <= a
    ensures (a - x) % s == 0 <==> (a == x || (x + s <= a && (a - (x + s)) % s == 0))
  {
    var d := a - x;
    if d < s {
      ModUnique(d, s, 0, d);
    } else {
      ModShift(d - s, s);
    }
  }

  /** Dividing by a larger positive number gives no more. */
  lemma DivAntitone(m: real, ds: real, dl: real)
    requires 0.0 <= m && 0.0 < ds <= dl
    ensures m / dl <= m / ds
  {
    var q := m / ds;
    assert q * ds == m;
    assert q >= 0.0;
    assert q * dl - q * ds == q * (dl - ds);
    assert q * (dl - ds) >= 0.0;
    assert m <= q * dl;
    assert (q * dl) / dl == q;
  }
}
