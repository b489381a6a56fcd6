/** The program's random choices all read `Math.floor(Math.random() * n)`.
    The value of Math.random() is passed in as `rnd`, a real in [0, 1), and
    the product is exact: the program computes it in IEEE doubles, whose
    rounding can move an interval edge below by one step. */
module Chance {

  /** The index chosen by a draw `rnd` among `n` candidates. */
  function Pick(rnd: real, n: nat): (i: nat)
    requires 0.0 <= rnd < 1.0 && n > 0
    ensures i < n
  {
    var x := rnd * n as real;
    assert 0.0 <= x < n as real by {
      assert rnd * n as real < 1.0 * n as real;
    }
    x.Floor
  }

  /** Every index can be drawn: with exact real arithmetic the draw `i / n`
      selects index `i`. */
  lemma PickReaches(i: nat, n: nat)
    requires i < n
    ensures 0.0 <= i as real / n as real < 1.0
    ensures Pick(i as real / n as real, n) == i
  {
    var rnd := i as real / n as real;
    assert rnd * n as real == i as real;
  }

  /** Multiplying by a positive factor keeps the order of two reals. */
  lemma ScaleLe(a: real, b: real, c: real)
    requires c > 0.0
    ensures a <= b <==> a * c <= b * c
  {
    if a <= b {
      assert b * c - a * c == (b - a) * c >= 0.0;
    } else {
      assert a * c - b * c == (a - b) * c > 0.0;
    }
  }

  /** A quotient by a positive `c` is at most `r` exactly when the dividend
      is at most `r * c`. */
  lemma QuotientAtMost(a: real, c: real, r: real)
    requires c > 0.0
    ensures a / c <= r <==> a <= r * c
  {
    ScaleLe(a / c, r, c);
    assert (a / c) * c == a;
  }

  /** The draws that select index `i` are exactly those in [i/n, (i+1)/n):
      every candidate gets an interval of the same width 1/n. */
  lemma PickInterval(rnd: real, n: nat, i: nat)
    requires 0.0 <= rnd < 1.0 && n > 0
    ensures Pick(rnd, n) == i <==> i as real / n as real <= rnd < (i + 1) as real / n as real
  {
    var c := n as real;
    var x := rnd * c;
    assert Pick(rnd, n) == i <==> i as real <= x < (i + 1) as real;
    QuotientAtMost(i as real, c, rnd);
    QuotientAtMost((i + 1) as real, c, rnd);
  }
}
