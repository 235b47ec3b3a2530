/** Powers and the little nonlinear arithmetic that address blocks need. */
module Powers {

  function Pow(a: int, b: nat): int {
    if b == 0 then 1 else a * Pow(a, b - 1)
  }

  function Pow2(n: nat): (r: nat)
    ensures r > 0
  {
    if n == 0 then 1 else 2 * Pow2(n - 1)
  }

  lemma {:induction false} PowIsPow2(n: nat)
    ensures Pow(2, n) == Pow2(n)
  {
    if n > 0 { PowIsPow2(n - 1); }
  }

  lemma {:induction false} PowSquare(a: int, b: nat)
    ensures Pow(a * a, b) == Pow(a, 2 * b)
  {
    if b > 0 {
      PowSquare(a, b - 1);
      assert Pow(a, 2 * b) == a * Pow(a, 2 * b - 1) == a * (a * Pow(a, 2 * b - 2));
    }
  }

  lemma {:induction false} Pow2Sum(a: nat, b: nat, c: nat)
    requires c == a + b
    ensures Pow2(c) == Pow2(a) * Pow2(b)
  {
    if a > 0 { Pow2Sum(a - 1, b, c - 1); }
  }

  lemma Pow2Constants()
    ensures Pow2(8) == 256 && Pow2(9) == 512 && Pow2(16) == 0x1_0000
  {
  }

  lemma {:induction false} Pow2Grows(a: nat, b: nat)
    requires a < b
    ensures 2 * Pow2(a) <= Pow2(b)
  {
    if a + 1 < b { Pow2Grows(a, b - 1); }
  }

  /** intPow: binary powering computes the power. */
  method IntPow(a0: int, b0: int) returns (p: int)
    ensures b0 >= 0 ==> p == Pow(a0, b0)
    ensures b0 < 0 ==> p == 1
  {
    var a, b := a0, b0;
    p := 1;
    while b > 0
      invariant b0 >= 0 ==> b >= 0 && p * Pow(a, b) == Pow(a0, b0)
      invariant b0 < 0 ==> b == b0 && p == 1
    {
      PowSquare(a, b / 2);
      if b % 2 != 0 {
        ghost var q, rest := p, Pow(a, 2 * (b / 2));
        assert Pow(a, b) == a * rest;
        assert q * (a * rest) == (q * a) * rest;
        p := p * a;
      }
      b := b / 2;
      a := a * a;
    }
  }

  /** x with everything below a multiple of s cleared: x under the mask of a block of size s. */
  function Floor(x: nat, s: nat): (r: nat)
    requires s > 0
    ensures r <= x < r + s
  {
    x / s * s
  }

  lemma {:induction false} Apart(a: int, b: int, s: nat)
    requires a < b
    ensures a * s + s <= b * s
    decreases b - a
  {
    if a + 1 < b { Apart(a, b - 1, s); }
    assert (b - 1) * s + s == b * s;
  }

  /** Equal under the mask means inside the block. */
  lemma MaskIsRange(x: nat, y: nat, s: nat)
    requires s > 0
    ensures Floor(x, s) == Floor(y, s) <==> Floor(y, s) <= x < Floor(y, s) + s
  {
    var a, b := x / s, y / s;
    assert Floor(x, s) == a * s && Floor(y, s) == b * s;
    if a < b { Apart(a, b, s); } else if b < a { Apart(b, a, s); }
  }

  lemma FloorOfSum(k: nat, n: nat, i: nat, s: nat)
    requires s > 0
    ensures Floor(k * (n * s) + i * s, s) == k * (n * s) + i * s
  {
    var q := k * n + i;
    assert q * s == (k * n) * s + i * s == k * (n * s) + i * s;
    var f := (q * s) / s;
    if f < q { Apart(f, q, s); } else if q < f { Apart(q, f, s); }
  }
}
