/** Bitwise operations on non-negative integers, bit by bit. */
module Bits {

  function Pow2(n: nat): (p: nat)
    ensures p >= 1
  {
    if n == 0 then 1 else 2 * Pow2(n - 1)
  }

  function And(a: nat, b: nat): (r: nat)
    ensures r <= a && r <= b
  {
    if a == 0 || b == 0 then 0 else 2 * And(a / 2, b / 2) + (if a % 2 == 1 && b % 2 == 1 then 1 else 0)
  }

  function Or(a: nat, b: nat): (r: nat)
    ensures a <= r && b <= r
  {
    if a == 0 && b == 0 then 0 else 2 * Or(a / 2, b / 2) + (if a % 2 == 1 || b % 2 == 1 then 1 else 0)
  }

  /** v >> n */
  function Shr(v: nat, n: nat): (r: nat) {
    if n == 0 then v else Shr(v / 2, n - 1)
  }

  /** Shifting w ones to the right by n leaves w - n ones. */
  lemma {:induction false} ShrOnes(w: nat, n: nat)
    requires n <= w
    ensures Shr(Pow2(w) - 1, n) == Pow2(w - n) - 1
  {
    if n > 0 {
      assert (Pow2(w) - 1) / 2 == Pow2(w - 1) - 1;
      ShrOnes(w - 1, n - 1);
    }
  }

  lemma OrZero(b: nat)
    ensures Or(0, b) == b
  {
  }

  /** Masking with n ones is the remainder by 2^n. */
  lemma {:induction false} AndOnes(v: nat, n: nat)
    ensures And(v, Pow2(n) - 1) == v % Pow2(n)
  {
    if n > 0 {
      var p := Pow2(n - 1);
      AndOnes(v / 2, n - 1);
      AndHalves(v, p);
      assert v % (2 * p) == 2 * (v / 2 % p) + v % 2 by {
        HalfRemainder(v, p);
      }
    }
  }

  lemma AndHalves(v: nat, p: nat)
    requires p >= 1
    ensures And(v, 2 * p - 1) == 2 * And(v / 2, p - 1) + v % 2
  {
  }

  lemma HalfRemainder(v: nat, p: nat)
    requires p >= 1
    ensures v % (2 * p) == 2 * (v / 2 % p) + v % 2
  {
    var h := v / 2;
    var q, r := h / p, h % p;
    assert h == q * p + r;
    assert v == 2 * h + v % 2;
    assert q * (2 * p) == 2 * (q * p);
    RemainderIs(v, 2 * p, q, 2 * r + v % 2);
  }

  lemma RemainderIs(v: int, m: int, q: int, r: int)
    requires v == q * m + r && 0 <= r < m
    ensures v % m == r && v / m == q
  {
    var d := v / m;
    assert v == d * m + v % m;
    if d > q {
      MulGap(q, d, m);
    } else if d < q {
      MulGap(d, q, m);
    }
  }

  lemma {:induction false} MulGap(x: int, y: int, m: int)
    requires x < y && 0 < m
    ensures x * m + m <= y * m
    decreases y - x
  {
    assert (x + 1) * m == x * m + m;
    if x + 1 < y {
      MulGap(x + 1, y, m);
    }
  }

  /** A number and its complement in w bits share no bit. */
  lemma {:induction false} AndComplement(v: nat, w: nat)
    requires v < Pow2(w)
    ensures And(Pow2(w) - 1 - v, v) == 0
  {
    if w > 0 {
      AndComplement(v / 2, w - 1);
      assert (Pow2(w) - 1 - v) / 2 == Pow2(w - 1) - 1 - v / 2;
    }
  }
}
