// The bit operations on 64-bit integers, in two's complement, that the ids are put together with.
module Bits {

  function Pow2(k: nat): (r: nat)
    ensures r >= 1
  {
    if k == 0 then 1 else 2 * Pow2(k - 1)
  }

  function Abs(a: int): nat {
    if a < 0 then -a else a
  }

  // All bits of the number are its sign.
  predicate SignOnly(a: int) {
    a == 0 || a == -1
  }

  // a | b, bit by bit
  function Or(a: int, b: int): int
    decreases Abs(a) + Abs(b)
  {
    if SignOnly(a) && SignOnly(b) then (if a == -1 || b == -1 then -1 else 0)
    else 2 * Or(a / 2, b / 2) + if a % 2 == 1 || b % 2 == 1 then 1 else 0
  }

  // a & b, bit by bit
  function And(a: int, b: int): int
    decreases Abs(a) + Abs(b)
  {
    if SignOnly(a) && SignOnly(b) then (if a == -1 && b == -1 then -1 else 0)
    else 2 * And(a / 2, b / 2) + if a % 2 == 1 && b % 2 == 1 then 1 else 0
  }

  // Go keeps the low 64 bits.
  function Wrap64(a: int): int {
    var low := a % 0x1_0000_0000_0000_0000;
    if low >= 0x8000_0000_0000_0000 then low - 0x1_0000_0000_0000_0000 else low
  }

  // a << k
  function ShiftLeft(a: int, k: nat): int {
    Wrap64(a * Pow2(k))
  }

  // a >> k keeps the sign: it rounds down.
  function ShiftRight(a: int, k: nat): int {
    a / Pow2(k)
  }

  lemma {:induction false} OrZero(a: int)
    ensures Or(a, 0) == a
    decreases Abs(a)
  {
    if !SignOnly(a) {
      OrZero(a / 2);
    }
  }

  // Bits below position k are simply added to a multiple of 2^k.
  lemma {:induction false} OrDisjoint(a: int, b: nat, k: nat)
    requires b < Pow2(k)
    ensures Or(a * Pow2(k), b) == a * Pow2(k) + b
  {
    if k == 0 {
      OrZero(a);
    } else {
      var high := a * Pow2(k - 1);
      assert a * Pow2(k) == 2 * high by {
        assert a * (2 * Pow2(k - 1)) == 2 * (a * Pow2(k - 1));
      }
      OrDisjoint(a, b / 2, k - 1);
      if SignOnly(2 * high) && SignOnly(b) {
        assert high == 0 && b == 0;
      }
    }
  }

  // Masking the low k bits is the remainder modulo 2^k.
  lemma {:induction false} AndMask(a: int, k: nat)
    ensures And(a, Pow2(k) - 1) == a % Pow2(k)
    decreases k
  {
    if k == 0 {
      AndZero(a);
    } else {
      var m := Pow2(k - 1);
      AndMask(a / 2, k - 1);
      assert (Pow2(k) - 1) / 2 == m - 1 && (Pow2(k) - 1) % 2 == 1;
      HalfRemainder(a, m);
    }
  }

  lemma {:induction false} AndZero(a: int)
    ensures And(a, 0) == 0
    decreases Abs(a)
  {
    if !SignOnly(a) {
      AndZero(a / 2);
    }
  }

  lemma HalfRemainder(a: int, m: nat)
    requires m >= 1
    ensures a % (2 * m) == 2 * (a / 2 % m) + a % 2
  {
    var h, q, r := a / 2, a / 2 / m, a / 2 % m;
    assert h == q * m + r;
    assert a == 2 * h + a % 2;
    Remainder(a, 2 * m, q, 2 * r + a % 2) by {
      assert a == q * (2 * m) + (2 * r + a % 2) by {
        assert q * (2 * m) == 2 * (q * m);
      }
    }
  }

  lemma Remainder(a: int, n: nat, q: int, r: nat)
    requires 0 <= r < n && a == q * n + r
    ensures a / n == q && a % n == r
  {
    var d := a / n - q;
    assert a == a / n * n + a % n;
    assert d * n == r - a % n by {
      assert d * n == a / n * n - q * n;
    }
    if d != 0 {
      MultipleSize(d, n);
    }
  }

  lemma MultipleSize(d: int, n: int)
    requires d != 0 && n >= 0
    ensures d * n >= n || d * n <= -n
  {
    if d >= 1 {
      assert (d - 1) * n >= 0;
    } else {
      assert (-d - 1) * n >= 0;
    }
  }
}
