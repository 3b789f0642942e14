/** Facts about division with remainder, powers of two, bit masks and unused numbers. */
module Arithmetic {

  lemma RemainderUnique(x: int, q: int, r: int, d: nat)
    requires 0 <= r < d && x == q * d + r
    ensures x % d == r
  {
    var k := x / d - q;
    assert k * d == r - x % d;
    MultipleIsFar(k, d);
  }

  lemma MultipleIsFar(k: int, d: int)
    requires d > 0
    ensures k > 0 ==> k * d >= d
    ensures k < 0 ==> k * d <= -d
  {
  }

  lemma ModShift(a: int, n: int, size: nat)
    requires size > 0
    ensures (a - n * size) % size == a % size
  {
    var q := a / size;
    assert a - n * size == (q - n) * size + a % size;
    RemainderUnique(a - n * size, q - n, a % size, size);
  }

  lemma QuotientUnique(x: int, q: int, r: int, d: nat)
    requires 0 <= r < d && x == q * d + r
    ensures x / d == q && x % d == r
  {
    RemainderUnique(x, q, r, d);
    var k := x / d - q;
    assert k * d == 0;
    MultipleIsFar(k, d);
  }

  lemma QuotientBound(q: nat, x: nat, d: nat)
    requires d > 0
    ensures q <= x / d <==> q * d <= x
  {
    var k := q - x / d;
    assert k * d == q * d - x / d * d;
    MultipleIsFar(k, d);
  }

  lemma QuotientBelow(x: nat, d: nat)
    requires d > 0
    ensures x / d * d <= x < x / d * d + d
  {
  }

  lemma MultipleHasNoRemainder(q: int, d: nat)
    requires d > 0
    ensures q * d % d == 0
  {
    RemainderUnique(q * d, q, 0, d);
  }

  lemma RoundedDown(x: nat, d: nat)
    requires d > 0
    ensures 0 <= x - x % d && (x - x % d) % d == 0 && x % d < d
  {
    MultipleHasNoRemainder(x / d, d);
    assert x - x % d == x / d * d;
  }

  lemma MultiplesAdd(x: nat, q: nat, d: nat)
    requires d > 0 && x % d == 0
    ensures (x + q * d) % d == 0
  {
    assert x == x / d * d;
    assert x + q * d == (x / d + q) * d;
    MultipleHasNoRemainder(x / d + q, d);
  }

  function Pow2(k: nat): nat
    ensures Pow2(k) > 0
  {
    if k == 0 then 1 else 2 * Pow2(k - 1)
  }

  ghost predicate IsPow2(n: nat) { exists k: nat :: n == Pow2(k) }

  /** The bits set in both numbers. */
  function And(a: nat, b: nat): nat {
    if b == 0 then 0 else (if a % 2 == 1 && b % 2 == 1 then 1 else 0) + 2 * And(a / 2, b / 2)
  }

  lemma RemainderOfHalf(a: nat, h: nat)
    requires h > 0
    ensures a % (2 * h) == 2 * (a / 2 % h) + a % 2
  {
    var q, r := a / 2 / h, a / 2 % h;
    assert a / 2 == q * h + r;
    assert 2 * (q * h) == q * (2 * h);
    RemainderUnique(a, q, 2 * r + a % 2, 2 * h);
  }

  lemma {:induction false} AndPow2(a: nat, k: nat)
    ensures And(a, Pow2(k) - 1) == a % Pow2(k)
  {
    if k > 0 {
      AndPow2(a / 2, k - 1);
      AndMask(a, Pow2(k - 1));
    }
  }

  lemma AndMask(a: nat, h: nat)
    requires h > 0 && And(a / 2, h - 1) == a / 2 % h
    ensures And(a, 2 * h - 1) == a % (2 * h)
  {
    assert And(a, 2 * h - 1) == a % 2 + 2 * And(a / 2, h - 1) by {
      assert (2 * h - 1) / 2 == h - 1 && (2 * h - 1) % 2 == 1;
    }
    assert a % (2 * h) == 2 * (a / 2 % h) + a % 2 by {
      RemainderOfHalf(a, h);
    }
  }

  /** A mask below a power of two keeps the remainder. */
  lemma AndIsRemainder(a: nat, n: nat)
    requires IsPow2(n)
    ensures n > 0 && And(a, n - 1) == a % n
  {
    var k: nat :| n == Pow2(k);
    AndPow2(a, k);
  }

  /** There is always a number not in use yet. */
  lemma {:induction false} FreshExists<V>(m: map<nat, V>)
    ensures exists k: nat :: k !in m
    decreases |m|
  {
    var k := UpperBound(m.Keys);
    assert k !in m;
  }

  lemma {:induction false} UpperBound(s: set<nat>) returns (k: nat)
    ensures forall x :: x in s ==> x < k
    decreases s
  {
    if s == {} {
      k := 0;
    } else {
      var x :| x in s;
      k := UpperBound(s - {x});
      if k <= x {
        k := x + 1;
      }
      forall y | y in s ensures y < k {
        assert y == x || y in s - {x};
      }
    }
  }
}
