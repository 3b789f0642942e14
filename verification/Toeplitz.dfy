/**
 The Toeplitz hash of `lib/ff_dpdk_if.c`, as in Microsoft's Receive Side Scaling "RSS Hashing Functions".

 The code shifts a 32-bit window of the key along, one bit per data bit.  `Sum` is what that computes:
 the exclusive or, over the set bits n of the data, of the 32 key bits from position n, with zeros past
 the end of the key.  Bits are numbered from the most significant bit of the first byte, and a 32-bit
 word is the sequence of its bits in that order.
 */
module Toeplitz {
  import Arithmetic

  type Byte = x: nat | x < 256

  type Word = w: seq<bool> | |w| == 32
    witness [false, false, false, false, false, false, false, false,
             false, false, false, false, false, false, false, false,
             false, false, false, false, false, false, false, false,
             false, false, false, false, false, false, false, false]

  function Zero(): Word { seq(32, _ => false) }

  function Shr(x: nat, k: nat): nat { if k == 0 then x else Shr(x / 2, k - 1) }

  /** The test `x & (1 << (7 - b))`. */
  predicate IsSet(x: Byte, b: nat)
    requires b < 8
  {
    Shr(x, 7 - b) % 2 == 1
  }

  /** Bit n of a byte string; there are only zeros past its end. */
  predicate Bit(s: seq<Byte>, n: nat) {
    n / 8 < |s| && IsSet(s[n / 8], n % 8)
  }

  function BitsOf(x: Byte): seq<bool> {
    seq(8, b requires 0 <= b < 8 => IsSet(x, b))
  }

  function Xor(a: Word, b: Word): Word {
    seq(32, i requires 0 <= i < 32 => a[i] != b[i])
  }

  /** `w << 1`, with a new last bit. */
  function ShiftIn(w: Word, b: bool): Word { w[1..] + [b] }

  /** The 32 bits of the key from position n. */
  function Window(key: seq<Byte>, n: nat): Word {
    seq(32, i requires 0 <= i < 32 => Bit(key, n + i))
  }

  /** What data bit n contributes to the hash. */
  function Term(key: seq<Byte>, data: seq<Byte>, n: nat): Word {
    if Bit(data, n) then Window(key, n) else Zero()
  }

  function Terms(key: seq<Byte>, data: seq<Byte>): nat -> Word {
    n => Term(key, data, n)
  }

  /** The exclusive or of the terms in [lo, hi). */
  function Sum(t: nat -> Word, lo: nat, hi: nat): Word
    requires lo <= hi
  {
    if lo == hi then Zero() else Xor(Sum(t, lo, hi - 1), t(hi - 1))
  }

  function HashOf(key: seq<Byte>, data: seq<Byte>): Word { Sum(Terms(key, data), 0, 8 * |data|) }

  // ---- what the bits are

  lemma {:induction false} ShrIs(x: nat, k: nat)
    ensures Shr(x, k) == x / Arithmetic.Pow2(k)
  {
    if k > 0 {
      ShrIs(x / 2, k - 1);
      HalfOfQuotient(x, Arithmetic.Pow2(k - 1));
    }
  }

  lemma HalfOfQuotient(x: nat, h: nat)
    requires h > 0
    ensures x / 2 / h == x / (2 * h)
  {
    var q, r := x / 2 / h, x / 2 % h;
    assert x / 2 == q * h + r;
    assert 2 * (q * h) == q * (2 * h);
    Arithmetic.QuotientUnique(x, q, 2 * r + x % 2, 2 * h);
  }

  /** Bit n is the one of weight 2^(7 - n % 8) in byte n / 8. */
  lemma BitIs(s: seq<Byte>, n: nat)
    ensures Bit(s, n) <==> n / 8 < |s| && s[n / 8] / Arithmetic.Pow2(7 - n % 8) % 2 == 1
  {
    if n / 8 < |s| {
      ShrIs(s[n / 8], 7 - n % 8);
    }
  }

  /** Data bit n is set and so is the key bit k places further on. */
  function Meeting(key: seq<Byte>, data: seq<Byte>, k: nat): nat -> bool {
    (n: nat) => Bit(data, n) && Bit(key, n + k)
  }

  function Count(p: nat -> bool, n: nat): nat {
    if n == 0 then 0 else Count(p, n - 1) + if p(n - 1) then 1 else 0
  }

  /** The hash is the product, over the bits, of the data and the Toeplitz matrix of the key. */
  lemma HashIsProduct(key: seq<Byte>, data: seq<Byte>, k: nat)
    requires k < 32
    ensures HashOf(key, data)[k] <==> Count(Meeting(key, data, k), 8 * |data|) % 2 == 1
  {
    forall n: nat ensures SetsBit(Terms(key, data), Meeting(key, data, k), k, n) {
      TermBit(key, data, n, k);
    }
    SumIsParity(Terms(key, data), Meeting(key, data, k), k, 8 * |data|);
  }

  lemma TermBit(key: seq<Byte>, data: seq<Byte>, n: nat, k: nat)
    requires k < 32
    ensures Term(key, data, n)[k] <==> Bit(data, n) && Bit(key, n + k)
  {
  }

  predicate SetsBit(t: nat -> Word, p: nat -> bool, k: nat, n: nat)
    requires k < 32
  {
    t(n)[k] == p(n)
  }

  lemma {:induction false} SumIsParity(t: nat -> Word, p: nat -> bool, k: nat, n: nat)
    requires k < 32 && forall i: nat {:trigger SetsBit(t, p, k, i)} :: SetsBit(t, p, k, i)
    ensures Sum(t, 0, n)[k] <==> Count(p, n) % 2 == 1
  {
    if n > 0 {
      SumIsParity(t, p, k, n - 1);
      assert SetsBit(t, p, k, n - 1);
    }
  }

  /** The number a hash word stands for. */
  function Value(bits: seq<bool>): nat {
    if bits == [] then 0 else 2 * Value(bits[..|bits| - 1]) + if bits[|bits| - 1] then 1 else 0
  }

  lemma {:induction false} ValueOfByte(x: Byte, j: nat)
    requires j <= 8
    ensures Value(BitsOf(x)[..j]) == x / Arithmetic.Pow2(8 - j)
  {
    if j == 0 {
      assert Arithmetic.Pow2(8) == 2 * Arithmetic.Pow2(7) == 4 * Arithmetic.Pow2(6) == 8 * Arithmetic.Pow2(5)
          == 16 * Arithmetic.Pow2(4) == 32 * Arithmetic.Pow2(3) == 64 * Arithmetic.Pow2(2);
    } else {
      ValueOfByte(x, j - 1);
      ShrIs(x, 8 - j);
      QuotientOfHalf(x, Arithmetic.Pow2(8 - j));
      assert BitsOf(x)[..j][..j - 1] == BitsOf(x)[..j - 1];
    }
  }

  lemma QuotientOfHalf(x: nat, h: nat)
    requires h > 0
    ensures x / (2 * h) == x / h / 2
  {
    var q, r := x / h / 2, x / h % 2;
    assert x == (2 * q + r) * h + x % h == q * (2 * h) + (r * h + x % h);
    Arithmetic.QuotientUnique(x, q, r * h + x % h, 2 * h);
  }

  lemma {:induction false} ValueJoins(a: seq<bool>, b: seq<bool>)
    ensures Value(a + b) == Value(a) * Arithmetic.Pow2(|b|) + Value(b)
  {
    if b == [] {
      assert a + b == a;
    } else {
      var n := |b| - 1;
      ValueJoins(a, b[..n]);
      assert (a + b)[..|a + b| - 1] == a + b[..n];
      Doubled(Value(a), Arithmetic.Pow2(n));
    }
  }

  lemma Doubled(a: nat, h: nat)
    ensures a * (2 * h) == 2 * (a * h)
  {
  }

  lemma ValueShifts(a: seq<bool>, x: Byte)
    ensures Value(a + BitsOf(x)) == 256 * Value(a) + x as int
  {
    ValueJoins(a, BitsOf(x));
    ValueOfByte(x, 8);
    assert BitsOf(x)[..8] == BitsOf(x);
    assert Arithmetic.Pow2(8) == 2 * Arithmetic.Pow2(7) == 4 * Arithmetic.Pow2(6) == 8 * Arithmetic.Pow2(5)
        == 16 * Arithmetic.Pow2(4) == 32 * Arithmetic.Pow2(3) == 64 * Arithmetic.Pow2(2);
  }

  /** The window starts with the first four bytes of the key, the first one highest. */
  lemma FirstWord(key: seq<Byte>)
    requires |key| >= 4
    ensures Value(Window(key, 0)) ==
            0x100_0000 * (key[0] as int) + 0x1_0000 * (key[1] as int) + 0x100 * (key[2] as int) + key[3] as int
  {
    FirstWindow(key);
    ValueShifts([], key[0]);
    assert [] + BitsOf(key[0]) == BitsOf(key[0]);
    ValueShifts(BitsOf(key[0]), key[1]);
    ValueShifts(BitsOf(key[0]) + BitsOf(key[1]), key[2]);
    ValueShifts(BitsOf(key[0]) + BitsOf(key[1]) + BitsOf(key[2]), key[3]);
  }

  // ---- the code

  lemma Position(s: seq<Byte>, i: nat, b: nat)
    requires b < 8
    ensures Bit(s, 8 * i + b) == (i < |s| && IsSet(s[i], b))
  {
    assert (8 * i + b) / 8 == i && (8 * i + b) % 8 == b;
  }

  lemma Joined(a: seq<bool>, b: seq<bool>, c: seq<bool>, d: seq<bool>, n: nat)
    requires |a| == |b| == |c| == |d| == 8 && n < 32
    ensures (a + b + c + d)[n] == [a, b, c, d][n / 8][n % 8]
  {
  }

  lemma FirstWindow(key: seq<Byte>)
    requires |key| >= 4
    ensures Window(key, 0) == BitsOf(key[0]) + BitsOf(key[1]) + BitsOf(key[2]) + BitsOf(key[3])
  {
    var w := BitsOf(key[0]) + BitsOf(key[1]) + BitsOf(key[2]) + BitsOf(key[3]);
    forall n | 0 <= n < 32 ensures Window(key, 0)[n] == w[n] {
      Joined(BitsOf(key[0]), BitsOf(key[1]), BitsOf(key[2]), BitsOf(key[3]), n);
      assert [BitsOf(key[0]), BitsOf(key[1]), BitsOf(key[2]), BitsOf(key[3])][n / 8] == BitsOf(key[n / 8]);
    }
  }

  lemma Slide(key: seq<Byte>, n: nat)
    ensures ShiftIn(Window(key, n), Bit(key, n + 32)) == Window(key, n + 1)
  {
  }

  lemma XorZero(a: Word)
    ensures Xor(a, Zero()) == a
  {
  }

  /** The state of the computation before data bit n. */
  predicate Reached(key: seq<Byte>, data: seq<Byte>, n: nat, hash: Word, v: Word) {
    v == Window(key, n) && hash == Sum(Terms(key, data), 0, n)
  }

  lemma NextBit(key: seq<Byte>, data: seq<Byte>, i: nat, b: nat, hash: Word, v: Word)
    requires i < |data| && b < 8 && Reached(key, data, 8 * i + b, hash, v)
    ensures Reached(key, data, 8 * i + b + 1, if IsSet(data[i], b) then Xor(hash, v) else hash,
                    ShiftIn(v, i + 4 < |key| && IsSet(key[i + 4], b)))
  {
    Position(data, i, b);
    XorZero(hash);
    Slide(key, 8 * i + b);
    Position(key, i + 4, b);
  }

  /** `toeplitz_hash`. */
  method Hash(key: seq<Byte>, data: seq<Byte>) returns (hash: Word)
    requires |key| >= 4
    ensures hash == HashOf(key, data)
  {
    hash := Zero();
    FirstWindow(key);
    var v: Word := BitsOf(key[0]) + BitsOf(key[1]) + BitsOf(key[2]) + BitsOf(key[3]);
    for i := 0 to |data|
      invariant Reached(key, data, 8 * i, hash, v)
    {
      hash, v := HashByte(key, data, i, hash, v);
    }
  }

  /** The inner loop: the eight bits of one byte. */
  method HashByte(key: seq<Byte>, data: seq<Byte>, i: nat, hash: Word, v: Word) returns (hash': Word, v': Word)
    requires i < |data| && Reached(key, data, 8 * i, hash, v)
    ensures Reached(key, data, 8 * i + 8, hash', v')
  {
    hash', v' := hash, v;
    for b := 0 to 8
      invariant Reached(key, data, 8 * i + b, hash', v')
    {
      hash', v' := HashBit(key, data, i, b, hash', v');
    }
  }

  method HashBit(key: seq<Byte>, data: seq<Byte>, i: nat, b: nat, hash: Word, v: Word)
    returns (hash': Word, v': Word)
    requires i < |data| && b < 8 && Reached(key, data, 8 * i + b, hash, v)
    ensures Reached(key, data, 8 * i + b + 1, hash', v')
  {
    NextBit(key, data, i, b, hash, v);
    hash' := if IsSet(data[i], b) then Xor(hash, v) else hash;
    v' := ShiftIn(v, i + 4 < |key| && IsSet(key[i + 4], b));
  }

  // ---- linearity

  /** Byte string c is the exclusive or of a and b. */
  ghost predicate IsXor(a: seq<Byte>, b: seq<Byte>, c: seq<Byte>) {
    |a| == |b| == |c| && forall n: nat :: Bit(c, n) == (Bit(a, n) != Bit(b, n))
  }

  lemma Regroup(a: Word, b: Word, c: Word, d: Word)
    ensures Xor(Xor(a, b), Xor(c, d)) == Xor(Xor(a, c), Xor(b, d))
  {
  }

  lemma TermXor(key: seq<Byte>, a: seq<Byte>, b: seq<Byte>, c: seq<Byte>, n: nat)
    requires IsXor(a, b, c)
    ensures Term(key, c, n) == Xor(Term(key, a, n), Term(key, b, n))
  {
    assert Bit(c, n) == (Bit(a, n) != Bit(b, n));
  }

  lemma {:induction false} SumXor(t: nat -> Word, u: nat -> Word, v: nat -> Word, hi: nat)
    requires forall n: nat :: v(n) == Xor(t(n), u(n))
    ensures Sum(v, 0, hi) == Xor(Sum(t, 0, hi), Sum(u, 0, hi))
  {
    if hi == 0 {
      XorZero(Zero());
    } else {
      SumXor(t, u, v, hi - 1);
      Regroup(Sum(t, 0, hi - 1), Sum(u, 0, hi - 1), t(hi - 1), u(hi - 1));
    }
  }

  /** The hash of the exclusive or of two inputs is the exclusive or of their hashes. */
  lemma Linear(key: seq<Byte>, a: seq<Byte>, b: seq<Byte>, c: seq<Byte>)
    requires IsXor(a, b, c)
    ensures HashOf(key, c) == Xor(HashOf(key, a), HashOf(key, b))
  {
    forall n: nat ensures Terms(key, c)(n) == Xor(Terms(key, a)(n), Terms(key, b)(n)) {
      TermXor(key, a, b, c, n);
    }
    SumXor(Terms(key, a), Terms(key, b), Terms(key, c), 8 * |a|);
  }

  // ---- symmetry

  lemma Reassociate(a: Word, b: Word, c: Word)
    ensures Xor(Xor(a, b), c) == Xor(a, Xor(b, c))
  {
  }

  lemma Commute(a: Word, b: Word)
    ensures Xor(a, b) == Xor(b, a)
  {
  }

  lemma {:induction false} SumSplit(t: nat -> Word, lo: nat, mid: nat, hi: nat)
    requires lo <= mid <= hi
    ensures Sum(t, lo, hi) == Xor(Sum(t, lo, mid), Sum(t, mid, hi))
    decreases hi
  {
    if mid == hi {
      XorZero(Sum(t, lo, mid));
    } else {
      SumSplit(t, lo, mid, hi - 1);
      Reassociate(Sum(t, lo, mid), Sum(t, mid, hi - 1), t(hi - 1));
    }
  }

  predicate Same(t: nat -> Word, u: nat -> Word, n: nat, d: nat) { t(n) == u(n + d) }

  lemma {:induction false} SumShift(t: nat -> Word, u: nat -> Word, lo: nat, hi: nat, d: nat)
    requires lo <= hi && forall n: nat {:trigger Same(t, u, n, d)} :: lo <= n < hi ==> Same(t, u, n, d)
    ensures Sum(t, lo, hi) == Sum(u, lo + d, hi + d)
    decreases hi
  {
    if lo < hi {
      SumShift(t, u, lo, hi - 1, d);
      assert Same(t, u, hi - 1, d);
    }
  }

  /** Two neighbouring stretches of d terms change places. */
  ghost predicate Swaps(t: nat -> Word, u: nat -> Word, lo: nat, d: nat) {
    && (forall n: nat {:trigger Same(t, u, n, d)} :: lo <= n < lo + d ==> Same(t, u, n, d))
    && (forall n: nat {:trigger Same(u, t, n, d)} :: lo <= n < lo + d ==> Same(u, t, n, d))
  }

  lemma SumExchange(t: nat -> Word, u: nat -> Word, lo: nat, d: nat)
    requires Swaps(t, u, lo, d)
    ensures Sum(t, lo, lo + d + d) == Sum(u, lo, lo + d + d)
  {
    SumShift(t, u, lo, lo + d, d);
    SumShift(u, t, lo, lo + d, d);
    SumSplit(t, lo, lo + d, lo + d + d);
    SumSplit(u, lo, lo + d, lo + d + d);
    Commute(Sum(t, lo, lo + d), Sum(u, lo, lo + d));
  }

  lemma SumTwoExchanges(t: nat -> Word, u: nat -> Word, d: nat, e: nat, hi: nat)
    requires Swaps(t, u, 0, d) && Swaps(t, u, 2 * d, e) && hi == 2 * d + 2 * e
    ensures Sum(t, 0, hi) == Sum(u, 0, hi)
  {
    SumExchange(t, u, 0, d);
    SumExchange(t, u, 2 * d, e);
    SumSplit(t, 0, 2 * d, hi);
    SumSplit(u, 0, 2 * d, hi);
  }

  /** The key repeats itself every 16 bits. */
  ghost predicate Periodic(key: seq<Byte>) {
    forall i: nat {:trigger Repeats(key, i)} :: Repeats(key, i)
  }

  predicate Repeats(key: seq<Byte>, i: nat) { i + 2 < |key| ==> key[i] == key[i + 2] }

  lemma {:induction false} SameByte(key: seq<Byte>, i: nat, p: nat)
    requires Periodic(key) && i + 2 * p < |key|
    ensures key[i] == key[i + 2 * p]
  {
    if p > 0 {
      SameByte(key, i, p - 1);
      assert Repeats(key, i + 2 * (p - 1));
    }
  }

  lemma SameBit(key: seq<Byte>, n: nat, p: nat)
    requires Periodic(key) && n + 16 * p < 8 * |key|
    ensures Bit(key, n) == Bit(key, n + 16 * p)
  {
    SameByte(key, n / 8, p);
    Position(key, n / 8 + 2 * p, n % 8);
  }

  lemma SameWindow(key: seq<Byte>, n: nat, p: nat)
    requires Periodic(key) && n + 16 * p + 32 <= 8 * |key|
    ensures Window(key, n) == Window(key, n + 16 * p)
  {
    forall m: nat | n <= m < n + 32 ensures Bit(key, m) == Bit(key, m + 16 * p) {
      SameBit(key, m, p);
    }
    assert forall i :: 0 <= i < 32 ==> Window(key, n)[i] == Window(key, n + 16 * p)[i];
  }

  /** The `len` bytes at i in one string stand 2p bytes further on in another. */
  ghost predicate Shifted(a: seq<Byte>, b: seq<Byte>, i: nat, p: nat, len: nat) {
    i + len <= |a| && i + 2 * p + len <= |b| && a[i..i + len] == b[i + 2 * p..i + 2 * p + len]
  }

  /** Moving data by a multiple of 16 bits does not change what it contributes. */
  lemma ShiftedTerm(key: seq<Byte>, a: seq<Byte>, b: seq<Byte>, i: nat, p: nat, len: nat, n: nat)
    requires Periodic(key) && i + 2 * p + len + 4 <= |key| && Shifted(a, b, i, p, len)
    requires 8 * i <= n < 8 * (i + len)
    ensures Term(key, a, n) == Term(key, b, n + 16 * p)
  {
    SameWindow(key, n, p);
    ShiftedBit(a, b, i, p, len, n / 8, n % 8);
    assert 8 * (n / 8) + n % 8 == n;
  }

  lemma ShiftedBit(a: seq<Byte>, b: seq<Byte>, i: nat, p: nat, len: nat, k: nat, m: nat)
    requires Shifted(a, b, i, p, len) && i <= k < i + len && m < 8
    ensures Bit(a, 8 * k + m) == Bit(b, 8 * k + m + 16 * p)
  {
    assert a[i..i + len][k - i] == b[i + 2 * p..i + 2 * p + len][k - i];
    Position(a, k, m);
    Position(b, k + 2 * p, m);
    assert 8 * (k + 2 * p) + m == 8 * k + m + 16 * p;
  }

  lemma TermsSwap(key: seq<Byte>, a: seq<Byte>, b: seq<Byte>, i: nat, half: nat, lo: nat, d: nat)
    requires Periodic(key) && i + 4 * half + 4 <= |key| && lo == 8 * i && d == 16 * half
    requires Shifted(a, b, i, half, 2 * half) && Shifted(b, a, i, half, 2 * half)
    ensures Swaps(Terms(key, a), Terms(key, b), lo, d)
  {
    forall n: nat | lo <= n < lo + d ensures Same(Terms(key, a), Terms(key, b), n, d) {
      TermShifts(key, a, b, i, half, n, d);
    }
    forall n: nat | lo <= n < lo + d ensures Same(Terms(key, b), Terms(key, a), n, d) {
      TermShifts(key, b, a, i, half, n, d);
    }
  }

  lemma TermShifts(key: seq<Byte>, a: seq<Byte>, b: seq<Byte>, i: nat, half: nat, n: nat, d: nat)
    requires Periodic(key) && i + 4 * half + 4 <= |key| && d == 16 * half && Shifted(a, b, i, half, 2 * half)
    requires 8 * i <= n < 8 * i + d
    ensures Same(Terms(key, a), Terms(key, b), n, d)
  {
    ShiftedTerm(key, a, b, i, half, 2 * half, n);
  }

  /**
   With a key that repeats every 16 bits, both directions of a connection have the same hash.  `ff_rss_check` and
   `ff_rss_check6` hash the source address, the destination address, the source port and the destination port.
   */
  lemma Symmetric(key: seq<Byte>, saddr: seq<Byte>, daddr: seq<Byte>, sport: seq<Byte>, dport: seq<Byte>)
    requires Periodic(key) && |saddr| == |daddr| && |saddr| % 2 == 0 && |sport| == |dport| == 2
    requires 2 * |saddr| + 8 <= |key|
    ensures HashOf(key, saddr + daddr + sport + dport) == HashOf(key, daddr + saddr + dport + sport)
  {
    AddressesSwap(saddr, daddr, sport, dport, |saddr| / 2);
    SwappedHash(key, saddr + daddr + sport + dport, daddr + saddr + dport + sport, |saddr| / 2);
  }

  lemma SwappedHash(key: seq<Byte>, a: seq<Byte>, b: seq<Byte>, half: nat)
    requires Periodic(key) && 4 * half + 8 <= |key| && |a| == |b| == 4 * half + 4
    requires Shifted(a, b, 0, half, 2 * half) && Shifted(b, a, 0, half, 2 * half)
    requires Shifted(a, b, 4 * half, 1, 2) && Shifted(b, a, 4 * half, 1, 2)
    ensures HashOf(key, a) == HashOf(key, b)
  {
    TermsSwap(key, a, b, 0, half, 0, 16 * half);
    TermsSwap(key, a, b, 4 * half, 1, 32 * half, 16);
    SumTwoExchanges(Terms(key, a), Terms(key, b), 16 * half, 16, 8 * |a|);
  }

  lemma AddressesSwap(saddr: seq<Byte>, daddr: seq<Byte>, sport: seq<Byte>, dport: seq<Byte>, half: nat)
    requires |saddr| == |daddr| == 2 * half && |sport| == |dport| == 2
    ensures var a, b := saddr + daddr + sport + dport, daddr + saddr + dport + sport;
            && Shifted(a, b, 0, half, 2 * half) && Shifted(b, a, 0, half, 2 * half)
            && Shifted(a, b, 4 * half, 1, 2) && Shifted(b, a, 4 * half, 1, 2)
  {
  }

  /** `symmetric_rsskey`, cut to the key length of the device. */
  function SymmetricKey(len: nat): seq<Byte> {
    seq(len, i => if i % 2 == 0 then 0x6d else 0x5a)
  }

  /** IPv4 and IPv6, with the key lengths in use. */
  lemma SymmetricKeyIsSymmetric(len: nat, saddr: seq<Byte>, daddr: seq<Byte>, sport: seq<Byte>, dport: seq<Byte>)
    requires len == 40 || len == 52
    requires |saddr| == |daddr| && (|saddr| == 4 || |saddr| == 16) && |sport| == |dport| == 2
    ensures HashOf(SymmetricKey(len), saddr + daddr + sport + dport) ==
            HashOf(SymmetricKey(len), daddr + saddr + dport + sport)
  {
    assert forall i: nat :: Repeats(SymmetricKey(len), i);
    Symmetric(SymmetricKey(len), saddr, daddr, sport, dport);
  }
}
