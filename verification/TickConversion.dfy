/**
 `tvtohz` of `lib/ff_glue.c`: a time as a number of clock ticks, rounded up, plus one for the tick that has
 already begun.  Three ways to compute it keep the intermediate results within 64 bits.
 */
module TickConversion {
  import opened Arithmetic
  import opened Basics

  const LONG_MAX := 0x7fff_ffff_ffff_ffff
  const MILLION := 1_000_000

  /** Wrap-around of `unsigned long`. */
  function Unsigned(x: int): nat { x % 0x1_0000_0000_0000_0000 }

  /** `hz` ticks a second, of `tick` microseconds each. */
  ghost predicate Clock(hz: nat, tick: nat) { hz * tick == MILLION }

  function TvToHz(tvSec: int, tvUsec: int, hz: nat, tick: nat): int
    requires hz > 0 && tick > 0
  {
    var sec := if tvUsec < 0 then tvSec - 1 else tvSec;
    var usec := if tvUsec < 0 then tvUsec + MILLION else tvUsec;
    var ticks :=
      if sec < 0 then 1
      else if sec <= LONG_MAX / MILLION then Unsigned(Unsigned(sec * MILLION + usec + (tick - 1)) / tick + 1)
      else if sec <= LONG_MAX / hz then Unsigned(sec * hz + Unsigned(usec + (tick - 1)) / tick + 1)
      else LONG_MAX;
    if ticks > INT_MAX then INT_MAX else ticks
  }

  /** How many ticks cover a number of microseconds. */
  function Ceil(usecs: nat, tick: nat): nat
    requires tick > 0
  {
    (usecs + tick - 1) / tick
  }

  function Min(a: int, b: int): int { if a < b then a else b }

  /** The meaning of the conversion. */
  function Ticks(usecs: int, tick: nat): int
    requires tick > 0
  {
    if usecs < 0 then 1 else Min(Ceil(usecs, tick) + 1, INT_MAX)
  }

  lemma CeilBounds(usecs: nat, tick: nat)
    requires tick > 0
    ensures usecs <= Ceil(usecs, tick) * tick < usecs + tick && Ceil(usecs, tick) <= usecs
  {
    QuotientBelow(usecs + tick - 1, tick);
    QuotientBound(usecs + 1, usecs + tick - 1, tick);
    assert (usecs + 1) * tick == usecs * (tick - 1) + usecs + tick;
    Product(usecs, tick - 1);
  }

  lemma Product(a: nat, b: nat)
    ensures a * b >= 0
  {
  }

  lemma CeilOfSum(q: nat, usecs: nat, tick: nat)
    requires tick > 0
    ensures Ceil(q * tick + usecs, tick) == q + Ceil(usecs, tick)
  {
    var x := usecs + tick - 1;
    QuotientBelow(x, tick);
    assert q * tick + x == (q + x / tick) * tick + x % tick;
    QuotientUnique(q * tick + x, q + x / tick, x % tick, tick);
  }

  lemma CeilMonotone(a: nat, b: nat, tick: nat)
    requires tick > 0 && a <= b
    ensures Ceil(a, tick) <= Ceil(b, tick)
  {
    QuotientBelow(a + tick - 1, tick);
    QuotientBound((a + tick - 1) / tick, b + tick - 1, tick);
  }

  /** A whole number of seconds in ticks. */
  lemma SecondsInTicks(sec: nat, usec: nat, hz: nat, tick: nat)
    requires tick > 0 && Clock(hz, tick)
    ensures Ceil(sec * MILLION + usec, tick) == sec * hz + Ceil(usec, tick)
  {
    assert sec * MILLION == (sec * hz) * tick;
    CeilOfSum(sec * hz, usec, tick);
  }

  /** No intermediate result of any branch that is taken leaves the range of its type. */
  lemma NothingOverflows(sec: nat, usec: nat, hz: nat, tick: nat)
    requires hz > 0 && tick > 0 && Clock(hz, tick) && usec < MILLION && sec <= LONG_MAX
    ensures tick <= MILLION && hz <= MILLION
    ensures sec <= LONG_MAX / MILLION ==> sec * MILLION <= LONG_MAX && sec * MILLION + usec + tick - 1 < 2 * LONG_MAX
    ensures sec <= LONG_MAX / hz ==> sec * hz <= LONG_MAX && sec * hz + Ceil(usec, tick) + 1 < 2 * LONG_MAX
  {
    MultipleIsFar(hz, tick);
    assert tick * hz == MILLION;
    MultipleIsFar(tick, hz);
    QuotientBound(sec, LONG_MAX, MILLION);
    QuotientBound(sec, LONG_MAX, hz);
    CeilBounds(usec, tick);
  }

  /** The first way: all in microseconds. */
  lemma InMicroseconds(sec: nat, usec: nat, hz: nat, tick: nat)
    requires hz > 0 && tick > 0 && Clock(hz, tick) && usec < MILLION && sec <= LONG_MAX / MILLION
    ensures Unsigned(Unsigned(sec * MILLION + usec + (tick - 1)) / tick + 1) == Ceil(sec * MILLION + usec, tick) + 1
  {
    NothingOverflows(sec, usec, hz, tick);
    CeilBounds(sec * MILLION + usec, tick);
    Fits(sec * MILLION + usec + (tick - 1));
    Fits(Ceil(sec * MILLION + usec, tick) + 1);
  }

  /** The second: seconds and microseconds apart. */
  lemma InParts(sec: nat, usec: nat, hz: nat, tick: nat)
    requires hz > 0 && tick > 0 && Clock(hz, tick) && usec < MILLION && sec <= LONG_MAX / hz && sec <= LONG_MAX
    ensures Unsigned(sec * hz + Unsigned(usec + (tick - 1)) / tick + 1) == Ceil(sec * MILLION + usec, tick) + 1
  {
    NothingOverflows(sec, usec, hz, tick);
    SecondsInTicks(sec, usec, hz, tick);
    Fits(usec + (tick - 1));
    Fits(sec * hz + Ceil(usec, tick) + 1);
  }

  lemma Fits(x: nat)
    requires x < 2 * LONG_MAX
    ensures Unsigned(x) == x
  {
  }

  /** And where neither is possible, the result is off the scale. */
  lemma OffTheScale(sec: nat, usec: nat, hz: nat, tick: nat)
    requires hz > 0 && tick > 0 && Clock(hz, tick) && sec > LONG_MAX / hz
    ensures Ceil(sec * MILLION + usec, tick) > INT_MAX
  {
    SecondsInTicks(sec, usec, hz, tick);
    QuotientBound(sec, LONG_MAX, hz);
  }

  lemma Exact(sec: nat, usec: nat, hz: nat, tick: nat)
    requires hz > 0 && tick > 0 && Clock(hz, tick) && usec < MILLION && sec <= LONG_MAX
    ensures TvToHz(sec, usec, hz, tick) == Ticks(sec * MILLION + usec, tick)
  {
    if sec <= LONG_MAX / MILLION {
      InMicroseconds(sec, usec, hz, tick);
    } else if sec <= LONG_MAX / hz {
      InParts(sec, usec, hz, tick);
    } else {
      OffTheScale(sec, usec, hz, tick);
    }
  }

  /** All branches agree: for every time, the ticks that cover it and one more, at most INT_MAX; 1 if it is negative. */
  lemma TvToHzIs(sec: int, usec: int, hz: nat, tick: nat)
    requires hz > 0 && tick > 0 && Clock(hz, tick) && -MILLION <= usec < MILLION && -LONG_MAX <= sec <= LONG_MAX
    ensures TvToHz(sec, usec, hz, tick) == Ticks(sec * MILLION + usec, tick)
  {
    var s, u := if usec < 0 then sec - 1 else sec, if usec < 0 then usec + MILLION else usec;
    assert s * MILLION + u == sec * MILLION + usec;
    if s >= 0 {
      Exact(s, u, hz, tick);
    }
  }

  /** A longer time is never converted to fewer ticks. */
  lemma Monotone(sec: int, usec: int, sec': int, usec': int, hz: nat, tick: nat)
    requires hz > 0 && tick > 0 && Clock(hz, tick)
    requires -MILLION <= usec < MILLION && -LONG_MAX <= sec <= LONG_MAX
    requires -MILLION <= usec' < MILLION && -LONG_MAX <= sec' <= LONG_MAX
    requires sec * MILLION + usec <= sec' * MILLION + usec'
    ensures 1 <= TvToHz(sec, usec, hz, tick) <= TvToHz(sec', usec', hz, tick) <= INT_MAX
  {
    TvToHzIs(sec, usec, hz, tick);
    TvToHzIs(sec', usec', hz, tick);
    if sec * MILLION + usec >= 0 {
      CeilMonotone(sec * MILLION + usec, sec' * MILLION + usec', tick);
    }
  }

  /**
   The timeout is never too short, and less than two ticks too long.  Only times of more than INT_MAX - 2 ticks
   are cut to INT_MAX.
   */
  lemma LongEnough(sec: int, usec: int, hz: nat, tick: nat)
    requires hz > 0 && tick > 0 && Clock(hz, tick) && -MILLION <= usec < MILLION && -LONG_MAX <= sec <= LONG_MAX
    requires sec * MILLION + usec >= 0
    ensures var r, t := TvToHz(sec, usec, hz, tick), sec * 1_000_000 + usec;
            if r < INT_MAX then t <= (r - 1) * tick && r * tick < t + 2 * tick
            else r == INT_MAX && t > (INT_MAX - 2) * tick
  {
    TvToHzIs(sec, usec, hz, tick);
    TicksCover(sec * MILLION + usec, tick);
  }

  lemma TicksCover(t: nat, tick: nat)
    requires tick > 0
    ensures var r := Ticks(t, tick);
            if r < INT_MAX then t <= (r - 1) * tick && r * tick < t + 2 * tick
            else r == INT_MAX && t > (INT_MAX - 2) * tick
  {
    var c := Ceil(t, tick);
    CeilBounds(t, tick);
    OneMore(c, tick);
    if c + 1 >= INT_MAX {
      QuotientBound(INT_MAX - 1, t + tick - 1, tick);
      OneMore(INT_MAX - 2, tick);
    }
  }

  lemma OneMore(c: nat, tick: nat)
    ensures (c + 1) * tick == c * tick + tick
  {
  }
}
