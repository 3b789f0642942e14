/**
 One entry of the RSS port tables of `lib/ff_dpdk_if.c`: the ports a scan of all 65536 found, and the
 window of them that a port range leaves.
 */
module PortWindow {

  const PORTS := 65536

  type Addr = int

  /** `struct ff_rss_tbl_dip_type`; `dport[0]` is the cursor, the ports start at `dport[1]`. */
  datatype Dip = Dip(daddr: Addr, first: nat, last: nat, firstIdx: nat, lastIdx: nat, num: nat, dport: seq<nat>)

  function BlankDip(): Dip { Dip(0, 0, 0, 0, 0, 0, seq(PORTS + 1, _ => 0)) }

  ghost predicate Ascending(s: seq<nat>) { forall i, j :: 0 <= i < j < |s| ==> s[i] < s[j] }

  // ---- the scan

  /** The ports below n that satisfy p, in order. */
  function Matching(p: nat -> bool, n: nat): seq<nat> {
    if n == 0 then [] else if p(n - 1) then Matching(p, n - 1) + [n - 1] else Matching(p, n - 1)
  }

  lemma {:induction false} MatchingIs(p: nat -> bool, n: nat)
    ensures Ascending(Matching(p, n)) && |Matching(p, n)| <= n
    ensures forall j :: j in Matching(p, n) ==> j < n
  {
    if n > 0 {
      MatchingIs(p, n - 1);
      var m := Matching(p, n - 1);
      assert forall i :: 0 <= i < |m| ==> m[i] in m;
    }
  }

  lemma {:induction false} MatchingHas(p: nat -> bool, n: nat, j: nat)
    ensures j in Matching(p, n) <==> j < n && p(j)
  {
    if n > 0 {
      MatchingHas(p, n - 1, j);
    }
  }

  ghost predicate All(p: nat -> bool, n: nat) { forall j: nat :: j < n ==> p(j) }

  lemma {:induction false} MatchingAll(p: nat -> bool, n: nat)
    ensures |Matching(p, n)| <= n
    ensures |Matching(p, n)| == n <==> All(p, n)
  {
    if n > 0 {
      MatchingAll(p, n - 1);
      assert All(p, n) <==> All(p, n - 1) && p(n - 1);
    }
  }

  /** What an entry lists: all matching ports, except that port 65535 goes unlisted if every port matches. */
  function Listed(p: nat -> bool): seq<nat> {
    var m := Matching(p, PORTS);
    if |m| == PORTS then m[..PORTS - 1] else m
  }

  lemma {:induction false} EveryPort(p: nat -> bool, n: nat, i: nat)
    requires |Matching(p, n)| == n && i < n
    ensures Matching(p, n)[i] == i
  {
    MatchingIs(p, n - 1);
    if i < n - 1 {
      EveryPort(p, n - 1, i);
    }
  }

  lemma ListedIs(p: nat -> bool)
    ensures Ascending(Listed(p)) && |Listed(p)| < PORTS
  {
    MatchingIs(p, PORTS);
  }

  lemma ListedHas(p: nat -> bool, j: nat)
    ensures j in Listed(p) <==> j < PORTS && p(j) && !(j == PORTS - 1 && All(p, PORTS))
  {
    var m := Matching(p, PORTS);
    MatchingHas(p, PORTS, j);
    MatchingAll(p, PORTS);
    if |m| == PORTS {
      forall i: nat | i < PORTS ensures m[i] == i {
        EveryPort(p, PORTS, i);
      }
      assert j < PORTS - 1 ==> m[..PORTS - 1][j] == j;
    }
  }

  ghost predicate Sized(d: Dip) { |d.dport| == PORTS + 1 && d.num < PORTS }

  /** The usable ports of an entry. */
  function Ports(d: Dip): seq<nat>
    requires |d.dport| == PORTS + 1 && d.num < PORTS
  {
    d.dport[1..d.num + 1]
  }

  /** An entry right after the table was built. */
  ghost predicate Scanned(p: nat -> bool, d: Dip) {
    var m := Matching(p, PORTS);
    && Sized(d) && Ports(d) == Listed(p)
    && d.dport[0] == 1 && d.firstIdx == 1 && d.lastIdx == d.num
    && d.first == (if m == [] then 0 else m[0])
    && d.last == (if m == [] then PORTS - 1 else m[|m| - 1])
  }

  lemma Stored(s: seq<nat>, k: nat, j: nat)
    requires 1 <= k < |s|
    ensures s[k := j][1..k + 1] == s[1..k] + [j]
  {
  }

  lemma Shorter(s: seq<nat>, k: nat, n: nat)
    requires n < k <= |s|
    ensures s[1..n + 1] == s[1..k][..n]
  {
  }

  /** The port scan of `ff_rss_tbl_init`; `num` is a 16-bit counter. */
  method Scan(p: nat -> bool, daddr: Addr, d0: Dip) returns (d: Dip)
    requires d0.num == 0 && d0.first == 0 && |d0.dport| == PORTS + 1
    ensures Scanned(p, d) && d.daddr == daddr
  {
    var k, prev, num, first := 1, -1, 0, d0.first;
    var dport: seq<nat> := d0.dport[0 := k];
    for j := 0 to PORTS
      invariant k == |Matching(p, j)| + 1 && k <= j + 1 && |dport| == PORTS + 1 && dport[0] == 1
      invariant dport[1..k] == Matching(p, j) && num == (k - 1) % 0x1_0000
      invariant if k == 1 then prev == -1 && first == 0 else prev == dport[k - 1] && first == dport[1]
      invariant prev < j
    {
      if p(j) {
        num := (num + 1) % 0x1_0000;
        Stored(dport, k, j);
        dport := dport[k := j];
        if prev == -1 {
          first := j;
        }
        k := k + 1;
        prev := j;
      }
    }
    var lastIdx;
    if k == PORTS + 1 {
      num, lastIdx := k - 2, k - 2;
    } else {
      lastIdx := k - 1;
    }
    d := Dip(daddr, first, prev % 0x1_0000, 1, lastIdx, num, dport);
    Shorter(dport, k, num);
  }

  // ---- the window

  /** How many ports at the front of an ascending list are below x. */
  function Below(s: seq<nat>, x: nat): (k: nat)
    ensures k <= |s| && (forall i :: 0 <= i < k ==> s[i] < x) && (k < |s| ==> x <= s[k])
  {
    if s == [] || x <= s[0] then 0 else Below(s[1..], x) + 1
  }

  lemma BelowIs(s: seq<nat>, x: nat, k: nat)
    requires Ascending(s) && k <= |s| && (k > 0 ==> s[k - 1] < x) && (k < |s| ==> x <= s[k])
    ensures Below(s, x) == k
  {
  }

  /** `first_idx` after `ff_rss_tbl_set_portrange`: 0 stands for none. */
  function NewFirst(d: Dip, first: nat): nat
    requires Sized(d)
  {
    var k := Below(Ports(d), first);
    if k == d.num then 0 else k + 1
  }

  /** `last_idx` after it; in two of the cases the old value stays. */
  function NewLast(d: Dip, first: nat, last: nat): nat
    requires Sized(d)
  {
    var s := Ports(d);
    if NewFirst(d, first) == 0 || s[d.num - 1] < last then d.lastIdx
    else if first == last then NewFirst(d, first)
    else
      var k := Below(s, last);
      if k < d.num && s[k] == last then k + 1 else if k > 0 then k else 1
  }

  lemma FirstFound(d: Dip, first: nat, k: nat)
    requires Sized(d) && Ascending(Ports(d)) && 1 <= k <= d.num + 1
    requires (k > 1 ==> Ports(d)[k - 2] < first) && (k <= d.num ==> first <= Ports(d)[k - 1])
    ensures NewFirst(d, first) == if k <= d.num then k else 0
  {
    BelowIs(Ports(d), first, k - 1);
  }

  lemma LastFound(d: Dip, first: nat, last: nat, k: nat)
    requires Sized(d) && Ascending(Ports(d)) && first < last && 1 <= k <= d.num
    requires NewFirst(d, first) != 0 && last <= Ports(d)[d.num - 1]
    requires (k > 1 ==> Ports(d)[k - 2] < last) && last <= Ports(d)[k - 1]
    ensures NewLast(d, first, last) == if Ports(d)[k - 1] == last || k == 1 then k else k - 1
  {
    BelowIs(Ports(d), last, k - 1);
  }

  /** The loop over the ports of one entry in `ff_rss_tbl_set_portrange`. */
  method SetWindow(d: Dip, first: nat, last: nat) returns (d': Dip, ok: bool)
    requires Sized(d) && Ascending(Ports(d)) && first <= last
    ensures d' == d.(first := first, last := last, firstIdx := NewFirst(d, first), lastIdx := NewLast(d, first, last))
    ensures ok == (d'.firstIdx != 0 && d'.firstIdx <= d'.lastIdx)
  {
    var firstIdx, lastIdx := WindowOf(d, first, last);
    d' := d.(first := first, last := last, firstIdx := firstIdx, lastIdx := lastIdx);
    ok := !(firstIdx == 0 || lastIdx < firstIdx);
  }

  method WindowOf(d: Dip, first: nat, last: nat) returns (firstIdx: nat, lastIdx: nat)
    requires Sized(d) && Ascending(Ports(d)) && first <= last
    ensures firstIdx == NewFirst(d, first) && lastIdx == NewLast(d, first, last)
  {
    firstIdx, lastIdx := 0, d.lastIdx;
    ghost var s := Ports(d);
    var k := 1;
    while k <= d.num
      invariant 1 <= k <= d.num + 1 && lastIdx == d.lastIdx
      invariant firstIdx == 0 ==> k == 1 || s[k - 2] < first
      invariant firstIdx != 0 ==> firstIdx == NewFirst(d, first) < k && first < last <= s[d.num - 1] && s[k - 2] < last
    {
      assert d.dport[k] == s[k - 1] && d.dport[d.num] == s[d.num - 1];
      if firstIdx == 0 && d.dport[k] >= first {
        FirstFound(d, first, k);
        firstIdx := k;
        if d.dport[d.num] < last {
          return;
        }
        if first == last {
          lastIdx := k;
          return;
        }
      }
      if d.dport[k] == last {
        LastFound(d, first, last, k);
        lastIdx := k;
        return;
      }
      if d.dport[k] > last {
        LastFound(d, first, last, k);
        lastIdx := if k > 1 then k - 1 else k;
        return;
      }
      k := k + 1;
    }
    FirstFound(d, first, k);
  }

  predicate Within(x: nat, first: nat, last: nat) { first <= x <= last }

  ghost predicate SomeWithin(d: Dip, first: nat, last: nat)
    requires Sized(d)
  {
    exists x :: x in Ports(d) && Within(x, first, last)
  }

  /** What a port range promises of an entry: it is accepted exactly if it has ports, and delimits exactly those. */
  ghost predicate Right(d: Dip, first: nat, last: nat, i: nat, j: nat)
    requires Sized(d)
  {
    && (i != 0 && i <= j <==> SomeWithin(d, first, last))
    && (i != 0 && i <= j ==> j <= d.num && forall k :: 1 <= k <= d.num ==>
        (i <= k <= j <==> Within(d.dport[k], first, last)))
  }

  /**
   When the code keeps that promise.  Beyond the highest port it relies on the old `last_idx`; for a
   single port it takes the next port there is; and it does not notice that all ports are above the range.
   */
  predicate Fair(d: Dip, first: nat, last: nat)
    requires |d.dport| == PORTS + 1 && d.num < PORTS
  {
    var s := Ports(d);
    d.num == 0 || s[d.num - 1] < first ||
    if s[d.num - 1] < last then d.lastIdx == d.num
    else if first == last then first in s
    else s[0] <= last
  }

  lemma WindowExact(d: Dip, first: nat, last: nat)
    requires Sized(d) && Ascending(Ports(d)) && first <= last
    ensures Right(d, first, last, NewFirst(d, first), NewLast(d, first, last)) <==> Fair(d, first, last)
  {
    var s := Ports(d);
    assert forall k :: 1 <= k <= d.num ==> d.dport[k] == s[k - 1];
    var a, b := Below(s, first), Below(s, last);
    if a == d.num {
      NoneWithin(d, first, last);
    } else if s[d.num - 1] < last {
      assert Within(s[a], first, last);
      WindowAbove(d, first, last);
    } else if first == last {
      WindowSingle(d, first);
    } else {
      WindowInside(d, first, last);
    }
  }

  lemma NoneWithin(d: Dip, first: nat, last: nat)
    requires Sized(d) && first <= last && Below(Ports(d), first) == d.num
    ensures !SomeWithin(d, first, last) && (d.num == 0 || Ports(d)[d.num - 1] < first)
  {
  }

  lemma WindowAbove(d: Dip, first: nat, last: nat)
    requires Sized(d) && Ascending(Ports(d)) && first <= last
    requires Below(Ports(d), first) < d.num && Ports(d)[d.num - 1] < last
    ensures Right(d, first, last, NewFirst(d, first), d.lastIdx) <==> d.lastIdx == d.num
  {
    var s, a := Ports(d), Below(Ports(d), first);
    assert s[a] in s && Within(s[a], first, last);
    assert SomeWithin(d, first, last);
    forall k | 1 <= k <= d.num ensures Within(d.dport[k], first, last) <==> a + 1 <= k {
      assert d.dport[k] == s[k - 1];
    }
    if Right(d, first, last, a + 1, d.lastIdx) {
      assert Within(d.dport[d.num], first, last);
    }
  }

  lemma WindowSingle(d: Dip, first: nat)
    requires Sized(d) && Ascending(Ports(d))
    requires Below(Ports(d), first) < d.num
    ensures Right(d, first, first, NewFirst(d, first), NewFirst(d, first)) <==> first in Ports(d)
  {
    var s, a := Ports(d), Below(Ports(d), first);
    forall k | 1 <= k <= d.num ensures Within(d.dport[k], first, first) <==> k == a + 1 && s[a] == first {
      assert d.dport[k] == s[k - 1];
    }
    assert first in s <==> s[a] == first;
  }

  lemma WindowInside(d: Dip, first: nat, last: nat)
    requires Sized(d) && Ascending(Ports(d)) && first < last
    requires Below(Ports(d), first) < d.num && last <= Ports(d)[d.num - 1]
    ensures Right(d, first, last, NewFirst(d, first), NewLast(d, first, last)) <==> Ports(d)[0] <= last
  {
    var s, a, b := Ports(d), Below(Ports(d), first), Below(Ports(d), last);
    var j := if s[b] == last then b + 1 else b;
    forall k | 1 <= k <= d.num ensures Within(d.dport[k], first, last) <==> a + 1 <= k <= j {
      assert d.dport[k] == s[k - 1];
    }
    RangeExact(d, first, last, a, j);
    assert NewLast(d, first, last) == if j > 0 then j else 1;
  }

  /** If exactly the ports from position a + 1 to j are within a range, then so says every window that is right. */
  lemma RangeExact(d: Dip, first: nat, last: nat, a: nat, j: nat)
    requires Sized(d) && a < d.num && j <= d.num
    requires forall k :: 1 <= k <= d.num ==> (Within(d.dport[k], first, last) <==> a + 1 <= k <= j)
    ensures SomeWithin(d, first, last) <==> a < j
    ensures Right(d, first, last, a + 1, j)
  {
    var s := Ports(d);
    if a < j {
      assert d.dport[a + 1] == s[a] && s[a] in s;
    }
    forall x | x in s && Within(x, first, last) ensures a < j {
      var k :| 0 <= k < d.num && s[k] == x;
      assert d.dport[k + 1] == x;
    }
  }

  /** The first range after the table was built, with more than one port and no entry wholly above it. */
  lemma FirstRangeIsFair(p: nat -> bool, d: Dip, first: nat, last: nat)
    requires Scanned(p, d) && first < last && (d.num > 0 ==> Ports(d)[0] <= last)
    ensures Fair(d, first, last)
  {
  }

  /**
   Ports 10 and 30: asked for 20 alone, the entry offers 30; asked for 1 to 5, it offers 10; and asked for
   1 to 100 after 1 to 15, it offers 10 only.
   */
  lemma UnfairRanges() returns (d: Dip)
    ensures Sized(d) && Ascending(Ports(d)) && Ports(d) == [10, 30] && d.lastIdx == d.num
    ensures NewFirst(d, 20) == NewLast(d, 20, 20) == 2 && !SomeWithin(d, 20, 20)
    ensures NewFirst(d, 1) == NewLast(d, 1, 5) == 1 && !SomeWithin(d, 1, 5)
    ensures Fair(d, 1, 15) && var d' := d.(lastIdx := NewLast(d, 1, 15));
            NewFirst(d', 1) == NewLast(d', 1, 100) == 1 && d'.dport[2] == 30
  {
    d := BlankDip().(num := 2, lastIdx := 2, dport := [1, 10, 30] + seq(PORTS - 2, _ => 0));
    var s := Ports(d);
    assert s == [10, 30];
    BelowIs(s, 20, 1);
    BelowIs(s, 1, 0);
    BelowIs(s, 5, 0);
    BelowIs(s, 15, 1);
    BelowIs(s, 100, 2);
  }
}
