/**
 Packet transmission in `lib/ff_dpdk_if.c`, the build that copies packets: `ff_dpdk_if_send` cuts a packet
 into a chain of segments, `send_single_packet` collects chains in a table of 32, `send_burst` hands the
 table to the device and frees what the device does not take.

 Segments and source buffers live in an explicit memory: freeing removes them, so that every access and
 every free is a proof that the object is still there.  A chain is the sequence of its segments.
 */
module TxPath {
  import opened Options
  import opened Arithmetic
  import opened Basics

  const MAX_PKT_BURST := 32

  type SegId = nat
  type MbufId = nat

  /** The head of a chain: its segments, `nb_segs` and `pkt_len`. */
  datatype Chain = Chain(segs: seq<SegId>, nbSegs: nat, pktLen: nat)

  type Memory = map<SegId, seq<Byte>>

  /** The buffers the stack has handed over and nobody has freed yet. */
  datatype Sources = Sources(live: map<MbufId, seq<Byte>>)

  function Freed(sources: Sources, m: MbufId): Sources { Sources(sources.live - {m}) }

  // ---- what a chain holds

  /** The memory holds exactly the segments in s, and s names none twice. */
  ghost predicate Exactly(mem: Memory, s: seq<SegId>) {
    multiset(s) == multiset(mem.Keys)
  }

  lemma ExactlyHas(mem: Memory, s: seq<SegId>, x: SegId)
    requires Exactly(mem, s)
    ensures x in mem <==> x in s
  {
    assert x in multiset(s) <==> x in multiset(mem.Keys);
  }

  /** The bytes of a chain of segments. */
  function Bytes(mem: Memory, segs: seq<SegId>): seq<Byte>
    requires forall x :: x in segs ==> x in mem
  {
    if segs == [] then [] else Bytes(mem, segs[..|segs| - 1]) + mem[segs[|segs| - 1]]
  }

  lemma {:induction false} BytesFrame(mem: Memory, mem': Memory, segs: seq<SegId>)
    requires forall x :: x in segs ==> x in mem && x in mem' && mem[x] == mem'[x]
    ensures Bytes(mem, segs) == Bytes(mem', segs)
  {
    if segs != [] {
      BytesFrame(mem, mem', segs[..|segs| - 1]);
    }
  }

  lemma BytesOfOne(mem: Memory, x: SegId)
    requires x in mem
    ensures Bytes(mem, [x]) == mem[x]
  {
    assert [x][..0] == [];
  }

  /** All segments of the chains in a table, in order. */
  function Flat(cs: seq<Chain>): seq<SegId> {
    if cs == [] then [] else cs[0].segs + Flat(cs[1..])
  }

  lemma {:induction false} FlatSnoc(cs: seq<Chain>, c: Chain)
    ensures Flat(cs + [c]) == Flat(cs) + c.segs
  {
    if cs == [] {
      assert cs + [c] == [c] && [c][1..] == [];
    } else {
      FlatSnoc(cs[1..], c);
      assert (cs + [c])[1..] == cs[1..] + [c];
    }
  }

  lemma {:induction false} FlatHas(cs: seq<Chain>, i: nat, x: SegId)
    requires i < |cs| && x in cs[i].segs
    ensures x in Flat(cs)
  {
    if i > 0 {
      FlatHas(cs[1..], i - 1, x);
    }
  }

  /** A chain carries this packet. */
  ghost predicate Carries(mem: Memory, c: Chain, data: seq<Byte>) {
    && (forall x :: x in c.segs ==> x in mem)
    && Bytes(mem, c.segs) == data && c.pktLen == |data|
    && |c.segs| == if c.nbSegs == 0 then 1 else c.nbSegs
  }

  ghost predicate AllCarry(mem: Memory, cs: seq<Chain>, datas: seq<seq<Byte>>) {
    |cs| == |datas| && forall i {:trigger Carries(mem, cs[i], datas[i])} :: 0 <= i < |cs| ==>
        Carries(mem, cs[i], datas[i])
  }

  /** Segments outside a table come and go; what its chains carry does not change. */
  lemma AllCarryFrame(mem: Memory, mem': Memory, cs: seq<Chain>, datas: seq<seq<Byte>>)
    requires AllCarry(mem, cs, datas)
    requires forall x :: x in Flat(cs) && x in mem ==> x in mem' && mem'[x] == mem[x]
    ensures AllCarry(mem', cs, datas)
  {
    forall i | 0 <= i < |cs| ensures Carries(mem', cs[i], datas[i]) {
      assert Carries(mem, cs[i], datas[i]);
      forall x | x in cs[i].segs ensures x in mem' && mem'[x] == mem[x] {
        FlatHas(cs, i, x);
      }
      BytesFrame(mem, mem', cs[i].segs);
    }
  }

  // ---- what became of the chains

  /** The packets of the chains with a given fate, in order. */
  function Chosen<T>(s: seq<T>, fates: seq<bool>, fate: bool): seq<T>
    requires |fates| <= |s|
  {
    if fates == [] then []
    else
      var n := |fates| - 1;
      if fates[n] == fate then Chosen(s, fates[..n], fate) + [s[n]] else Chosen(s, fates[..n], fate)
  }

  function Segments(cs: seq<Chain>): nat {
    if cs == [] then 0 else Segments(cs[..|cs| - 1]) + cs[|cs| - 1].nbSegs
  }

  /** How many bytes some packets have. */
  function Octets(packets: seq<seq<Byte>>): nat {
    if packets == [] then 0 else Octets(packets[..|packets| - 1]) + |packets[|packets| - 1]|
  }

  lemma {:induction false} ChosenMore<T>(s: seq<T>, s': seq<T>, fates: seq<bool>, fate: bool)
    requires |fates| <= |s| && s <= s'
    ensures Chosen(s, fates, fate) == Chosen(s', fates, fate)
  {
    if fates != [] {
      ChosenMore(s, s', fates[..|fates| - 1], fate);
    }
  }

  lemma ChosenSnoc<T>(s: seq<T>, fates: seq<bool>, f: bool, fate: bool)
    requires |fates| < |s|
    ensures Chosen(s, fates + [f], fate) ==
            if f == fate then Chosen(s, fates, fate) + [s[|fates|]] else Chosen(s, fates, fate)
  {
    assert (fates + [f])[..|fates|] == fates;
  }

  lemma SumSnoc(cs: seq<Chain>, c: Chain)
    ensures Segments(cs + [c]) == Segments(cs) + c.nbSegs
  {
    assert (cs + [c])[..|cs|] == cs;
  }

  lemma OctetsSnoc(packets: seq<seq<Byte>>, p: seq<Byte>)
    ensures Octets(packets + [p]) == Octets(packets) + |p|
  {
    assert (packets + [p])[..|packets|] == packets;
  }

  /** Each chain has one fate, so the two lists together have all of them. */
  lemma {:induction false} FatesPartition<T>(s: seq<T>, fates: seq<bool>)
    requires |fates| <= |s|
    ensures multiset(Chosen(s, fates, true)) + multiset(Chosen(s, fates, false)) == multiset(s[..|fates|])
  {
    if fates != [] {
      var n := |fates| - 1;
      FatesPartition(s, fates[..n]);
      assert s[..n + 1] == s[..n] + [s[n]];
    }
  }

  /** What `rte_eth_tx_burst` decides on n chains when it takes `accepted` of them: the first ones. */
  function Verdicts(n: nat, accepted: nat): seq<bool> {
    seq(n, i => i < accepted)
  }

  /** The same fate for the next n chains. */
  function Judged(fates: seq<bool>, n: nat, f: bool): seq<bool> {
    if n == 0 then fates else Judged(fates, n - 1, f) + [f]
  }

  lemma {:induction false} JudgedIs(fates: seq<bool>, n: nat, f: bool)
    ensures Judged(fates, n, f) == fates + seq(n, _ => f)
  {
    if n > 0 {
      JudgedIs(fates, n - 1, f);
    }
  }

  lemma JudgedVerdicts(fates: seq<bool>, n: nat, accepted: nat)
    requires accepted <= n
    ensures Judged(Judged(fates, accepted, true), n - accepted, false) == fates + Verdicts(n, accepted)
  {
    JudgedIs(fates, accepted, true);
    JudgedIs(Judged(fates, accepted, true), n - accepted, false);
  }

  /** The next n packets handed to the device. */
  function Given<T>(device: seq<T>, s: seq<T>, k: nat, n: nat): seq<T>
    requires k + n <= |s|
  {
    if n == 0 then device else Given(device, s, k, n - 1) + [s[k + n - 1]]
  }

  lemma {:induction false} GivenIs<T>(device: seq<T>, s: seq<T>, k: nat, n: nat)
    requires k + n <= |s|
    ensures Given(device, s, k, n) == device + s[k..k + n]
  {
    if n > 0 {
      GivenIs(device, s, k, n - 1);
      OneMore(device, s, k, n);
    }
  }

  lemma OneMore<T>(t: seq<T>, s: seq<T>, k: nat, n: nat)
    requires 0 < n && k + n <= |s|
    ensures t + s[k..k + n - 1] + [s[k + n - 1]] == t + s[k..k + n]
  {
  }

  lemma {:induction false} DroppedChosen<T>(s: seq<T>, fates: seq<bool>, n: nat)
    requires |fates| + n <= |s|
    ensures |Judged(fates, n, false)| == |fates| + n
    ensures Chosen(s, Judged(fates, n, false), true) == Chosen(s, fates, true)
  {
    if n > 0 {
      DroppedChosen(s, fates, n - 1);
      ChosenSnoc(s, Judged(fates, n - 1, false), false, true);
    }
  }

  // ---- memory

  lemma RemoveFirst(mem: Memory, x: SegId, t: seq<SegId>)
    requires Exactly(mem, [x] + t)
    ensures Exactly(mem - {x}, t)
  {
    assert x in multiset([x] + t);
    assert multiset(mem.Keys) - multiset{x} == multiset(mem.Keys - {x});
    assert multiset([x] + t) - multiset{x} == multiset(t);
  }

  /** What is left of a memory. */
  ghost predicate Within(mem: Memory, was: Memory) { forall x :: x in mem ==> x in was && mem[x] == was[x] }

  lemma Survivors(mem: Memory, was: Memory, s: seq<SegId>)
    requires Exactly(mem, s) && Within(mem, was)
    ensures forall x :: x in s ==> x in was && x in mem && mem[x] == was[x]
  {
    forall x | x in s ensures x in mem {
      ExactlyHas(mem, s, x);
    }
  }

  lemma InsertAfter(mem: Memory, s: seq<SegId>, t: seq<SegId>, x: SegId, d: seq<Byte>)
    requires Exactly(mem, s + t) && x !in mem
    ensures Exactly(mem[x := d], s + [x] + t)
  {
    assert mem[x := d].Keys == mem.Keys + {x};
    assert multiset(mem.Keys + {x}) == multiset(mem.Keys) + multiset{x};
  }

  lemma ExactlyTurned(mem: Memory, s: seq<SegId>, t: seq<SegId>)
    requires Exactly(mem, s + t)
    ensures Exactly(mem, t + s)
  {
  }

  lemma BytesOfLast(mem: Memory, segs: seq<SegId>, t: seq<SegId>, d: seq<Byte>)
    requires segs != [] && Exactly(mem, segs + t) && forall x :: x in segs ==> x in mem
    ensures Bytes(mem[segs[|segs| - 1] := d], segs) == Bytes(mem, segs[..|segs| - 1]) + d
  {
    var n := |segs| - 1;
    var x := segs[n];
    assert segs == segs[..n] + [x];
    assert multiset(segs + t)[x] == multiset(segs[..n])[x] + 1 + multiset(t)[x];
    assert multiset(mem.Keys)[x] <= 1;
    assert x !in segs[..n];
    BytesFrame(mem, mem[x := d], segs[..n]);
  }

  // ---- the books

  /**
   Every chain ever put in the table and the packet it was made for; whether it was transmitted, for
   those no longer in the table; what the device took; and the counters.  `refused` are drops counted for
   packets that never became a chain.
   */
  datatype Books = Books(history: seq<Chain>, datas: seq<seq<Byte>>, fates: seq<bool>, device: seq<seq<Byte>>,
                         packets: int, bytes: int, dropped: int, refused: int)

  /** The counters count what they should, and the device got the transmitted packets in order. */
  ghost predicate Counted(b: Books) {
    && |b.history| == |b.datas| && |b.fates| <= |b.history|
    && b.device == Chosen(b.datas, b.fates, true)
    && b.packets == Segments(Chosen(b.history, b.fates, true))
    && b.bytes == Octets(b.device)
    && b.dropped == b.refused + Segments(Chosen(b.history, b.fates, false))
  }

  /** The chains not decided on yet are cs; they own all segments there are, and carry their packets. */
  ghost predicate Open(mem: Memory, cs: seq<Chain>, b: Books) {
    && Counted(b) && cs == b.history[|b.fates|..]
    && Exactly(mem, Flat(cs)) && AllCarry(mem, cs, b.datas[|b.fates|..])
  }

  function Decided(b: Books, c: Chain, data: seq<Byte>, f: bool): Books {
    b.(fates := b.fates + [f],
       device := if f then b.device + [data] else b.device,
       packets := if f then b.packets + c.nbSegs else b.packets,
       bytes := if f then b.bytes + c.pktLen else b.bytes,
       dropped := if f then b.dropped else b.dropped + c.nbSegs)
  }

  lemma DecidedCounts(b: Books, f: bool)
    requires Counted(b) && |b.fates| < |b.history| && b.history[|b.fates|].pktLen == |b.datas[|b.fates|]|
    ensures Counted(Decided(b, b.history[|b.fates|], b.datas[|b.fates|], f))
  {
    var c := b.history[|b.fates|];
    ChosenSnoc(b.datas, b.fates, f, true);
    ChosenSnoc(b.history, b.fates, f, true);
    ChosenSnoc(b.history, b.fates, f, false);
    SumSnoc(Chosen(b.history, b.fates, true), c);
    SumSnoc(Chosen(b.history, b.fates, false), c);
    OctetsSnoc(b.device, b.datas[|b.fates|]);
  }

  lemma AllCarryRest(mem: Memory, cs: seq<Chain>, ds: seq<seq<Byte>>)
    requires AllCarry(mem, cs, ds) && cs != []
    ensures AllCarry(mem, cs[1..], ds[1..]) && Carries(mem, cs[0], ds[0])
  {
    forall i | 0 <= i < |cs| - 1 ensures Carries(mem, cs[1..][i], ds[1..][i]) {
      assert Carries(mem, cs[i + 1], ds[i + 1]);
    }
  }

  /** The first undecided chain leaves, and with it its segments. */
  lemma FirstLeaves(mem: Memory, mem': Memory, cs: seq<Chain>, b: Books, f: bool)
    requires Open(mem, cs, b) && cs != []
    requires Exactly(mem', Flat(cs[1..])) && forall x :: x in Flat(cs[1..]) ==>
             x in mem && x in mem' && mem'[x] == mem[x]
    ensures |b.fates| < |b.datas| && Open(mem', cs[1..], Decided(b, cs[0], b.datas[|b.fates|], f))
  {
    var n := |b.fates|;
    AllCarryRest(mem, cs, b.datas[n..]);
    DecidedCounts(b, f);
    assert b.datas[n..][1..] == b.datas[n + 1..] && cs[1..] == b.history[n + 1..];
    AllCarryFrame(mem, mem', cs[1..], b.datas[n + 1..]);
  }

  function Entered(b: Books, c: Chain, data: seq<Byte>): Books {
    b.(history := b.history + [c], datas := b.datas + [data])
  }

  lemma LastEnters(mem: Memory, cs: seq<Chain>, b: Books, c: Chain, data: seq<Byte>)
    requires Counted(b) && cs == b.history[|b.fates|..] && Exactly(mem, c.segs + Flat(cs))
    requires AllCarry(mem, cs, b.datas[|b.fates|..]) && Carries(mem, c, data)
    ensures Open(mem, cs + [c], Entered(b, c, data))
  {
    var n := |b.fates|;
    ChosenMore(b.datas, b.datas + [data], b.fates, true);
    ChosenMore(b.history, b.history + [c], b.fates, true);
    ChosenMore(b.history, b.history + [c], b.fates, false);
    FlatSnoc(cs, c);
    ExactlyTurned(mem, c.segs, Flat(cs));
    assert (b.history + [c])[n..] == b.history[n..] + [c];
    assert (b.datas + [data])[n..] == b.datas[n..] + [data];
  }

  /** The part of the books that only grows. */
  datatype Ledger = Ledger(history: seq<Chain>, datas: seq<seq<Byte>>, fates: seq<bool>, device: seq<seq<Byte>>)

  /** The next n chains were decided on: the device took the first ones, and their packets in order. */
  ghost predicate Burst(b: Ledger, b': Ledger, n: nat, accepted: nat) {
    && b'.history == b.history && b'.datas == b.datas && |b.fates| + accepted <= |b.datas|
    && b'.fates == b.fates + Verdicts(n, accepted)
    && b'.device == b.device + b.datas[|b.fates|..|b.fates| + accepted]
  }

  /** The chains before j are decided on, those from i on with the same fate. */
  ghost predicate Judging(mem: Memory, b: Books, cs: seq<Chain>, i: nat, j: nat, was: seq<bool>, f: bool) {
    i <= j <= |cs| && Open(mem, cs[j..], b) && b.fates == Judged(was, j - i, f)
  }

  /** The chains before j are decided on and transmitted. */
  ghost predicate Taking(mem: Memory, b0: Ledger, b: Books, cs: seq<Chain>, j: nat) {
    && Judging(mem, b, cs, 0, j, b0.fates, true) && |b0.fates| + j == |b.fates| <= |b.datas|
    && b.device == Given(b0.device, b.datas, |b0.fates|, j)
  }

  lemma TakingNext(mem': Memory, b0: Ledger, mem: Memory, b: Books, b': Books, cs: seq<Chain>, j: nat)
    requires Taking(mem, b0, b, cs, j) && j < |cs| && Open(mem', cs[j + 1..], b') && |b.fates| < |b.datas|
    requires b'.datas == b.datas && b'.fates == b.fates + [true] && b'.device == b.device + [b.datas[|b.fates|]]
    ensures Taking(mem', b0, b', cs, j + 1)
  {
  }

  lemma BurstIs(b: Ledger, b1: Ledger, b': Ledger, n: nat, accepted: nat)
    requires b1.datas == b.datas && b1.history == b.history && accepted <= n && |b.fates| + n <= |b.datas|
    requires b1.fates == Judged(b.fates, accepted, true) && b1.device == Given(b.device, b.datas, |b.fates|, accepted)
    requires b' == b1.(fates := Judged(b1.fates, n - accepted, false))
    ensures Burst(b, b', n, accepted)
  {
    JudgedVerdicts(b.fates, n, accepted);
    GivenIs(b.device, b.datas, |b.fates|, accepted);
  }

  /** A later state: what was made, what was decided on it and what the device has got stay. */
  ghost predicate Later(b: Ledger, b': Ledger) {
    b.history <= b'.history && b.datas <= b'.datas && b.fates <= b'.fates && b.device <= b'.device
  }

  lemma LaterIsTransitive(b: Ledger, b1: Ledger, b2: Ledger)
    requires Later(b, b1) && Later(b1, b2)
    ensures Later(b, b2)
  {
  }

  /** A chain was entered, and if that filled the table a burst followed. */
  ghost predicate Advanced(b: Ledger, b': Ledger, c: Chain, data: seq<Byte>, filled: bool, accepted: nat) {
    var b1 := b.(history := b.history + [c], datas := b.datas + [data]);
    if filled then Burst(b1, b', MAX_PKT_BURST, accepted) else b' == b1
  }

  lemma AdvancedIsLater(b: Ledger, b': Ledger, c: Chain, data: seq<Byte>, filled: bool, accepted: nat)
    requires Advanced(b, b', c, data, filled, accepted)
    ensures Later(b, b') && b'.datas == b.datas + [data]
  {
  }

  lemma NothingYet(mem: Memory, cs: seq<Chain>, b: Books)
    requires mem == map[] && cs == [] && b.history == [] && b.datas == [] && b.fates == [] && b.device == []
    requires b.packets == b.bytes == b.dropped == b.refused == 0
    ensures Open(mem, cs, b)
  {
  }

  // ---- room in the segments

  function Least(a: nat, b: nat): nat { if a < b then a else b }

  function Sum(s: seq<nat>): nat { if s == [] then 0 else Sum(s[..|s| - 1]) + s[|s| - 1] }

  /** How much of a packet the first k segments take. */
  function Reach(rooms: seq<nat>, k: nat, total: nat): nat
    requires k <= |rooms|
  {
    Least(total, Sum(rooms[..k]))
  }

  lemma ReachNext(rooms: seq<nat>, k: nat, total: nat)
    requires k < |rooms| && Sum(rooms[..k]) < total
    ensures Sum(rooms[..k + 1]) == Sum(rooms[..k]) + rooms[k]
    ensures Reach(rooms, k + 1, total) == Reach(rooms, k, total) + Least(rooms[k], total - Reach(rooms, k, total))
  {
    assert rooms[..k + 1][..k] == rooms[..k];
  }

  lemma {:induction false} SumGrows(s: seq<nat>, k: nat)
    requires k <= |s|
    ensures Sum(s[..k]) <= Sum(s)
  {
    if k < |s| {
      SumGrows(s[..|s| - 1], k);
      assert s[..|s| - 1][..k] == s[..k];
    } else {
      assert s[..k] == s;
    }
  }

  lemma SumMonotone(s: seq<nat>, i: nat, j: nat)
    requires i <= j <= |s|
    ensures Sum(s[..i]) <= Sum(s[..j])
  {
    SumGrows(s[..j], i);
    assert s[..j][..i] == s[..i];
  }

  /** There are segments enough for the packet, and the packet is as long as claimed. */
  predicate Sendable(data: seq<Byte>, total: nat, rooms: seq<nat>) {
    rooms != [] && total <= |data| && total <= Sum(rooms)
  }

  /**
   The packet is given up at its segment k: the segments before it are full of bytes the packet has, and either
   there is no further segment, or the packet does not have the bytes that should go there.
   */
  ghost predicate Stuck(rooms: seq<nat>, total: nat, have: nat, k: nat) {
    && k <= |rooms| && Sum(rooms[..k]) <= have && (k > 0 ==> Sum(rooms[..k]) < total)
    && (k < |rooms| ==> have < total && have < Sum(rooms[..k + 1]))
  }

  lemma TooMuch(rooms: seq<nat>, k: nat, total: nat, have: nat)
    requires k <= |rooms| && Sum(rooms[..k]) < total && Sum(rooms[..k]) <= have
    requires k < |rooms| ==> Reach(rooms, k + 1, total) > have
    ensures Stuck(rooms, total, have, k) && !(total <= have && total <= Sum(rooms))
  {
    assert rooms[..|rooms|] == rooms;
  }

  lemma Enough(rooms: seq<nat>, k: nat, total: nat)
    requires k <= |rooms| && total <= Reach(rooms, k, total)
    ensures total <= Sum(rooms)
  {
    SumGrows(rooms, k);
  }

  lemma StuckOnce(rooms: seq<nat>, total: nat, have: nat, k: nat, k': nat)
    requires Stuck(rooms, total, have, k) && Stuck(rooms, total, have, k')
    ensures k == k'
  {
    if k < k' {
      SumMonotone(rooms, k + 1, k');
    } else if k' < k {
      SumMonotone(rooms, k' + 1, k);
    }
  }

  lemma {:induction false} StuckSomewhere(rooms: seq<nat>, total: nat, have: nat, k: nat) returns (at: nat)
    requires k <= |rooms| && !(rooms != [] && total <= have && total <= Sum(rooms))
    requires Sum(rooms[..k]) <= have && (k > 0 ==> Sum(rooms[..k]) < total)
    ensures Stuck(rooms, total, have, at)
    decreases |rooms| - k
  {
    if k < |rooms| && Reach(rooms, k + 1, total) <= have {
      assert rooms[..k + 1][..k] == rooms[..k];
      SumGrows(rooms, k + 1);
      at := StuckSomewhere(rooms, total, have, k + 1);
    } else {
      at := k;
    }
  }

  /** Where a packet that cannot be sent is given up. */
  ghost function GivenUp(rooms: seq<nat>, total: nat, have: nat): (k: nat)
    requires !(rooms != [] && total <= have && total <= Sum(rooms))
    ensures Stuck(rooms, total, have, k)
  {
    assert exists k: nat :: Stuck(rooms, total, have, k) by {
      assert Sum(rooms[..0]) == 0;
      var k := StuckSomewhere(rooms, total, have, 0);
    }
    var k: nat :| Stuck(rooms, total, have, k);
    k
  }

  /** No segment holds more than it has room for. */
  ghost predicate Fits(mem: Memory, segs: seq<SegId>, rooms: seq<nat>) {
    |segs| <= |rooms| && forall i :: 0 <= i < |segs| ==> segs[i] in mem && |mem[segs[i]]| <= rooms[i]
  }

  lemma FitsMore(mem: Memory, mem': Memory, segs: seq<SegId>, x: SegId, rooms: seq<nat>)
    requires Fits(mem, segs, rooms) && |segs| < |rooms| && x in mem' && mem'[x] == []
    requires forall y :: y in mem ==> y in mem' && mem'[y] == mem[y]
    ensures Fits(mem', segs + [x], rooms)
  {
  }

  lemma FitsFilled(mem: Memory, segs: seq<SegId>, t: seq<SegId>, rooms: seq<nat>, d: seq<Byte>)
    requires Exactly(mem, segs + t) && Fits(mem, segs, rooms) && segs != [] && |d| <= rooms[|segs| - 1]
    ensures Fits(mem[segs[|segs| - 1] := d], segs, rooms)
  {
    var n := |segs| - 1;
    assert segs == segs[..n] + [segs[n]];
    assert multiset(segs + t)[segs[n]] == multiset(segs[..n])[segs[n]] + 1 + multiset(t)[segs[n]];
    assert multiset(mem.Keys)[segs[n]] <= 1;
    assert forall i :: 0 <= i < n ==> segs[..n][i] == segs[i] && segs[i] in segs[..n];
  }

  /** The chain uses no more segments than it needs, and none beyond its room. */
  ghost predicate Cut(mem: Memory, c: Chain, total: nat, rooms: seq<nat>) {
    && Fits(mem, c.segs, rooms) && c.nbSegs <= |rooms|
    && if c.nbSegs == 0 then total == 0 else Sum(rooms[..c.nbSegs - 1]) < total <= Sum(rooms[..c.nbSegs])
  }

  // ---- runs

  /** What the outside does: the stack hands over a packet, or the main loop drains the table. */
  datatype Op =
    | OpSend(ctx: bool, data: seq<Byte>, total: nat, rooms: seq<nat>, accepted: nat)
    | OpDrain(accepted: nat)

  /** The packet a send makes a chain for. */
  function Result(op: Op): seq<seq<Byte>> {
    if op.OpSend? && op.ctx && Sendable(op.data, op.total, op.rooms) then [op.data[..op.total]] else []
  }

  /** The packets of the sends that were not refused. */
  function Handed(ops: seq<Op>): seq<seq<Byte>> {
    if ops == [] then [] else Handed(ops[..|ops| - 1]) + Result(ops[|ops| - 1])
  }

  /** The books after a run. */
  ghost predicate Follows(b: Ledger, b': Ledger, ops: seq<Op>) {
    Later(b, b') && b'.datas == b.datas + Handed(ops)
  }

  lemma FollowsNext(b: Ledger, b1: Ledger, b2: Ledger, ops: seq<Op>, i: nat)
    requires i < |ops| && Follows(b, b1, ops[..i]) && Later(b1, b2) && b2.datas == b1.datas + Result(ops[i])
    ensures Follows(b, b2, ops[..i + 1])
  {
    LaterIsTransitive(b, b1, b2);
    assert ops[..i + 1][..i] == ops[..i];
  }

  lemma PutAndTaken(sources: Sources, m: MbufId, data: seq<Byte>)
    requires m !in sources.live
    ensures Freed(Sources(sources.live[m := data]), m) == sources
  {
  }

  class Tx {
    const table: array<Chain>           // `tx_mbufs[port].m_table`
    var len: nat
    var mem: Memory
    var sources: Sources
    var device: seq<seq<Byte>>          // packets the device has taken
    var txPackets: int
    var txBytes: int
    var txDropped: int

    ghost var history: seq<Chain>
    ghost var datas: seq<seq<Byte>>
    ghost var fates: seq<bool>
    ghost var refused: int

    ghost function B(): Books
      reads `history, `datas, `fates, `device, `txPackets, `txBytes, `txDropped, `refused
    {
      Books(history, datas, fates, device, txPackets, txBytes, txDropped, refused)
    }

    ghost function L(): Ledger
      reads `history, `datas, `fates, `device
    {
      Ledger(history, datas, fates, device)
    }

    ghost predicate Valid()
      reads `len, `mem, `history, `datas, `fates, `device, `txPackets, `txBytes, `txDropped, `refused, table
    {
      && table.Length == MAX_PKT_BURST && len < MAX_PKT_BURST
      && Open(mem, table[..len], B())
    }

    constructor (sources: Sources)
      ensures Valid() && len == 0 && history == [] && this.sources == sources && fresh(table)
    {
      len, mem := 0, map[];
      table := new Chain[MAX_PKT_BURST];
      device, txPackets, txBytes, txDropped := [], 0, 0, 0;
      history, datas, fates, refused := [], [], [], 0;
      new;
      EmptyIsValid();
      this.sources := sources;
    }

    lemma EmptyIsValid()
      requires table.Length == MAX_PKT_BURST && len == 0 && mem == map[]
      requires history == [] && datas == [] && fates == [] && device == []
      requires txPackets == txBytes == txDropped == refused == 0
      ensures Valid()
    {
      NothingYet(mem, table[..len], B());
    }

    /** A chain under construction owns segs; everything else is as between calls. */
    ghost predicate Making(segs: seq<SegId>)
      reads `len, `mem, `history, `datas, `fates, `device, `txPackets, `txBytes, `txDropped, `refused, table
    {
      && table.Length == MAX_PKT_BURST && len < MAX_PKT_BURST
      && Counted(B()) && table[..len] == history[|fates|..]
      && Exactly(mem, segs + Flat(table[..len])) && AllCarry(mem, table[..len], datas[|fates|..])
    }

    /**
     Every chain is in exactly one place: transmitted, freed, or in the table, in the order in which they
     were made; the device has the packets of the transmitted ones, and they are what `tx_packets` counts.
     */
    lemma Conservation()
      requires Valid()
      ensures |fates| + len == |history| && history == history[..|fates|] + table[..len]
      ensures multiset(Chosen(history, fates, true)) + multiset(Chosen(history, fates, false)) +
              multiset(table[..len]) == multiset(history)
      ensures device == Chosen(datas, fates, true) && txPackets == Segments(Chosen(history, fates, true))
      ensures txBytes == Octets(device)
      ensures Exactly(mem, Flat(table[..len]))
    {
      FatesPartition(history, fates);
      assert history == history[..|fates|] + history[|fates|..];
    }

    /** `rte_pktmbuf_free`. */
    method FreeChain(segs: seq<SegId>, ghost rest: seq<SegId>)
      requires Exactly(mem, segs + rest)
      modifies `mem
      ensures Exactly(mem, rest) && forall x :: x in rest ==> x in old(mem) && x in mem && mem[x] == old(mem)[x]
    {
      var k := 0;
      assert segs[0..] == segs;
      while k < |segs|
        invariant 0 <= k <= |segs| && Exactly(mem, segs[k..] + rest) && Within(mem, old(mem))
      {
        assert segs[k..] + rest == [segs[k]] + (segs[k + 1..] + rest);
        RemoveFirst(mem, segs[k], segs[k + 1..] + rest);
        mem := mem - {segs[k]};
        k := k + 1;
      }
      assert segs[k..] + rest == rest;
      Survivors(mem, old(mem), rest);
    }

    /** The segments of the first undecided chain go: to the pool, or to the device. */
    method Part(c: Chain, ghost cs: seq<Chain>, ghost b: Books, ghost f: bool)
      requires Open(mem, cs, b) && cs != [] && c == cs[0]
      modifies `mem
      ensures |b.fates| < |b.datas| && Open(mem, cs[1..], Decided(b, c, b.datas[|b.fates|], f))
    {
      ghost var was := mem;
      FreeChain(c.segs, Flat(cs[1..]));
      FirstLeaves(was, mem, cs, b, f);
    }

    /** The device takes a chain, and the counters go up. */
    method Take(c: Chain, ghost cs: seq<Chain>)
      requires Open(mem, cs, B()) && cs != [] && c == cs[0]
      modifies `mem, `device, `txPackets, `txBytes, `fates
      ensures Open(mem, cs[1..], B()) && fates == old(fates) + [true] && |fates| <= |datas|
      ensures txPackets == old(txPackets) + c.nbSegs && txBytes == old(txBytes) + c.pktLen
      ensures device == old(device) + [datas[old(|fates|)]]
    {
      ghost var b := B();
      AllCarryRest(mem, cs, datas[|fates|..]);
      device := device + [Bytes(mem, c.segs)];
      txPackets := txPackets + c.nbSegs;
      txBytes := txBytes + c.pktLen;
      fates := fates + [true];
      assert B() == Decided(b, c, b.datas[|b.fates|], true);
      Part(c, cs, b, true);
    }

    /** A chain the device did not take is counted and freed. */
    method Drop(c: Chain, ghost cs: seq<Chain>)
      requires Open(mem, cs, B()) && cs != [] && c == cs[0]
      modifies `mem, `txDropped, `fates
      ensures Open(mem, cs[1..], B()) && fates == old(fates) + [false]
      ensures txDropped == old(txDropped) + c.nbSegs
    {
      ghost var b := B();
      txDropped := txDropped + c.nbSegs;
      fates := fates + [false];
      assert B() == Decided(b, c, b.datas[|b.fates|], false);
      Part(c, cs, b, false);
    }

    /** `send_burst`; `accepted` is how many chains `rte_eth_tx_burst` takes, always the first ones. */
    method SendBurst(n: nat, accepted: nat)
      requires accepted <= n <= table.Length && Open(mem, table[..n], B())
      modifies `mem, `device, `txPackets, `txBytes, `txDropped, `fates
      ensures Open(mem, [], B()) && Burst(old(L()), L(), n, accepted)
    {
      ghost var cs := table[..n];
      ghost var b := L();
      TakeFirst(n, accepted, cs);
      ghost var b1 := L();
      DropRest(n, accepted, cs);
      assert cs[n..] == [];
      BurstIs(b, b1, L(), n, accepted);
    }

    method TakeFirst(n: nat, accepted: nat, ghost cs: seq<Chain>)
      requires accepted <= n <= table.Length && cs == table[..n] && Open(mem, cs, B())
      modifies `mem, `device, `txPackets, `txBytes, `fates
      ensures Taking(mem, old(L()), B(), cs, accepted)
    {
      assert cs[0..] == cs;
      for i := 0 to accepted
        invariant Taking(mem, old(L()), B(), cs, i)
      {
        TakeNext(i, cs, old(L()));
      }
    }

    method TakeNext(i: nat, ghost cs: seq<Chain>, ghost b0: Ledger)
      requires i < |cs| <= table.Length && cs[i] == table[i] && Taking(mem, b0, B(), cs, i)
      modifies `mem, `device, `txPackets, `txBytes, `fates
      ensures Taking(mem, b0, B(), cs, i + 1)
    {
      ghost var was, b := mem, B();
      assert cs[i..][1..] == cs[i + 1..];
      Take(table[i], cs[i..]);
      TakingNext(mem, b0, was, b, B(), cs, i);
    }

    method DropRest(n: nat, accepted: nat, ghost cs: seq<Chain>)
      requires accepted <= n <= table.Length && cs == table[..n] && Open(mem, cs[accepted..], B())
      modifies `mem, `txDropped, `fates
      ensures Judging(mem, B(), cs, accepted, n, old(fates), false)
    {
      var ret := accepted;
      ghost var was := fates;
      while ret < n
        invariant ret <= n && Judging(mem, B(), cs, accepted, ret, was, false)
      {
        ret := DropNext(accepted, ret, cs, was);
      }
    }

    method DropNext(ghost i: nat, j: nat, ghost cs: seq<Chain>, ghost was: seq<bool>) returns (j': nat)
      requires j < |cs| <= table.Length && cs[j] == table[j] && Judging(mem, B(), cs, i, j, was, false)
      modifies `mem, `txDropped, `fates
      ensures j' == j + 1 && Judging(mem, B(), cs, i, j', was, false)
    {
      assert cs[j..][1..] == cs[j + 1..];
      Drop(table[j], cs[j..]);
      j' := j + 1;
    }

    /** The drain of the main loop: whatever is in the table is sent now. */
    method Drain(accepted: nat)
      requires Valid() && accepted <= len
      modifies `len, `mem, `device, `txPackets, `txBytes, `txDropped, `fates
      ensures Valid() && len == 0 && Burst(old(L()), L(), old(len), accepted)
    {
      if len > 0 {
        SendBurst(len, accepted);
        len := 0;
      }
    }

    /** `send_single_packet`; `accepted` is what the device takes if the table is full now. */
    method SendSinglePacket(c: Chain, ghost data: seq<Byte>, accepted: nat)
      requires Making(c.segs) && Carries(mem, c, data) && accepted <= MAX_PKT_BURST
      modifies table, `history, `datas, `len, `mem, `device, `txPackets, `txBytes, `txDropped, `fates
      ensures Valid() && len == if old(len) + 1 < 32 then old(len) + 1 else 0
      ensures Advanced(old(L()), L(), c, data, len == 0, accepted)
    {
      Enter(c, data);
      Settle(accepted);
    }

    /** The chain after the last is in the table: send them all if that fills it. */
    method Settle(accepted: nat)
      requires table.Length == MAX_PKT_BURST && len < MAX_PKT_BURST && accepted <= MAX_PKT_BURST
      requires Open(mem, table[..len + 1], B())
      modifies `len, `mem, `device, `txPackets, `txBytes, `txDropped, `fates
      ensures Valid() && len == if old(len) + 1 < MAX_PKT_BURST then old(len) + 1 else 0
      ensures if len == 0 then Burst(old(L()), L(), MAX_PKT_BURST, accepted)
              else L() == old(L())
    {
      var n := len + 1;
      if n == MAX_PKT_BURST {
        SendBurst(n, accepted);
        n := 0;
      }
      len := n;
    }

    method Enter(c: Chain, ghost data: seq<Byte>)
      requires Making(c.segs) && Carries(mem, c, data)
      modifies table, `history, `datas
      ensures Open(mem, table[..len + 1], B()) && history == old(history) + [c] && datas == old(datas) + [data]
    {
      ghost var b, cs := B(), table[..len];
      LastEnters(mem, cs, b, c, data);
      table[len] := c;
      history, datas := history + [c], datas + [data];
      assert B() == Entered(b, c, data);
      assert table[..len + 1] == cs + [c];
    }

    /** Take back what was made of a packet that cannot be sent. */
    method GiveUp(segs: seq<SegId>, count: nat)
      requires Making(segs)
      modifies `mem, `txDropped, `refused
      ensures Valid() && txDropped == old(txDropped) + count
    {
      ghost var was := mem;
      txDropped, refused := txDropped + count, refused + count;
      FreeChain(segs, Flat(table[..len]));
      AllCarryFrame(was, mem, table[..len], datas[|fates|..]);
    }

    /** `rte_pktmbuf_alloc`, when it succeeds: an empty segment more for the chain under construction. */
    method Alloc(ghost segs: seq<SegId>) returns (x: SegId)
      requires Making(segs)
      modifies `mem
      ensures Making(segs + [x]) && x in mem && mem[x] == []
      ensures forall y :: y in old(mem) ==> y != x && y in mem && mem[y] == old(mem)[y]
    {
      FreshExists(mem);
      x :| x !in mem;
      InsertAfter(mem, segs, Flat(table[..len]), x, []);
      ghost var was := mem;
      mem := mem[x := []];
      AllCarryFrame(was, mem, table[..len], datas[|fates|..]);
    }

    /** Fill the last segment of the chain under construction. */
    method Fill(segs: seq<SegId>, d: seq<Byte>)
      requires Making(segs) && segs != [] && (forall x :: x in segs ==> x in mem)
      modifies `mem
      ensures Making(segs) && (forall x :: x in segs ==> x in mem)
      ensures Bytes(mem, segs) == Bytes(old(mem), segs[..|segs| - 1]) + d
      ensures mem == old(mem)[segs[|segs| - 1] := d]
    {
      var x := segs[|segs| - 1];
      BytesOfLast(mem, segs, Flat(table[..len]), d);
      ghost var was := mem;
      LastIsOurs(mem, segs, Flat(table[..len]));
      mem := mem[x := d];
      assert mem.Keys == was.Keys;
      AllCarryFrame(was, mem, table[..len], datas[|fates|..]);
    }

    /** A chain under construction that holds the first bytes of a packet; its head is allocated before the loop. */
    ghost predicate Partial(segs: seq<SegId>, nbSegs: nat, data: seq<Byte>, rooms: seq<nat>)
      reads `len, `mem, `history, `datas, `fates, `device, `txPackets, `txBytes, `txDropped, `refused, table
    {
      && Making(segs) && |segs| == (if nbSegs == 0 then 1 else nbSegs) && (forall x :: x in segs ==> x in mem)
      && Bytes(mem, segs) == data && (nbSegs == 0 ==> data == []) && Fits(mem, segs, rooms)
    }

    /** The segment the next bytes go to: the head the first time, then a new one. */
    method NextSegment(segs: seq<SegId>, nbSegs: nat, ghost data: seq<Byte>, rooms: seq<nat>)
      returns (ok: bool, segs': seq<SegId>)
      requires Partial(segs, nbSegs, data, rooms)
      modifies `mem, `txDropped, `refused
      ensures ok == (nbSegs < |rooms|)
      ensures !ok ==> Valid() && txDropped == old(txDropped) + nbSegs + 1
      ensures ok ==> && Making(segs') && |segs'| == nbSegs + 1 && (forall x :: x in segs' ==> x in mem)
                     && Bytes(mem, segs'[..nbSegs]) == data && Fits(mem, segs', rooms) && txDropped == old(txDropped)
    {
      if nbSegs == 0 {
        return true, segs;
      }
      if nbSegs >= |rooms| {
        GiveUp(segs, nbSegs + 1);
        return false, [];
      }
      ghost var was := mem;
      var x := Alloc(segs);
      BytesFrame(was, mem, segs);
      segs' := segs + [x];
      FitsMore(was, mem, segs, x, rooms);
      assert segs'[..nbSegs] == segs;
      ok := true;
    }

    /** A drop counted before there is any segment. */
    method Refuse()
      requires Valid()
      modifies `txDropped, `refused
      ensures Valid() && txDropped == old(txDropped) + 1
    {
      txDropped, refused := txDropped + 1, refused + 1;
    }

    /** One turn of the copying loop: the next bytes of the packet, as many as the segment takes. */
    method Append(segs: seq<SegId>, nbSegs: nat, data: seq<Byte>, off: nat, total: nat, rooms: seq<nat>)
      returns (ok: bool, segs': seq<SegId>, off': nat)
      requires off < total && off <= |data| && Partial(segs, nbSegs, data[..off], rooms)
      modifies `mem, `txDropped, `refused
      ensures ok == (nbSegs < |rooms| && off + Least(rooms[nbSegs], total - off) <= |data|)
      ensures !ok ==> Valid() && txDropped == old(txDropped) + nbSegs + 1
      ensures ok ==> && off' == off + Least(rooms[nbSegs], total - off) <= |data|
                     && Partial(segs', nbSegs + 1, data[..off'], rooms) && txDropped == old(txDropped)
    {
      off' := off;
      ok, segs' := NextSegment(segs, nbSegs, data[..off], rooms);
      if !ok {
        return;
      }
      var n := if total - off > rooms[nbSegs] then rooms[nbSegs] else total - off;
      if off + n > |data| {
        GiveUp(segs', nbSegs + 1);
        ok := false;
        return;
      }
      off' := off + n;
      Copy(segs', data, off, off', rooms);
    }

    /** `ff_mbuf_copydata` into the last segment. */
    method Copy(segs: seq<SegId>, data: seq<Byte>, off: nat, off': nat, ghost rooms: seq<nat>)
      requires Making(segs) && segs != [] && (forall x :: x in segs ==> x in mem) && off <= off' <= |data|
      requires Bytes(mem, segs[..|segs| - 1]) == data[..off]
      requires |segs| <= |rooms| && Fits(mem, segs, rooms) && off' - off <= rooms[|segs| - 1]
      modifies `mem
      ensures Partial(segs, |segs|, data[..off'], rooms)
    {
      Joined(data, off, off');
      FitsFilled(mem, segs, Flat(table[..len]), rooms, data[off..off']);
      Fill(segs, data[off..off']);
    }

    /** The head of a new chain. */
    method Head(ghost rooms: seq<nat>) returns (head: SegId)
      requires Valid() && rooms != []
      modifies `mem
      ensures Partial([head], 0, [], rooms)
    {
      NothingMade();
      head := Alloc([]);
      assert [] + [head] == [head];
      BytesOfOne(mem, head);
    }

    lemma NothingMade()
      requires Valid()
      ensures Making([])
    {
      assert [] + Flat(table[..len]) == Flat(table[..len]);
    }

    /**
     The copying loop of `ff_dpdk_if_send`.  `rooms` are the pool's answers: the tailrooms of the segments it has
     left.  A packet that is given up at segment k counts k + 1 drops.
     */
    method Segment(data: seq<Byte>, total: nat, rooms: seq<nat>) returns (c: Option<Chain>)
      requires Valid()
      modifies `mem, `txDropped, `refused
      ensures c.Some? <==> rooms != [] && total <= |data| && total <= Sum(rooms)
      ensures c.Some? ==> && Making(c.value.segs) && Carries(mem, c.value, data[..total]) && txDropped == old(txDropped)
                          && Cut(mem, c.value, total, rooms)
      ensures c.None? ==> Valid() && txDropped == old(txDropped) + GivenUp(rooms, total, |data|) + 1
    {
      if rooms == [] {
        Refuse();
        return None;
      }
      var head := Head(rooms);
      c := CopyAll(head, data, total, rooms);
    }

    method CopyAll(head: SegId, data: seq<Byte>, total: nat, rooms: seq<nat>) returns (c: Option<Chain>)
      requires rooms != [] && Partial([head], 0, [], rooms)
      modifies `mem, `txDropped, `refused
      ensures c.Some? <==> total <= |data| && total <= Sum(rooms)
      ensures c.Some? ==> && Making(c.value.segs) && Carries(mem, c.value, data[..total]) && txDropped == old(txDropped)
                          && Cut(mem, c.value, total, rooms)
      ensures c.None? ==> Valid() && txDropped == old(txDropped) + GivenUp(rooms, total, |data|) + 1
    {
      var segs, nbSegs: nat, off: nat := [head], 0, 0;
      while off < total
        invariant Copied(segs, nbSegs, data, off, total, rooms) && txDropped == old(txDropped)
        decreases |rooms| - nbSegs
      {
        var ok;
        ok, segs, off := Turn(segs, nbSegs, data, off, total, rooms);
        if !ok {
          return None;
        }
        nbSegs := nbSegs + 1;
      }
      AllCopied(segs, nbSegs, data, off, total, rooms);
      c := Some(Chain(segs, nbSegs, total));
    }

    lemma AllCopied(segs: seq<SegId>, nbSegs: nat, data: seq<Byte>, off: nat, total: nat, rooms: seq<nat>)
      requires Copied(segs, nbSegs, data, off, total, rooms) && off >= total
      ensures total <= |data| && total <= Sum(rooms) && Making(segs)
      ensures Carries(mem, Chain(segs, nbSegs, total), data[..total])
      ensures Cut(mem, Chain(segs, nbSegs, total), total, rooms)
    {
      Enough(rooms, nbSegs, total);
    }

    /** What the copying loop has achieved with its first segments. */
    ghost predicate Copied(segs: seq<SegId>, nbSegs: nat, data: seq<Byte>, off: nat, total: nat, rooms: seq<nat>)
      reads `len, `mem, `history, `datas, `fates, `device, `txPackets, `txBytes, `txDropped, `refused, table
    {
      && nbSegs <= |rooms| && off == Reach(rooms, nbSegs, total) <= |data|
      && Partial(segs, nbSegs, data[..off], rooms) && (nbSegs > 0 ==> Sum(rooms[..nbSegs - 1]) < total)
    }

    method Turn(segs: seq<SegId>, nbSegs: nat, data: seq<Byte>, off: nat, total: nat, rooms: seq<nat>)
      returns (ok: bool, segs': seq<SegId>, off': nat)
      requires Copied(segs, nbSegs, data, off, total, rooms) && off < total
      modifies `mem, `txDropped, `refused
      ensures ok ==> nbSegs < |rooms| && Copied(segs', nbSegs + 1, data, off', total, rooms)
      ensures ok ==> txDropped == old(txDropped)
      ensures !ok ==> Valid() && !Sendable(data, total, rooms)
      ensures !ok ==> txDropped == old(txDropped) + GivenUp(rooms, total, |data|) + 1
    {
      if nbSegs < |rooms| {
        ReachNext(rooms, nbSegs, total);
      }
      ok, segs', off' := Append(segs, nbSegs, data, off, total, rooms);
      if !ok {
        TooMuch(rooms, nbSegs, total, |data|);
        StuckOnce(rooms, total, |data|, nbSegs, GivenUp(rooms, total, |data|));
      }
    }

    /**
     `ff_dpdk_if_send`: the source buffer is freed once in every case; a packet that is not dropped is in the
     table, or on its way, as a chain that carries exactly its first `total` bytes.
     */
    method Send(ctx: bool, m: Option<MbufId>, total: nat, rooms: seq<nat>, accepted: nat)
      returns (r: int, ghost c: Chain)
      requires Valid() && (ctx ==> m.Some?) && (m.Some? ==> m.value in sources.live) && accepted <= MAX_PKT_BURST
      modifies this, table
      ensures Valid() && sources == if m.Some? then Freed(old(sources), m.value) else old(sources)
      ensures r == if ctx && Sendable(old(sources).live[m.value], total, rooms) then 0 else -1
      ensures r == -1 ==> L() == old(L()) && len == old(len)
      ensures r == -1 ==> txDropped == old(txDropped) +
                                       if ctx then GivenUp(rooms, total, |old(sources).live[m.value]|) + 1 else 1
      ensures r == 0 ==>
                && len == (if old(len) + 1 < 32 then old(len) + 1 else 0)
                && Advanced(old(L()), L(), c, old(sources).live[m.value][..total], len == 0, accepted)
    {
      if !ctx {
        TurnAway(m);
        r, c := -1, Chain([], 0, 0);
        return;
      }
      r, c := SendPacket(m.value, sources.live[m.value], total, rooms, accepted);
    }

    /** Without an interface the packet is only counted. */
    method TurnAway(m: Option<MbufId>)
      requires Valid() && (m.Some? ==> m.value in sources.live)
      modifies `txDropped, `refused, `sources
      ensures Valid() && txDropped == old(txDropped) + 1
      ensures sources == if m.Some? then Freed(old(sources), m.value) else old(sources)
    {
      Refuse();
      if m.Some? {
        FreeSource(m.value);
      }
    }

    /** `ff_mbuf_free`. */
    method FreeSource(m: MbufId)
      requires m in sources.live
      modifies `sources
      ensures sources == Freed(old(sources), m)
    {
      sources := Freed(sources, m);
    }

    method SendPacket(m: MbufId, data: seq<Byte>, total: nat, rooms: seq<nat>, accepted: nat)
      returns (r: int, ghost c: Chain)
      requires Valid() && m in sources.live && accepted <= MAX_PKT_BURST
      modifies this, table
      ensures Valid() && sources == Freed(old(sources), m) && r == if Sendable(data, total, rooms) then 0 else -1
      ensures r == -1 ==> L() == old(L()) && len == old(len)
      ensures r == -1 ==> txDropped == old(txDropped) + GivenUp(rooms, total, |data|) + 1
      ensures r == 0 ==>
                && len == (if old(len) + 1 < MAX_PKT_BURST then old(len) + 1 else 0)
                && Advanced(old(L()), L(), c, data[..total], len == 0, accepted)
    {
      var chain := CopyPacket(m, data, total, rooms);
      r, c := Forward(chain, if chain.Some? then data[..total] else [], accepted);
    }

    /** A complete copy is sent on. */
    method Forward(chain: Option<Chain>, ghost packet: seq<Byte>, accepted: nat) returns (r: int, ghost c: Chain)
      requires accepted <= MAX_PKT_BURST
      requires if chain.Some? then Making(chain.value.segs) && Carries(mem, chain.value, packet) else Valid()
      modifies table, `history, `datas, `len, `mem, `device, `txPackets, `txBytes, `txDropped, `fates
      ensures Valid() && r == if chain.Some? then 0 else -1
      ensures r == -1 ==> L() == old(L()) && len == old(len) && txDropped == old(txDropped)
      ensures r == 0 ==> len == (if old(len) + 1 < MAX_PKT_BURST then old(len) + 1 else 0)
      ensures r == 0 ==> Advanced(old(L()), L(), c, packet, len == 0, accepted)
    {
      if chain.None? {
        r, c := -1, Chain([], 0, 0);
        return;
      }
      r, c := 0, chain.value;
      SendSinglePacket(chain.value, packet, accepted);
    }

    /** The copy is complete or given up; the source buffer is freed either way. */
    method CopyPacket(m: MbufId, data: seq<Byte>, total: nat, rooms: seq<nat>) returns (chain: Option<Chain>)
      requires Valid() && m in sources.live
      modifies `mem, `txDropped, `refused, `sources
      ensures sources == Freed(old(sources), m) && (chain.Some? <==> Sendable(data, total, rooms))
      ensures chain.Some? ==> Making(chain.value.segs) && Carries(mem, chain.value, data[..total])
      ensures chain.None? ==> Valid() && txDropped == old(txDropped) + GivenUp(rooms, total, |data|) + 1
    {
      chain := Segment(data, total, rooms);
      FreeSource(m);
    }

    /**
     Any sequence of sends and drains: every source buffer is freed, the chains made are those of the packets
     that could be sent, in order, and what was once decided on a chain stays.
     */
    method Run(ops: seq<Op>)
      requires Valid()
      modifies this, table
      ensures Valid() && sources == old(sources) && Follows(old(L()), L(), ops)
    {
      for i := 0 to |ops|
        invariant Valid() && sources == old(sources) && Follows(old(L()), L(), ops[..i])
      {
        PerformNext(ops, i, old(L()));
      }
      assert ops[..|ops|] == ops;
    }

    method PerformNext(ops: seq<Op>, i: nat, ghost b0: Ledger)
      requires Valid() && i < |ops| && Follows(b0, L(), ops[..i])
      modifies this, table
      ensures Valid() && sources == old(sources) && Follows(b0, L(), ops[..i + 1])
    {
      ghost var b := L();
      Perform(ops[i]);
      FollowsNext(b0, b, L(), ops, i);
    }

    method Perform(op: Op)
      requires Valid()
      modifies this, table
      ensures Valid() && sources == old(sources)
      ensures Later(old(L()), L()) && datas == old(datas) + Result(op)
    {
      match op
      case OpSend(ctx, data, total, rooms, accepted) =>
        Offer(ctx, data, total, rooms, if accepted < MAX_PKT_BURST then accepted else MAX_PKT_BURST);
      case OpDrain(accepted) =>
        Drain(if accepted < len then accepted else len);
    }

    /** The stack hands over a new buffer. */
    method Offer(ctx: bool, data: seq<Byte>, total: nat, rooms: seq<nat>, accepted: nat)
      requires Valid() && accepted <= MAX_PKT_BURST
      modifies this, table
      ensures Valid() && sources == old(sources) && Later(old(L()), L())
      ensures datas == old(datas) + if ctx && Sendable(data, total, rooms) then [data[..total]] else []
    {
      FreshExists(sources.live);
      var m :| m !in sources.live;
      PutAndTaken(sources, m, data);
      sources := Sources(sources.live[m := data]);
      ghost var b := L();
      var r, c := Send(ctx, Some(m), total, rooms, accepted);
      if r == 0 {
        AdvancedIsLater(b, L(), c, data[..total], len == 0, accepted);
      }
    }
  }

  lemma Joined(data: seq<Byte>, off: nat, off': nat)
    requires off <= off' <= |data|
    ensures data[..off] + data[off..off'] == data[..off']
  {
  }

  lemma LastIsOurs(mem: Memory, segs: seq<SegId>, t: seq<SegId>)
    requires Exactly(mem, segs + t) && segs != []
    ensures segs[|segs| - 1] !in t
  {
    var n := |segs| - 1;
    var x := segs[n];
    assert segs == segs[..n] + [x];
    assert multiset(segs + t)[x] == multiset(segs[..n])[x] + 1 + multiset(t)[x];
    assert multiset(mem.Keys)[x] <= 1;
  }
}
