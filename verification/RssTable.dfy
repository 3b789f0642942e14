/**
 The two-level RSS port table of `lib/ff_dpdk_if.c` (`ff_rss_tbl`, and `ff_rss_tbl6` which mirrors it).

 The first level is keyed by remote address and port, the second by local address, both with linear
 probing; address zero marks a free cell.  An address is a number, so that the four and the sixteen
 byte tables are the same model; where the walks start (`home`, `addrHome`) and what `ff_rss_check`
 answers (`check`) are parameters.
 */
module RssTable {
  import opened Basics
  import opened Options
  import opened Probing
  import opened PortWindow

  const SLOTS := 16
  const DADDRS := 4

  /** `struct ff_rss_tbl_type`. */
  datatype Slot = Slot(saddr: Addr, sport: nat, num: nat, dips: seq<Dip>)

  /** `struct ff_rss_tbl_cfg`. */
  datatype Cfg = Cfg(family: nat, port: int, daddr: Addr, saddr: Addr, sport: nat)

  datatype Key = Key(saddr: Addr, sport: nat)

  datatype Query = Query(port: int, key: Key, daddr: Addr, dport: nat)

  function KeyOf(s: Slot): Option<Key> { if s.saddr == 0 then None else Some(Key(s.saddr, s.sport)) }

  function AddrOf(d: Dip): Option<Addr> { if d.daddr == 0 then None else Some(d.daddr) }

  function Keys(slots: seq<Slot>): (ks: seq<Option<Key>>)
    ensures |ks| == |slots| && forall i :: 0 <= i < |ks| ==> ks[i] == KeyOf(slots[i])
  {
    seq(|slots|, i requires 0 <= i < |slots| => KeyOf(slots[i]))
  }

  function Addrs(dips: seq<Dip>): (ks: seq<Option<Addr>>)
    ensures |ks| == |dips| && forall i :: 0 <= i < |ks| ==> ks[i] == AddrOf(dips[i])
  {
    seq(|dips|, i requires 0 <= i < |dips| => AddrOf(dips[i]))
  }

  // ---- what the table is for

  /** For each remote pair the local addresses accepted, with the device port their ports were checked for. */
  type Accepted = map<Key, map<Addr, int>>

  /** First come, first served: at most 16 remote pairs, 4 local addresses for each, no triple twice. */
  function Accept(m: Accepted, c: Cfg): Accepted {
    var k := Key(c.saddr, c.sport);
    if k in m then
      if c.daddr in m[k] || |m[k]| == DADDRS then m else m[k := m[k][c.daddr := c.port]]
    else if |m| == SLOTS then m
    else m[k := map[c.daddr := c.port]]
  }

  function AcceptAll(cfgs: seq<Cfg>, family: nat): Accepted {
    if cfgs == [] then map[]
    else
      var c, m := cfgs[|cfgs| - 1], AcceptAll(cfgs[..|cfgs| - 1], family);
      if c.family == family then Accept(m, c) else m
  }

  function PortTest(check: Query -> bool, port: int, k: Key, daddr: Addr): nat -> bool {
    (j: nat) => check(Query(port, k, daddr, j))
  }

  // ---- first come, first served

  /** Configuration i is of this family and names this remote pair. */
  predicate Names(cfgs: seq<Cfg>, family: nat, i: int, k: Key) {
    0 <= i < |cfgs| && cfgs[i].family == family && cfgs[i].saddr == k.saddr && cfgs[i].sport == k.sport
  }

  /** The remote pairs the configurations before n name. */
  ghost function Pairs(cfgs: seq<Cfg>, family: nat, n: nat): set<Key>
    requires n <= |cfgs|
  {
    set i | 0 <= i < n && cfgs[i].family == family :: Key(cfgs[i].saddr, cfgs[i].sport)
  }

  /** The local addresses the configurations before n name for a remote pair. */
  ghost function Locals(cfgs: seq<Cfg>, family: nat, k: Key, n: nat): set<Addr>
    requires n <= |cfgs|
  {
    set i | 0 <= i < n && Names(cfgs, family, i, k) :: cfgs[i].daddr
  }

  /** Remote pair k is named for the first time by configuration i, and fewer than 16 others before it. */
  ghost predicate Opens(cfgs: seq<Cfg>, family: nat, i: int, k: Key) {
    Names(cfgs, family, i, k) && k !in Pairs(cfgs, family, i) && |Pairs(cfgs, family, i)| < 16
  }

  /** Configuration i is the first with this triple, and fewer than 4 local addresses of its pair come before it. */
  ghost predicate Joins(cfgs: seq<Cfg>, family: nat, i: int, k: Key, d: Addr) {
    && Names(cfgs, family, i, k) && cfgs[i].daddr == d
    && d !in Locals(cfgs, family, k, i) && |Locals(cfgs, family, k, i)| < 4
  }

  ghost predicate Opened(cfgs: seq<Cfg>, family: nat, n: nat, k: Key) {
    exists i {:trigger Opens(cfgs, family, i, k)} :: 0 <= i < n && Opens(cfgs, family, i, k)
  }

  ghost predicate Joined(cfgs: seq<Cfg>, family: nat, n: nat, k: Key, d: Addr, port: int) {
    exists i {:trigger Joins(cfgs, family, i, k, d)} ::
      0 <= i < n && Joins(cfgs, family, i, k, d) && cfgs[i].port == port
  }

  /** What is accepted of the first n configurations, told by their positions alone. */
  ghost predicate FirstCome(cfgs: seq<Cfg>, family: nat, n: nat, m: Accepted) {
    && (forall k {:trigger Opened(cfgs, family, n, k)} :: k in m <==> Opened(cfgs, family, n, k))
    && (forall k, d, port {:trigger Joined(cfgs, family, n, k, d, port)} :: k in m ==>
          (Has(m, k, d, port) <==> Joined(cfgs, family, n, k, d, port)))
  }

  predicate Has(m: Accepted, k: Key, d: Addr, port: int) { k in m && d in m[k] && m[k][d] == port }

  /** All that are named are accepted while there is room. */
  ghost predicate AsMany<T>(accepted: set<T>, named: set<T>, room: nat) {
    accepted <= named && |accepted| <= room && (accepted == named || |accepted| == room)
  }

  ghost predicate AllAsMany(cfgs: seq<Cfg>, family: nat, n: nat, m: Accepted)
    requires n <= |cfgs|
  {
    && AsMany(m.Keys, Pairs(cfgs, family, n), SLOTS)
    && forall k :: k in m ==> AsMany(m[k].Keys, Locals(cfgs, family, k, n), DADDRS)
  }

  lemma {:induction false} SubsetSize<T>(small: set<T>, large: set<T>)
    requires small <= large
    ensures |small| <= |large|
  {
    if small != {} {
      var x :| x in small;
      SubsetSize(small - {x}, large - {x});
    }
  }

  /** There is room for one that was not named before exactly if fewer than that many were named. */
  lemma RoomForOne<T>(accepted: set<T>, named: set<T>, room: nat, x: T)
    requires AsMany(accepted, named, room)
    ensures x !in named && |named| < room <==> x !in accepted && |accepted| < room
    ensures AsMany(if |accepted| < room then accepted + {x} else accepted, named + {x}, room)
  {
    SubsetSize(accepted, named);
    if x in accepted {
      assert accepted + {x} == accepted && named + {x} == named;
    }
  }

  lemma PairsNext(cfgs: seq<Cfg>, family: nat, n: nat)
    requires n < |cfgs|
    ensures Pairs(cfgs, family, n + 1) ==
            if cfgs[n].family == family then Pairs(cfgs, family, n) + {Key(cfgs[n].saddr, cfgs[n].sport)}
            else Pairs(cfgs, family, n)
  {
  }

  lemma LocalsNext(cfgs: seq<Cfg>, family: nat, k: Key, n: nat)
    requires n < |cfgs|
    ensures Locals(cfgs, family, k, n + 1) ==
            if Names(cfgs, family, n, k) then Locals(cfgs, family, k, n) + {cfgs[n].daddr}
            else Locals(cfgs, family, k, n)
    ensures k !in Pairs(cfgs, family, n) ==> Locals(cfgs, family, k, n) == {}
  {
    if k !in Pairs(cfgs, family, n) {
      forall i | 0 <= i < n ensures !Names(cfgs, family, i, k) {
        assert cfgs[i].family == family ==> Key(cfgs[i].saddr, cfgs[i].sport) in Pairs(cfgs, family, n);
      }
    }
  }

  lemma OpenedNext(cfgs: seq<Cfg>, family: nat, n: nat, k: Key)
    ensures Opened(cfgs, family, n + 1, k) <==> Opened(cfgs, family, n, k) || Opens(cfgs, family, n, k)
  {
  }

  lemma JoinedNext(cfgs: seq<Cfg>, family: nat, n: nat, k: Key, d: Addr, port: int)
    ensures Joined(cfgs, family, n + 1, k, d, port) <==>
            Joined(cfgs, family, n, k, d, port) || (Joins(cfgs, family, n, k, d) && cfgs[n].port == port)
  {
  }

  /** What the n-th configuration changes. */
  function Considered(cfgs: seq<Cfg>, family: nat, n: nat, m: Accepted): Accepted
    requires n < |cfgs|
  {
    if cfgs[n].family == family then Accept(m, cfgs[n]) else m
  }

  lemma FirstComeNext(cfgs: seq<Cfg>, family: nat, n: nat, m: Accepted)
    requires n < |cfgs| && FirstCome(cfgs, family, n, m) && AllAsMany(cfgs, family, n, m)
    ensures FirstCome(cfgs, family, n + 1, Considered(cfgs, family, n, m))
  {
    var m' := Considered(cfgs, family, n, m);
    forall k: Key ensures k in m' <==> Opened(cfgs, family, n + 1, k) {
      PairAccepted(cfgs, family, n, m, k);
    }
    forall k: Key, d: Addr, port: int
      ensures k in m' ==> (Has(m', k, d, port) <==> Joined(cfgs, family, n + 1, k, d, port))
    {
      TripleAccepted(cfgs, family, n, m, k, d, port);
    }
  }

  lemma AsManyNext(cfgs: seq<Cfg>, family: nat, n: nat, m: Accepted)
    requires n < |cfgs| && AllAsMany(cfgs, family, n, m)
    ensures AllAsMany(cfgs, family, n + 1, Considered(cfgs, family, n, m))
  {
    var m' := Considered(cfgs, family, n, m);
    PairsNext(cfgs, family, n);
    if cfgs[n].family == family {
      ManyPairs(m, cfgs[n], Pairs(cfgs, family, n));
    }
    forall k | k in m' ensures AsMany(m'[k].Keys, Locals(cfgs, family, k, n + 1), DADDRS) {
      ManyLocals(cfgs, family, n, m, k);
    }
  }

  lemma ManyPairs(m: Accepted, c: Cfg, named: set<Key>)
    requires AsMany(m.Keys, named, SLOTS)
    ensures AsMany(Accept(m, c).Keys, named + {Key(c.saddr, c.sport)}, SLOTS)
  {
    var k := Key(c.saddr, c.sport);
    RoomForOne(m.Keys, named, SLOTS, k);
    if k in m {
      assert named + {k} == named && Accept(m, c).Keys == m.Keys;
    } else if |m| < SLOTS {
      assert Accept(m, c).Keys == m.Keys + {k};
    }
  }

  lemma ManyAddrs(v: map<Addr, int>, named: set<Addr>, d: Addr, port: int)
    requires AsMany(v.Keys, named, DADDRS)
    ensures AsMany((if d in v || |v| == DADDRS then v else v[d := port]).Keys, named + {d}, DADDRS)
  {
    RoomForOne(v.Keys, named, DADDRS, d);
    if d in v {
      assert named + {d} == named;
    } else if |v| < DADDRS {
      assert v[d := port].Keys == v.Keys + {d};
    }
  }

  lemma ManyLocals(cfgs: seq<Cfg>, family: nat, n: nat, m: Accepted, k: Key)
    requires n < |cfgs| && AllAsMany(cfgs, family, n, m) && k in Considered(cfgs, family, n, m)
    ensures AsMany(Considered(cfgs, family, n, m)[k].Keys, Locals(cfgs, family, k, n + 1), DADDRS)
  {
    LocalsNext(cfgs, family, k, n);
    var named, c := Locals(cfgs, family, k, n), cfgs[n];
    if k in m {
      ManyAddrs(m[k], named, c.daddr, c.port);
    } else {
      NewPair(cfgs, family, n, m);
      FirstAddr(m, c);
      assert named + {c.daddr} == {c.daddr};
    }
  }

  lemma FirstAddr(m: Accepted, c: Cfg)
    requires Key(c.saddr, c.sport) !in m && |m| < SLOTS
    ensures Key(c.saddr, c.sport) in Accept(m, c) && Accept(m, c)[Key(c.saddr, c.sport)].Keys == {c.daddr}
    ensures AsMany({c.daddr}, {c.daddr}, DADDRS)
  {
    assert |{c.daddr}| == 1;
  }

  lemma PairAccepted(cfgs: seq<Cfg>, family: nat, n: nat, m: Accepted, k: Key)
    requires n < |cfgs| && FirstCome(cfgs, family, n, m) && AllAsMany(cfgs, family, n, m)
    ensures k in Considered(cfgs, family, n, m) <==> Opened(cfgs, family, n + 1, k)
  {
    OpenedNext(cfgs, family, n, k);
    assert k in m <==> Opened(cfgs, family, n, k);
    assert Opens(cfgs, family, n, k) <==> Names(cfgs, family, n, k) && k !in m && |m.Keys| < SLOTS by {
      RoomForOne(m.Keys, Pairs(cfgs, family, n), SLOTS, k);
    }
  }

  /** A pair accepted now was never named before. */
  lemma NewPair(cfgs: seq<Cfg>, family: nat, n: nat, m: Accepted)
    requires n < |cfgs| && AllAsMany(cfgs, family, n, m) && cfgs[n].family == family
    requires var k := Key(cfgs[n].saddr, cfgs[n].sport); k !in m && |m| < SLOTS
    ensures var k := Key(cfgs[n].saddr, cfgs[n].sport);
            k !in Pairs(cfgs, family, n) && Locals(cfgs, family, k, n) == {}
  {
    LocalsNext(cfgs, family, Key(cfgs[n].saddr, cfgs[n].sport), n);
  }

  lemma TripleAccepted(cfgs: seq<Cfg>, family: nat, n: nat, m: Accepted, k: Key, d: Addr, port: int)
    requires n < |cfgs| && FirstCome(cfgs, family, n, m) && AllAsMany(cfgs, family, n, m)
    ensures var m' := Considered(cfgs, family, n, m);
            k in m' ==> (Has(m', k, d, port) <==> Joined(cfgs, family, n + 1, k, d, port))
  {
    JoinedNext(cfgs, family, n, k, d, port);
    if k in m {
      assert Has(m, k, d, port) <==> Joined(cfgs, family, n, k, d, port);
      RoomForOne(m[k].Keys, Locals(cfgs, family, k, n), DADDRS, d);
    } else if k in Considered(cfgs, family, n, m) {
      NewPair(cfgs, family, n, m);
      NeverJoined(cfgs, family, n, k, d, port);
    }
  }

  lemma NeverJoined(cfgs: seq<Cfg>, family: nat, n: nat, k: Key, d: Addr, port: int)
    requires n <= |cfgs| && k !in Pairs(cfgs, family, n)
    ensures !Joined(cfgs, family, n, k, d, port)
  {
    forall i | 0 <= i < n ensures !Joins(cfgs, family, i, k, d) {
      assert cfgs[i].family == family ==> Key(cfgs[i].saddr, cfgs[i].sport) in Pairs(cfgs, family, n);
    }
  }

  /** The table serves those who come first: at most 16 remote pairs, and 4 local addresses for each. */
  lemma {:induction false} AcceptedInOrder(cfgs: seq<Cfg>, family: nat, n: nat)
    requires n <= |cfgs|
    ensures FirstCome(cfgs, family, n, AcceptAll(cfgs[..n], family))
    ensures AllAsMany(cfgs, family, n, AcceptAll(cfgs[..n], family))
  {
    if n > 0 {
      AcceptedInOrder(cfgs, family, n - 1);
      assert cfgs[..n][..n - 1] == cfgs[..n - 1];
      FirstComeNext(cfgs, family, n - 1, AcceptAll(cfgs[..n - 1], family));
      AsManyNext(cfgs, family, n - 1, AcceptAll(cfgs[..n - 1], family));
    }
  }

  // ---- the invariant

  ghost predicate EntryOk(check: Query -> bool, m: Accepted, k: Key, d: Dip) {
    && k in m && d.daddr in m[k]
    && Sized(d) && Ports(d) == Listed(PortTest(check, m[k][d.daddr], k, d.daddr))
  }

  /** In ascending order the ports that pass the test, without 65535 if every port does. */
  ghost predicate OwnPorts(check: Query -> bool, port: int, k: Key, daddr: Addr, ports: seq<nat>) {
    && Ascending(ports)
    && forall x: nat :: x in ports <==>
         x < 65536 && check(Query(port, k, daddr, x)) && !(x == 65535 && EveryPort(check, port, k, daddr))
  }

  ghost predicate EveryPort(check: Query -> bool, port: int, k: Key, daddr: Addr) {
    forall y: nat :: y < 65536 ==> check(Query(port, k, daddr, y))
  }

  lemma ListsOwnPorts(check: Query -> bool, m: Accepted, k: Key, d: Dip)
    requires EntryOk(check, m, k, d)
    ensures OwnPorts(check, m[k][d.daddr], k, d.daddr, Ports(d))
  {
    var port, p := m[k][d.daddr], PortTest(check, m[k][d.daddr], k, d.daddr);
    ListedIs(p);
    assert forall y: nat :: p(y) == check(Query(port, k, d.daddr, y));
    forall x: nat
      ensures x in Ports(d) <==>
              x < 65536 && check(Query(port, k, d.daddr, x)) && !(x == 65535 && EveryPort(check, port, k, d.daddr))
    {
      ListedHas(p, x);
      assert All(p, 65536) <==> EveryPort(check, port, k, d.daddr);
    }
  }

  ghost predicate EntriesOk(check: Query -> bool, m: Accepted, k: Key, dips: seq<Dip>) {
    forall j :: 0 <= j < |dips| && dips[j].daddr != 0 ==> EntryOk(check, m, k, dips[j])
  }

  ghost predicate SlotOk(check: Query -> bool, addrHome: Addr -> nat, m: Accepted, s: Slot) {
    && |s.dips| == DADDRS && Probed(Addrs(s.dips), addrHome)
    && if s.saddr == 0 then s == Slot(0, s.sport, 0, seq(DADDRS, _ => BlankDip()))
       else
         var k := Key(s.saddr, s.sport);
         && k in m && Held(Addrs(s.dips)) == m[k].Keys && s.num == |m[k]|
         && EntriesOk(check, m, k, s.dips) && BlanksOk(s.dips)
  }

  ghost predicate BlanksOk(dips: seq<Dip>) {
    forall j :: 0 <= j < |dips| && dips[j].daddr == 0 ==> dips[j] == BlankDip()
  }

  ghost predicate Represents(check: Query -> bool, home: Key -> nat, addrHome: Addr -> nat, slots: seq<Slot>,
      m: Accepted) {
    && |slots| == SLOTS && Probed(Keys(slots), home) && Held(Keys(slots)) == m.Keys
    && forall i {:trigger SlotOk(check, addrHome, m, slots[i])} :: 0 <= i < SLOTS ==>
        SlotOk(check, addrHome, m, slots[i])
  }

  /** Each entry's window is still the one the scan left. */
  ghost predicate Unset(slots: seq<Slot>) {
    forall i, j :: 0 <= i < |slots| && 0 <= j < |slots[i].dips| && slots[i].dips[j].daddr != 0 ==>
      slots[i].dips[j].lastIdx == slots[i].dips[j].num
  }

  lemma KeysUpdate(slots: seq<Slot>, i: nat, s: Slot)
    requires i < |slots|
    ensures Keys(slots[i := s]) == Keys(slots)[i := KeyOf(s)]
  {
  }

  lemma AddrsUpdate(dips: seq<Dip>, j: nat, d: Dip)
    requires j < |dips|
    ensures Addrs(dips[j := d]) == Addrs(dips)[j := AddrOf(d)]
  {
  }

  /** Only one slot may belong to a remote pair, so changing what is accepted for it leaves the others alone. */
  lemma OtherSlots(check: Query -> bool, home: Key -> nat, addrHome: Addr -> nat, slots: seq<Slot>, m: Accepted,
                   i: nat, k: Key, v: map<Addr, int>, x: nat)
    requires Represents(check, home, addrHome, slots, m) && i < SLOTS && x < SLOTS && x != i
    requires KeyOf(slots[i]) == Some(k) || k !in m
    ensures SlotOk(check, addrHome, m[k := v], slots[x])
  {
    var s := slots[x];
    assert SlotOk(check, addrHome, m, s);
    if s.saddr != 0 {
      assert Keys(slots)[x] == Some(Key(s.saddr, s.sport));
      assert Keys(slots)[i] == KeyOf(slots[i]);
      HeldIs(Keys(slots), Key(s.saddr, s.sport));
      assert Key(s.saddr, s.sport) != k;
      assert forall d: Dip :: EntryOk(check, m, Key(s.saddr, s.sport), d) ==>
          EntryOk(check, m[k := v], Key(s.saddr, s.sport), d);
    }
  }

  /** A new entry in the second level. */
  lemma EntryAdded(check: Query -> bool, addrHome: Addr -> nat, m: Accepted, s: Slot, k: Key, j: nat, d: Dip, port: int)
    requires |s.dips| == DADDRS && j < DADDRS && s.dips[j].daddr == 0 && d.daddr != 0 && k == Key(s.saddr, s.sport)
    requires s.saddr != 0 && Probed(Addrs(s.dips)[j := Some(d.daddr)], addrHome)
    requires BlanksOk(s.dips) && Scanned(PortTest(check, port, k, d.daddr), d)
    requires if k in m then Held(Addrs(s.dips)) == m[k].Keys && s.num == |m[k]| && EntriesOk(check, m, k, s.dips)
             else Held(Addrs(s.dips)) == {} && s.num == 0
    requires Some(d.daddr) !in Addrs(s.dips)
    ensures var v := Local(m, k)[d.daddr := port];
            SlotOk(check, addrHome, m[k := v], s.(num := s.num + 1, dips := s.dips[j := d]))
  {
    var v := Local(m, k)[d.daddr := port];
    NewEntry(check, m[k := v], k, d);
    EntriesAdded(check, m, s.dips, k, j, d, port);
    AddressAdded(s.dips, j, d, Local(m, k), v);
  }

  lemma NewEntry(check: Query -> bool, m: Accepted, k: Key, d: Dip)
    requires k in m && d.daddr in m[k] && Scanned(PortTest(check, m[k][d.daddr], k, d.daddr), d)
    ensures EntryOk(check, m, k, d)
  {
  }

  lemma AddressAdded(dips: seq<Dip>, j: nat, d: Dip, v: map<Addr, int>, v': map<Addr, int>)
    requires j < |dips| && dips[j].daddr == 0 && d.daddr != 0 && Held(Addrs(dips)) == v.Keys
    requires Some(d.daddr) !in Addrs(dips) && d.daddr in v' && v' == v[d.daddr := v'[d.daddr]]
    ensures Addrs(dips[j := d]) == Addrs(dips)[j := Some(d.daddr)]
    ensures Held(Addrs(dips[j := d])) == v'.Keys && |v'| == |v| + 1
  {
    AddrsUpdate(dips, j, d);
    HeldInsert(Addrs(dips), j, d.daddr);
    HeldIs(Addrs(dips), d.daddr);
    assert v'.Keys == v.Keys + {d.daddr};
  }

  lemma EntriesAdded(check: Query -> bool, m: Accepted, dips: seq<Dip>, k: Key, j: nat, d: Dip, port: int)
    requires j < |dips| && dips[j].daddr == 0 && d.daddr != 0 && BlanksOk(dips) && Some(d.daddr) !in Addrs(dips)
    requires if k in m then EntriesOk(check, m, k, dips) else Held(Addrs(dips)) == {}
    requires EntryOk(check, m[k := Local(m, k)[d.daddr := port]], k, d)
    ensures EntriesOk(check, m[k := Local(m, k)[d.daddr := port]], k, dips[j := d]) && BlanksOk(dips[j := d])
  {
    var m', dips' := m[k := Local(m, k)[d.daddr := port]], dips[j := d];
    forall x | 0 <= x < |dips'| && dips'[x].daddr != 0 ensures EntryOk(check, m', k, dips'[x]) {
      if x != j {
        assert Addrs(dips)[x] == Some(dips[x].daddr);
        HeldIs(Addrs(dips), dips[x].daddr);
        OtherEntry(check, m, k, dips[x], d.daddr, port);
      }
    }
  }

  lemma OtherEntry(check: Query -> bool, m: Accepted, k: Key, d: Dip, daddr: Addr, port: int)
    requires EntryOk(check, m, k, d) && d.daddr != daddr
    ensures EntryOk(check, m[k := m[k][daddr := port]], k, d)
  {
  }

  /** A remote pair finds its slot and a local address its free cell: the table represents one triple more. */
  lemma Added(check: Query -> bool, home: Key -> nat, addrHome: Addr -> nat, slots: seq<Slot>, m: Accepted,
              c: Cfg, i: nat, j: nat, d: Dip)
    requires Represents(check, home, addrHome, slots, m) && i < SLOTS && j < DADDRS && c.saddr != 0 && c.daddr != 0
    requires SlotOk(check, addrHome, m, slots[i]) && Found(slots, home, Key(c.saddr, c.sport), i)
    requires slots[i].dips[j].daddr == 0 && Some(c.daddr) !in Addrs(slots[i].dips)
    requires Probed(Addrs(slots[i].dips)[j := Some(c.daddr)], addrHome)
    requires d.daddr == c.daddr && Scanned(PortTest(check, c.port, Key(c.saddr, c.sport), c.daddr), d)
    ensures Represents(check, home, addrHome, slots[i := Filled(slots[i], c, j, d)], Accept(m, c))
  {
    var k, s' := Key(c.saddr, c.sport), Filled(slots[i], c, j, d);
    Room(check, home, addrHome, slots, m, c, i, j);
    AddedKey(slots, home, m, k, i, s');
    AddedSlot(check, addrHome, m, slots[i], c, j, d);
    SlotReplaced(check, home, addrHome, slots, m, i, k, Local(m, k)[c.daddr := c.port], s');
  }

  lemma SlotReplaced(check: Query -> bool, home: Key -> nat, addrHome: Addr -> nat, slots: seq<Slot>, m: Accepted,
                     i: nat, k: Key, v: map<Addr, int>, s': Slot)
    requires Represents(check, home, addrHome, slots, m) && i < SLOTS && (KeyOf(slots[i]) == Some(k) || k !in m)
    requires SlotOk(check, addrHome, m[k := v], s')
    requires Probed(Keys(slots[i := s']), home) && Held(Keys(slots[i := s'])) == m.Keys + {k}
    ensures Represents(check, home, addrHome, slots[i := s'], m[k := v])
  {
    forall x | 0 <= x < SLOTS && x != i ensures SlotOk(check, addrHome, m[k := v], slots[x]) {
      OtherSlots(check, home, addrHome, slots, m, i, k, v, x);
    }
    assert m[k := v].Keys == m.Keys + {k};
    Assemble(check, home, addrHome, slots, i, s', m[k := v]);
  }

  lemma Assemble(check: Query -> bool, home: Key -> nat, addrHome: Addr -> nat, slots: seq<Slot>, i: nat, s': Slot,
      m: Accepted)
    requires |slots| == SLOTS && i < SLOTS && SlotOk(check, addrHome, m, s')
    requires forall x {:trigger SlotOk(check, addrHome, m, slots[x])} ::
               0 <= x < SLOTS && x != i ==> SlotOk(check, addrHome, m, slots[x])
    requires Probed(Keys(slots[i := s']), home) && Held(Keys(slots[i := s'])) == m.Keys
    ensures Represents(check, home, addrHome, slots[i := s'], m)
  {
    var slots' := slots[i := s'];
    forall x | 0 <= x < SLOTS ensures SlotOk(check, addrHome, m, slots'[x]) {
      assert x != i ==> SlotOk(check, addrHome, m, slots[x]);
    }
  }

  function Local(m: Accepted, k: Key): map<Addr, int> { if k in m then m[k] else map[] }

  lemma AddedKey(slots: seq<Slot>, home: Key -> nat, m: Accepted, k: Key, i: nat, s': Slot)
    requires Found(slots, home, k, i) && Probed(Keys(slots), home) && Held(Keys(slots)) == m.Keys
             && KeyOf(s') == Some(k)
    ensures Probed(Keys(slots[i := s']), home) && Held(Keys(slots[i := s'])) == m.Keys + {k}
  {
    KeysUpdate(slots, i, s');
    HeldIs(Keys(slots), k);
    if Keys(slots)[i] == Some(k) {
      assert Keys(slots)[i := Some(k)] == Keys(slots);
      assert m.Keys + {k} == m.Keys;
    } else {
      HeldInsert(Keys(slots), i, k);
    }
  }

  lemma AddedSlot(check: Query -> bool, addrHome: Addr -> nat, m: Accepted, s: Slot, c: Cfg, j: nat, d: Dip)
    requires SlotOk(check, addrHome, m, s) && j < DADDRS && c.saddr != 0 && c.daddr != 0
    requires var k := Key(c.saddr, c.sport); if k in m then KeyOf(s) == Some(k) else s.saddr == 0
    requires s.dips[j].daddr == 0 && Some(c.daddr) !in Addrs(s.dips)
             && Probed(Addrs(s.dips)[j := Some(c.daddr)], addrHome)
    requires d.daddr == c.daddr && Scanned(PortTest(check, c.port, Key(c.saddr, c.sport), c.daddr), d)
    ensures var k := Key(c.saddr, c.sport);
            SlotOk(check, addrHome, m[k := Local(m, k)[c.daddr := c.port]], Filled(s, c, j, d))
  {
    if s.saddr == 0 {
      BlankHeld(s.dips, addrHome);
    }
    EntryAdded(check, addrHome, m, s.(saddr := c.saddr, sport := c.sport), Key(c.saddr, c.sport), j, d, c.port);
  }

  function Filled(s: Slot, c: Cfg, j: nat, d: Dip): Slot
    requires j < |s.dips|
  {
    Slot(c.saddr, c.sport, s.num + 1, s.dips[j := d])
  }

  /** Cell i is where the walk for k stopped. */
  ghost predicate Found(slots: seq<Slot>, home: Key -> nat, k: Key, i: nat) {
    && i < |slots|
    && (Keys(slots)[i] == Some(k) || (slots[i].saddr == 0 && Some(k) !in Keys(slots)
        && Probed(Keys(slots)[i := Some(k)], home)))
  }

  lemma BlankHeld(dips: seq<Dip>, addrHome: Addr -> nat)
    requires dips == seq(DADDRS, _ => BlankDip())
    ensures Held(Addrs(dips)) == {} && BlanksOk(dips)
  {
  }

  /** A free cell means that the limits have not been reached. */
  lemma Room(check: Query -> bool, home: Key -> nat, addrHome: Addr -> nat, slots: seq<Slot>, m: Accepted,
             c: Cfg, i: nat, j: nat)
    requires Represents(check, home, addrHome, slots, m) && i < SLOTS && j < DADDRS && c.saddr != 0
    requires SlotOk(check, addrHome, m, slots[i]) && Found(slots, home, Key(c.saddr, c.sport), i)
    requires slots[i].dips[j].daddr == 0 && Some(c.daddr) !in Addrs(slots[i].dips)
    ensures var k := Key(c.saddr, c.sport);
            && Accept(m, c) == m[k := Local(m, k)[c.daddr := c.port]]
            && if k in m then KeyOf(slots[i]) == Some(k) else slots[i].saddr == 0
  {
    var k := Key(c.saddr, c.sport);
    HeldIs(Keys(slots), k);
    HeldIs(Addrs(slots[i].dips), c.daddr);
    HeldFull(Keys(slots));
    HeldFull(Addrs(slots[i].dips));
    assert Addrs(slots[i].dips)[j].None?;
    assert Keys(slots)[i] == KeyOf(slots[i]);
    assert |m| == |m.Keys|;
    if k in m {
      assert |m[k]| == |m[k].Keys|;
    }
  }

  /** A configuration without a cell is one the limits, or an earlier equal triple, exclude. */
  lemma Refused(check: Query -> bool, home: Key -> nat, addrHome: Addr -> nat, slots: seq<Slot>, m: Accepted,
      c: Cfg, i: nat)
    requires Represents(check, home, addrHome, slots, m) && i < SLOTS && SlotOk(check, addrHome, m, slots[i])
    requires c.daddr != 0 && Keys(slots)[i] == Some(Key(c.saddr, c.sport))
    requires Some(c.daddr) in Addrs(slots[i].dips) || forall j :: 0 <= j < DADDRS ==> Addrs(slots[i].dips)[j].Some?
    ensures Accept(m, c) == m
  {
    var k := Key(c.saddr, c.sport);
    HeldIs(Addrs(slots[i].dips), c.daddr);
    HeldFull(Addrs(slots[i].dips));
    assert |m[k]| == |m[k].Keys|;
  }

  lemma NoSlot(check: Query -> bool, home: Key -> nat, addrHome: Addr -> nat, slots: seq<Slot>, m: Accepted, c: Cfg)
    requires Represents(check, home, addrHome, slots, m) && Some(Key(c.saddr, c.sport)) !in Keys(slots)
    requires forall i :: 0 <= i < SLOTS ==> Keys(slots)[i].Some?
    ensures Accept(m, c) == m
  {
    HeldIs(Keys(slots), Key(c.saddr, c.sport));
    HeldFull(Keys(slots));
    assert |m| == |m.Keys|;
  }

  // ---- changing windows

  /** Everything but the window is the same. */
  predicate SameEntry(d: Dip, d': Dip) {
    && d' == d.(first := d'.first, last := d'.last, firstIdx := d'.firstIdx, lastIdx := d'.lastIdx)
    && (d.daddr == 0 ==> d' == d)
  }

  predicate SameSlot(s: Slot, s': Slot) {
    && s' == s.(dips := s'.dips) && |s'.dips| == |s.dips|
    && forall j :: 0 <= j < |s.dips| ==> SameEntry(s.dips[j], s'.dips[j])
  }

  lemma SameSlotOk(check: Query -> bool, addrHome: Addr -> nat, m: Accepted, s: Slot, s': Slot)
    requires SlotOk(check, addrHome, m, s) && SameSlot(s, s')
    ensures SlotOk(check, addrHome, m, s')
  {
    assert Addrs(s'.dips) == Addrs(s.dips);
    if s.saddr == 0 {
      assert s'.dips == s.dips;
    } else {
      forall j | 0 <= j < DADDRS && s'.dips[j].daddr != 0 ensures EntryOk(check, m, Key(s.saddr, s.sport), s'.dips[j]) {
        assert EntryOk(check, m, Key(s.saddr, s.sport), s.dips[j]);
        assert Ports(s'.dips[j]) == Ports(s.dips[j]);
      }
    }
  }

  lemma SameTable(check: Query -> bool, home: Key -> nat, addrHome: Addr -> nat, slots: seq<Slot>, m: Accepted,
                  i: nat, s': Slot)
    requires Represents(check, home, addrHome, slots, m) && i < SLOTS && SameSlot(slots[i], s')
    ensures Represents(check, home, addrHome, slots[i := s'], m)
  {
    var slots' := slots[i := s'];
    KeysUpdate(slots, i, s');
    assert Keys(slots') == Keys(slots);
    forall x | 0 <= x < SLOTS ensures SlotOk(check, addrHome, m, slots'[x]) {
      assert SlotOk(check, addrHome, m, slots[x]);
      if x == i {
        SameSlotOk(check, addrHome, m, slots[i], s');
      }
    }
  }

  predicate IsEntry(slots: seq<Slot>, i: nat, j: nat) {
    i < |slots| && j < |slots[i].dips| && slots[i].dips[j].daddr != 0
  }

  lemma EntrySized(check: Query -> bool, home: Key -> nat, addrHome: Addr -> nat, slots: seq<Slot>, m: Accepted,
      i: nat, j: nat)
    requires Represents(check, home, addrHome, slots, m) && IsEntry(slots, i, j)
    ensures Sized(slots[i].dips[j]) && Ascending(Ports(slots[i].dips[j])) && slots[i].saddr != 0
  {
    var s := slots[i];
    assert SlotOk(check, addrHome, m, s);
    assert EntryOk(check, m, Key(s.saddr, s.sport), s.dips[j]);
    ListedIs(PortTest(check, m[Key(s.saddr, s.sport)][s.dips[j].daddr], Key(s.saddr, s.sport), s.dips[j].daddr));
  }

  /** What the code does to one entry, and whether it is content. */
  predicate WindowSet(d: Dip, d': Dip, first: nat, last: nat) {
    |d.dport| == PORTS + 1 && d.num < PORTS &&
    d' == d.(first := first, last := last, firstIdx := NewFirst(d, first), lastIdx := NewLast(d, first, last))
  }

  predicate Content(d: Dip) { d.firstIdx != 0 && d.firstIdx <= d.lastIdx }

  /** Every entry of slot s became the one in s', and the code was content with it. */
  predicate SlotSet(s: Slot, s': Slot, first: nat, last: nat) {
    && SameSlot(s, s')
    && forall j :: 0 <= j < |s.dips| && s.dips[j].daddr != 0 ==>
         WindowSet(s.dips[j], s'.dips[j], first, last) && Content(s'.dips[j])
  }

  /** Some entry left the code discontent. */
  ghost predicate Fails(s: Slot, first: nat, last: nat) {
    exists j, d' :: 0 <= j < |s.dips| && s.dips[j].daddr != 0 && WindowSet(s.dips[j], d', first, last) && !Content(d')
  }

  ghost predicate AllFair(slots: seq<Slot>, first: nat, last: nat) {
    forall i: nat, j: nat :: IsEntry(slots, i, j) ==> Sized(slots[i].dips[j]) && Fair(slots[i].dips[j], first, last)
  }

  ghost predicate AllServed(slots: seq<Slot>, first: nat, last: nat) {
    forall i: nat, j: nat :: IsEntry(slots, i, j) ==>
        Sized(slots[i].dips[j]) && SomeWithin(slots[i].dips[j], first, last)
  }

  /** The test at the end of the loop over one entry. */
  predicate Accepts(d: Dip, first: nat, last: nat)
    requires |d.dport| == PORTS + 1 && d.num < PORTS
  {
    0 != NewFirst(d, first) <= NewLast(d, first, last)
  }

  ghost predicate AllAccepted(slots: seq<Slot>, first: nat, last: nat) {
    forall i: nat, j: nat :: IsEntry(slots, i, j) ==> Sized(slots[i].dips[j]) && Accepts(slots[i].dips[j], first, last)
  }

  lemma ContentAccepted(check: Query -> bool, home: Key -> nat, addrHome: Addr -> nat, slots: seq<Slot>,
                        slots': seq<Slot>, m: Accepted, first: nat, last: nat)
    requires Represents(check, home, addrHome, slots, m) && |slots'| == SLOTS
    requires forall i :: 0 <= i < SLOTS ==> SlotSet(slots[i], slots'[i], first, last)
    ensures AllAccepted(slots, first, last)
  {
    forall i: nat, j: nat | IsEntry(slots, i, j)
      ensures Sized(slots[i].dips[j]) && Accepts(slots[i].dips[j], first, last)
    {
      EntrySized(check, home, addrHome, slots, m, i, j);
      assert SlotSet(slots[i], slots'[i], first, last);
    }
  }

  /** The window of every entry delimits exactly its ports in the range. */
  ghost predicate AllRight(slots: seq<Slot>, first: nat, last: nat) {
    forall i: nat, j: nat :: IsEntry(slots, i, j) ==>
      var d := slots[i].dips[j]; Sized(d) && Right(d, first, last, d.firstIdx, d.lastIdx)
  }

  lemma FairIsRight(d: Dip, d': Dip, first: nat, last: nat)
    requires Sized(d) && Ascending(Ports(d)) && first <= last && WindowSet(d, d', first, last)
    ensures Fair(d, first, last) ==> (Content(d') <==> SomeWithin(d, first, last))
    ensures Sized(d') && (Right(d', first, last, d'.firstIdx, d'.lastIdx) <==> Fair(d, first, last))
  {
    WindowExact(d, first, last);
    assert Ports(d') == Ports(d);
    assert SomeWithin(d', first, last) <==> SomeWithin(d, first, last);
  }

  /** When all slots could be set, the windows are all right exactly if the range was fair to every entry. */
  lemma AllSet(check: Query -> bool, home: Key -> nat, addrHome: Addr -> nat, slots: seq<Slot>, slots': seq<Slot>,
               m: Accepted, first: nat, last: nat)
    requires Represents(check, home, addrHome, slots, m) && first <= last && |slots'| == SLOTS
    requires forall i :: 0 <= i < SLOTS ==> SlotSet(slots[i], slots'[i], first, last)
    ensures AllFair(slots, first, last) ==> AllServed(slots, first, last)
    ensures AllRight(slots', first, last) <==> AllFair(slots, first, last)
  {
    forall i: nat, j: nat | IsEntry(slots, i, j) || IsEntry(slots', i, j)
      ensures EntrySet(slots, slots', i, j, first, last)
    {
      EntryIsSet(check, home, addrHome, slots, slots', m, i, j, first, last);
    }
    forall i: nat, j: nat | IsEntry(slots, i, j) && AllRight(slots', first, last)
      ensures Sized(slots[i].dips[j]) && Fair(slots[i].dips[j], first, last)
    {
      assert EntrySet(slots, slots', i, j, first, last);
    }
  }

  ghost predicate EntrySet(slots: seq<Slot>, slots': seq<Slot>, i: nat, j: nat, first: nat, last: nat) {
    && IsEntry(slots, i, j) && IsEntry(slots', i, j) && Sized(slots[i].dips[j]) && Sized(slots'[i].dips[j])
    && var d, d' := slots[i].dips[j], slots'[i].dips[j];
       && (Right(d', first, last, d'.firstIdx, d'.lastIdx) <==> Fair(d, first, last))
       && (Fair(d, first, last) ==> SomeWithin(d, first, last))
  }

  lemma EntryIsSet(check: Query -> bool, home: Key -> nat, addrHome: Addr -> nat, slots: seq<Slot>,
                   slots': seq<Slot>, m: Accepted, i: nat, j: nat, first: nat, last: nat)
    requires Represents(check, home, addrHome, slots, m) && first <= last && |slots'| == SLOTS
    requires forall i :: 0 <= i < SLOTS ==> SlotSet(slots[i], slots'[i], first, last)
    requires IsEntry(slots, i, j) || IsEntry(slots', i, j)
    ensures EntrySet(slots, slots', i, j, first, last)
  {
    assert SlotSet(slots[i], slots'[i], first, last);
    assert SameEntry(slots[i].dips[j], slots'[i].dips[j]);
    EntrySized(check, home, addrHome, slots, m, i, j);
    FairIsRight(slots[i].dips[j], slots'[i].dips[j], first, last);
  }

  lemma NotAllServed(check: Query -> bool, home: Key -> nat, addrHome: Addr -> nat, slots: seq<Slot>, m: Accepted,
                     i: nat, first: nat, last: nat)
    requires Represents(check, home, addrHome, slots, m) && first <= last && i < SLOTS
    requires Fails(slots[i], first, last)
    ensures !AllAccepted(slots, first, last)
    ensures AllFair(slots, first, last) ==> !AllServed(slots, first, last)
  {
    var j: nat, d' :| j < |slots[i].dips| && slots[i].dips[j].daddr != 0
                      && WindowSet(slots[i].dips[j], d', first, last) && !Content(d');
    assert IsEntry(slots, i, j);
    EntrySized(check, home, addrHome, slots, m, i, j);
    FairIsRight(slots[i].dips[j], d', first, last);
  }

  /** The first range after `ff_rss_tbl_init`: more than one port, and no entry with all its ports above. */
  lemma FirstRange(check: Query -> bool, home: Key -> nat, addrHome: Addr -> nat, slots: seq<Slot>, m: Accepted,
                   first: nat, last: nat)
    requires Represents(check, home, addrHome, slots, m) && Unset(slots) && first < last
    requires forall i: nat, j: nat :: IsEntry(slots, i, j) ==>
               var d := slots[i].dips[j]; Sized(d) && (d.num > 0 ==> Ports(d)[0] <= last)
    ensures AllFair(slots, first, last)
  {
    forall i: nat, j: nat | IsEntry(slots, i, j)
      ensures Sized(slots[i].dips[j]) && Fair(slots[i].dips[j], first, last)
    {
      EntrySized(check, home, addrHome, slots, m, i, j);
    }
  }

  class Table {
    const slots: array<Slot>
    const check: Query -> bool
    const home: Key -> nat
    const addrHome: Addr -> nat
    const family: nat
    var enabled: bool

    ghost var accepted: Accepted

    ghost predicate Valid()
      reads this, slots
    {
      slots.Length == SLOTS && Represents(check, home, addrHome, slots[..], accepted)
    }

    constructor (check: Query -> bool, home: Key -> nat, addrHome: Addr -> nat, family: nat)
      requires Homes(home, SLOTS) && Homes(addrHome, DADDRS)
      ensures Valid() && accepted == map[] && !enabled && fresh(slots)
      ensures this.check == check && this.home == home && this.addrHome == addrHome && this.family == family
    {
      this.check, this.home, this.addrHome, this.family, enabled := check, home, addrHome, family, false;
      slots := new Slot[SLOTS](_ => Slot(0, 0, 0, seq(DADDRS, _ => BlankDip())));
      accepted := map[];
      new;
      AllBlank(check, home, addrHome, slots[..]);
    }

    /** `ff_rss_tbl_init`; `softc` is whether an interface context could be had. */
    method Init(cfgs: seq<Cfg>, softc: bool) returns (r: int)
      requires slots.Length == SLOTS && Homes(home, SLOTS) && Homes(addrHome, DADDRS)
      requires forall i :: 0 <= i < |cfgs| && cfgs[i].family == family ==> cfgs[i].saddr != 0 && cfgs[i].daddr != 0
      modifies slots, `accepted
      ensures Valid() && Unset(slots[..])
      ensures r == if softc then 0 else -1
      ensures accepted == if softc then AcceptAll(cfgs, family) else map[]
      ensures softc ==> FirstCome(cfgs, family, |cfgs|, accepted)
    {
      for i := 0 to SLOTS
        invariant forall x :: 0 <= x < i ==> slots[x] == Slot(0, 0, 0, seq(DADDRS, _ => BlankDip()))
      {
        slots[i] := Slot(0, 0, 0, seq(DADDRS, _ => BlankDip()));
      }
      accepted := map[];
      AllBlank(check, home, addrHome, slots[..]);
      if !softc {
        return -1;
      }
      for i := 0 to |cfgs|
        invariant Valid() && Unset(slots[..]) && accepted == AcceptAll(cfgs[..i], family)
      {
        assert cfgs[..i + 1][..i] == cfgs[..i];
        if cfgs[i].family == family {
          AddOne(cfgs[i]);
        }
      }
      assert cfgs[..|cfgs|] == cfgs;
      AcceptedInOrder(cfgs, family, |cfgs|);
      return 0;
    }

    /** One configured triple: probe both levels, and scan its ports if there is a free cell. */
    method AddOne(c: Cfg)
      requires Valid() && Unset(slots[..]) && c.saddr != 0 && c.daddr != 0
      modifies slots, `accepted
      ensures Valid() && Unset(slots[..]) && accepted == Accept(old(accepted), c)
    {
      var k := Key(c.saddr, c.sport);
      var i, ok := Probe(Keys(slots[..]), home, k);
      if !ok {
        NoSlot(check, home, addrHome, slots[..], accepted, c);
        return;
      }
      assert SlotOk(check, addrHome, accepted, slots[..][i]);
      var j, free := Probe(Addrs(slots[i].dips), addrHome, c.daddr);
      if !free || slots[i].dips[j].daddr == c.daddr {
        Taken(check, addrHome, accepted, slots[i], free, j, c.daddr);
        Refused(check, home, addrHome, slots[..], accepted, c, i);
        return;
      }
      var d := Scan(PortTest(check, c.port, k, c.daddr), c.daddr, slots[i].dips[j]);
      Added(check, home, addrHome, slots[..], accepted, c, i, j, d);
      ghost var was := slots[..];
      slots[i] := Filled(slots[i], c, j, d);
      assert slots[..] == was[i := Filled(was[i], c, j, d)];
      accepted := Accept(accepted, c);
    }

    /**
     `ff_rss_tbl_get_portrange`: found exactly if the triple was accepted.  `d` is the entry the indices and
     the port array belong to.
     */
    method GetPortrange(saddr: Addr, daddr: Addr, sport: nat)
      returns (r: int, first: nat, last: nat, ports: seq<nat>, ghost i: nat, ghost j: nat)
      requires Valid()
      ensures !enabled ==> r == -1
      ensures enabled ==> r == 0 || r == -ENOENT
      ensures enabled ==> (r == 0 <==> Key(saddr, sport) in accepted && daddr in accepted[Key(saddr, sport)])
      ensures r == 0 ==>
                && IsEntry(slots[..], i, j) && EntryOk(check, accepted, Key(saddr, sport), slots[i].dips[j])
                && slots[i].dips[j].daddr == daddr && ports == slots[i].dips[j].dport
                && first == slots[i].dips[j].firstIdx && last == slots[i].dips[j].lastIdx
                && var k := Key(saddr, sport); OwnPorts(check, accepted[k][daddr], k, daddr, Ports(slots[i].dips[j]))
    {
      first, last, ports, i, j := 0, 0, [], 0, 0;
      if !enabled {
        return -1, 0, 0, [], 0, 0;
      }
      var k := Key(saddr, sport);
      var idx, ok := Probe(Keys(slots[..]), home, k);
      HeldIs(Keys(slots[..]), k);
      if !ok || slots[idx].saddr == 0 {
        return -ENOENT, 0, 0, [], 0, 0;
      }
      assert SlotOk(check, addrHome, accepted, slots[..][idx]);
      var dips := slots[idx].dips;
      var x, found := Probe(Addrs(dips), addrHome, daddr);
      HeldIs(Addrs(dips), daddr);
      if !found || dips[x].daddr == 0 {
        return -ENOENT, 0, 0, [], 0, 0;
      }
      assert EntryOk(check, accepted, k, dips[x]);
      ListsOwnPorts(check, accepted, k, dips[x]);
      return 0, dips[x].firstIdx, dips[x].lastIdx, dips[x].dport, idx, x;
    }

    /** `ff_rss_tbl_set_portrange`. */
    method SetPortrange(first: nat, last: nat) returns (r: int)
      requires Valid()
      modifies slots
      ensures Valid() && (r == 0 || r == -1)
      ensures first > last || !enabled ==> r == -1 && slots[..] == old(slots[..])
      ensures first <= last && enabled ==> (r == 0 <==> AllAccepted(old(slots[..]), first, last))
      ensures first <= last && enabled && AllFair(old(slots[..]), first, last) ==>
                (r == 0 <==> AllServed(old(slots[..]), first, last))
      ensures r == 0 ==> (AllRight(slots[..], first, last) <==> AllFair(old(slots[..]), first, last))
    {
      if first > last || !enabled {
        return -1;
      }
      ghost var was := slots[..];
      ghost var at;
      r, at := SetSlots(first, last);
      if r == 0 {
        AllSet(check, home, addrHome, was, slots[..], accepted, first, last);
        ContentAccepted(check, home, addrHome, was, slots[..], accepted, first, last);
      } else {
        NotAllServed(check, home, addrHome, was, accepted, at, first, last);
      }
    }

    /** The loop over the slots, which stops at the first entry the code is not content with. */
    method SetSlots(first: nat, last: nat) returns (r: int, ghost at: nat)
      requires Valid() && first <= last
      modifies slots
      ensures Valid() && (r == 0 || r == -1)
      ensures r == 0 ==> forall x :: 0 <= x < SLOTS ==> SlotSet(old(slots[..])[x], slots[..][x], first, last)
      ensures r == -1 ==> at < SLOTS && Fails(old(slots[..])[at], first, last)
    {
      ghost var was := slots[..];
      at := 0;
      var i := 0;
      while i < SLOTS
        invariant 0 <= i <= SLOTS && Valid()
        invariant forall x :: 0 <= x < i ==> SlotSet(was[x], slots[x], first, last)
        invariant forall x :: i <= x < SLOTS ==> slots[x] == was[x]
      {
        assert SlotOk(check, addrHome, accepted, slots[..][i]);
        if slots[i].saddr != 0 {
          var ok := SetSlot(i, first, last);
          if !ok {
            return -1, i;
          }
        }
        i := i + 1;
      }
      r := 0;
    }

    method SetSlot(i: nat, first: nat, last: nat) returns (ok: bool)
      requires Valid() && i < SLOTS && first <= last
      modifies slots
      ensures Valid() && forall x :: 0 <= x < SLOTS && x != i ==> slots[x] == old(slots[x])
      ensures if ok then SlotSet(old(slots[i]), slots[i], first, last) else Fails(old(slots[i]), first, last)
    {
      ghost var was := slots[..];
      var s;
      ok, s := NarrowSlot(i, first, last);
      SameTable(check, home, addrHome, was, accepted, i, s);
      slots[i] := s;
      assert slots[..] == was[i := s];
    }

    method NarrowSlot(i: nat, first: nat, last: nat) returns (ok: bool, s: Slot)
      requires Valid() && i < SLOTS && first <= last
      ensures SameSlot(slots[i], s)
      ensures if ok then SlotSet(slots[i], s, first, last) else Fails(slots[i], first, last)
    {
      forall j | 0 <= j < |slots[i].dips| && slots[i].dips[j].daddr != 0
        ensures Sized(slots[i].dips[j]) && Ascending(Ports(slots[i].dips[j]))
      {
        EntrySized(check, home, addrHome, slots[..], accepted, i, j);
      }
      var dips;
      ok, dips := NarrowDips(slots[i], first, last);
      s := slots[i].(dips := dips);
    }
  }

  /** The second-level loop of `ff_rss_tbl_set_portrange`, up to the first entry that fails. */
  method NarrowDips(s: Slot, first: nat, last: nat) returns (ok: bool, dips: seq<Dip>)
    requires first <= last
    requires forall j :: 0 <= j < |s.dips| && s.dips[j].daddr != 0 ==> Sized(s.dips[j]) && Ascending(Ports(s.dips[j]))
    ensures SameSlot(s, s.(dips := dips))
    ensures if ok then SlotSet(s, s.(dips := dips), first, last) else Fails(s, first, last)
  {
    dips := s.dips;
    var j := 0;
    while j < |s.dips|
      invariant 0 <= j <= |s.dips| == |dips|
      invariant forall x :: j <= x < |s.dips| ==> dips[x] == s.dips[x]
      invariant forall x :: 0 <= x < j ==> SameEntry(s.dips[x], dips[x])
      invariant forall x :: 0 <= x < j && s.dips[x].daddr != 0 ==>
                  WindowSet(s.dips[x], dips[x], first, last) && Content(dips[x])
    {
      if s.dips[j].daddr != 0 {
        var d, fine := SetWindow(s.dips[j], first, last);
        dips := dips[j := d];
        if !fine {
          assert WindowSet(s.dips[j], d, first, last) && !Content(d);
          return false, dips;
        }
      }
      j := j + 1;
    }
    ok := true;
  }

  /** Only a slot in use can turn a local address away. */
  lemma Taken(check: Query -> bool, addrHome: Addr -> nat, m: Accepted, s: Slot, free: bool, j: nat, daddr: Addr)
    requires SlotOk(check, addrHome, m, s) && daddr != 0
    requires if free then j < DADDRS && s.dips[j].daddr == daddr
             else forall x :: 0 <= x < DADDRS ==> Addrs(s.dips)[x].Some?
    ensures Some(daddr) in Addrs(s.dips) || forall x :: 0 <= x < DADDRS ==> Addrs(s.dips)[x].Some?
    ensures s.saddr != 0
  {
    assert Addrs(s.dips)[0] == AddrOf(s.dips[0]);
    if free {
      assert Addrs(s.dips)[j] == Some(daddr);
    }
  }

  lemma AllBlank(check: Query -> bool, home: Key -> nat, addrHome: Addr -> nat, slots: seq<Slot>)
    requires Homes(home, SLOTS) && Homes(addrHome, DADDRS)
    requires |slots| == SLOTS && forall i :: 0 <= i < SLOTS ==> slots[i] == Slot(0, 0, 0, seq(DADDRS, _ => BlankDip()))
    ensures Represents(check, home, addrHome, slots, map[]) && Unset(slots)
  {
    Blank(Keys(slots), home);
    forall i | 0 <= i < SLOTS ensures SlotOk(check, addrHome, map[], slots[i]) {
      Blank(Addrs(slots[i].dips), addrHome);
    }
  }
}
