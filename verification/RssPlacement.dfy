/**
 Which core gets a packet (`lib/ff_dpdk_if.c`): the redirection table programmed into the device, the
 queues given to the cores, the test `ff_rss_check`, and the search for a local port whose replies
 come back to this core (`ff_rss_adjust_sport`).
 */
module RssPlacement {
  import opened Options
  import opened Arithmetic
  import opened Basics
  import PortWindow
  import Probing
  import Toeplitz

  const GROUP := 64   // RTE_ETH_RETA_GROUP_SIZE

  /** What the device does with a hash: the low bits select an entry of the redirection table. */
  function Index(hash: nat, reta: nat): nat
    requires reta > 0
  {
    And(hash, reta - 1)
  }

  /** `ff_rss_check` on a core that sends and receives on `queue` of `queues`. */
  predicate RssCheck(hash: nat, reta: nat, queues: nat, queue: nat)
    requires reta > 0
  {
    queues <= 1 || Index(hash, reta) % queues == queue
  }

  /** `ff_rss_check` and `ff_rss_check6` for a packet with these address and port fields. */
  predicate TupleCheck(key: seq<Toeplitz.Byte>, tuple: seq<Toeplitz.Byte>, reta: nat, queues: nat, queue: nat)
    requires reta > 0
  {
    RssCheck(Toeplitz.Value(Toeplitz.HashOf(key, tuple)), reta, queues, queue)
  }

  /** `ff_rss_check` from the fields of the packet: the device would put it in this core's queue. */
  method CheckTuple(key: seq<Toeplitz.Byte>, saddr: seq<Toeplitz.Byte>, daddr: seq<Toeplitz.Byte>,
                    sport: seq<Toeplitz.Byte>, dport: seq<Toeplitz.Byte>, reta: nat, queues: nat, queue: nat)
    returns (ok: bool)
    requires |key| >= 4 && IsPow2(reta)
    ensures reta > 0 && ok == TupleCheck(key, saddr + daddr + sport + dport, reta, queues, queue)
    ensures queues > 1 ==>
              (ok <==> Toeplitz.Value(Toeplitz.HashOf(key, saddr + daddr + sport + dport)) % reta % queues == queue)
  {
    AndIsRemainder(Toeplitz.Value(Toeplitz.HashOf(key, saddr + daddr + sport + dport)), reta);
    if queues <= 1 {
      return true;
    }
    var hash := Toeplitz.Hash(key, saddr + daddr + sport + dport);
    ok := And(Toeplitz.Value(hash), reta - 1) % queues == queue;
  }

  /** With the symmetric key, the two directions of a connection belong to the same queue. */
  lemma BothDirections(len: nat, saddr: seq<Toeplitz.Byte>, daddr: seq<Toeplitz.Byte>,
                       sport: seq<Toeplitz.Byte>, dport: seq<Toeplitz.Byte>, reta: nat, queues: nat, queue: nat)
    requires len == 40 || len == 52
    requires |saddr| == |daddr| && (|saddr| == 4 || |saddr| == 16) && |sport| == |dport| == 2 && reta > 0
    ensures var key := Toeplitz.SymmetricKey(len);
            TupleCheck(key, saddr + daddr + sport + dport, reta, queues, queue) ==
            TupleCheck(key, daddr + saddr + dport + sport, reta, queues, queue)
  {
    Toeplitz.SymmetricKeyIsSymmetric(len, saddr, daddr, sport, dport);
  }

  // ---- the redirection table

  /** The device finds entry n in group n / 64; every one it can ask for is there. */
  ghost predicate Programmed(conf: array2<nat>, reta: nat, queues: nat)
    reads conf
  {
    && queues > 0 && conf.Length1 == GROUP
    && forall n: nat {:trigger n % queues} :: n < reta ==>
         n / GROUP < conf.Length0 && conf[n / GROUP, n % GROUP] == n % queues
  }

  /** The entries of the table fit in one group, or fill whole groups. */
  predicate Whole(reta: nat) { reta <= GROUP || reta % GROUP == 0 }

  /**
   `set_rss_table`: the groups of 64 entries handed to the device.  They are all the device asks for exactly if
   they have no gap at the end.
   */
  method SetRssTable(reta: nat, queues: nat) returns (conf: array2<nat>)
    requires queues > 0
    ensures fresh(conf) && (Programmed(conf, reta, queues) <==> Whole(reta))
  {
    if reta == 0 {
      conf := new nat[0, GROUP];
      return;
    }
    var size := if reta / GROUP > 1 then reta / GROUP else 1;
    conf := FillGroups(size, queues);
    if Whole(reta) {
      forall n: nat | n < reta ensures n / GROUP < size && conf[n / GROUP, n % GROUP] == n % queues {
        GroupsCover(reta, n);
        assert GROUP * (n / GROUP) + n % GROUP == n;
      }
    } else {
      GapAtEnd(reta);
      assert !Programmed(conf, reta, queues) by {
        var n := reta - 1;
        assert n % queues >= 0;
      }
    }
  }

  lemma GapAtEnd(reta: nat)
    requires !Whole(reta)
    ensures reta / GROUP >= 1 && (reta - 1) / GROUP == reta / GROUP
  {
  }

  method FillGroups(size: nat, queues: nat) returns (conf: array2<nat>)
    requires queues > 0
    ensures fresh(conf) && conf.Length0 == size && conf.Length1 == GROUP
    ensures forall i, j :: 0 <= i < size && 0 <= j < GROUP ==> conf[i, j] == (GROUP * i + j) % queues
  {
    conf := new nat[size, GROUP];
    var hash := 0;
    for i := 0 to size
      invariant hash == GROUP * i
      invariant forall x, j :: 0 <= x < i && 0 <= j < GROUP ==> conf[x, j] == (GROUP * x + j) % queues
    {
      for j := 0 to GROUP
        invariant hash == GROUP * i + j
        invariant forall x, y :: 0 <= x < i && 0 <= y < GROUP ==> conf[x, y] == (GROUP * x + y) % queues
        invariant forall y :: 0 <= y < j ==> conf[i, y] == (GROUP * i + y) % queues
      {
        conf[i, j] := hash % queues;
        hash := hash + 1;
      }
    }
  }

  /** Without a gap every index is in a group that was filled. */
  lemma GroupsCover(reta: nat, n: nat)
    requires Whole(reta) && n < reta
    ensures n / GROUP < if reta / GROUP > 1 then reta / GROUP else 1
  {
  }

  /** A table of a power of two entries, as the code asserts it to be, has no gap. */
  lemma PowersAreWhole(reta: nat)
    requires IsPow2(reta)
    ensures Whole(reta)
  {
    var k: nat :| reta == Pow2(k);
    if k <= 6 {
      SmallPow2(k);
    } else {
      WholeGroups(k);
    }
  }

  lemma {:induction false} SmallPow2(k: nat)
    requires k <= 6
    ensures Pow2(k) <= GROUP
    decreases 6 - k
  {
    if k == 6 {
      WholeGroups(6);
    } else {
      SmallPow2(k + 1);
    }
  }

  lemma {:induction false} WholeGroups(k: nat)
    requires k >= 6
    ensures Pow2(k) == GROUP * Pow2(k - 6)
  {
    if k == 6 {
      assert Pow2(6) == 2 * Pow2(5) == 4 * Pow2(4) == 8 * Pow2(3) == 16 * Pow2(2) == 32 * Pow2(1) == 64 * Pow2(0);
    } else {
      WholeGroups(k - 1);
    }
  }

  // ---- the cores

  datatype PortCfg = PortCfg(id: nat, lcores: seq<nat>)

  /** `struct lcore_conf`: queues to poll, queue to send on and number of queues for each port. */
  datatype LcoreConf = LcoreConf(rx: seq<(nat, nat)>, tx: map<nat, nat>, txPorts: seq<nat>, queues: map<nat, nat>)

  predicate LastPlace(lcores: seq<nat>, lcore: nat, i: nat) {
    i < |lcores| && lcores[i] == lcore && forall k :: i < k < |lcores| ==> lcores[k] != lcore
  }

  /** The queue a core gets on a port: the last place it has in the port's list. */
  method QueueOf(lcores: seq<nat>, lcore: nat) returns (queue: int)
    ensures queue < 0 <==> lcore !in lcores
    ensures queue >= 0 ==> LastPlace(lcores, lcore, queue)
  {
    queue := -1;
    for i := 0 to |lcores|
      invariant queue < i
      invariant queue < 0 ==> lcore !in lcores[..i]
      invariant queue >= 0 ==> lcores[queue] == lcore && forall k :: queue < k < i ==> lcores[k] != lcore
    {
      if lcores[i] == lcore {
        queue := i;
      }
    }
    assert lcores[..|lcores|] == lcores;
  }

  /** A port that is listed twice is the same port: its configuration is looked up by number. */
  ghost predicate ByNumber(ports: seq<PortCfg>) {
    forall i, j :: 0 <= i < j < |ports| && ports[i].id == ports[j].id ==> ports[i] == ports[j]
  }

  /** What a core's configuration says about one of the first n ports. */
  ghost predicate Configured(conf: LcoreConf, ports: seq<PortCfg>, lcore: nat, n: nat) {
    && (forall i :: 0 <= i < n && i < |ports| ==> Serves(conf, ports[i], lcore))
    && Knows(conf, ports, n)
  }

  /** It names none but the first n ports. */
  ghost predicate Knows(conf: LcoreConf, ports: seq<PortCfg>, n: nat) {
    && (forall p, q :: (p, q) in conf.rx ==> exists i :: 0 <= i < n && i < |ports| && ports[i].id == p)
    && (forall p :: p in conf.tx ==> exists i :: 0 <= i < n && i < |ports| && ports[i].id == p)
    && conf.queues.Keys == conf.tx.Keys
    && |conf.txPorts| == |conf.rx| && forall i :: 0 <= i < |conf.rx| ==> conf.txPorts[i] == conf.rx[i].0
  }

  /** A core polls, and sends on, exactly the queue that stands for it; it has none if it is not in the list. */
  ghost predicate Serves(conf: LcoreConf, port: PortCfg, lcore: nat) {
    if lcore in port.lcores then
      && port.id in conf.tx && port.id in conf.queues && conf.queues[port.id] == |port.lcores|
      && LastPlace(port.lcores, lcore, conf.tx[port.id])
      && forall q :: (port.id, q) in conf.rx <==> q == conf.tx[port.id]
    else
      port.id !in conf.tx && forall q :: (port.id, q) !in conf.rx
  }

  lemma OneLastPlace(lcores: seq<nat>, lcore: nat, i: nat, j: nat)
    requires LastPlace(lcores, lcore, i) && LastPlace(lcores, lcore, j)
    ensures i == j
  {
  }

  /** `init_lcore_conf` for one core. */
  method InitLcoreConf(ports: seq<PortCfg>, lcore: nat) returns (conf: LcoreConf)
    requires ByNumber(ports)
    ensures Configured(conf, ports, lcore, |ports|)
  {
    conf := LcoreConf([], map[], [], map[]);
    for j := 0 to |ports|
      invariant Configured(conf, ports, lcore, j)
    {
      var queue := QueueOf(ports[j].lcores, lcore);
      if queue >= 0 {
        var id := ports[j].id;
        ghost var was := conf;
        conf := LcoreConf(conf.rx + [(id, queue)], conf.tx[id := queue], conf.txPorts + [id],
                          conf.queues[id := |ports[j].lcores|]);
        QueueAdded(was, conf, ports, lcore, j, queue);
      } else {
        NotServed(conf, ports, lcore, j);
      }
    }
  }

  lemma NotServed(conf: LcoreConf, ports: seq<PortCfg>, lcore: nat, j: nat)
    requires ByNumber(ports) && j < |ports| && Configured(conf, ports, lcore, j) && lcore !in ports[j].lcores
    ensures Configured(conf, ports, lcore, j + 1)
  {
    if i :| 0 <= i < j && ports[i].id == ports[j].id {
      assert Serves(conf, ports[i], lcore);
    }
  }

  lemma QueueAdded(was: LcoreConf, conf: LcoreConf, ports: seq<PortCfg>, lcore: nat, j: nat, queue: nat)
    requires ByNumber(ports) && j < |ports| && Configured(was, ports, lcore, j)
    requires LastPlace(ports[j].lcores, lcore, queue)
    requires conf.rx == was.rx + [(ports[j].id, queue)] && conf.tx == was.tx[ports[j].id := queue]
    requires conf.queues == was.queues[ports[j].id := |ports[j].lcores|] && conf.txPorts == was.txPorts + [ports[j].id]
    ensures Configured(conf, ports, lcore, j + 1)
  {
    KnowsMore(was, conf, ports, j, queue);
    SameQueue(was, ports, lcore, j, queue);
    NowServes(was, conf, lcore, ports[j], queue);
    forall i | 0 <= i < j + 1 ensures Serves(conf, ports[i], lcore) {
      ServedAt(was, conf, ports, lcore, j, queue, i);
    }
  }

  lemma ServedAt(was: LcoreConf, conf: LcoreConf, ports: seq<PortCfg>, lcore: nat, j: nat, queue: nat, i: nat)
    requires ByNumber(ports) && i <= j < |ports| && Configured(was, ports, lcore, j)
    requires conf.rx == was.rx + [(ports[j].id, queue)] && conf.tx == was.tx[ports[j].id := queue]
    requires conf.queues == was.queues[ports[j].id := |ports[j].lcores|] && Serves(conf, ports[j], lcore)
    ensures Serves(conf, ports[i], lcore)
  {
    if ports[i].id != ports[j].id {
      assert Serves(was, ports[i], lcore);
      StillServes(was, conf, ports[i], lcore, ports[j], queue);
    }
  }

  /** If the port was there before, then with the same queue. */
  lemma SameQueue(was: LcoreConf, ports: seq<PortCfg>, lcore: nat, j: nat, queue: nat)
    requires ByNumber(ports) && j < |ports| && Configured(was, ports, lcore, j)
    requires LastPlace(ports[j].lcores, lcore, queue)
    ensures forall q :: (ports[j].id, q) in was.rx ==> q == queue
  {
    if i :| 0 <= i < j && ports[i].id == ports[j].id {
      assert Serves(was, ports[i], lcore);
      OneLastPlace(ports[j].lcores, lcore, was.tx[ports[j].id], queue);
    }
  }

  lemma KnowsMore(was: LcoreConf, conf: LcoreConf, ports: seq<PortCfg>, j: nat, queue: nat)
    requires j < |ports| && Knows(was, ports, j)
    requires conf.rx == was.rx + [(ports[j].id, queue)] && conf.tx == was.tx[ports[j].id := queue]
    requires conf.queues == was.queues[ports[j].id := |ports[j].lcores|] && conf.txPorts == was.txPorts + [ports[j].id]
    ensures Knows(conf, ports, j + 1)
  {
    RxGrows(was.rx, ports[j].id, queue);
  }

  lemma RxGrows(rx: seq<(nat, nat)>, id: nat, queue: nat)
    ensures forall p, q :: (p, q) in rx + [(id, queue)] <==> (p, q) in rx || (p == id && q == queue)
  {
    assert (rx + [(id, queue)])[|rx|] == (id, queue);
  }

  lemma StillServes(was: LcoreConf, conf: LcoreConf, port: PortCfg, lcore: nat, other: PortCfg, queue: nat)
    requires Serves(was, port, lcore) && port.id != other.id
    requires conf.rx == was.rx + [(other.id, queue)] && conf.tx == was.tx[other.id := queue]
    requires conf.queues == was.queues[other.id := |other.lcores|]
    ensures Serves(conf, port, lcore)
  {
    RxGrows(was.rx, other.id, queue);
  }

  lemma NowServes(was: LcoreConf, conf: LcoreConf, lcore: nat, port: PortCfg, queue: nat)
    requires LastPlace(port.lcores, lcore, queue) && forall q :: (port.id, q) in was.rx ==> q == queue
    requires conf.rx == was.rx + [(port.id, queue)] && conf.tx == was.tx[port.id := queue]
    requires conf.queues == was.queues[port.id := |port.lcores|]
    ensures Serves(conf, port, lcore)
  {
    RxGrows(was.rx, port.id, queue);
  }

  // ---- every packet has one core

  /** A core sees `ff_rss_check` hold for this hash on this port. */
  predicate Claims(conf: LcoreConf, port: PortCfg, hash: nat, reta: nat)
    requires reta > 0
  {
    port.id in conf.tx && port.id in conf.queues && RssCheck(hash, reta, conf.queues[port.id], conf.tx[port.id])
  }

  ghost predicate Wired(port: PortCfg, confs: map<nat, LcoreConf>) {
    && |port.lcores| > 0 && NoDup(port.lcores)
    && forall c :: c in port.lcores ==> c in confs && Serves(confs[c], port, c)
  }

  /**
   Of the cores configured for a port, exactly one sees the check hold, and it polls the queue that the
   redirection table in the device assigns to the hash.
   */
  lemma ExactlyOneCore(port: PortCfg, confs: map<nat, LcoreConf>, table: array2<nat>, hash: nat, reta: nat)
    returns (owner: nat)
    requires IsPow2(reta) && Wired(port, confs) && Programmed(table, reta, |port.lcores|)
    ensures reta > 0 && hash % reta / GROUP < table.Length0 && owner in port.lcores
    ensures (port.id, table[hash % reta / GROUP, hash % reta % GROUP]) in confs[owner].rx
    ensures forall c :: c in port.lcores ==> (Claims(confs[c], port, hash, reta) <==> c == owner)
  {
    AndIsRemainder(hash, reta);
    var q := Index(hash, reta) % |port.lcores|;
    owner := port.lcores[q];
    forall c | c in port.lcores ensures Claims(confs[c], port, hash, reta) <==> c == owner {
      assert Serves(confs[c], port, c);
      OnePlace(port.lcores, confs[c].tx[port.id], q);
    }
    assert Serves(confs[owner], port, owner);
    OnePlace(port.lcores, confs[owner].tx[port.id], q);
  }

  lemma OnePlace(lcores: seq<nat>, i: nat, j: nat)
    requires NoDup(lcores) && i < |lcores| && j < |lcores|
    ensures lcores[i] == lcores[j] <==> i == j
  {
  }

  /** The test with which a core scans the ports for one remote and local address. */
  function PortClaim(conf: LcoreConf, port: PortCfg, hash: nat -> nat, reta: nat): nat -> bool
    requires reta > 0
  {
    (j: nat) => Claims(conf, port, hash(j), reta)
  }

  /**
   The port lists of the cores are disjoint and together hold every port; only 65535 is listed nowhere if its
   core has all ports, as it does when the device has one queue.
   */
  lemma PortsArePartitioned(port: PortCfg, confs: map<nat, LcoreConf>, table: array2<nat>, hash: nat -> nat,
                            reta: nat, j: nat) returns (owner: nat)
    requires IsPow2(reta) && Wired(port, confs) && Programmed(table, reta, |port.lcores|) && j < PortWindow.PORTS
    ensures reta > 0 && owner in port.lcores
    ensures forall c :: c in port.lcores ==>
              var p := PortClaim(confs[c], port, hash, reta);
              (j in PortWindow.Listed(p) <==>
               c == owner && !(j == PortWindow.PORTS - 1 && PortWindow.All(p, PortWindow.PORTS)))
    ensures |port.lcores| == 1 ==> PortWindow.All(PortClaim(confs[owner], port, hash, reta), PortWindow.PORTS)
  {
    owner := ExactlyOneCore(port, confs, table, hash(j), reta);
    forall c | c in port.lcores
      ensures var p := PortClaim(confs[c], port, hash, reta);
              j in PortWindow.Listed(p) <==>
              c == owner && !(j == PortWindow.PORTS - 1 && PortWindow.All(p, PortWindow.PORTS))
    {
      PortWindow.ListedHas(PortClaim(confs[c], port, hash, reta), j);
    }
    if |port.lcores| == 1 {
      forall k: nat | k < PortWindow.PORTS ensures PortClaim(confs[owner], port, hash, reta)(k) {
        var o := ExactlyOneCore(port, confs, table, hash(k), reta);
      }
    }
  }

  // ---- the reverse search

  /** `x & ~(reta - 1)` after adding `reta - 1`: the next multiple of the table size. */
  function AlignUp(x: nat, reta: nat): int
    requires reta > 0
  {
    x + reta - 1 - And(x + reta - 1, reta - 1)
  }

  lemma AlignUpIs(x: nat, reta: nat)
    requires IsPow2(reta)
    ensures reta > 0 && x <= AlignUp(x, reta) < x + reta && AlignUp(x, reta) % reta == 0
  {
    AndIsRemainder(x + reta - 1, reta);
    RoundedDown(x + reta - 1, reta);
  }

  /** How many table indices belong to a queue: q, q + n, q + 2n, ... below the table size. */
  function Candidates(reta: nat, queues: nat, queue: nat): nat
    requires queue < queues && queue < reta
  {
    (reta - 1 - queue) / queues + 1
  }

  function Candidate(queues: nat, queue: nat, i: nat): nat {
    if i == 0 then queue else Candidate(queues, queue, i - 1) + queues
  }

  lemma {:induction false} CandidateAt(queues: nat, queue: nat, i: nat)
    ensures Candidate(queues, queue, i) == queue + i * queues
  {
    if i > 0 {
      CandidateAt(queues, queue, i - 1);
      assert i * queues == (i - 1) * queues + queues;
    }
  }

  lemma CandidateIs(reta: nat, queues: nat, queue: nat, i: nat)
    requires queue < queues && queue < reta
    ensures Candidate(queues, queue, i) % queues == queue
    ensures Candidate(queues, queue, i) < reta <==> i < Candidates(reta, queues, queue)
  {
    CandidateAt(queues, queue, i);
    QuotientUnique(queue + i * queues, i, queue, queues);
    QuotientBound(i, reta - 1 - queue, queues);
  }

  /** Every index that leads to the queue is one of the candidates. */
  lemma EveryCandidate(reta: nat, queues: nat, queue: nat, v: nat) returns (i: nat)
    requires queue < queues && v < reta && v % queues == queue
    ensures queue < reta && i < Candidates(reta, queues, queue) && v == Candidate(queues, queue, i)
  {
    i := v / queues;
    QuotientBelow(v, queues);
    assert v == i * queues + queue;
    CandidateAt(queues, queue, i);
    CandidateIs(reta, queues, queue, i);
  }

  /** The number of tries, `(reta + queues - 1) / queues`, suffices for all candidates. */
  lemma TriesSuffice(reta: nat, queues: nat, queue: nat)
    requires queue < queues <= reta
    ensures Candidates(reta, queues, queue) <= (reta + queues - 1) / queues
  {
    var m := Candidates(reta, queues, queue);
    QuotientBelow(reta - 1 - queue, queues);
    assert m * queues == (reta - 1 - queue) / queues * queues + queues;
    QuotientBound(m, reta + queues - 1, queues);
  }

  /** What `rte_thash_adjust_tuple` answers for a port seed and a wanted index: a port, or nothing. */
  type Adjust = (nat, nat) -> Option<nat>

  /** It rewrites only the low bits of the seed, and hits the wanted index. */
  ghost predicate Adjusts(adjust: Adjust, hash: nat -> nat, reta: nat)
    requires reta > 0
  {
    forall base: nat, want: nat :: want < reta && base % reta == 0 && adjust(base, want).Some? ==>
      base <= adjust(base, want).value < base + reta && hash(adjust(base, want).value) % reta == want
  }

  /** The block of ports the search works in, or why there is none. */
  method ChooseBlock(first: nat, last: nat, reta: nat, random: nat) returns (ok: bool, base: nat)
    requires IsPow2(reta) && 2 <= reta < 0x1_0000 && first < 0x1_0000 && last < 0x1_0000
    ensures ok <==> AlignUp(first, reta) + reta - 1 <= last
    ensures ok ==> first <= base && base + reta - 1 <= last && base % reta == 0
  {
    AlignUpIs(first, reta);
    ok, base := FitBlock(first, last, reta, AlignUp(first, reta), random);
  }

  method FitBlock(first: nat, last: nat, reta: nat, up: nat, random: nat) returns (ok: bool, base: nat)
    requires 2 <= reta < 0x1_0000 && first < 0x1_0000 && last < 0x1_0000
    requires first <= up < first + reta && up % reta == 0
    ensures ok <==> up + reta - 1 <= last
    ensures ok ==> first <= base && base + reta - 1 <= last && base % reta == 0
  {
    ok, base := false, 0;
    if first > last {
      return;
    }
    base := up % 0x1_0000;
    if base < first || base + reta - 1 > last {
      return;
    }
    ok := true;
    base := PickBlock(base, last, reta, random);
  }

  /** One of the blocks from base on; neither the 16-bit count of blocks nor the block's base wraps around. */
  method PickBlock(base: nat, last: nat, reta: nat, random: nat) returns (chosen: nat)
    requires 2 <= reta && base % reta == 0 && base + reta - 1 <= last < 0x1_0000
    ensures base <= chosen && chosen + reta - 1 <= last && chosen % reta == 0
  {
    var nblocks := (last - base + 1) / reta % 0x1_0000;
    QuotientBound(1, last - base + 1, reta);
    BlocksFit(last - base + 1, reta);
    if nblocks == 0 {
      assert false;
    }
    var block := random % nblocks;
    BlockInside(base, last, reta, nblocks, block);
    chosen := (base + block * reta) % 0x1_0000;
  }

  /** There are too few blocks to overflow their 16-bit count. */
  lemma BlocksFit(room: nat, reta: nat)
    requires 2 <= reta && room <= 0x1_0000
    ensures room / reta < 0x1_0000
  {
    QuotientBelow(room, reta);
    var n := room / reta;
    assert n * reta == n * (reta - 2) + 2 * n;
    assert n * (reta - 2) >= 0;
  }

  lemma BlockInside(base: nat, last: nat, reta: nat, nblocks: nat, block: nat)
    requires 0 < reta && base % reta == 0 && base <= last && nblocks <= (last - base + 1) / reta && block < nblocks
    ensures base <= base + block * reta && base + block * reta + reta - 1 <= last && (base + block * reta) % reta == 0
  {
    QuotientBound(block + 1, last - base + 1, reta);
    assert (block + 1) * reta == block * reta + reta;
    MultiplesAdd(base, block, reta);
  }

  /**
   `ff_rss_adjust_sport` once the device is known to support it.  `adjust` is the library's answer for a
   port seed and an index, `hash` the hash of the reply for a local port; the two random numbers choose the
   block of ports and the index to start with.
   */
  method AdjustSport(adjust: Adjust, ghost hash: nat -> nat, check: nat -> bool, recheck: bool,
                     queues: nat, queue: nat, reta: nat, first: nat, last: nat, random: nat, random2: nat)
    returns (port: Option<nat>, ghost base: nat, ghost tried: seq<nat>)
    requires queue < queues && IsPow2(reta) && queues <= reta < 0x1_0000 && first < 0x1_0000 && last < 0x1_0000
    requires forall p: nat :: check(p) == RssCheck(hash(p), reta, queues, queue)
    ensures forall v :: v in tried ==> Leads(v, reta, queues, queue)
    ensures port.Some? ==> queues > 1 && AlignUp(first, reta) + reta - 1 <= last && first <= port.value <= last
    ensures port.Some? ==> tried != [] && port == adjust(base, tried[|tried| - 1])
    ensures port.Some? && (recheck || Adjusts(adjust, hash, reta)) ==> RssCheck(hash(port.value), reta, queues, queue)
    ensures port.None? && queues > 1 && AlignUp(first, reta) + reta - 1 <= last ==>
              && base % reta == 0 && first <= base && base + reta - 1 <= last
              && forall v: nat :: Leads(v, reta, queues, queue) ==> v in tried
    ensures port.None? && Adjusts(adjust, hash, reta) ==> forall v :: v in tried ==> adjust(base, v).None?
  {
    port, base, tried := None, 0, [];
    if queues <= 1 {
      return;
    }
    var ok, b := ChooseBlock(first, last, reta, random);
    base := b;
    if !ok {
      return;
    }
    port, tried := TryAll(adjust, hash, check, recheck, queues, queue, reta, first, last, b, random2);
  }

  /** The loop over the indices that lead to the queue, starting anywhere and going round. */
  method TryAll(adjust: Adjust, ghost hash: nat -> nat, check: nat -> bool, recheck: bool,
                queues: nat, queue: nat, reta: nat, first: nat, last: nat, base: nat, random: nat)
    returns (port: Option<nat>, ghost tried: seq<nat>)
    requires IsPow2(reta) && 1 < queues && queue < queues && queues <= reta && base % reta == 0
    requires first <= base && base + reta - 1 <= last
    requires forall p: nat :: check(p) == RssCheck(hash(p), reta, queues, queue)
    ensures forall v :: v in tried ==> Leads(v, reta, queues, queue)
    ensures port.Some? ==> first <= port.value <= last && tried != [] && port == adjust(base, tried[|tried| - 1])
    ensures port.Some? && (recheck || Adjusts(adjust, hash, reta)) ==> RssCheck(hash(port.value), reta, queues, queue)
    ensures port.None? ==> forall v: nat :: Leads(v, reta, queues, queue) ==> v in tried
    ensures port.None? && Adjusts(adjust, hash, reta) ==> forall v :: v in tried ==> adjust(base, v).None?
  {
    ghost var m := Candidates(reta, queues, queue);
    TriesSuffice(reta, queues, queue);
    var tries := (reta + queues - 1) / queues;
    var desired;
    ghost var i0;
    desired, i0 := Start(queues, queue, reta, random % tries);
    ghost var i := i0;
    tried := [];
    var t := 0;
    while t < tries
      invariant 0 <= t <= tries && i <= m && desired == Candidate(queues, queue, i)
      invariant t < m ==> (if i == m then 0 else i) == Probing.At(i0, t, m)
      invariant forall v :: v in tried ==> Leads(v, reta, queues, queue)
      invariant Covered(queues, queue, i0, m, t, tried)
      invariant Adjusts(adjust, hash, reta) ==> forall v :: v in tried ==> adjust(base, v).None?
    {
      CandidateIs(reta, queues, queue, i);
      if desired >= reta {
        desired, i := queue, 0;
        CandidateIs(reta, queues, queue, 0);
      }
      var answer := adjust(base, desired);
      CoverOne(queues, queue, i0, m, t, tried, i);
      Hits(adjust, hash, reta, queues, queue, base, desired);
      tried := tried + [desired];
      if answer.Some? && first <= answer.value <= last && (!recheck || check(answer.value)) {
        return answer, tried;
      }
      desired, i := desired + queues, i + 1;
      t := t + 1;
    }
    forall v: nat | Leads(v, reta, queues, queue) ensures v in tried {
      var x := EveryCandidate(reta, queues, queue, v);
      assert Candidate(queues, queue, x) in tried;
    }
    port := None;
  }

  /** An answer of the library for an index that leads to the queue is a port that passes the test. */
  lemma Hits(adjust: Adjust, hash: nat -> nat, reta: nat, queues: nat, queue: nat, base: nat, v: nat)
    requires IsPow2(reta) && queues > 0 && Leads(v, reta, queues, queue) && base % reta == 0
    ensures Adjusts(adjust, hash, reta) && adjust(base, v).Some? ==>
              var p := adjust(base, v).value;
              base <= p < base + reta && RssCheck(hash(p), reta, queues, queue)
  {
    if adjust(base, v).Some? {
      AndIsRemainder(hash(adjust(base, v).value), reta);
    }
  }

  /** The first index to try. */
  method Start(queues: nat, queue: nat, reta: nat, turn: nat) returns (desired: nat, ghost i: nat)
    requires queue < queues <= reta
    ensures i < Candidates(reta, queues, queue) && desired == Candidate(queues, queue, i)
  {
    desired := queue + turn * queues;
    i := turn;
    CandidateAt(queues, queue, turn);
    CandidateIs(reta, queues, queue, turn);
    if desired >= reta {
      desired, i := queue, 0;
      CandidateIs(reta, queues, queue, 0);
    }
  }

  /** A table index that leads to the queue. */
  predicate Leads(v: nat, reta: nat, queues: nat, queue: nat)
    requires queues > 0
  {
    v < reta && v % queues == queue
  }

  /** The candidates up to t steps after the first one have been tried. */
  ghost predicate Covered(queues: nat, queue: nat, i0: nat, m: nat, t: nat, tried: seq<nat>) {
    i0 < m && forall x: nat :: x < m && Probing.Dist(i0, x, m) < t ==> Candidate(queues, queue, x) in tried
  }

  lemma CoverOne(queues: nat, queue: nat, i0: nat, m: nat, t: nat, tried: seq<nat>, i: nat)
    requires Covered(queues, queue, i0, m, t, tried) && (t < m ==> i == Probing.At(i0, t, m))
    ensures Covered(queues, queue, i0, m, t + 1, tried + [Candidate(queues, queue, i)])
  {
  }
}
