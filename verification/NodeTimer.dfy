/**
 Timers that own netgraph items (`ng_callout`, `ng_uncallout` and the trampoline of `lib/ff_ng_base.c`),
 on top of the timer service described in `TimerSpec`.

 An item belongs to the callout it was armed with until it is consumed: sent by the trampoline, or
 freed by a later call.  The code decides from the return value of the timer service alone, because
 `c_arg` goes on pointing at an item that has already been sent.  `Ledger` is that bookkeeping, driven
 by a log of the timer service; callouts outside `own` belong to other parts of the system.
 */
module NodeTimer {
  import opened Basics
  import opened Options
  import opened TimerSpec
  import Callwheel

  type NodeId = nat
  type Item = int

  const NULL: Item := 0
  const TRAMPOLINE := 1

  /**
   `arg` and `func` are the fields of the callouts, `node` the node of every item ever made.
   An item in `lost` is one that nobody will ever consume: only the model knows.
   */
  datatype Ledger = Ledger(arg: map<Id, Item>, func: map<Id, int>, node: map<Item, NodeId>,
                           sent: seq<Item>, freed: seq<Item>, lost: seq<Item>)

  const EMPTY := Ledger(map[], map[], map[], [], [], [])

  function Arg(l: Ledger, c: Id): Item { if c in l.arg then l.arg[c] else NULL }

  function Func(l: Ledger, c: Id): int { if c in l.func then l.func[c] else 0 }

  /** The test before `NG_FREE_ITEM` in `ng_uncallout`. */
  predicate Frees(l: Ledger, c: Id, result: int, node: NodeId) {
    result > 0 && Func(l, c) == TRAMPOLINE && Arg(l, c) != NULL && Arg(l, c) in l.node && l.node[Arg(l, c)] == node
  }

  function AfterCallout(l: Ledger, c: Id, cancelled: bool, call: Call, node: NodeId): Ledger {
    l.(freed := if cancelled && Arg(l, c) != NULL then l.freed + [Arg(l, c)] else l.freed,
       arg := l.arg[c := call.arg], func := l.func[c := call.func], node := l.node[call.arg := node])
  }

  function AfterUncallout(l: Ledger, c: Id, result: int, node: NodeId): Ledger {
    l.(freed := if Frees(l, c, result, node) then l.freed + [Arg(l, c)] else l.freed,
       lost := if result > 0 && Arg(l, c) != NULL && !Frees(l, c, result, node) then l.lost + [Arg(l, c)] else l.lost,
       arg := l.arg[c := NULL])
  }

  /** What an event of the timer service means for the items; `node` is the node named in the call behind it. */
  function Account(l: Ledger, e: Event, node: NodeId): Ledger {
    match e
    case Reset(c, _, _, call, cancelled) => AfterCallout(l, c, cancelled, call, node)
    case Stop(c, _, result) => AfterUncallout(l, c, result, node)
    case Fire(c, timer) => l.(sent := l.sent + [timer.call.arg])
    case _ => l
  }

  predicate Concerns(e: Event, own: Id -> bool) {
    (e.Reset? || e.Stop? || e.Fire?) && own(e.c)
  }

  function LedgerAt(own: Id -> bool, log: seq<Event>, nodes: seq<NodeId>, i: nat): Ledger
    requires i <= |log| == |nodes|
  {
    if i == 0 then EMPTY
    else
      var l := LedgerAt(own, log, nodes, i - 1);
      if Concerns(log[i - 1], own) then Account(l, log[i - 1], nodes[i - 1]) else l
  }

  /** `ng_callout` arms an ordinary callout with the trampoline and an item it has just allocated. */
  predicate Arms(l: Ledger, e: Event) {
    e.Reset? ==> !e.direct && e.call.func == TRAMPOLINE && e.call.arg != NULL && e.call.arg !in l.node
  }

  /** The callouts in `own` are armed by `ng_callout` only. */
  ghost predicate WellUsed(own: Id -> bool, log: seq<Event>, nodes: seq<NodeId>) {
    && |log| == |nodes|
    && forall i :: 0 <= i < |log| && Concerns(log[i], own) ==> Arms(LedgerAt(own, log, nodes, i), log[i])
  }

  /** How often an item has been consumed or lost. */
  function Spent(l: Ledger, x: Item): nat {
    multiset(l.sent)[x] + multiset(l.freed)[x] + multiset(l.lost)[x]
  }

  ghost predicate Holds(own: Id -> bool, s: State, x: Item) {
    exists c :: c in s.armed && own(c) && s.armed[c].call.arg == x
  }

  /** A pending callout and the fields the code reads agree. */
  ghost predicate Pointed(own: Id -> bool, s: State, l: Ledger) {
    forall c :: c in s.armed && own(c) ==>
      && Arg(l, c) != NULL && Arg(l, c) in l.node && Func(l, c) == TRAMPOLINE
      && s.armed[c].call == Call(TRAMPOLINE, Arg(l, c))
  }

  ghost predicate Distinct(own: Id -> bool, s: State) {
    forall c, c' :: c in s.armed && c' in s.armed && own(c) && own(c') && c != c' ==>
      s.armed[c].call.arg != s.armed[c'].call.arg
  }

  /** Every item ever made is with a pending callout, or has been spent exactly once. */
  ghost predicate Settled(own: Id -> bool, s: State, l: Ledger) {
    forall x :: Spent(l, x) == if x in l.node && !Holds(own, s, x) then 1 else 0
  }

  ghost predicate Balanced(own: Id -> bool, s: State, l: Ledger) {
    && Pointed(own, s, l) && Distinct(own, s) && Settled(own, s, l)
    && forall c :: c in s.direct ==> !own(c)
  }

  // ---- one event

  lemma BalancedReset(own: Id -> bool, h: Handlers, s: State, l: Ledger, e: Event, s': State, node: NodeId)
    requires Balanced(own, s, l) && Step(h, s, e, s') && e.Reset? && own(e.c) && Arms(l, e)
    ensures Balanced(own, s', Account(l, e, node))
  {
    SettledReset(own, h, s, l, e, s', node);
    PointedReset(own, h, s, l, e, s', node);
  }

  lemma PointedReset(own: Id -> bool, h: Handlers, s: State, l: Ledger, e: Event, s': State, node: NodeId)
    requires Pointed(own, s, l) && Distinct(own, s) && Step(h, s, e, s') && e.Reset? && own(e.c) && Arms(l, e)
    ensures Pointed(own, s', Account(l, e, node)) && Distinct(own, s')
  {
    assert forall c :: c in s'.armed && c != e.c ==> c in s.armed && s'.armed[c] == s.armed[c];
    DistinctReset(own, s, l, e.c, s', e.call.arg);
  }

  lemma DistinctReset(own: Id -> bool, s: State, l: Ledger, c: Id, s': State, x: Item)
    requires Pointed(own, s, l) && Distinct(own, s) && x !in l.node && c in s'.armed && s'.armed[c].call.arg == x
    requires forall d :: d in s'.armed && d != c ==> d in s.armed && s'.armed[d] == s.armed[d]
    ensures Distinct(own, s')
  {
  }

  lemma SettledReset(own: Id -> bool, h: Handlers, s: State, l: Ledger, e: Event, s': State, node: NodeId)
    requires Balanced(own, s, l) && Step(h, s, e, s') && e.Reset? && own(e.c) && Arms(l, e)
    ensures Settled(own, s', Account(l, e, node))
  {
    var l', c := Account(l, e, node), e.c;
    forall x ensures Spent(l', x) == if x in l'.node && !Holds(own, s', x) then 1 else 0 {
      assert Spent(l, x) == if x in l.node && !Holds(own, s, x) then 1 else 0;
      if x == e.call.arg {
        assert s'.armed[c].call.arg == x;
        assert !Holds(own, s, x);
        assert Spent(l', x) == 0;
      } else if c in s.armed && x == Arg(l, c) {
        assert s.armed[c].call.arg == x;
        assert Spent(l', x) == 1;
      } else {
        HoldsElsewhere(own, s, s', c, x);
      }
    }
  }

  /** Whether an item that callout c has nothing to do with is held does not depend on c. */
  lemma HoldsElsewhere(own: Id -> bool, s: State, s': State, c: Id, x: Item)
    requires forall d :: d != c ==> (d in s.armed) == (d in s'.armed) && (d in s.armed ==> s.armed[d] == s'.armed[d])
    requires c in s.armed ==> s.armed[c].call.arg != x
    requires c in s'.armed ==> s'.armed[c].call.arg != x
    ensures Holds(own, s, x) == Holds(own, s', x)
  {
    if Holds(own, s, x) {
      var d :| d in s.armed && own(d) && s.armed[d].call.arg == x;
      assert d in s'.armed && s'.armed[d].call.arg == x;
    }
    if Holds(own, s', x) {
      var d :| d in s'.armed && own(d) && s'.armed[d].call.arg == x;
      assert d in s.armed && s.armed[d].call.arg == x;
    }
  }

  lemma BalancedDisarm(own: Id -> bool, h: Handlers, s: State, l: Ledger, e: Event, s': State, node: NodeId)
    requires Balanced(own, s, l) && Step(h, s, e, s') && (e.Stop? || e.Fire?) && own(e.c)
    ensures Balanced(own, s', Account(l, e, node))
  {
    var l' := Account(l, e, node);
    forall x ensures Spent(l', x) == if x in l'.node && !Holds(own, s', x) then 1 else 0 {
      SpentByDisarm(own, h, s, l, e, s', node, x);
    }
  }

  lemma SpentByDisarm(own: Id -> bool, h: Handlers, s: State, l: Ledger, e: Event, s': State, node: NodeId, x: Item)
    requires Balanced(own, s, l) && Step(h, s, e, s') && (e.Stop? || e.Fire?) && own(e.c)
    ensures Spent(Account(l, e, node), x) == if x in Account(l, e, node).node && !Holds(own, s', x) then 1 else 0
  {
    var c := e.c;
    assert Spent(l, x) == if x in l.node && !Holds(own, s, x) then 1 else 0;
    DisarmSpends(s, l, e, node, x);
    if c in s.armed && x == Arg(l, c) {
      NobodyHolds(own, s, s', c, x);
    } else {
      HoldsElsewhere(own, s, s', c, x);
    }
  }

  /** Stopping or firing a callout spends the item it holds, if it is armed, and nothing else. */
  lemma DisarmSpends(s: State, l: Ledger, e: Event, node: NodeId, x: Item)
    requires Enabled(s, e) && (e.Stop? || e.Fire?) && e.c !in s.direct
    requires e.c in s.armed ==> Arg(l, e.c) != NULL && s.armed[e.c].call.arg == Arg(l, e.c)
    ensures Spent(Account(l, e, node), x) == Spent(l, x) + if e.c in s.armed && x == Arg(l, e.c) then 1 else 0
    ensures Account(l, e, node).node == l.node
  {
  }

  lemma NobodyHolds(own: Id -> bool, s: State, s': State, c: Id, x: Item)
    requires Distinct(own, s) && c in s.armed && own(c) && s.armed[c].call.arg == x && s'.armed == s.armed - {c}
    ensures Holds(own, s, x) && !Holds(own, s', x)
  {
  }

  lemma BalancedElse(own: Id -> bool, h: Handlers, s: State, l: Ledger, e: Event, s': State)
    requires Balanced(own, s, l) && Step(h, s, e, s') && !Concerns(e, own)
    ensures Balanced(own, s', l)
  {
    assert forall c :: own(c) ==> (c in s.armed) == (c in s'.armed) && (c in s.armed ==> s.armed[c] == s'.armed[c]);
    forall x ensures Holds(own, s, x) == Holds(own, s', x) {
      if Holds(own, s, x) {
        var c :| c in s.armed && own(c) && s.armed[c].call.arg == x;
        assert c in s'.armed && s'.armed[c].call.arg == x;
      }
      if Holds(own, s', x) {
        var c :| c in s'.armed && own(c) && s'.armed[c].call.arg == x;
        assert c in s.armed && s.armed[c].call.arg == x;
      }
    }
  }

  lemma StepBalanced(own: Id -> bool, h: Handlers, s: State, l: Ledger, e: Event, s': State, node: NodeId)
    requires Balanced(own, s, l) && Step(h, s, e, s') && (Concerns(e, own) ==> Arms(l, e))
    ensures Balanced(own, s', if Concerns(e, own) then Account(l, e, node) else l)
  {
    if !Concerns(e, own) {
      BalancedElse(own, h, s, l, e, s');
    } else if e.Reset? {
      BalancedReset(own, h, s, l, e, s', node);
    } else {
      BalancedDisarm(own, h, s, l, e, s', node);
    }
  }

  // ---- whole runs

  /** At every moment of every run, no item is held and spent, spent twice, or neither. */
  lemma {:induction false} AlwaysBalanced(own: Id -> bool, h: Handlers, states: seq<State>, log: seq<Event>,
                                          nodes: seq<NodeId>, i: nat)
    requires Run(h, states, log) && states[0].armed == map[] && states[0].direct == {}
    requires WellUsed(own, log, nodes) && i <= |log|
    ensures Balanced(own, states[i], LedgerAt(own, log, nodes, i))
  {
    if i > 0 {
      AlwaysBalanced(own, h, states, log, nodes, i - 1);
      assert Step(h, states[i - 1], log[i - 1], states[i]);
      StepBalanced(own, h, states[i - 1], LedgerAt(own, log, nodes, i - 1), log[i - 1], states[i], nodes[i - 1]);
    }
  }

  /** A ledger only grows. */
  lemma {:induction false} LedgerGrows(own: Id -> bool, log: seq<Event>, nodes: seq<NodeId>, i: nat, j: nat)
    requires i <= j <= |log| == |nodes|
    ensures var l, l' := LedgerAt(own, log, nodes, i), LedgerAt(own, log, nodes, j);
            && l.sent <= l'.sent && l.freed <= l'.freed && l.lost <= l'.lost && l.node.Keys <= l'.node.Keys
    decreases j
  {
    if i < j {
      LedgerGrows(own, log, nodes, i, j - 1);
    }
  }

  lemma PrefixCounts(s: seq<Item>, t: seq<Item>, x: Item)
    requires s <= t
    ensures multiset(s)[x] <= multiset(t)[x]
  {
    assert t == s + t[|s|..];
  }

  lemma SpentGrows(l: Ledger, l': Ledger, x: Item)
    requires l.sent <= l'.sent && l.freed <= l'.freed && l.lost <= l'.lost
    ensures Spent(l, x) <= Spent(l', x)
    ensures multiset(l.sent)[x] <= multiset(l'.sent)[x] && multiset(l.freed)[x] <= multiset(l'.freed)[x]
    ensures multiset(l.lost)[x] <= multiset(l'.lost)[x]
  {
    PrefixCounts(l.sent, l'.sent, x);
    PrefixCounts(l.freed, l'.freed, x);
    PrefixCounts(l.lost, l'.lost, x);
  }

  /** How the item armed at position i ended when position k touched its callout first. */
  ghost predicate Outcome(l: Ledger, x: Item, e: Event, sameNode: bool) {
    && multiset(l.sent)[x] == (if e.Fire? then 1 else 0)
    && multiset(l.freed)[x] == (if e.Reset? || (e.Stop? && sameNode) then 1 else 0)
    && multiset(l.lost)[x] == (if e.Stop? && !sameNode then 1 else 0)
  }

  /**
   The item of every `ng_callout` is consumed exactly once, by the first event that touches its callout
   afterwards: sent if the timer fires, freed if the callout is armed again or stopped for the same node,
   and lost exactly if it is stopped for another node.  Nothing later consumes it again.
   */
  lemma ConsumedOnce(own: Id -> bool, h: Handlers, states: seq<State>, log: seq<Event>, nodes: seq<NodeId>,
                     i: nat, k: nat, j: nat)
    requires Run(h, states, log) && states[0].armed == map[] && states[0].direct == {} && WellUsed(own, log, nodes)
    requires i < k < j <= |log| && log[i].Reset? && own(log[i].c)
    requires Touches(log[k], log[i].c) && Untouched(log, log[i].c, i + 1, k)
    ensures Outcome(LedgerAt(own, log, nodes, j), log[i].call.arg, log[k], nodes[k] == nodes[i])
  {
    ConsumedAt(own, h, states, log, nodes, i, k);
    LedgerGrows(own, log, nodes, k + 1, j);
    AlwaysBalanced(own, h, states, log, nodes, j);
    var l, l' := LedgerAt(own, log, nodes, k + 1), LedgerAt(own, log, nodes, j);
    OutcomeStays(l, l', log[i].call.arg, log[k], nodes[k] == nodes[i]);
  }

  lemma ConsumedAt(own: Id -> bool, h: Handlers, states: seq<State>, log: seq<Event>, nodes: seq<NodeId>,
                   i: nat, k: nat)
    requires Run(h, states, log) && states[0].armed == map[] && states[0].direct == {} && WellUsed(own, log, nodes)
    requires i < k < |log| && log[i].Reset? && own(log[i].c)
    requires Touches(log[k], log[i].c) && Untouched(log, log[i].c, i + 1, k)
    ensures Outcome(LedgerAt(own, log, nodes, k + 1), log[i].call.arg, log[k], nodes[k] == nodes[i])
  {
    Outstanding(own, h, states, log, nodes, i, k);
    assert Step(h, states[k], log[k], states[k + 1]);
    FirstTouchSettles(states[k], LedgerAt(own, log, nodes, k), log[i].c, log[i].call.arg, log[k], nodes[k]);
  }

  lemma FirstTouchSettles(s: State, l: Ledger, c: Id, x: Item, e: Event, node: NodeId)
    requires Enabled(s, e) && Touches(e, c) && c in s.armed && s.armed[c].call.arg == x && c !in s.direct
    requires Arg(l, c) == x && Func(l, c) == TRAMPOLINE && x != NULL && x in l.node && Spent(l, x) == 0
    ensures Outcome(Account(l, e, node), x, e, l.node[x] == node)
  {
  }

  lemma OutcomeStays(l: Ledger, l': Ledger, x: Item, e: Event, sameNode: bool)
    requires Outcome(l, x, e, sameNode) && (e.Fire? || e.Reset? || e.Stop?) && Spent(l', x) <= 1
    requires l.sent <= l'.sent && l.freed <= l'.freed && l.lost <= l'.lost
    ensures Outcome(l', x, e, sameNode)
  {
    SpentGrows(l, l', x);
  }

  /** Until its callout is touched, an item stays where it was put, unspent, and its node is remembered. */
  lemma {:induction false} Outstanding(own: Id -> bool, h: Handlers, states: seq<State>, log: seq<Event>,
                                       nodes: seq<NodeId>, i: nat, k: nat)
    requires Run(h, states, log) && states[0].armed == map[] && states[0].direct == {} && WellUsed(own, log, nodes)
    requires i < k <= |log| && log[i].Reset? && own(log[i].c) && Untouched(log, log[i].c, i + 1, k)
    ensures var l := LedgerAt(own, log, nodes, k);
            Waiting(states[k], l, log[i].c, log[i].call.arg, nodes[i]) && Spent(l, log[i].call.arg) == 0
    decreases k
  {
    var s, e, l := states[k - 1], log[k - 1], LedgerAt(own, log, nodes, k - 1);
    assert Step(h, s, e, states[k]) && (Concerns(e, own) ==> Arms(l, e));
    AlwaysBalanced(own, h, states, log, nodes, k);
    if i + 1 < k {
      Outstanding(own, h, states, log, nodes, i, k - 1);
      StillWaiting(own, h, s, l, e, states[k], nodes[k - 1], log[i].c, log[i].call.arg, nodes[i]);
    }
    HeldUnspent(own, states[k], LedgerAt(own, log, nodes, k), log[i].c);
  }

  /** The timer of callout c is armed for item x of node n, and the callout's fields say so. */
  ghost predicate Waiting(s: State, l: Ledger, c: Id, x: Item, n: NodeId) {
    && c in s.armed && c !in s.direct && s.armed[c].call == Call(TRAMPOLINE, x)
    && Arg(l, c) == x && Func(l, c) == TRAMPOLINE && x != NULL && x in l.node && l.node[x] == n
  }

  lemma StillWaiting(own: Id -> bool, h: Handlers, s: State, l: Ledger, e: Event, s': State, node: NodeId,
                     c: Id, x: Item, n: NodeId)
    requires Waiting(s, l, c, x, n) && Step(h, s, e, s') && !Touches(e, c) && (Concerns(e, own) ==> Arms(l, e))
    ensures Waiting(s', if Concerns(e, own) then Account(l, e, node) else l, c, x, n)
  {
  }

  lemma HeldUnspent(own: Id -> bool, s: State, l: Ledger, c: Id)
    requires Balanced(own, s, l) && c in s.armed && own(c)
    ensures Spent(l, s.armed[c].call.arg) == 0
  {
    assert Holds(own, s, s.armed[c].call.arg);
  }

  /** On the timing wheel: once the tick of an item's timer has been handled, the item has been consumed once. */
  lemma ItemsAreNotForgotten(w: Callwheel.Wheel, own: Id -> bool, nodes: seq<NodeId>, i: nat) returns (k: nat)
    requires w.Idle() && WellUsed(own, w.log, nodes)
    requires i < |w.log| && w.log[i].Reset? && own(w.log[i].c)
    requires w.states[i].now + (if w.log[i].delay <= 0 then 1 else w.log[i].delay) < w.softticks
    ensures i < k < |w.log| && Touches(w.log[k], w.log[i].c) && Untouched(w.log, w.log[i].c, i + 1, k)
    ensures Outcome(LedgerAt(own, w.log, nodes, |w.log|), w.log[i].call.arg, w.log[k], nodes[k] == nodes[i])
  {
    k := Callwheel.WheelNeverSkips(w, i);
    ConsumedOnce(own, w.handlers, w.states, w.log, nodes, i, k, |w.log|);
  }

  // ---- the code

  lemma {:induction false} LedgerPrefix(own: Id -> bool, log: seq<Event>, nodes: seq<NodeId>, e: Event, n: NodeId,
      i: nat)
    requires i <= |log| == |nodes|
    ensures LedgerAt(own, log + [e], nodes + [n], i) == LedgerAt(own, log, nodes, i)
  {
    if i > 0 {
      LedgerPrefix(own, log, nodes, e, n, i - 1);
    }
  }

  lemma WellUsedSnoc(own: Id -> bool, log: seq<Event>, nodes: seq<NodeId>, e: Event, n: NodeId)
    requires WellUsed(own, log, nodes) && (Concerns(e, own) ==> Arms(LedgerAt(own, log, nodes, |log|), e))
    ensures WellUsed(own, log + [e], nodes + [n])
    ensures var l := LedgerAt(own, log, nodes, |log|);
            LedgerAt(own, log + [e], nodes + [n], |log| + 1) == if Concerns(e, own) then Account(l, e, n) else l
  {
    forall i | 0 <= i <= |log| ensures LedgerAt(own, log + [e], nodes + [n], i) == LedgerAt(own, log, nodes, i) {
      LedgerPrefix(own, log, nodes, e, n, i);
    }
  }

  /** The callouts netgraph uses, with the timer service behind them. */
  class Timers {
    const own: Id -> bool
    const handlers: Handlers
    var timer: State              // the timer service: `Callwheel` implements it
    var arg: map<Id, Item>        // `c_arg`
    var func: map<Id, int>        // `c_func`
    var node: map<Item, NodeId>   // `NGI_NODE` of every item made
    var freed: seq<Item>
    var sent: seq<Item>

    ghost var lost: seq<Item>
    ghost var states: seq<State>
    ghost var log: seq<Event>
    ghost var nodes: seq<NodeId>

    ghost function Books(): Ledger
      reads this
    {
      Ledger(arg, func, node, sent, freed, lost)
    }

    /** The fields are what the events so far amount to; by `AlwaysBalanced`, the books balance. */
    ghost predicate Valid()
      reads this
    {
      && Run(handlers, states, log) && states[0].armed == map[] && states[0].direct == {}
      && WellUsed(own, log, nodes) && states[|log|] == timer
      && LedgerAt(own, log, nodes, |log|) == Books()
    }

    constructor (own: Id -> bool, handlers: Handlers, now: int)
      ensures Valid() && timer == State(map[], {}, now, now, 0, None, []) && Books() == EMPTY
      ensures this.own == own && this.handlers == handlers
    {
      this.own, this.handlers, timer := own, handlers, State(map[], {}, now, now, 0, None, []);
      arg, func, node, freed, sent, lost := map[], map[], map[], [], [], [];
      states, log, nodes := [State(map[], {}, now, now, 0, None, [])], [], [];
    }

    lemma Balance()
      requires Valid()
      ensures Balanced(own, timer, Books())
    {
      AlwaysBalanced(own, handlers, states, log, nodes, |log|);
    }

    ghost method Record(was: State, books: Ledger, e: Event, n: NodeId)
      requires Run(handlers, states, log) && states[0].armed == map[] && states[0].direct == {}
      requires WellUsed(own, log, nodes) && states[|log|] == was && LedgerAt(own, log, nodes, |log|) == books
      requires Step(handlers, was, e, timer) && (Concerns(e, own) ==> Arms(books, e))
      requires Books() == if Concerns(e, own) then Account(books, e, n) else books
      modifies `states, `log, `nodes
      ensures Valid() && log == old(log) + [e] && nodes == old(nodes) + [n]
    {
      WellUsedSnoc(own, log, nodes, e, n);
      RunSnoc(handlers, states, log, e, timer);
      log, nodes, states := log + [e], nodes + [n], states + [timer];
    }

    /** `ng_callout`; `item` is what the allocator returned. */
    method Callout(c: Id, n: NodeId, delay: int, item: Item) returns (error: int)
      requires Valid() && own(c) && item !in node
      requires item != NULL && timer.running.Some? ==>
                 timer.todo != [] && timer.todo[0] == DoReset(c, delay, false, Call(TRAMPOLINE, item))
      modifies this
      ensures Valid() && sent == old(sent) && lost == old(lost)
      ensures item == NULL ==> error == ENOMEM && timer == old(timer) && Books() == old(Books())
      ensures item != NULL ==>
                && error == 0 && c in timer.armed && Arg(Books(), c) == item && node == old(node)[item := n]
                && timer.armed == old(timer.armed)[c := Timer(timer.now + (if delay <= 0 then 1 else delay),
                                                              Call(TRAMPOLINE, item))]
                && freed == old(freed) + if old(c in timer.armed) then [old(timer.armed[c].call.arg)] else []
    {
      if item == NULL {
        return ENOMEM;
      }
      Balance();
      var cancelled := Arm(c, n, delay, item);
      Record(old(timer), old(Books()), Reset(c, delay, false, Call(TRAMPOLINE, item), cancelled), n);
      error := 0;
    }

    /** The callout is reset, the item of a timer that was cancelled freed, and the new one put in place. */
    method Arm(c: Id, n: NodeId, delay: int, item: Item) returns (cancelled: bool)
      modifies `timer, `arg, `func, `node, `freed
      ensures cancelled == (c in old(timer.armed))
      ensures timer == Apply(handlers, old(timer), Reset(c, delay, false, Call(TRAMPOLINE, item), cancelled))
      ensures Books() == AfterCallout(old(Books()), c, cancelled, Call(TRAMPOLINE, item), n)
    {
      var oitem := Arg(Ledger(arg, func, node, sent, freed, []), c);
      cancelled := CalloutReset(c, delay, Call(TRAMPOLINE, item));
      if cancelled && oitem != NULL {
        freed := freed + [oitem];
      }
      arg, func, node := arg[c := item], func[c := TRAMPOLINE], node[item := n];
    }

    /** `callout_reset`, as `Callwheel.Wheel.Reset` provides it. */
    method CalloutReset(c: Id, delay: int, call: Call) returns (cancelled: bool)
      modifies `timer
      ensures cancelled == (c in old(timer.armed))
      ensures timer == Apply(handlers, old(timer), Reset(c, delay, false, call, cancelled))
    {
      cancelled := c in timer.armed;
      timer := Apply(handlers, timer, Reset(c, delay, false, call, cancelled));
    }

    /** `callout_stop`, as `Callwheel.Wheel.Stop` provides it. */
    method CalloutStop(c: Id, executing: bool) returns (result: int)
      modifies `timer
      ensures result == StopResult(old(timer), c, executing)
      ensures timer == Apply(handlers, old(timer), Stop(c, executing, result))
    {
      result := StopResult(timer, c, executing);
      timer := Apply(handlers, timer, Stop(c, executing, result));
    }

    /** `ng_uncallout`. */
    method Uncallout(c: Id, n: NodeId, executing: bool) returns (stopped: bool)
      requires Valid() && own(c)
      requires timer.running.Some? ==> timer.todo != [] && timer.todo[0] == DoStop(c, executing)
      modifies this
      ensures Valid() && sent == old(sent) && node == old(node) && timer.armed == old(timer.armed) - {c}
      ensures stopped == old(c in timer.armed) && Arg(Books(), c) == NULL
      ensures !stopped ==> freed == old(freed) && lost == old(lost)
      ensures stopped ==>
                var item := old(timer.armed[c].call.arg);
                && item in node
                && freed == old(freed) + (if node[item] == n then [item] else [])
                && lost == old(lost) + (if node[item] == n then [] else [item])
    {
      Balance();
      var rval := CalloutStop(c, executing);
      var l := Ledger(arg, func, node, sent, freed, []);
      var item := Arg(l, c);
      if Frees(l, c, rval, n) {
        freed := freed + [item];
      } else if rval > 0 && item != NULL {
        lost := lost + [item];
      }
      arg := arg[c := NULL];
      stopped := rval > 0;
      Record(old(timer), old(Books()), Stop(c, executing, rval), n);
    }

    /** The timer service calls `ng_callout_trampoline`, which sends the item. */
    method Trampoline(c: Id)
      requires Valid() && own(c) && c in timer.armed && Enabled(timer, Fire(c, timer.armed[c]))
      modifies this
      ensures Valid() && Books() == old(Books()).(sent := old(sent) + [old(Arg(Books(), c))])
      ensures timer == Apply(handlers, old(timer), Fire(c, old(timer.armed[c])))
      ensures old(Spent(Books(), Arg(Books(), c))) == 0
    {
      Balance();
      HeldUnspent(own, timer, Books(), c);
      var t := timer.armed[c];
      timer := Apply(handlers, timer, Fire(c, t));
      sent := sent + [t.call.arg];
      Record(old(timer), old(Books()), Fire(c, t), 0);
    }
  }
}
