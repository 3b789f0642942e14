/**
 The names of hooks (`lib/ff_ng_base.c`), which `ng_con_part2` means to keep unique on each node.  A hook that is
 being made does not count in that check, so that it misses one case: the two ends of a connection from a node to
 itself, under one name.
 */
module GraphNames {
  import opened Options
  import opened GraphWorld
  import opened GraphMessages

  /** Two valid hooks of one name on a node that is searched the ordinary way. */
  predicate Clash(w: World, x: HookId, y: HookId) {
    && x != y && x in w.hooks && y in w.hooks && !w.hooks[x].invalid && !w.hooks[y].invalid
    && w.hooks[x].name == w.hooks[y].name && w.hooks[x].node == w.hooks[y].node && w.hooks[x].node.Some?
    && w.hooks[x].node.value in w.nodes && !w.nodes[w.hooks[x].node.value].ownFind
  }

  ghost predicate Distinct(w: World) {
    forall x, y {:trigger Clash(w, x, y)} :: !Clash(w, x, y)
  }

  /** The message connects a node to itself, with the same name for both ends. */
  ghost predicate Doubles(m: Message, w: World) {
    && m.MsgConnect? && m.n == m.n2 && m.name == m.name2 && m.n in w.nodes && !w.nodes[m.n].ownFind
    && ConAgreed(w, m.n, m.name, m.n2, m.name2, m.con)
  }

  // ---- what takes hooks away cannot make names clash

  /** Names that clash now clashed before. */
  ghost predicate NoNewClash(w: World, w': World) {
    forall x, y {:trigger Clash(w', x, y)} :: Clash(w', x, y) ==> Clash(w, x, y)
  }

  lemma ShapeClash(w: World, w': World, xs: set<HookId>, d: set<HookId>)
    requires Inv(w) && Shape(w, w', xs, d)
    ensures NoNewClash(w, w')
  {
    forall x: HookId, y: HookId | Clash(w', x, y) ensures Clash(w, x, y) {
      assert ShapeHook(w, w', xs, d, x) && ShapeHook(w, w', xs, d, y) && ShapeNode(w, w', d, w'.hooks[x].node.value);
    }
  }

  lemma StopsClash(w: World, w': World, n: NodeId, items: HookId -> bool, revive: bool)
    requires Inv(w) && Stops(w, w', n, items, revive)
    ensures NoNewClash(w, w')
  {
    forall x: HookId, y: HookId | Clash(w', x, y) ensures Clash(w, x, y) {
      assert ShutHook(w, w', n, x) && ShutHook(w, w', n, y);
      assert ShapeNode(w, w', Leaving(w, n, items), w'.hooks[x].node.value);
    }
  }

  lemma BypassesClash(w: World, w': World, h1: HookId, h2: HookId)
    requires Inv(w) && Bypasses(w, w', h1, h2)
    ensures NoNewClash(w, w')
  {
    forall x: HookId, y: HookId | Clash(w', x, y) ensures Clash(w, x, y) {
      assert BypassesHook(w, w', h1, h2, x) && BypassesHook(w, w', h1, h2, y);
      assert ShapeNode(w, w', {h1, h2}, w'.hooks[x].node.value);
    }
  }

  // ---- what adds hooks

  /** Two hooks that were there before clash only if they did before. */
  lemma OldOnesClash(w: World, w': World, xs: set<HookId>, x: HookId, y: HookId)
    requires Inv(w) && Extends(w, w', xs) && x in w.hooks && y in w.hooks && Clash(w', x, y)
    ensures Clash(w, x, y)
  {
    assert ExtHook(w, w', xs, x) && ExtHook(w, w', xs, y) && HookOk(w, x);
    assert ExtNode(w, w', xs, w'.hooks[x].node.value);
  }

  /** A hook that was there before does not clash with a new one whose name was free, or whose node is new. */
  lemma NewOneDistinct(w: World, w': World, xs: set<HookId>, x: HookId, y: HookId, search: int)
    requires Inv(w) && AllListed(w) && Extends(w, w', xs) && x !in w.hooks && y in w.hooks
    requires x in w'.hooks && w'.hooks[x].node.Some?
    requires w'.hooks[x].node.value in w.nodes ==> !Taken(w, w'.hooks[x].node.value, w'.hooks[x].name, search)
    ensures !Clash(w', x, y) && !Clash(w', y, x)
  {
    var n := w'.hooks[x].node.value;
    assert ExtHook(w, w', xs, y) && ExtNode(w, w', xs, n) && HookOk(w, y);
    if Clash(w', x, y) || Clash(w', y, x) {
      assert Listed(w, y) && Bears(w, y, w'.hooks[x].name);
      assert false;
    }
  }

  lemma GainsClash(w: World, w': World, h1: HookId, n: NodeId, name: string, h2: HookId, n2: NodeId, name2: string,
                        search: int, search2: int)
    requires Inv(w) && AllListed(w) && Gains(w, w', h1, n, name, h2, n2, name2)
    requires n in w.nodes ==> !Taken(w, n, name, search)
    requires n2 in w.nodes ==> !Taken(w, n2, name2, search2)
    ensures Clash(w', h1, h2) || NoNewClash(w, w')
  {
    if !Clash(w', h1, h2) {
      forall x: HookId, y: HookId | Clash(w', x, y) ensures Clash(w, x, y) {
        assert ExtHook(w, w', {h1, h2}, x) && ExtHook(w, w', {h1, h2}, y);
        if x in w.hooks && y in w.hooks {
          OldOnesClash(w, w', {h1, h2}, x, y);
        } else if x in w.hooks {
          NewOneDistinct(w, w', {h1, h2}, y, x, if y == h1 then search else search2);
        } else if y in w.hooks {
          NewOneDistinct(w, w', {h1, h2}, x, y, if x == h1 then search else search2);
        }
      }
    }
  }

  /** The two ends of a new connection. */
  lemma EndsClash(w: World, w': World, h1: HookId, n: NodeId, name: string, h2: HookId, n2: NodeId, name2: string)
    requires Gains(w, w', h1, n, name, h2, n2, name2) && n in w.nodes
    ensures Clash(w', h1, h2) <==> n == n2 && name == name2 && !w.nodes[n].ownFind
  {
    assert ExtNode(w, w', {h1, h2}, n);
  }

  lemma RemainsClash(w: World, w': World, xs: set<HookId>, n: NodeId)
    requires Inv(w) && Remains(w, w', xs, n)
    ensures NoNewClash(w, w')
  {
    forall x: HookId, y: HookId | Clash(w', x, y) ensures Clash(w, x, y) {
      assert ExtHook(w, w', xs, x) && ExtHook(w, w', xs, y);
      OldOnesClash(w, w', xs, x, y);
    }
  }

  // ---- messages

  lemma ConnectIsDistinct(w: World, w': World, n: NodeId, name: string, n2: NodeId, name2: string, a: ConAnswers)
    requires Sane(w) && Sane(w') && Distinct(w) && n in w.nodes && !w.nodes[n].invalid
    requires Does(MsgConnect(n, name, n2, name2, a), w, w')
    ensures Distinct(w') <==> !Doubles(MsgConnect(n, name, n2, name2, a), w)
  {
    if n2 !in w.nodes {
      ShapeClash(w, w', {}, {});
    } else if ConAgreed(w, n, name, n2, name2, a) {
      var h, h2 :| Gains(w, w', h, n, name, h2, n2, name2);
      GainsClash(w, w', h, n, name, h2, n2, name2, a.first.search, a.search);
      EndsClash(w, w', h, n, name, h2, n2, name2);
      assert Doubles(MsgConnect(n, name, n2, name2, a), w) <==> Clash(w', h, h2);
    } else {
      assert Remains(w, w', {}, n);
      RemainsClash(w, w', {}, n);
    }
  }

  lemma PeerIsDistinct(w: World, w': World, n: NodeId, name: string, name2: string, a: PeerAnswers)
    requires Sane(w) && Distinct(w) && n in w.nodes && Does(MsgMkPeer(n, name, name2, a), w, w')
    ensures Distinct(w')
  {
    if PeerAgreed(w, n, name, a) {
      var h1, h2, n2 :| n2 !in w.nodes && Gains(w, w', h1, n, name, h2, n2, name2);
      GainsClash(w, w', h1, n, name, h2, n2, name2, a.first.search, 0);
    } else {
      var xs :| Remains(w, w', xs, n);
      RemainsClash(w, w', xs, n);
    }
  }

  lemma BypassIsDistinct(w: World, w': World, n: NodeId, name: string, name2: string, search: int, search2: int)
    requires Sane(w) && Distinct(w) && n in w.nodes && Does(MsgBypass(n, name, name2, search, search2), w, w')
    ensures Distinct(w')
  {
    if Idles(w, w') {
      ShapeClash(w, w', {}, {});
    } else {
      var h1, h2 :| && Picked(w, n, name, search, h1) && Picked(w, n, name2, search2, h2)
                    && if Between(w, h1, h2) then Bypasses(w, w', h1, h2) else Idles(w, w');
      BypassesClash(w, w', h1, h2);
    }
  }

  lemma RmIsDistinct(w: World, w': World, n: NodeId, name: string, search: int, item: bool)
    requires Sane(w) && Distinct(w) && n in w.nodes && Does(MsgRmHook(n, name, search, item), w, w')
    ensures Distinct(w')
  {
    if Taken(w, n, name, search) {
      var h :| Picked(w, n, name, search, h) && Removes(w, w', h, item);
      ShapeClash(w, w', Pair(w, h), if Told(w, h, item) then Pair(w, h) else {h});
    } else {
      ShapeClash(w, w', {}, {});
    }
  }

  /** If the names on every node were distinct, a message leaves them so exactly if it is no such connection. */
  lemma EffectOnNames(m: Message, w: World, w': World)
    requires Sane(w) && Sane(w') && Distinct(w) && Effect(m, w, w')
    ensures Distinct(w') <==> m.Create? || Deaf(w, m) || !Doubles(m, w)
  {
    if m.Create? {
      forall x: HookId, y: HookId ensures !Clash(w', x, y) {
        assert x in w.hooks ==> HookOk(w, x);
        assert !Clash(w, x, y);
      }
    } else if !Deaf(w, m) {
      match m
      case MsgMkPeer(n, name, name2, a) => PeerIsDistinct(w, w', n, name, name2, a);
      case MsgConnect(n, name, n2, name2, a) => ConnectIsDistinct(w, w', n, name, n2, name2, a);
      case MsgRmHook(n, name, search, item) => RmIsDistinct(w, w', n, name, search, item);
      case MsgShutdown(n, items, revive) =>
        if w.nodes[n].closing {
          ShapeClash(w, w', {}, {});
        } else {
          StopsClash(w, w', n, items, revive);
        }
      case MsgBypass(n, name, name2, search, search2) => BypassIsDistinct(w, w', n, name, name2, search, search2);
    }
  }

  /** Throughout a run the names are distinct if and only if no message of it is such a connection. */
  lemma DistinctThroughout(ms: seq<Message>, ws: seq<World>)
    requires History(ms, ws) && (forall i :: 0 <= i < |ws| ==> Sane(ws[i])) && Distinct(ws[0])
    ensures (forall i :: 0 <= i < |ws| ==> Distinct(ws[i])) <==> (forall i :: 0 <= i < |ms| ==> !Doubles(ms[i], ws[i]))
  {
    if forall i :: 0 <= i < |ms| ==> !Doubles(ms[i], ws[i]) {
      forall i | 0 <= i < |ws| ensures Distinct(ws[i]) {
        DistinctUntil(ms, ws, i);
      }
    } else {
      var i :| 0 <= i < |ms| && Doubles(ms[i], ws[i]);
      if Distinct(ws[i]) {
        assert Effect(ms[i], ws[i], ws[i + 1]);
        EffectOnNames(ms[i], ws[i], ws[i + 1]);
      }
    }
  }

  lemma {:induction false} DistinctUntil(ms: seq<Message>, ws: seq<World>, n: nat)
    requires History(ms, ws) && (forall i :: 0 <= i < |ws| ==> Sane(ws[i])) && Distinct(ws[0]) && n < |ws|
    requires forall i :: 0 <= i < |ms| ==> !Doubles(ms[i], ws[i])
    ensures Distinct(ws[n])
  {
    if n > 0 {
      DistinctUntil(ms, ws, n - 1);
      assert Effect(ms[n - 1], ws[n - 1], ws[n - 1 + 1]);
      EffectOnNames(ms[n - 1], ws[n - 1], ws[n]);
    }
  }

  /** One node without hooks, and the message that gives it two hooks of one name. */
  lemma NamesCanClash() returns (m: Message, w: World)
    ensures Sane(w) && Distinct(w) && !m.Create? && !Deaf(w, m) && Doubles(m, w)
    ensures forall w' :: Sane(w') && Effect(m, w, w') ==> !Distinct(w')
  {
    w := World(map[0 := Node(1, [], 0, false, false, false)], map[], {0}, multiset{}, multiset{});
    var yes := HookAnswers(0, true, 0);
    m := MsgConnect(0, "a", 0, "a", ConAnswers(0, yes, true, true, 0, 0, 0, 0));
    assert NodeOk(w, 0) by {
      assert Attached(w.hooks, 0) == {};
    }
    forall w' | Sane(w') && Effect(m, w, w') ensures !Distinct(w') {
      EffectOnNames(m, w, w');
    }
  }
}
