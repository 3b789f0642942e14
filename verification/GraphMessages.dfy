/**
 Messages to netgraph's nodes (`lib/ff_ng_base.c`): what allocator and types answer while one is handled, what is
 returned then, and how the graph of `GraphWorld` changes.
 */
module GraphMessages {
  import opened Options
  import opened Basics
  import opened GraphWorld

  // ---- what allocator and types answer

  /** When a node is to be made: type and constructor exist, memory, the constructor, and how the type searches. */
  datatype NodeAnswers = NodeAnswers(known: bool, constructible: bool, granted: bool, construct: int, ownFind: bool)

  /** When a hook is added: a type's own search for the name, memory, and the `newhook` method. */
  datatype HookAnswers = HookAnswers(search: int, granted: bool, newhook: int)

  /**
   During `ng_mkpeer`: both `connect` methods, and after a refusal whether an item can be had to tell the first hook
   and whether the new node survives its shutdown.
   */
  datatype PeerAnswers = PeerAnswers(node: NodeAnswers, first: HookAnswers, second: HookAnswers,
                                     connect: int, connect2: int, item: bool, revive: bool)

  /**
   During `ng_con_nodes`: a search for the second name, the first hook, memory for the second hook and for the item,
   and then from `ng_con_part2` and `ng_con_part3` another search and the methods of both types.
   */
  datatype ConAnswers = ConAnswers(search: int, first: HookAnswers, granted: bool, item: bool,
                                   search2: int, newhook: int, connect2: int, connect: int)

  /** What `ng_make_node` returns. */
  function NodeError(a: NodeAnswers): int {
    if !a.known then ENXIO else if !a.constructible then EINVAL else if !a.granted then ENOMEM else a.construct
  }

  /** What `ng_add_hook` returns. */
  ghost function HookError(w: World, n: NodeId, name: string, a: HookAnswers): int
    requires n in w.nodes
  {
    if Taken(w, n, name, a.search) then EEXIST else if !a.granted then ENOMEM else a.newhook
  }

  /** What `ng_mkpeer` returns. */
  ghost function PeerError(w: World, n: NodeId, name: string, a: PeerAnswers): int
    requires n in w.nodes
  {
    if NodeError(a.node) != 0 then NodeError(a.node) else HooksError(w, n, name, a)
  }

  /** And once it has the new node. */
  ghost function HooksError(w: World, n: NodeId, name: string, a: PeerAnswers): int
    requires n in w.nodes
  {
    if HookError(w, n, name, a.first) != 0 then HookError(w, n, name, a.first)
    else if !a.second.granted then ENOMEM else if a.second.newhook != 0 then a.second.newhook
    else if a.connect != 0 then a.connect else a.connect2
  }

  /** What the other node answers: the message to it, the name, and the methods of both types. */
  ghost function SecondError(w: World, n2: NodeId, name2: string, down: bool, a: ConAnswers): int
    requires n2 in w.nodes
  {
    if !a.item then ENOMEM else if w.nodes[n2].invalid then EINVAL
    else if Taken(w, n2, name2, a.search2) then EEXIST
    else if a.newhook != 0 then a.newhook else if a.connect2 != 0 then a.connect2
    else if down then EINVAL else a.connect
  }

  /** What `ng_con_nodes` returns. */
  ghost function ConError(w: World, n: NodeId, name: string, n2: NodeId, name2: string, a: ConAnswers): int
    requires n in w.nodes && n2 in w.nodes
  {
    if Taken(w, n2, name2, a.search) then EEXIST
    else if HookError(w, n, name, a.first) != 0 then HookError(w, n, name, a.first)
    else if !a.granted || !a.item then ENOMEM else if w.nodes[n2].invalid then EINVAL
    else if w.nodes[n2].ownFind && 0 <= a.search2 < |w.nodes[n2].hooks| + Bit(n == n2) then EEXIST
    else if a.newhook != 0 then a.newhook else if a.connect2 != 0 then a.connect2
    else if w.nodes[n].invalid then EINVAL else a.connect
  }

  /** Nothing stands against a connection: both names are free, both nodes take messages, and all answers are yes. */
  ghost predicate ConAgreed(w: World, n: NodeId, name: string, n2: NodeId, name2: string, a: ConAnswers)
    requires n in w.nodes && n2 in w.nodes
  {
    && !Taken(w, n, name, a.first.search) && !Taken(w, n2, name2, a.search)
    && (w.nodes[n2].ownFind ==> !(0 <= a.search2 < |w.nodes[n2].hooks| + if n == n2 then 1 else 0))
    && !w.nodes[n].invalid && !w.nodes[n2].invalid && a.first.granted && a.granted && a.item
    && a.first.newhook == 0 && a.newhook == 0 && a.connect == 0 && a.connect2 == 0
  }

  lemma WhenAgreed(w: World, n: NodeId, name: string, n2: NodeId, name2: string, a: ConAnswers)
    requires n in w.nodes && n2 in w.nodes
    ensures ConError(w, n, name, n2, name2, a) == 0 <==> ConAgreed(w, n, name, n2, name2, a)
  {
  }

  ghost predicate PeerAgreed(w: World, n: NodeId, name: string, a: PeerAnswers)
    requires n in w.nodes
  {
    && !Taken(w, n, name, a.first.search)
    && a.node.known && a.node.constructible && a.node.granted && a.first.granted && a.second.granted
    && a.node.construct == 0 && a.first.newhook == 0 && a.second.newhook == 0 && a.connect == 0 && a.connect2 == 0
  }

  /**
   Among nodes that are searched the ordinary way, only a valid hook of that name or a type's own answer says that a
   name is taken.
   */
  lemma WhenTaken(w: World, n: NodeId, name: string, n2: NodeId, name2: string, a: ConAnswers)
    requires n in w.nodes && n2 in w.nodes && !w.nodes[n].ownFind && !w.nodes[n2].ownFind
    requires ConError(w, n, name, n2, name2, a) == EEXIST
    ensures || (exists h :: h in w.nodes[n].hooks && h in w.hooks && !w.hooks[h].invalid && w.hooks[h].name == name)
            || (exists h :: h in w.nodes[n2].hooks && h in w.hooks && !w.hooks[h].invalid && w.hooks[h].name == name2)
            || EEXIST in [a.first.newhook, a.newhook, a.connect, a.connect2]
  {
    assert a.first.newhook == EEXIST ==> [a.first.newhook, a.newhook, a.connect, a.connect2][0] == EEXIST;
    assert a.newhook == EEXIST ==> [a.first.newhook, a.newhook, a.connect, a.connect2][1] == EEXIST;
    assert a.connect == EEXIST ==> [a.first.newhook, a.newhook, a.connect, a.connect2][2] == EEXIST;
    assert a.connect2 == EEXIST ==> [a.first.newhook, a.newhook, a.connect, a.connect2][3] == EEXIST;
    if Taken(w, n, name, a.first.search) {
      var h :| h in w.nodes[n].hooks && Bears(w, h, name);
      assert !w.hooks[h].invalid && w.hooks[h].name == name;
    } else if Taken(w, n2, name2, a.search) {
      var h :| h in w.nodes[n2].hooks && Bears(w, h, name2);
      assert !w.hooks[h].invalid && w.hooks[h].name == name2;
    }
  }

  /** Holding a node makes no difference to these answers. */
  lemma ConErrorHeld(w: World, m: NodeId, n: NodeId, name: string, n2: NodeId, name2: string, a: ConAnswers)
    requires Inv(w) && m in w.nodes && n in w.nodes && n2 in w.nodes
    ensures ConError(HoldNode(w, m), n, name, n2, name2, a) == ConError(w, n, name, n2, name2, a)
  {
    TakenStill(w, HoldNode(w, m), n, name, a.first.search);
    TakenStill(w, HoldNode(w, m), n2, name2, a.search);
  }

  /** Nor does a new node, for the others. */
  lemma HookErrorAdded(w: World, m: NodeId, ownFind: bool, n: NodeId, name: string, a: HookAnswers)
    requires Inv(w) && m !in w.nodes && n in w.nodes
    ensures HookError(AddNode(w, m, ownFind), n, name, a) == HookError(w, n, name, a)
  {
    TakenStill(w, AddNode(w, m, ownFind), n, name, a.search);
  }

  /** What can happen to the graph: a node is made, or a message reaches node n. */
  datatype Message =
    | Create(made: NodeAnswers)
    | MsgMkPeer(n: NodeId, name: string, name2: string, peer: PeerAnswers)
    | MsgConnect(n: NodeId, name: string, n2: NodeId, name2: string, con: ConAnswers)
    | MsgRmHook(n: NodeId, name: string, search: int, item: bool)
    | MsgShutdown(n: NodeId, items: HookId -> bool, revive: bool)
    | MsgBypass(n: NodeId, name: string, name2: string, search: int, search2: int)

  // ---- what a message does

  /** The hook a search finds: the first valid one of that name, or the one the type answers with. */
  ghost predicate Picked(w: World, n: NodeId, name: string, search: int, h: HookId) {
    && n in w.nodes && h in w.nodes[n].hooks && h in w.hooks
    && var list := w.nodes[n].hooks;
       if w.nodes[n].ownFind then 0 <= search < |list| && h == list[search]
       else exists i :: 0 <= i < |list| && FirstBearer(w, list, name, i) && h == list[i]
  }

  predicate FirstBearer(w: World, list: seq<HookId>, name: string, i: int)
    requires 0 <= i < |list|
  {
    Bears(w, list[i], name) && forall j :: 0 <= j < i ==> !Bears(w, list[j], name)
  }

  /** Nobody is there to take the message. */
  predicate Deaf(w: World, m: Message)
    requires !m.Create?
  {
    m.n !in w.nodes || (w.nodes[m.n].invalid && !m.MsgShutdown?)
  }

  /** How a message changes the graph; what is not mentioned, counts apart, is as it was. */
  ghost predicate Effect(m: Message, w: World, w': World) {
    if m.Create? then
      if NodeError(m.made) == 0 then exists n :: Adds(w, w', n, m.made.ownFind) else w' == w
    else if Deaf(w, m) then w' == w
    else Does(m, w, w')
  }

  /** The graphs before, between and after these messages. */
  ghost predicate History(ms: seq<Message>, ws: seq<World>) {
    |ws| == |ms| + 1 && forall i :: 0 <= i < |ms| ==> Effect(ms[i], ws[i], ws[i + 1])
  }

  /** Between messages. */
  ghost predicate Sane(w: World) { Inv(w) && AllListed(w) && Tidy(w) }

  lemma HistorySnoc(ms: seq<Message>, i: nat, ws: seq<World>, w: World)
    requires i < |ms| && History(ms[..i], ws) && Effect(ms[i], ws[i], w)
    ensures History(ms[..i + 1], ws + [w])
  {
    var ws' := ws + [w];
    forall j | 0 <= j < i + 1 ensures Effect(ms[..i + 1][j], ws'[j], ws'[j + 1]) {
      if j < i {
        assert Effect(ms[..i][j], ws[j], ws[j + 1]);
      }
    }
  }

  ghost predicate Does(m: Message, w: World, w': World)
    requires !m.Create? && m.n in w.nodes
  {
    match m
    case MsgMkPeer(n, name, name2, a) =>
      if PeerAgreed(w, n, name, a) then exists h1, h2, n2 :: n2 !in w.nodes && Gains(w, w', h1, n, name, h2, n2, name2)
      else (exists xs :: Remains(w, w', xs, n)) && (a.item && !w.nodes[n].invalid ==> w'.hooks == w.hooks)
    case MsgConnect(n, name, n2, name2, a) =>
      if n2 !in w.nodes then Idles(w, w')
      else if ConAgreed(w, n, name, n2, name2, a) then exists h, h2 :: Gains(w, w', h, n, name, h2, n2, name2)
      else Extends(w, w', {}) && w'.hooks == w.hooks
    case MsgRmHook(n, name, search, item) =>
      if Taken(w, n, name, search) then exists h :: Picked(w, n, name, search, h) && Removes(w, w', h, item)
      else Idles(w, w')
    case MsgShutdown(n, items, revive) =>
      if w.nodes[n].closing then Idles(w, w') else Stops(w, w', n, items, revive)
    case MsgBypass(n, name, name2, search, search2) =>
      if Taken(w, n, name, search) && Taken(w, n, name2, search2) then
        exists h1, h2 :: && Picked(w, n, name, search, h1) && Picked(w, n, name2, search2, h2)
                         && if Between(w, h1, h2) then Bypasses(w, w', h1, h2) else Idles(w, w')
      else Idles(w, w')
  }

  /** A node without hooks that takes messages. */
  predicate Adds(w: World, w': World, n: NodeId, ownFind: bool) {
    && n !in w.nodes && w'.nodes == w.nodes[n := Node(1, [], 0, false, false, ownFind)]
    && w'.hooks == w.hooks && w'.created == w.created + {n}
  }

  /** Nothing but counts has changed. */
  ghost predicate Idles(w: World, w': World) { Shape(w, w', {}, {}) }

  /** Two new hooks, connected to each other. */
  ghost predicate Gains(w: World, w': World, h1: HookId, n: NodeId, name: string, h2: HookId, n2: NodeId, name2: string)
  {
    h1 !in w.hooks && h2 !in w.hooks && Extends(w, w', {h1, h2}) && Connected(w', h1, n, name, h2, n2, name2)
  }

  /** Of the new hooks xs only what cannot be used is left. */
  ghost predicate Remains(w: World, w': World, xs: set<HookId>, n: NodeId) {
    Fresh(w, xs) && Extends(w, w', xs) && Gone(w', xs, n)
  }

  /** The hook is destroyed: it and its peer part, it leaves its node, and so does its peer if it hears of it. */
  ghost predicate Removes(w: World, w': World, h: HookId, item: bool) {
    && h in w.hooks && Shape(w, w', Pair(w, h), if Told(w, h, item) then Pair(w, h) else {h})
    && (forall x :: x in Pair(w, h) && x in w'.hooks ==> w'.hooks[x].peer.None?)
    && (h in w'.hooks ==> w'.hooks[h].invalid)
  }

  ghost predicate Stops(w: World, w': World, n: NodeId, items: HookId -> bool, revive: bool) {
    && Shutdown(w, w', n, Leaving(w, n, items)) && w'.created == (if revive then w.created else w.created - {n})
    && (n in w'.nodes ==> w'.nodes[n].hooks == [] && w'.nodes[n].invalid == w'.nodes[n].closing == !revive)
  }

  /** Two valid hooks between which there is something to bypass. */
  predicate Between(w: World, h1: HookId, h2: HookId) {
    && h1 != h2 && h1 in w.hooks && h2 in w.hooks && !w.hooks[h1].invalid && !w.hooks[h2].invalid
    && w.hooks[h1].peer.Some? && w.hooks[h2].peer.Some?
  }

  /** The hooks are gone from their node, and their former peers are each other's. */
  ghost predicate Bypasses(w: World, w': World, h1: HookId, h2: HookId) {
    && Between(w, h1, h2) && w'.created == w.created
    && (forall x {:trigger BypassesHook(w, w', h1, h2, x)} :: BypassesHook(w, w', h1, h2, x))
    && (forall m {:trigger ShapeNode(w, w', {h1, h2}, m)} :: ShapeNode(w, w', {h1, h2}, m))
  }

  predicate BypassesHook(w: World, w': World, h1: HookId, h2: HookId, x: HookId)
    requires Between(w, h1, h2)
  {
    && (x in w'.hooks ==> x in w.hooks)
    && (x in {h1, h2} && x in w'.hooks ==> w'.hooks[x].node.None? && w'.hooks[x].peer.None?)
    && (x in w.hooks && x !in {h1, h2} ==> x in w'.hooks && BypassedHook(w, h1, h2, x, w'.hooks[x]))
  }

  /** The pointers set, and then the two hooks destroyed. */
  lemma BypassStages(w: World, w1: World, w2: World, h1: HookId, h2: HookId)
    requires Between(w, h1, h2) && w1.nodes == w.nodes && w1.created == w.created && w1.hooks.Keys == w.hooks.Keys
    requires forall x :: x in w1.hooks ==> BypassedHook(w, h1, h2, x, w1.hooks[x])
    requires Shape(w1, w2, {h1, h2}, {h1, h2}) && Loose(w2, {h1, h2})
    ensures Bypasses(w, w2, h1, h2)
  {
    forall x: HookId ensures BypassesHook(w, w2, h1, h2, x) {
      assert ShapeHook(w1, w2, {h1, h2}, {h1, h2}, x);
    }
    forall m: NodeId ensures ShapeNode(w, w2, {h1, h2}, m) {
      assert ShapeNode(w1, w2, {h1, h2}, m);
    }
  }

  // ---- the reference a message carries makes no difference

  lemma ShapeHeld(w: World, n: NodeId, w': World, xs: set<HookId>, d: set<HookId>)
    requires n in w.nodes && Shape(HoldNode(w, n), w', xs, d)
    ensures Shape(w, w', xs, d)
  {
    forall x: HookId ensures ShapeHook(w, w', xs, d, x) {
      assert ShapeHook(HoldNode(w, n), w', xs, d, x);
    }
    forall m: NodeId ensures ShapeNode(w, w', d, m) {
      assert ShapeNode(HoldNode(w, n), w', d, m);
    }
  }

  lemma StopsHeld(w: World, n: NodeId, w': World, items: HookId -> bool, revive: bool)
    requires n in w.nodes && Stops(HoldNode(w, n), w', n, items, revive)
    ensures Stops(w, w', n, items, revive)
  {
    var held := HoldNode(w, n);
    assert Near(held, n) == Near(w, n);
    assert forall x :: HearsPeer(held, n, items, x) == HearsPeer(w, n, items, x);
    assert Leaving(held, n, items) == Leaving(w, n, items);
    forall x: HookId ensures ShutHook(w, w', n, x) {
      assert ShutHook(held, w', n, x);
    }
    forall m: NodeId | m != n ensures ShapeNode(w, w', Leaving(w, n, items), m) {
      assert ShapeNode(held, w', Leaving(w, n, items), m);
    }
  }

  lemma BypassesHeld(w: World, n: NodeId, w': World, h1: HookId, h2: HookId)
    requires n in w.nodes && Bypasses(HoldNode(w, n), w', h1, h2)
    ensures Bypasses(w, w', h1, h2)
  {
    var held := HoldNode(w, n);
    forall x: HookId ensures BypassesHook(w, w', h1, h2, x) {
      assert BypassesHook(held, w', h1, h2, x);
    }
    forall m: NodeId ensures ShapeNode(w, w', {h1, h2}, m) {
      assert ShapeNode(held, w', {h1, h2}, m);
    }
  }

  lemma PickedHeld(w: World, m: NodeId, n: NodeId, name: string, search: int, h: HookId)
    requires m in w.nodes && Picked(HoldNode(w, m), n, name, search, h)
    ensures Picked(w, n, name, search, h)
  {
    if !w.nodes[n].ownFind {
      var list := w.nodes[n].hooks;
      var i :| 0 <= i < |list| && FirstBearer(HoldNode(w, m), list, name, i) && h == list[i];
      assert FirstBearer(w, list, name, i);
    }
  }

  lemma DoesHeld(m: Message, w: World, w': World)
    requires Inv(w) && !m.Create? && m.n in w.nodes && Does(m, HoldNode(w, m.n), w')
    ensures Does(m, w, w')
  {
    match m
    case MsgMkPeer(n, name, name2, a) => PeerHeld(w, w', n, name, name2, a);
    case MsgConnect(n, name, n2, name2, a) => ConHeld(w, w', n, name, n2, name2, a);
    case MsgRmHook(n, name, search, item) => RmHeld(w, w', n, name, search, item);
    case MsgShutdown(n, items, revive) =>
      if w.nodes[n].closing {
        ShapeHeld(w, n, w', {}, {});
      } else {
        StopsHeld(w, n, w', items, revive);
      }
    case MsgBypass(n, name, name2, search, search2) => BypassHeld(w, w', n, name, name2, search, search2);
  }

  lemma RemovesHeld(w: World, n: NodeId, w': World, h: HookId, item: bool)
    requires n in w.nodes && Removes(HoldNode(w, n), w', h, item)
    ensures Removes(w, w', h, item)
  {
    assert Told(HoldNode(w, n), h, item) == Told(w, h, item) && Pair(HoldNode(w, n), h) == Pair(w, h);
    ShapeHeld(w, n, w', Pair(w, h), if Told(w, h, item) then Pair(w, h) else {h});
  }

  lemma RmHeld(w: World, w': World, n: NodeId, name: string, search: int, item: bool)
    requires Inv(w) && n in w.nodes && Does(MsgRmHook(n, name, search, item), HoldNode(w, n), w')
    ensures Does(MsgRmHook(n, name, search, item), w, w')
  {
    var held := HoldNode(w, n);
    TakenStill(w, held, n, name, search);
    if Taken(w, n, name, search) {
      var h :| Picked(held, n, name, search, h) && Removes(held, w', h, item);
      PickedHeld(w, n, n, name, search, h);
      RemovesHeld(w, n, w', h, item);
    } else {
      ShapeHeld(w, n, w', {}, {});
    }
  }

  lemma PeerHeld(w: World, w': World, n: NodeId, name: string, name2: string, a: PeerAnswers)
    requires Inv(w) && n in w.nodes && Does(MsgMkPeer(n, name, name2, a), HoldNode(w, n), w')
    ensures Does(MsgMkPeer(n, name, name2, a), w, w')
  {
    var held := HoldNode(w, n);
    TakenStill(w, held, n, name, a.first.search);
    if PeerAgreed(w, n, name, a) {
      var h1, h2, n2 :| n2 !in held.nodes && Gains(held, w', h1, n, name, h2, n2, name2);
      ExtendsHeld(w, n, w', {h1, h2});
      assert Gains(w, w', h1, n, name, h2, n2, name2);
    } else {
      var xs :| Remains(held, w', xs, n);
      ExtendsHeld(w, n, w', xs);
      assert Remains(w, w', xs, n);
    }
  }

  lemma ConHeld(w: World, w': World, n: NodeId, name: string, n2: NodeId, name2: string, a: ConAnswers)
    requires Inv(w) && n in w.nodes && Does(MsgConnect(n, name, n2, name2, a), HoldNode(w, n), w')
    ensures Does(MsgConnect(n, name, n2, name2, a), w, w')
  {
    var held := HoldNode(w, n);
    if n2 !in w.nodes {
      ShapeHeld(w, n, w', {}, {});
    } else {
      ConErrorHeld(w, n, n, name, n2, name2, a);
      WhenAgreed(w, n, name, n2, name2, a);
      WhenAgreed(held, n, name, n2, name2, a);
      if ConAgreed(w, n, name, n2, name2, a) {
        var h, h2 :| Gains(held, w', h, n, name, h2, n2, name2);
        ExtendsHeld(w, n, w', {h, h2});
        assert Gains(w, w', h, n, name, h2, n2, name2);
      } else {
        ExtendsHeld(w, n, w', {});
      }
    }
  }

  lemma BypassHeld(w: World, w': World, n: NodeId, name: string, name2: string, search: int, search2: int)
    requires Inv(w) && n in w.nodes && Does(MsgBypass(n, name, name2, search, search2), HoldNode(w, n), w')
    ensures Does(MsgBypass(n, name, name2, search, search2), w, w')
  {
    var held := HoldNode(w, n);
    TakenStill(w, held, n, name, search);
    TakenStill(w, held, n, name2, search2);
    if Taken(w, n, name, search) && Taken(w, n, name2, search2) {
      var h1, h2 :| && Picked(held, n, name, search, h1) && Picked(held, n, name2, search2, h2)
                    && if Between(held, h1, h2) then Bypasses(held, w', h1, h2) else Idles(held, w');
      PickedHeld(w, n, n, name, search, h1);
      PickedHeld(w, n, n, name2, search2, h2);
      if Between(w, h1, h2) {
        BypassesHeld(w, n, w', h1, h2);
      } else {
        ShapeHeld(w, n, w', {}, {});
      }
    } else {
      ShapeHeld(w, n, w', {}, {});
    }
  }

  // ---- nor does giving it back

  lemma IdleKeepsHooks(w: World, w': World)
    requires Idles(w, w')
    ensures w'.hooks == w.hooks
  {
    forall x: HookId ensures (x in w.hooks <==> x in w'.hooks) && (x in w.hooks ==> w'.hooks[x] == w.hooks[x]) {
      assert ShapeHook(w, w', {}, {}, x);
    }
  }

  lemma ShapeThenIdle(w: World, w1: World, w2: World, xs: set<HookId>, d: set<HookId>)
    requires Shape(w, w1, xs, d) && Idles(w1, w2)
    ensures Shape(w, w2, xs, d)
  {
    ShapeWider(w1, w2, {}, xs, {});
    ShapeTrans(w, w1, w2, xs, d, {}, d);
  }

  lemma NodesThenIdle(w: World, w1: World, w2: World, d: set<HookId>, m: NodeId)
    requires ShapeNode(w, w1, d, m) && Idles(w1, w2)
    ensures ShapeNode(w, w2, d, m)
  {
    assert ShapeNode(w1, w2, {}, m);
    if m in w2.nodes {
      MinusNothing(w1.nodes[m].hooks, {});
    }
  }

  lemma GainsThenIdle(w: World, w1: World, w2: World, h1: HookId, n: NodeId, name: string, h2: HookId, n2: NodeId,
                      name2: string)
    requires Inv(w2) && Gains(w, w1, h1, n, name, h2, n2, name2) && Idles(w1, w2)
    ensures Gains(w, w2, h1, n, name, h2, n2, name2)
  {
    IdleKeepsHooks(w1, w2);
    ExtendsShape(w, w1, w2, {h1, h2}, {}, {});
    ListedStays(w1, w2, {}, {}, h1);
    ListedStays(w1, w2, {}, {}, h2);
  }

  lemma StopsThenIdle(w: World, w1: World, w2: World, n: NodeId, items: HookId -> bool, revive: bool)
    requires Stops(w, w1, n, items, revive) && Idles(w1, w2)
    ensures Stops(w, w2, n, items, revive)
  {
    IdleKeepsHooks(w1, w2);
    assert ShapeNode(w1, w2, {}, n);
    forall x: HookId ensures ShutHook(w, w2, n, x) {
      assert ShutHook(w, w1, n, x);
    }
    forall m: NodeId | m != n ensures ShapeNode(w, w2, Leaving(w, n, items), m) {
      assert ShapeNode(w, w1, Leaving(w, n, items), m);
      NodesThenIdle(w, w1, w2, Leaving(w, n, items), m);
    }
  }

  lemma BypassesThenIdle(w: World, w1: World, w2: World, h1: HookId, h2: HookId)
    requires Bypasses(w, w1, h1, h2) && Idles(w1, w2)
    ensures Bypasses(w, w2, h1, h2)
  {
    IdleKeepsHooks(w1, w2);
    forall x: HookId ensures BypassesHook(w, w2, h1, h2, x) {
      assert BypassesHook(w, w1, h1, h2, x);
    }
    forall m: NodeId ensures ShapeNode(w, w2, {h1, h2}, m) {
      assert ShapeNode(w, w1, {h1, h2}, m);
      NodesThenIdle(w, w1, w2, {h1, h2}, m);
    }
  }

  lemma DoesThenIdle(m: Message, w: World, w1: World, w2: World)
    requires !m.Create? && m.n in w.nodes && Does(m, w, w1) && Idles(w1, w2) && Inv(w2)
    ensures Does(m, w, w2)
  {
    IdleKeepsHooks(w1, w2);
    match m
    case MsgMkPeer(n, name, name2, a) => PeerThenIdle(w, w1, w2, n, name, name2, a);
    case MsgConnect(n, name, n2, name2, a) => ConThenIdle(w, w1, w2, n, name, n2, name2, a);
    case MsgRmHook(n, name, search, item) =>
      if Taken(w, n, name, search) {
        var h :| Picked(w, n, name, search, h) && Removes(w, w1, h, item);
        ShapeThenIdle(w, w1, w2, Pair(w, h), if Told(w, h, item) then Pair(w, h) else {h});
      } else {
        ShapeThenIdle(w, w1, w2, {}, {});
      }
    case MsgShutdown(n, items, revive) =>
      if w.nodes[n].closing {
        ShapeThenIdle(w, w1, w2, {}, {});
      } else {
        StopsThenIdle(w, w1, w2, n, items, revive);
      }
    case MsgBypass(n, name, name2, search, search2) => BypassThenIdle(w, w1, w2, n, name, name2, search, search2);
  }

  lemma PeerThenIdle(w: World, w1: World, w2: World, n: NodeId, name: string, name2: string, a: PeerAnswers)
    requires n in w.nodes && Does(MsgMkPeer(n, name, name2, a), w, w1) && Idles(w1, w2) && Inv(w2)
    ensures Does(MsgMkPeer(n, name, name2, a), w, w2)
  {
    IdleKeepsHooks(w1, w2);
    if PeerAgreed(w, n, name, a) {
      var h1, h2, n2 :| n2 !in w.nodes && Gains(w, w1, h1, n, name, h2, n2, name2);
      GainsThenIdle(w, w1, w2, h1, n, name, h2, n2, name2);
    } else {
      var xs :| Remains(w, w1, xs, n);
      ExtendsShape(w, w1, w2, xs, {}, {});
      assert Remains(w, w2, xs, n);
    }
  }

  lemma ConThenIdle(w: World, w1: World, w2: World, n: NodeId, name: string, n2: NodeId, name2: string, a: ConAnswers)
    requires n in w.nodes && Does(MsgConnect(n, name, n2, name2, a), w, w1) && Idles(w1, w2) && Inv(w2)
    ensures Does(MsgConnect(n, name, n2, name2, a), w, w2)
  {
    IdleKeepsHooks(w1, w2);
    if n2 !in w.nodes {
      ShapeThenIdle(w, w1, w2, {}, {});
    } else if ConAgreed(w, n, name, n2, name2, a) {
      var h, h2 :| Gains(w, w1, h, n, name, h2, n2, name2);
      GainsThenIdle(w, w1, w2, h, n, name, h2, n2, name2);
    } else {
      ExtendsShape(w, w1, w2, {}, {}, {});
    }
  }

  lemma BypassThenIdle(w: World, w1: World, w2: World, n: NodeId, name: string, name2: string, search: int,
                       search2: int)
    requires n in w.nodes && Does(MsgBypass(n, name, name2, search, search2), w, w1) && Idles(w1, w2)
    ensures Does(MsgBypass(n, name, name2, search, search2), w, w2)
  {
    if Taken(w, n, name, search) && Taken(w, n, name2, search2) {
      var h1, h2 :| && Picked(w, n, name, search, h1) && Picked(w, n, name2, search2, h2)
                    && if Between(w, h1, h2) then Bypasses(w, w1, h1, h2) else Idles(w, w1);
      if Between(w, h1, h2) {
        BypassesThenIdle(w, w1, w2, h1, h2);
      } else {
        ShapeThenIdle(w, w1, w2, {}, {});
      }
    } else {
      ShapeThenIdle(w, w1, w2, {}, {});
    }
  }
}
