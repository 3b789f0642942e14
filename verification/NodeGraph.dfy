/**
 The operations of netgraph's node and hook graph (`lib/ff_ng_base.c`, the synchronous FSTACK build)
 on the memory described in `GraphWorld`.
 */
module NodeGraph {
  import opened Options
  import opened Arithmetic
  import opened Basics
  import opened GraphWorld
  import opened GraphMessages
  import opened GraphNames

  class Graph {
    var nodes: map<NodeId, Node>
    var hooks: map<HookId, Hook>
    ghost var created: set<NodeId>
    ghost var heldNodes: multiset<NodeId>
    ghost var heldHooks: multiset<HookId>

    ghost function W(): World
      reads this
    {
      World(nodes, hooks, created, heldNodes, heldHooks)
    }

    ghost predicate Sound()
      reads this
    {
      Inv(W())
    }

    ghost predicate Valid()
      reads this
    {
      Sound() && AllListed(W())
    }

    /** Between messages. */
    ghost predicate Ready()
      reads this
    {
      Sane(W())
    }

    constructor ()
      ensures Ready() && nodes == map[] && hooks == map[] && created == {}
      ensures heldNodes == multiset{} && heldHooks == multiset{}
    {
      nodes, hooks := map[], map[];
      created, heldNodes, heldHooks := {}, multiset{}, multiset{};
    }

    // ---- reference counting

    method NodeRef(n: NodeId)
      requires Sound() && n in nodes
      modifies `nodes, `heldNodes
      ensures Sound() && W() == HoldNode(old(W()), n) && Shape(old(W()), W(), {}, {})
    {
      HoldNodeInv(W(), n);
      HoldNodeShape(W(), n);
      nodes := nodes[n := nodes[n].(refs := nodes[n].refs + 1)];
      heldNodes := heldNodes + multiset{n};
    }

    /** `ng_unref_node`. */
    method NodeUnref(n: NodeId)
      requires Sound() && n in heldNodes
      modifies `nodes, `heldNodes
      ensures Sound() && heldNodes == old(heldNodes) - multiset{n} && Shape(old(W()), W(), {}, {})
    {
      ghost var w0 := W();
      DropNodeInv(w0, n);
      DropNodeShape(w0, n);
      var refs := nodes[n].refs - 1;
      nodes := if refs == 0 then nodes - {n} else nodes[n := nodes[n].(refs := refs)];
      heldNodes := heldNodes - multiset{n};
      assert W() == DropNode(w0, n);
    }

    method HookRef(h: HookId)
      requires Sound() && h in hooks
      modifies `hooks, `heldHooks
      ensures Sound() && W() == HoldHook(old(W()), h) && Shape(old(W()), W(), {h}, {})
    {
      HoldHookInv(W(), h);
      HoldHookShape(W(), h);
      hooks := hooks[h := hooks[h].(refs := hooks[h].refs + 1)];
      heldHooks := heldHooks + multiset{h};
    }

    /** The hook's node pointer is cleared and the reference it was dropped. */
    method LeaveGo(h: HookId)
      requires Sound() && h in hooks && !Listed(W(), h)
      modifies `nodes, `hooks
      ensures Sound() && old(HookOk(W(), h)) && W() == LoseNode(old(W()), h)
    {
      ghost var w0 := W();
      LoseNodeInv(w0, h);
      if hooks[h].node.Some? {
        var n := hooks[h].node.value;
        hooks := hooks[h := hooks[h].(node := None)];
        var refs := nodes[n].refs - 1;
        nodes := if refs == 0 then nodes - {n} else nodes[n := nodes[n].(refs := refs)];
      }
      assert W() == LoseNode(w0, h);
    }

    /** `ng_unref_hook`. */
    method ReleaseOne(h: HookId)
      requires Sound() && h in heldHooks
      modifies `nodes, `hooks, `heldHooks
      ensures Sound() && old(h in hooks && HookOk(W(), h)) && W() == DropHook(old(W()), h)
    {
      ghost var w0 := W();
      assert HookOk(w0, h);
      if hooks[h].refs - 1 == 0 {
        FreeHook(h);
      } else {
        LowerHook(h);
      }
    }

    method LowerHook(h: HookId)
      requires Sound() && h in heldHooks && h in hooks && hooks[h].refs > 1
      modifies `hooks, `heldHooks
      ensures Sound() && W() == ReleaseHook(old(W()), h)
    {
      ReleaseHookInv(W(), h);
      hooks := hooks[h := hooks[h].(refs := hooks[h].refs - 1)];
      heldHooks := heldHooks - multiset{h};
      assert W() == ReleaseHook(old(W()), h);
    }

    method FreeHook(h: HookId)
      requires Sound() && h in heldHooks && h in hooks && hooks[h].refs == 1 && HookOk(W(), h)
      modifies `nodes, `hooks, `heldHooks
      ensures Sound() && W() == DropHook(old(W()), h)
    {
      ghost var w0 := W();
      DropHookInv(w0, h);
      LeaveGo(h);
      hooks := hooks - {h};
      heldHooks := heldHooks - multiset{h};
      assert W() == DropHook(w0, h);
    }

    method HookUnref(h: HookId)
      requires Sound() && h in heldHooks
      modifies `nodes, `hooks, `heldHooks
      ensures Sound() && heldHooks == old(heldHooks) - multiset{h} && Shape(old(W()), W(), {h}, {})
      ensures old(Listed(W(), h)) ==> h in hooks
      ensures old(h in hooks) && (h in hooks ==> hooks[h] == old(hooks[h]).(refs := hooks[h].refs))
    {
      DropHookShape(W(), h);
      ReleaseOne(h);
    }

    /** The second half of `ng_destroy_hook`: a listed hook leaves its node. */
    method LeaveNode(h: HookId)
      requires Sound() && Listed(W(), h)
      modifies `nodes, `hooks, `heldHooks
      ensures Sound() && heldHooks == old(heldHooks) && Shape(old(W()), W(), {h}, {h})
    {
      ghost var w0 := W();
      LeaveShape(w0, h);
      Unlist(h);
      LeaveGo(h);
      ghost var w1 := W();
      HookUnref(h);
      ShapeTrans(w0, w1, W(), {h}, {h}, {}, {h});
      HeldAgain(w0.heldHooks, h);
    }

    /** `LIST_REMOVE`: the reference of the list is ours now. */
    method Unlist(h: HookId)
      requires Listed(W(), h)
      modifies `nodes, `heldHooks
      ensures W() == Delist(old(W()), h)
    {
      var n := hooks[h].node.value;
      nodes := nodes[n := nodes[n].(hooks := Minus(nodes[n].hooks, {h}), numhooks := nodes[n].numhooks - 1)];
      heldHooks := heldHooks + multiset{h};
    }

    /** The references a message to node n about hook p carries. */
    method TakeRefs(n: NodeId, p: HookId)
      requires Sound() && n in nodes && p in hooks
      modifies `nodes, `hooks, `heldNodes, `heldHooks
      ensures Sound() && Shape(old(W()), W(), {p}, {}) && n in nodes && p in hooks
      ensures heldNodes == old(heldNodes) + multiset{n} && heldHooks == old(heldHooks) + multiset{p}
      ensures hooks[p] == old(hooks[p]).(refs := hooks[p].refs)
      ensures nodes[n].invalid == old(nodes[n].invalid)
    {
      ghost var w0 := W();
      NodeRef(n);
      HookRef(p);
      ShapeQuiet(w0, W(), {p});
    }

    /** And how they are given back. */
    method DropRefs(n: NodeId, p: HookId)
      requires Sound() && n in heldNodes && p in heldHooks
      modifies `nodes, `hooks, `heldNodes, `heldHooks
      ensures Sound() && Shape(old(W()), W(), {p}, {})
      ensures heldNodes == old(heldNodes) - multiset{n} && heldHooks == old(heldHooks) - multiset{p}
      ensures old(p in hooks) && (p in hooks ==> hooks[p] == old(hooks[p]).(refs := hooks[p].refs))
    {
      ghost var w0 := W();
      HookUnref(p);
      ghost var w1 := W();
      NodeUnref(n);
      ShapeWider(w1, W(), {}, {p}, {});
      ShapeTrans(w0, w1, W(), {p}, {}, {}, {});
    }

    /**
     `ng_rmhook_self` and the synchronous delivery of its message.  The message is lost if no item can
     be allocated or the node of the hook is shutting down.
     */
    method RmhookSelf(p: HookId, item: bool) returns (told: bool)
      requires Sound() && p in heldHooks && p in hooks && hooks[p].peer.None? && Listed(W(), p)
      modifies `nodes, `hooks, `heldNodes, `heldHooks
      ensures Sound() && heldNodes == old(heldNodes) && heldHooks == old(heldHooks)
      ensures Shape(old(W()), W(), {p}, if told then {p} else {})
      ensures told ==> p in hooks && hooks[p].invalid
      ensures told == (item && !old(nodes[hooks[p].node.value].invalid))
      decreases 1, 0
    {
      ghost var w0 := W();
      var n := hooks[p].node.value;
      told := false;
      if !item {
        ShapeQuiet(w0, w0, {p});
        return;
      }
      TakeRefs(n, p);
      ghost var w1 := W();
      if nodes[n].invalid {
        ShapeQuiet(w1, w1, {p});
      } else {
        ListedStays(w0, w1, {p}, {}, p);
        var _ := DestroyHook(p, false);
        told := true;
      }
      ghost var w2, d := W(), if told then {p} else {};
      DropRefs(n, p);
      MessageStages(w0, w1, w2, W(), p, d);
      HeldAgain(w0.heldHooks, p);
      HeldAgain(w0.heldNodes, n);
    }

    /** The two peers forget each other; the references they were are the caller's to drop. */
    method SeverPeers(h: HookId, p: HookId)
      requires Sound() && InOrder(W(), h) && hooks[h].peer == Some(p)
      modifies `hooks, `heldHooks
      ensures Sound() && heldHooks == old(heldHooks) + multiset{h, p} && h != p && p in hooks && h in hooks
      ensures Shape(old(W()), W(), {h, p}, {}) && hooks[h].peer.None? && hooks[p].peer.None?
      ensures (hooks[p].node.Some? ==> Listed(W(), p)) && (old(Listed(W(), h)) ==> Listed(W(), h))
      ensures old(p in hooks) && hooks[p].node == old(hooks[p].node)
    {
      ghost var w0 := W();
      assert HookOk(w0, h);
      SeverInv(w0, h);
      SeverShape(w0, h);
      hooks := hooks[h := hooks[h].(peer := None)][p := hooks[p].(peer := None)];
      heldHooks := heldHooks + multiset{h, p};
    }

    /** Tell a hook that lost its peer, if it still belongs to a node. */
    method Tell(p: HookId, item: bool) returns (told: bool)
      requires Sound() && p in heldHooks && p in hooks && hooks[p].peer.None?
      requires hooks[p].node.Some? ==> Listed(W(), p)
      modifies `nodes, `hooks, `heldNodes, `heldHooks
      ensures Sound() && heldNodes == old(heldNodes) && heldHooks == old(heldHooks)
      ensures Shape(old(W()), W(), {p}, if told then {p} else {}) && told == Hears(old(W()), p, item)
      decreases 1, 1
    {
      told := false;
      if hooks[p].node.Some? {
        told := RmhookSelf(p, item);
      } else {
        ShapeQuiet(W(), W(), {p});
      }
    }

    /** The first half of `ng_destroy_hook`: peers part, and the other one is told. */
    method Divorce(h: HookId, item: bool) returns (told: bool)
      requires Sound() && InOrder(W(), h) && hooks[h].peer.Some?
      modifies `nodes, `hooks, `heldNodes, `heldHooks
      ensures Sound() && heldNodes == old(heldNodes) && heldHooks == old(heldHooks)
      ensures var xs := {h, old(hooks[h].peer.value)}; Shape(old(W()), W(), xs, if told then xs - {h} else {})
      ensures forall x :: x in {h, old(hooks[h].peer.value)} && x in hooks ==> hooks[x].peer.None?
      ensures old(Listed(W(), h)) ==> h in hooks
      ensures told == Hears(old(W()), old(hooks[h].peer.value), item)
      decreases 2, 0
    {
      ghost var w0 := W();
      var p := hooks[h].peer.value;
      SeverPeers(h, p);
      ghost var w1 := W();
      told := TellAndDrop(p, h, item);
      DivorceStages(w0, w1, W(), h, p, told);
      HeldBack(w0.heldHooks, h, p);
    }

    method TellAndDrop(p: HookId, h: HookId, item: bool) returns (told: bool)
      requires Sound() && p != h && p in heldHooks && h in heldHooks && p in hooks && hooks[p].peer.None?
      requires hooks[p].node.Some? ==> Listed(W(), p)
      modifies `nodes, `hooks, `heldNodes, `heldHooks
      ensures Sound() && heldNodes == old(heldNodes)
      ensures heldHooks == old(heldHooks) - multiset{p} - multiset{h}
      ensures Shape(old(W()), W(), {h, p}, if told then {p} else {})
      ensures old(Listed(W(), h)) ==> h in hooks
      ensures told == Hears(old(W()), p, item)
      decreases 1, 2
    {
      ghost var w1 := W();
      told := Tell(p, item);
      ghost var w2, d := W(), if told then {p} else {};
      TellKeeps(w1, w2, h, p, told);
      DropPair(p, h);
      ToldStages(w1, w2, W(), h, p, d);
    }

    /** The references that two former peers were to each other are dropped. */
    method DropPair(p: HookId, h: HookId)
      requires Sound() && p != h && p in heldHooks && h in heldHooks
      modifies `nodes, `hooks, `heldHooks
      ensures Sound() && Shape(old(W()), W(), {h, p}, {})
      ensures heldHooks == old(heldHooks) - multiset{p} - multiset{h}
      ensures old(Listed(W(), h)) ==> h in hooks
    {
      ghost var w0 := W();
      HookUnref(p);
      ghost var w1 := W();
      if Listed(w0, h) {
        ListedStays(w0, w1, {p}, {}, h);
      }
      HookUnref(h);
      ShapeWider(w0, w1, {p}, {h, p}, {});
      ShapeWider(w1, W(), {h}, {h, p}, {});
      ShapeTrans(w0, w1, W(), {h, p}, {}, {}, {});
    }

    /** `ng_destroy_hook`. */
    method DestroyHook(h: HookId, item: bool) returns (told: bool)
      requires Sound() && InOrder(W(), h)
      modifies `nodes, `hooks, `heldNodes, `heldHooks
      ensures Sound() && heldNodes == old(heldNodes) && heldHooks == old(heldHooks)
      ensures Shape(old(W()), W(), Pair(old(W()), h), if told then Pair(old(W()), h) else {h})
      ensures forall x :: x in Pair(old(W()), h) && x in hooks ==> hooks[x].peer.None?
      ensures h in hooks ==> hooks[h].invalid
      ensures old(hooks[h].invalid && hooks[h].peer.None? && hooks[h].node.None?) ==> W() == old(W())
      ensures told == Told(old(W()), h, item)
      decreases if hooks[h].peer.Some? then 2 else 0, 1
    {
      ghost var w0 := W();
      FlagShape(w0, h);
      hooks := hooks[h := hooks[h].(invalid := true)];
      ghost var w1 := W();
      var node := hooks[h].node;
      told := false;
      if hooks[h].peer.Some? {
        told := Divorce(h, item);
      } else {
        ShapeQuiet(w1, w1, {h});
      }
      ghost var w2 := W();
      if node.Some? {
        ListedStays(w1, w2, Pair(w0, h), if told then Pair(w0, h) - {h} else {}, h);
        LeaveNode(h);
      } else {
        assert ShapeHook(w1, w2, Pair(w0, h), if told then Pair(w0, h) - {h} else {}, h);
        NothingToLeave(w2, h);
      }
      ThreeStages(w0, w1, w2, W(), h, Pair(w0, h), told);
    }

    /** The loop of `ng_rmnode`: every hook of the node is destroyed. */
    method Evict(n: NodeId, items: HookId -> bool) returns (ghost d: set<HookId>)
      requires Valid() && n in heldNodes && n in nodes && nodes[n].invalid
      modifies `nodes, `hooks, `heldNodes, `heldHooks
      ensures Valid() && heldNodes == old(heldNodes) && heldHooks == old(heldHooks)
      ensures Emptied(old(W()), W(), n, d) && d == Leaving(old(W()), n, items)
    {
      ghost var w0 := W();
      d := {};
      EvictStarts(w0, n, items);
      assert forall x: HookId :: PartingHook(w0, w0, n, x);
      ShapeQuiet(w0, w0, Near(w0, n));
      while nodes[n].hooks != []
        invariant Valid() && heldNodes == old(heldNodes) && heldHooks == old(heldHooks) && n in nodes
        invariant d <= Near(w0, n) && Shape(w0, W(), Near(w0, n), d) && Parting(w0, W(), n)
        invariant Evicting(w0, W(), n, items, d)
        decreases |nodes[n].hooks|
      {
        ghost var w1 := W();
        var h := nodes[n].hooks[0];
        EvictOrder(w0, w1, n, d, h);
        var told := DestroyHook(h, items(h));
        ghost var e := if told then Pair(w1, h) else {h};
        EvictStep(w0, w1, W(), n, h, d, e);
        PartingStep(w0, w1, W(), n, h, e);
        EvictLeaves(w0, w1, W(), n, items, h, d, e);
        d := d + e;
      }
      AllParted(w0, W(), n);
      AllLeft(w0, W(), n, items, d);
    }

    /** A node refuses newcomers, or takes them again. */
    method MarkNode(n: NodeId, down: bool)
      requires Valid() && n in nodes && (!down ==> n in created)
      modifies `nodes
      ensures Valid() && nodes == old(nodes)[n := old(nodes)[n].(invalid := down, closing := down)]
    {
      NodeFlagInv(W(), n, down, down);
      nodes := nodes[n := nodes[n].(invalid := down, closing := down)];
      FlagsKeepListed(old(W()), W());
    }

    /** The creation reference is dropped, by the type's shutdown method or in its stead. */
    method DropCreation(n: NodeId)
      requires Valid() && n in created && n in nodes && nodes[n].closing
      modifies `nodes, `created, `heldNodes
      ensures Valid() && created == old(created) - {n} && heldNodes == old(heldNodes)
      ensures forall m {:trigger ShapeNode(old(W()), W(), {}, m)} :: ShapeNode(old(W()), W(), {}, m)
    {
      ghost var w0 := W();
      GiveUpInv(w0, n);
      created, heldNodes := created - {n}, heldNodes + multiset{n};
      ghost var w1 := W();
      FlagsKeepListed(w0, w1);
      NodeUnref(n);
      ShapeKeepsListed(w1, W(), {}, {});
      HeldAgain(w0.heldNodes, n);
      forall m: NodeId ensures ShapeNode(w0, W(), {}, m) {
        assert ShapeNode(w1, W(), {}, m);
      }
    }

    /**
     `ng_rmnode`; `revive` tells whether the type of the node makes it survive, and `items` whether an item can be had
     to tell the peer of a hook of the node.
     */
    method RmNode(n: NodeId, items: HookId -> bool, revive: bool) returns (ghost d: set<HookId>)
      requires Valid() && n in nodes
      modifies `nodes, `hooks, `created, `heldNodes, `heldHooks
      ensures Valid() && heldNodes == old(heldNodes) && heldHooks == old(heldHooks)
      ensures old(nodes[n].closing) ==> W() == old(W())
      ensures !old(nodes[n].closing) ==> Shutdown(old(W()), W(), n, d) && d == Leaving(old(W()), n, items)
      ensures !old(nodes[n].closing) ==> created == if revive then old(created) else old(created) - {n}
      ensures !old(nodes[n].closing) && n in nodes ==>
                nodes[n].hooks == [] && nodes[n].invalid == nodes[n].closing == !revive
    {
      d := {};
      if nodes[n].closing {
        return;
      }
      d := Shut(n, items, revive);
    }

    method Shut(n: NodeId, items: HookId -> bool, revive: bool) returns (ghost d: set<HookId>)
      requires Valid() && n in nodes && !nodes[n].closing
      modifies `nodes, `hooks, `created, `heldNodes, `heldHooks
      ensures Valid() && heldNodes == old(heldNodes) && heldHooks == old(heldHooks)
      ensures Shutdown(old(W()), W(), n, d) && d == Leaving(old(W()), n, items)
      ensures created == if revive then old(created) else old(created) - {n}
      ensures n in nodes ==> nodes[n].hooks == [] && nodes[n].invalid == nodes[n].closing == !revive
    {
      ghost var w0 := W();
      StartShutdown(n);
      ghost var w2 := W();
      d := Evict(n, items);
      ghost var w3 := W();
      assert ShapeNode(w2, w3, d, n);
      Settle(n, revive);
      HeldAgain(w0.heldNodes, n);
      ShutdownStages(w0, w2, w3, W(), n, items, d);
    }

    /** The beginning of `ng_rmnode`: an extra reference, and the node takes no messages any more. */
    method StartShutdown(n: NodeId)
      requires Valid() && n in nodes
      modifies `nodes, `heldNodes
      ensures Valid() && heldNodes == old(heldNodes) + multiset{n} && OnlyNode(old(W()), W(), n)
      ensures (!old(nodes[n].closing) ==> n in created) && n in nodes && nodes[n].invalid && nodes[n].closing
    {
      ghost var w0 := W();
      assert NodeOk(w0, n);
      NodeRef(n);
      ShapeKeepsListed(w0, W(), {}, {});
      MarkNode(n, true);
    }

    /** The end of `ng_rmnode`: the shutdown method, and the extra reference is dropped. */
    method Settle(n: NodeId, revive: bool)
      requires Valid() && n in heldNodes && n in created && n in nodes && nodes[n].hooks == []
      requires nodes[n].closing && nodes[n].invalid
      modifies `nodes, `created, `heldNodes
      ensures Valid() && heldNodes == old(heldNodes) - multiset{n}
      ensures created == if revive then old(created) else old(created) - {n}
      ensures n in nodes ==> nodes[n].hooks == [] && nodes[n].invalid == nodes[n].closing == !revive
      ensures forall m {:trigger ShapeNode(old(W()), W(), {}, m)} :: m != n ==> ShapeNode(old(W()), W(), {}, m)
    {
      ghost var w0 := W();
      if revive {
        MarkNode(n, false);
      } else {
        DropCreation(n);
        assert ShapeNode(w0, W(), {}, n);
      }
      ghost var w1 := W();
      NodeUnref(n);
      ShapeKeepsListed(w1, W(), {}, {});
      assert ShapeNode(w1, W(), {}, n);
      forall m: NodeId | m != n ensures ShapeNode(w0, W(), {}, m) {
        assert ShapeNode(w1, W(), {}, m);
        assert revive || ShapeNode(w0, w1, {}, m);
        if m in W().nodes {
          MinusNothing(w0.nodes[m].hooks, {});
        }
      }
    }

    // ---- making nodes and hooks

    /** `ng_findhook`: a valid hook of that name, unless the type of the node finds hooks its own way. */
    method FindHook(n: NodeId, name: string, search: int) returns (found: Option<HookId>)
      requires Sound() && n in nodes
      ensures found.Some? <==> Taken(W(), n, name, search)
      ensures found.Some? ==> Picked(W(), n, name, search, found.value)
      ensures !nodes[n].ownFind && found.Some? ==>
                found.value in hooks && !hooks[found.value].invalid && hooks[found.value].name == name
      ensures !nodes[n].ownFind && found.None? ==>
                forall h :: h in nodes[n].hooks ==> h in hooks && (hooks[h].invalid || hooks[h].name != name)
    {
      assert NodeOk(W(), n);
      found := None;
      var list := nodes[n].hooks;
      if nodes[n].ownFind {
        if 0 <= search < |list| {
          found := Some(list[search]);
        }
        return;
      }
      var i := 0;
      while i < |list|
        invariant 0 <= i <= |list|
        invariant forall j :: 0 <= j < i ==> hooks[list[j]].invalid || hooks[list[j]].name != name
      {
        var hook := hooks[list[i]];
        if !hook.invalid && hook.name == name {
          assert FirstBearer(W(), list, name, i);
          return Some(list[i]);
        }
        i := i + 1;
      }
    }

    /** `ng_make_node`: the constructor of the type may refuse. */
    method MakeNode(a: NodeAnswers) returns (error: int, n: NodeId)
      requires Valid()
      modifies `nodes, `created
      ensures Valid() && error == NodeError(a)
      ensures error != 0 ==> W() == old(W())
      ensures error == 0 ==> n !in old(nodes) && W() == AddNode(old(W()), n, a.ownFind)
      ensures error == 0 ==> nodes == old(nodes)[n := Node(1, [], 0, false, false, a.ownFind)]
    {
      ghost var w0 := W();
      error, n := 0, 0;
      if !a.known {
        return ENXIO, 0;
      }
      if !a.constructible {
        return EINVAL, 0;
      }
      if !a.granted {
        return ENOMEM, 0;
      }
      FreshExists(nodes);
      n :| n !in nodes;
      error := a.construct;
      if error == 0 {
        AddNodeInv(w0, n, a.ownFind);
        nodes, created := nodes[n := Node(1, [], 0, false, false, a.ownFind)], created + {n};
        NewNodeListed(w0, n, a.ownFind);
      }
    }

    /** A hook structure pointing to its node, which counts it. */
    method NewHook(n: NodeId, name: string) returns (h: HookId)
      requires Sound() && n in nodes
      modifies `nodes, `hooks, `heldHooks
      ensures Sound() && h !in old(hooks) && W() == Attached1(old(W()), h, n, name)
    {
      ghost var w0 := W();
      FreshExists(hooks);
      h :| h !in hooks;
      Attached1Inv(w0, h, n, name);
      hooks := hooks[h := Hook(1, None, Some(n), true, name)];
      nodes := nodes[n := nodes[n].(refs := nodes[n].refs + 1)];
      heldHooks := heldHooks + multiset{h};
      assert W() == Attached1(w0, h, n, name);
    }

    /** `ng_add_hook`: a hook on node n, without peer and not valid yet; the type of the node may refuse. */
    method AddNewHook(n: NodeId, name: string, a: HookAnswers) returns (error: int, h: HookId)
      requires Valid() && n in nodes
      modifies `nodes, `hooks, `heldHooks
      ensures Valid() && error == HookError(old(W()), n, name, a)
      ensures error != 0 ==> W() == old(W())
      ensures error == 0 ==> h !in old(hooks) && W() == Hooked(old(W()), h, n, name)
      ensures error == 0 ==> nodes[n].hooks == [h] + old(nodes[n].hooks)
    {
      ghost var w0 := W();
      var found := FindHook(n, name, a.search);
      if found.Some? {
        return EEXIST, 0;
      }
      if !a.granted {
        return ENOMEM, 0;
      }
      h := NewHook(n, name);
      error := a.newhook;
      if error != 0 {
        ReleaseOne(h);
        VetoRestores(w0, h, n, name);
        return;
      }
      HookedInv(w0, h, n, name);
      Enroll(h, n);
    }

    /** `LIST_INSERT_HEAD`, with the count and the reference that go with it. */
    method Enroll(h: HookId, n: NodeId)
      requires Sound() && h in hooks && n in nodes && hooks[h].node == Some(n) && !Listed(W(), h)
      modifies `nodes, `hooks
      ensures Sound() && W() == Enlist(old(W()), h)
    {
      ghost var w0 := W();
      EnlistInv(w0, h);
      nodes := nodes[n := nodes[n].(hooks := [h] + nodes[n].hooks, numhooks := nodes[n].numhooks + 1)];
      hooks := hooks[h := hooks[h].(refs := hooks[h].refs + 1)];
      assert W() == Enlist(w0, h);
    }

    /** `ng_rmnode` of a node without hooks. */
    method Discard(n: NodeId, revive: bool)
      requires Valid() && n in nodes && nodes[n].hooks == [] && !nodes[n].closing
      modifies `nodes, `hooks, `created, `heldNodes, `heldHooks
      ensures Valid() && heldNodes == old(heldNodes) && heldHooks == old(heldHooks)
      ensures hooks == old(hooks) && old(created) - {n} <= created <= old(created)
      ensures n in nodes && (nodes[n].closing || nodes[n].invalid) ==> n in heldNodes
      ensures forall m {:trigger ShapeNode(old(W()), W(), {}, m)} :: m != n ==> ShapeNode(old(W()), W(), {}, m)
    {
      ghost var w0 := W();
      NearEmpty(w0, n);
      ghost var d := RmNode(n, _ => false, revive);
      ShutdownKeepsHooks(w0, W(), n, d);
      ClosingIsHeld(W(), n);
    }

    /** Two hooks without peers are joined, each counting as a reference to the other. */
    method Link(h: HookId, p: HookId)
      requires Valid() && h in hooks && p in hooks && h != p && hooks[h].peer.None? && hooks[p].peer.None?
      modifies `hooks
      ensures Valid() && W() == Join(old(W()), h, p)
    {
      ghost var w0 := W();
      JoinInv(w0, h, p);
      hooks := hooks[h := hooks[h].(peer := Some(p), refs := hooks[h].refs + 1)]
                    [p := hooks[p].(peer := Some(h), refs := hooks[p].refs + 1)];
      assert W() == Join(w0, h, p);
      SameNodesKeepListed(w0, W());
    }

    /** A hook is allowed to be used. */
    method Validate(h: HookId)
      requires Valid() && h in hooks
      modifies `hooks
      ensures Valid() && hooks == old(hooks)[h := old(hooks)[h].(invalid := false)]
    {
      ghost var w0 := W();
      FlagInv(w0, h, false);
      hooks := hooks[h := hooks[h].(invalid := false)];
      SameNodesKeepListed(w0, W());
    }

    /** A reference the caller held is dropped between operations. */
    method Forget(h: HookId)
      requires Valid() && h in heldHooks
      modifies `nodes, `hooks, `heldHooks
      ensures Valid() && heldHooks == old(heldHooks) - multiset{h} && Shape(old(W()), W(), {h}, {})
      ensures old(Listed(W(), h)) ==> h in hooks
      ensures old(h in hooks) && (h in hooks ==> hooks[h] == old(hooks[h]).(refs := hooks[h].refs))
    {
      ghost var w0 := W();
      HookUnref(h);
      ShapeKeepsListed(w0, W(), {h}, {});
    }

    /** `ng_destroy_hook` between operations. */
    method Destroy(h: HookId, item: bool) returns (told: bool)
      requires Valid() && h in hooks
      modifies `nodes, `hooks, `heldNodes, `heldHooks
      ensures Valid() && heldNodes == old(heldNodes) && heldHooks == old(heldHooks)
      ensures Shape(old(W()), W(), Pair(old(W()), h), if told then Pair(old(W()), h) else {h})
      ensures forall x :: x in Pair(old(W()), h) && x in hooks ==> hooks[x].peer.None?
      ensures h in hooks ==> hooks[h].invalid && hooks[h].node.None? && hooks[h].peer.None?
      ensures old(hooks[h].invalid && hooks[h].peer.None? && hooks[h].node.None?) ==> W() == old(W())
      ensures told == Told(old(W()), h, item)
    {
      ghost var w0 := W();
      AllInOrder(w0, h);
      told := DestroyHook(h, item);
      ghost var d := if told then Pair(w0, h) else {h};
      ShapeKeepsListed(w0, W(), Pair(w0, h), d);
      assert ShapeHook(w0, W(), Pair(w0, h), d, h);
    }

    /** The second half of `ng_mkpeer`: two new hooks are joined, and both types are asked. */
    method Marry(h1: HookId, h2: HookId, n2: NodeId, a: PeerAnswers, ghost n: NodeId, ghost w0: World)
      returns (error: int)
      requires Valid() && Inv(w0) && Extends(w0, W(), {h1, h2}) && h1 !in w0.hooks && h2 !in w0.hooks && n2 !in w0.nodes
      requires h1 in heldHooks && h2 in heldHooks && h1 != h2 && h1 in hooks && h2 in hooks
      requires hooks[h1].peer.None? && hooks[h2].peer.None? && hooks[h2].node == Some(n2) && hooks[h1].node == Some(n)
      requires hooks[h1].invalid && hooks[h2].invalid && n2 in nodes && nodes[n2].hooks == [h2] && !nodes[n2].closing
      requires n2 !in heldNodes && n in w0.nodes
      modifies `nodes, `hooks, `created, `heldNodes, `heldHooks
      ensures Valid() && Extends(w0, W(), {h1, h2}) && heldNodes == old(heldNodes) && heldHooks == old(heldHooks)
      ensures error == if a.connect != 0 then a.connect else a.connect2
      ensures error == 0 ==> nodes == old(nodes) && Joined(old(W()), W(), h1, h2)
      ensures error != 0 ==> Gone(W(), {h1, h2}, n) && Loose(W(), {h2})
      ensures error != 0 && a.item && !w0.nodes[n].invalid ==> Loose(W(), {h1})
    {
      ghost var w1 := W();
      Link(h1, h2);
      ExtendsTouch(w0, w1, W(), {h1, h2});
      error := a.connect;
      if error == 0 {
        error := a.connect2;
      }
      if error != 0 {
        Unmarry(h1, h2, n2, a, n, w0);
      } else {
        ValidateBoth(h1, h2, w0);
      }
    }

    method ValidateBoth(h1: HookId, h2: HookId, ghost w0: World)
      requires Valid() && Extends(w0, W(), {h1, h2}) && h1 !in w0.hooks && h2 !in w0.hooks
      requires h1 != h2 && h1 in hooks && h2 in hooks
      modifies `hooks
      ensures Valid() && Extends(w0, W(), {h1, h2})
      ensures hooks == old(hooks)[h1 := old(hooks)[h1].(invalid := false)][h2 := old(hooks)[h2].(invalid := false)]
    {
      ghost var w1 := W();
      Validate(h1);
      Validate(h2);
      ExtendsTouch(w0, w1, W(), {h1, h2});
    }

    /** The types refused: the hooks are destroyed and the new node goes away. */
    method Unmarry(h1: HookId, h2: HookId, n2: NodeId, a: PeerAnswers, ghost n: NodeId, ghost w0: World)
      requires Valid() && Inv(w0) && Extends(w0, W(), {h1, h2}) && h1 !in w0.hooks && h2 !in w0.hooks && n2 !in w0.nodes
      requires h1 != h2 && h1 in hooks && h2 in hooks && hooks[h2].peer == Some(h1) && hooks[h1].node == Some(n)
      requires hooks[h1].invalid && hooks[h2].invalid && n2 in nodes && nodes[n2].hooks == [h2] && !nodes[n2].closing
      requires n2 !in heldNodes && n in w0.nodes
      modifies `nodes, `hooks, `created, `heldNodes, `heldHooks
      ensures Valid() && Extends(w0, W(), {h1, h2}) && heldNodes == old(heldNodes) && heldHooks == old(heldHooks)
      ensures Gone(W(), {h1, h2}, n) && Loose(W(), {h2}) && (a.item && !w0.nodes[n].invalid ==> Loose(W(), {h1}))
    {
      Part(h1, h2, n2, a.item, n, w0);
      ghost var w3 := W();
      Discard(n2, a.revive);
      ExtendsDiscard(w0, w3, W(), {h1, h2}, n2);
    }

    /** The second hook is destroyed, and the first one if it can be told and its node takes messages. */
    method Part(h1: HookId, h2: HookId, ghost n2: NodeId, item: bool, ghost n: NodeId, ghost w0: World)
      requires Valid() && Inv(w0) && Extends(w0, W(), {h1, h2}) && h1 !in w0.hooks && h2 !in w0.hooks
      requires h1 != h2 && h1 in hooks && h2 in hooks && hooks[h2].peer == Some(h1) && hooks[h1].node == Some(n)
      requires hooks[h1].invalid && hooks[h2].invalid && n2 in nodes && nodes[n2].hooks == [h2] && !nodes[n2].closing
      requires n in w0.nodes
      modifies `nodes, `hooks, `heldNodes, `heldHooks
      ensures Valid() && Extends(w0, W(), {h1, h2}) && heldNodes == old(heldNodes) && heldHooks == old(heldHooks)
      ensures n2 in nodes && nodes[n2].hooks == [] && !nodes[n2].closing
      ensures Gone(W(), {h1, h2}, n) && Loose(W(), {h2}) && (item && !w0.nodes[n].invalid ==> Loose(W(), {h1}))
    {
      ghost var w2 := W();
      assert HookOk(w2, h1) && ExtNode(w0, w2, {h1, h2}, n);
      var told := Destroy(h2, item);
      ghost var w3, d := W(), if told then {h1, h2} else {h2};
      assert Pair(w2, h2) == {h1, h2};
      ExtendsShape(w0, w2, w3, {h1, h2}, {h1, h2}, d);
      EmptiedBy(w2, w3, n2, h2, {h1, h2}, d);
      ShapeKeepsNoPeer(w2, w3, {h1, h2}, d);
      assert ShapeHook(w2, w3, {h1, h2}, d, h1);
    }

    /** `ng_mkpeer`: a new node joined to node n, or nothing usable left behind; what was there is as it was. */
    method MkPeer(n: NodeId, name: string, name2: string, a: PeerAnswers)
      returns (error: int, ghost h1: HookId, ghost h2: HookId, ghost n2: NodeId, ghost new_: set<HookId>)
      requires Valid() && n in heldNodes && n in nodes
      modifies `nodes, `hooks, `created, `heldNodes, `heldHooks
      ensures Valid() && heldNodes == old(heldNodes) && heldHooks == old(heldHooks)
      ensures Fresh(old(W()), new_) && Extends(old(W()), W(), new_)
      ensures error == PeerError(old(W()), n, name, a) && (error == 0 <==> PeerAgreed(old(W()), n, name, a))
      ensures error != 0 ==> Gone(W(), new_, n)
      ensures error != 0 && a.item && !old(nodes[n].invalid) ==> hooks == old(hooks)
      ensures error == 0 ==> new_ == {h1, h2} && n2 !in old(nodes) && Connected(W(), h1, n, name, h2, n2, name2)
    {
      ghost var w0 := W();
      h1, h2, n2, new_ := 0, 0, 0, {};
      ExtendsSelf(w0);
      var node2;
      error, node2 := MakeNode(a.node);
      n2 := node2;
      if error != 0 {
        return;
      }
      error, h1, h2, new_ := MkPeer1(n, node2, name, name2, a, w0);
      if error == 0 {
        assert Listed(W(), h1) && Listed(W(), h2);
      } else if a.item && !w0.nodes[n].invalid {
        NothingNew(w0, W(), new_);
      }
    }

    /** `ng_mkpeer` from the first hook on. */
    method MkPeer1(n: NodeId, n2: NodeId, name: string, name2: string, a: PeerAnswers, ghost w0: World)
      returns (error: int, ghost h1: HookId, ghost h2: HookId, ghost new_: set<HookId>)
      requires Valid() && Inv(w0) && n in w0.nodes && n2 !in w0.nodes && W() == AddNode(w0, n2, a.node.ownFind)
      modifies `nodes, `hooks, `created, `heldNodes, `heldHooks
      ensures Valid() && heldNodes == w0.heldNodes && heldHooks == w0.heldHooks
      ensures Fresh(w0, new_) && Extends(w0, W(), new_)
      ensures error == HooksError(w0, n, name, a)
      ensures error != 0 ==> Gone(W(), new_, n)
      ensures error != 0 && a.item && !w0.nodes[n].invalid ==> forall x :: x in new_ ==> x !in hooks
      ensures error == 0 ==> new_ == {h1, h2} && h1 != h2 && h1 in hooks && h2 in hooks
      ensures error == 0 ==> hooks[h1] == Hook(hooks[h1].refs, Some(h2), Some(n), false, name)
      ensures error == 0 ==> hooks[h2] == Hook(hooks[h2].refs, Some(h1), Some(n2), false, name2)
    {
      ghost var w1 := W();
      h1, h2, new_ := 0, 0, {};
      ExtendsAddNode(w0, n2, a.node.ownFind);
      HookErrorAdded(w0, n2, a.node.ownFind, n, name, a.first);
      var hook1;
      error, hook1 := AddNewHook(n, name, a.first);
      if error != 0 {
        Discard(n2, a.revive);
        ExtendsDiscard(w0, w1, W(), {}, n2);
        return;
      }
      h1 := hook1;
      ExtendsHooked(w0, w1, {}, h1, n, name, {h1});
      error, h2, new_ := MkPeer2(n, hook1, n2, name, name2, a, w0);
    }

    /** `ng_mkpeer` from the second hook on. */
    method MkPeer2(n: NodeId, h1: HookId, n2: NodeId, name: string, name2: string, a: PeerAnswers, ghost w0: World)
      returns (error: int, ghost h2: HookId, ghost new_: set<HookId>)
      requires Valid() && Inv(w0) && Extends(w0, W(), {h1}) && h1 !in w0.hooks && n2 !in w0.nodes && n != n2
      requires heldHooks == w0.heldHooks + multiset{h1} && heldNodes == w0.heldNodes && n in w0.nodes
      requires h1 in hooks && hooks[h1] == Hook(2, None, Some(n), true, name) && Listed(W(), h1)
      requires n2 in nodes && nodes[n2].hooks == [] && !nodes[n2].closing
      modifies `nodes, `hooks, `created, `heldNodes, `heldHooks
      ensures Valid() && heldNodes == w0.heldNodes && heldHooks == w0.heldHooks
      ensures Fresh(w0, new_) && Extends(w0, W(), new_)
      ensures error == if !a.second.granted then ENOMEM else if a.second.newhook != 0 then a.second.newhook
                       else if a.connect != 0 then a.connect else a.connect2
      ensures error != 0 ==> Gone(W(), new_, n)
      ensures error != 0 && a.item && !w0.nodes[n].invalid ==> forall x :: x in new_ ==> x !in hooks
      ensures error == 0 ==> new_ == {h1, h2} && h1 != h2 && h1 in hooks && h2 in hooks
      ensures error == 0 ==> hooks[h1] == Hook(hooks[h1].refs, Some(h2), Some(n), false, name)
      ensures error == 0 ==> hooks[h2] == Hook(hooks[h2].refs, Some(h1), Some(n2), false, name2)
    {
      ghost var w1 := W();
      var hook2;
      error, hook2 := AddNewHook(n2, name2, a.second);
      h2 := hook2;
      if error != 0 {
        new_ := {h1};
        DropLone(h1, n2, a, n, w0);
      } else {
        new_ := {h1, h2};
        error := Pairing(h1, hook2, n2, name2, a, n, w1, w0);
      }
    }

    /** Both hooks have been made: w1 is how things were before the second. */
    method Pairing(h1: HookId, h2: HookId, n2: NodeId, name2: string, a: PeerAnswers, ghost n: NodeId,
                   ghost w1: World, ghost w0: World)
      returns (error: int)
      requires Valid() && Inv(w0) && Inv(w1) && Extends(w0, w1, {h1}) && h1 !in w0.hooks && n2 !in w0.nodes
      requires h2 !in w1.hooks && n2 in w1.nodes && w1.nodes[n2].hooks == [] && !w1.nodes[n2].closing
      requires W() == Hooked(w1, h2, n2, name2) && Listed(w1, h1) && w1.hooks[h1].peer.None? && w1.hooks[h1].invalid
      requires w1.heldHooks == w0.heldHooks + multiset{h1} && n2 !in heldNodes && w1.hooks[h1].node == Some(n)
      requires n in w0.nodes
      modifies `nodes, `hooks, `created, `heldNodes, `heldHooks
      ensures Valid() && h1 != h2 && h2 !in w0.hooks && Extends(w0, W(), {h1, h2})
      ensures heldNodes == old(heldNodes) && heldHooks == w0.heldHooks
      ensures error == if a.connect != 0 then a.connect else a.connect2
      ensures error == 0 ==> h1 in hooks && h2 in hooks
      ensures error == 0 ==> hooks[h1] == w1.hooks[h1].(peer := Some(h2), invalid := false, refs := hooks[h1].refs)
      ensures error == 0 ==> hooks[h2] == Hook(hooks[h2].refs, Some(h1), Some(n2), false, name2)
      ensures error != 0 ==> Gone(W(), {h1, h2}, n)
      ensures error != 0 && a.item && !w0.nodes[n].invalid ==> h1 !in hooks && h2 !in hooks
    {
      ExtendsHooked(w0, w1, {h1}, h2, n2, name2, {h1, h2});
      SecondHook(w1, h1, h2, n2, name2);
      error := Wed(h1, h2, n2, a, n, w0);
    }

    /** Two new hooks are joined, if their types agree, and then let go. */
    method Wed(h1: HookId, h2: HookId, n2: NodeId, a: PeerAnswers, ghost n: NodeId, ghost w0: World)
      returns (error: int)
      requires Valid() && Inv(w0) && Extends(w0, W(), {h1, h2}) && h1 !in w0.hooks && h2 !in w0.hooks && n2 !in w0.nodes
      requires heldHooks == w0.heldHooks + multiset{h1} + multiset{h2} && h1 != h2 && Listed(W(), h1) && Listed(W(), h2)
      requires hooks[h1].peer.None? && hooks[h2].peer.None? && hooks[h2].node == Some(n2) && hooks[h1].node == Some(n)
      requires hooks[h1].invalid && hooks[h2].invalid && n2 in nodes && nodes[n2].hooks == [h2] && !nodes[n2].closing
      requires n2 !in heldNodes && n in w0.nodes
      modifies `nodes, `hooks, `created, `heldNodes, `heldHooks
      ensures Valid() && Extends(w0, W(), {h1, h2}) && heldNodes == old(heldNodes) && heldHooks == w0.heldHooks
      ensures error == if a.connect != 0 then a.connect else a.connect2
      ensures error == 0 ==> h1 in hooks && h2 in hooks
      ensures error == 0 ==> hooks[h1] == old(hooks[h1]).(peer := Some(h2), invalid := false, refs := hooks[h1].refs)
      ensures error == 0 ==> hooks[h2] == old(hooks[h2]).(peer := Some(h1), invalid := false, refs := hooks[h2].refs)
      ensures error != 0 ==> Gone(W(), {h1, h2}, n)
      ensures error != 0 && a.item && !w0.nodes[n].invalid ==> h1 !in hooks && h2 !in hooks
    {
      error := Marry(h1, h2, n2, a, n, w0);
      DropTwo(h1, h2, w0);
      HeldTwice(w0.heldHooks, h1, h2);
      if error != 0 && a.item && !w0.nodes[n].invalid {
        NoReferents(w0, W(), h1);
        NoReferents(w0, W(), h2);
      }
    }

    /** The second hook could not be made: the first one and the new node go away. */
    method DropLone(h1: HookId, n2: NodeId, a: PeerAnswers, ghost n: NodeId, ghost w0: World)
      requires Valid() && Inv(w0) && Extends(w0, W(), {h1}) && h1 !in w0.hooks && n2 !in w0.nodes
      requires heldHooks == w0.heldHooks + multiset{h1} && h1 in hooks && hooks[h1].peer.None?
      requires n2 in nodes && nodes[n2].hooks == [] && !nodes[n2].closing && n2 !in heldNodes
      modifies `nodes, `hooks, `created, `heldNodes, `heldHooks
      ensures Valid() && Extends(w0, W(), {h1})
      ensures heldNodes == old(heldNodes) && heldHooks == w0.heldHooks && h1 !in hooks
    {
      ghost var w1 := W();
      Discard(n2, a.revive);
      ExtendsDiscard(w0, w1, W(), {h1}, n2);
      FreeFirst(h1, w0);
    }

    /** Two references the caller held are dropped. */
    method ForgetTwo(h1: HookId, h2: HookId)
      requires Valid() && h1 != h2 && h1 in heldHooks && h2 in heldHooks && h1 in hooks && h2 in hooks
      modifies `nodes, `hooks, `heldHooks
      ensures Valid() && heldHooks == old(heldHooks) - multiset{h1} - multiset{h2}
      ensures Shape(old(W()), W(), {h1, h2}, {})
      ensures h1 in hooks ==> hooks[h1] == old(hooks[h1]).(refs := hooks[h1].refs)
      ensures h2 in hooks ==> hooks[h2] == old(hooks[h2]).(refs := hooks[h2].refs)
      ensures (old(Listed(W(), h1)) ==> h1 in hooks) && (old(Listed(W(), h2)) ==> h2 in hooks)
    {
      ghost var w1 := W();
      Forget(h1);
      ghost var w2 := W();
      OtherStays(w1, w2, h1, h2);
      Forget(h2);
      OtherStays(w2, W(), h2, h1);
      ShapeWider(w1, w2, {h1}, {h1, h2}, {});
      ShapeWider(w2, W(), {h2}, {h1, h2}, {});
      ShapeTrans(w1, w2, W(), {h1, h2}, {}, {}, {});
    }

    /** The maker lets both hooks go. */
    method DropTwo(h1: HookId, h2: HookId, ghost w0: World)
      requires Valid() && h1 != h2 && h1 in heldHooks && h2 in heldHooks && h1 in hooks && h2 in hooks
      requires Extends(w0, W(), {h1, h2}) && h1 !in w0.hooks && h2 !in w0.hooks
      modifies `nodes, `hooks, `heldHooks
      ensures Valid() && Extends(w0, W(), {h1, h2}) && heldHooks == old(heldHooks) - multiset{h1} - multiset{h2}
      ensures h1 in hooks ==> hooks[h1] == old(hooks[h1]).(refs := hooks[h1].refs)
      ensures h2 in hooks ==> hooks[h2] == old(hooks[h2]).(refs := hooks[h2].refs)
      ensures (old(Listed(W(), h1)) ==> h1 in hooks) && (old(Listed(W(), h2)) ==> h2 in hooks)
    {
      ghost var w1 := W();
      ForgetTwo(h1, h2);
      ExtendsShape(w0, w1, W(), {h1, h2}, {h1, h2}, {});
    }

    // ---- connecting two nodes

    /**
     Destroy one of two new hooks; both are held by the caller and stay in memory.  Whether the other can be told makes
     no difference in the end.
     */
    method Undo(h: HookId, h2: HookId, x: HookId, ghost w0: World)
      requires Valid() && Pending(w0, W(), h, h2) && x in {h, h2}
      modifies `nodes, `hooks, `heldNodes, `heldHooks
      ensures Valid() && Pending(w0, W(), h, h2) && heldNodes == old(heldNodes) && heldHooks == old(heldHooks)
      ensures hooks[h].peer.None? && hooks[h2].peer.None? && hooks[x].node.None?
      ensures old(hooks[h2].node.None?) ==> hooks[h2].node.None?
      ensures (old(hooks[h].invalid) ==> hooks[h].invalid) && (old(hooks[h2].invalid) ==> hooks[h2].invalid)
    {
      ghost var w1 := W();
      PendingPair(w0, w1, h, h2, x);
      var item: bool := *;
      var told := Destroy(x, item);
      ghost var xs := Pair(w1, x);
      ghost var d := if told then xs else {x};
      ExtendsShape(w0, w1, W(), {h, h2}, xs, d);
      PendingAfter(w1, W(), h, h2, xs, d);
    }

    /** The references of a message about one of two new hooks, taken and given back. */
    method Enter(n: NodeId, h: HookId, h2: HookId, x: HookId, ghost w0: World)
      requires Valid() && Pending(w0, W(), h, h2) && x in {h, h2} && n in nodes
      modifies `nodes, `hooks, `heldNodes, `heldHooks
      ensures Valid() && Pending(w0, W(), h, h2) && n in nodes && Shape(old(W()), W(), {x}, {})
      ensures heldNodes == old(heldNodes) + multiset{n} && heldHooks == old(heldHooks) + multiset{x}
      ensures hooks[h] == old(hooks[h]).(refs := hooks[h].refs) && hooks[h2] == old(hooks[h2]).(refs := hooks[h2].refs)
    {
      ghost var w1 := W();
      TakeRefs(n, x);
      ShapeKeepsListed(w1, W(), {x}, {});
      ExtendsShape(w0, w1, W(), {h, h2}, {x}, {});
      OtherStays(w1, W(), x, if x == h then h2 else h);
    }

    method Exit(n: NodeId, h: HookId, h2: HookId, x: HookId, ghost w0: World)
      requires Valid() && Pending(w0, W(), h, h2) && x in {h, h2} && n in heldNodes && heldHooks[x] > 1
      modifies `nodes, `hooks, `heldNodes, `heldHooks
      ensures Valid() && Pending(w0, W(), h, h2)
      ensures heldNodes == old(heldNodes) - multiset{n} && heldHooks == old(heldHooks) - multiset{x}
      ensures hooks[h] == old(hooks[h]).(refs := hooks[h].refs) && hooks[h2] == old(hooks[h2]).(refs := hooks[h2].refs)
    {
      ghost var w1 := W();
      DropRefs(n, x);
      ShapeKeepsListed(w1, W(), {x}, {});
      PendingStays(w0, w1, W(), h, h2, x);
    }

    /** `ng_con_part3`: the node of the first hook has the last word. */
    method ConPart3(h: HookId, h2: HookId, connect: int, ghost w0: World) returns (error: int)
      requires Valid() && Pending(w0, W(), h, h2) && hooks[h].invalid && hooks[h2].invalid
      modifies `nodes, `hooks, `heldNodes, `heldHooks
      ensures Valid() && Pending(w0, W(), h, h2) && heldNodes == old(heldNodes) && heldHooks == old(heldHooks)
      ensures error == if old(hooks[h].node.None?) then ENOENT else connect
      ensures error == 0 ==> hooks[h] == old(hooks[h]).(invalid := false) && hooks[h2] == old(hooks[h2])
      ensures error != 0 ==> hooks[h].invalid && hooks[h2].invalid
    {
      if hooks[h].node.None? {
        return ENOENT;
      }
      error := connect;
      if error != 0 {
        Undo(h, h2, h, w0);
      } else {
        ghost var w1 := W();
        Validate(h);
        ExtendsTouch(w0, w1, W(), {h, h2});
      }
    }

    /** The message that runs `ng_con_part3`; no item needs to be allocated for it. */
    method SendPart3(n: NodeId, h: HookId, h2: HookId, connect: int, ghost w0: World) returns (error: int)
      requires Valid() && Pending(w0, W(), h, h2) && hooks[h].invalid && hooks[h2].invalid
      requires hooks[h].node == Some(n) && n in w0.nodes
      modifies `nodes, `hooks, `heldNodes, `heldHooks
      ensures Valid() && Pending(w0, W(), h, h2) && heldNodes == old(heldNodes) && heldHooks == old(heldHooks)
      ensures error == if w0.nodes[n].invalid then EINVAL else connect
      ensures error == 0 ==> hooks[h] == old(hooks[h]).(invalid := false, refs := hooks[h].refs)
      ensures error == 0 ==> hooks[h2] == old(hooks[h2]).(refs := hooks[h2].refs)
      ensures error != 0 ==> hooks[h].invalid && hooks[h2].invalid
    {
      assert HookOk(W(), h);
      Enter(n, h, h2, h, w0);
      assert ExtNode(w0, W(), {h, h2}, n);
      if nodes[n].invalid {
        error := EINVAL;
      } else {
        error := ConPart3(h, h2, connect, w0);
      }
      Exit(n, h, h2, h, w0);
      HeldAgain(old(heldHooks), h);
      HeldAgain(old(heldNodes), n);
    }

    /** `ng_con_part2`: the second hook is put on its node, if name and types allow. */
    method ConPart2(n: NodeId, n2: NodeId, h: HookId, h2: HookId, a: ConAnswers, ghost w0: World) returns (error: int)
      requires Valid() && Pending(w0, W(), h, h2) && hooks[h].invalid && hooks[h2].invalid
      requires hooks[h].node == Some(n) && n in w0.nodes
      requires n2 in nodes && n2 in heldNodes && hooks[h2].node.None? && hooks[h2].peer == Some(h)
      modifies `nodes, `hooks, `heldNodes, `heldHooks
      ensures Valid() && Pending(w0, W(), h, h2) && heldNodes == old(heldNodes) && heldHooks == old(heldHooks)
      ensures error == 0 ==> hooks[h] == old(hooks[h]).(invalid := false, refs := hooks[h].refs)
      ensures error == 0 ==> hooks[h2] == old(hooks[h2]).(invalid := false, node := Some(n2), refs := hooks[h2].refs)
      ensures error != 0 ==> hooks[h2].node.None? && hooks[h].peer.None? && hooks[h2].peer.None?
      ensures error == if Taken(old(W()), n2, old(hooks[h2].name), a.search2) then EEXIST
                       else if a.newhook != 0 then a.newhook else if a.connect2 != 0 then a.connect2
                       else if w0.nodes[n].invalid then EINVAL else a.connect
    {
      var found := FindHook(n2, hooks[h2].name, a.search2);
      if found.Some? {
        Undo(h, h2, h2, w0);
        return EEXIST;
      }
      error := a.newhook;
      if error != 0 {
        Undo(h, h2, h2, w0);
        return;
      }
      PutOnNode(n2, h, h2, w0);
      error := Agree(n, h, h2, a, w0);
    }

    /** Both types are asked whether they accept the connection. */
    method Agree(n: NodeId, h: HookId, h2: HookId, a: ConAnswers, ghost w0: World) returns (error: int)
      requires Valid() && Pending(w0, W(), h, h2) && hooks[h].invalid && hooks[h2].invalid
      requires hooks[h].node == Some(n) && n in w0.nodes
      modifies `nodes, `hooks, `heldNodes, `heldHooks
      ensures Valid() && Pending(w0, W(), h, h2) && heldNodes == old(heldNodes) && heldHooks == old(heldHooks)
      ensures error == 0 ==> hooks[h] == old(hooks[h]).(invalid := false, refs := hooks[h].refs)
      ensures error == 0 ==> hooks[h2] == old(hooks[h2]).(invalid := false, refs := hooks[h2].refs)
      ensures error != 0 ==> hooks[h2].node.None? && hooks[h].peer.None? && hooks[h2].peer.None?
      ensures error == if a.connect2 != 0 then a.connect2 else if w0.nodes[n].invalid then EINVAL else a.connect
    {
      error := a.connect2;
      if error == 0 {
        error := SendPart3(n, h, h2, a.connect, w0);
      }
      if error != 0 {
        Undo(h, h2, h2, w0);
        return;
      }
      ghost var w1 := W();
      Validate(h2);
      ExtendsTouch(w0, w1, W(), {h, h2});
    }

    /** A hook that points nowhere yet is attached to its node and put on its list. */
    method PutOnNode(n2: NodeId, h: HookId, h2: HookId, ghost w0: World)
      requires Valid() && Pending(w0, W(), h, h2) && n2 in nodes && hooks[h2].node.None?
      modifies `nodes, `hooks
      ensures Valid() && Pending(w0, W(), h, h2)
      ensures hooks[h] == old(hooks[h]) && hooks[h2] == old(hooks[h2]).(node := Some(n2), refs := hooks[h2].refs)
    {
      ghost var w1 := W();
      AttachInv(w1, h2, n2);
      hooks := hooks[h2 := hooks[h2].(node := Some(n2))];
      nodes := nodes[n2 := nodes[n2].(refs := nodes[n2].refs + 1)];
      ghost var w2 := W();
      assert w2 == Attach(w1, h2, n2);
      Enroll(h2, n2);
      PutListed(w1, W(), h2, n2);
      ExtendsPut(w0, w1, W(), {h, h2}, h2, n2);
    }

    /** The references of the message to the other node; it finds the names there as they were. */
    method EnterSecond(n2: NodeId, h: HookId, h2: HookId, ghost search: int, ghost w0: World)
      requires Valid() && Pending(w0, W(), h, h2) && n2 in nodes
      modifies `nodes, `hooks, `heldNodes, `heldHooks
      ensures Valid() && Pending(w0, W(), h, h2) && n2 in nodes && nodes[n2].invalid == old(nodes[n2].invalid)
      ensures heldNodes == old(heldNodes) + multiset{n2} && heldHooks == old(heldHooks) + multiset{h2}
      ensures hooks[h] == old(hooks[h]).(refs := hooks[h].refs) && hooks[h2] == old(hooks[h2]).(refs := hooks[h2].refs)
      ensures Taken(W(), n2, hooks[h2].name, search) == Taken(old(W()), n2, hooks[h2].name, search)
    {
      ghost var w1 := W();
      Enter(n2, h, h2, h2, w0);
      assert ShapeNode(w1, W(), {}, n2);
      TakenEntered(w1, W(), h2, n2, hooks[h2].name, search);
    }

    /** The message that runs `ng_con_part2` on the other node. */
    method SendPart2(n: NodeId, n2: NodeId, h: HookId, h2: HookId, a: ConAnswers, ghost w0: World) returns (error: int)
      requires Valid() && Pending(w0, W(), h, h2) && hooks[h].invalid && hooks[h2].invalid
      requires hooks[h].node == Some(n) && n in w0.nodes
      requires n2 in nodes && hooks[h2].node.None? && hooks[h2].peer == Some(h)
      modifies `nodes, `hooks, `heldNodes, `heldHooks
      ensures Valid() && Pending(w0, W(), h, h2) && heldNodes == old(heldNodes) && heldHooks == old(heldHooks)
      ensures error == 0 ==> hooks[h] == old(hooks[h]).(invalid := false, refs := hooks[h].refs)
      ensures error == 0 ==> hooks[h2] == old(hooks[h2]).(invalid := false, node := Some(n2), refs := hooks[h2].refs)
      ensures error != 0 ==> hooks[h2].node.None?
      ensures error == SecondError(old(W()), n2, old(hooks[h2].name), w0.nodes[n].invalid, a)
    {
      if !a.item {
        return ENOMEM;
      }
      EnterSecond(n2, h, h2, a.search2, w0);
      if nodes[n2].invalid {
        error := EINVAL;
      } else {
        error := ConPart2(n, n2, h, h2, a, w0);
      }
      Exit(n2, h, h2, h2, w0);
      HeldAgain(old(heldHooks), h2);
      HeldAgain(old(heldNodes), n2);
    }

    /** The maker destroys the first hook and lets both go; both are freed. */
    method FreeBoth(h: HookId, h2: HookId, ghost w0: World)
      requires Valid() && Pending(w0, W(), h, h2) && heldHooks == w0.heldHooks + multiset{h} + multiset{h2}
      requires hooks[h2].node.None?
      modifies `nodes, `hooks, `heldNodes, `heldHooks
      ensures Valid() && Extends(w0, W(), {h, h2}) && heldHooks == w0.heldHooks && h !in hooks && h2 !in hooks
      ensures heldNodes == old(heldNodes)
    {
      Undo(h, h2, h, w0);
      DropTwo(h, h2, w0);
      HeldTwice(w0.heldHooks, h, h2);
      NoReferents(w0, W(), h);
      NoReferents(w0, W(), h2);
    }

    /** `ng_con_nodes` once the first hook exists. */
    method ConRest(n: NodeId, h: HookId, name: string, n2: NodeId, name2: string, a: ConAnswers, ghost w0: World)
      returns (error: int, ghost h2: HookId, ghost new_: set<HookId>)
      requires Valid() && Inv(w0) && Extends(w0, W(), {h}) && h !in w0.hooks && n2 in heldNodes && n2 in nodes
      requires heldHooks == w0.heldHooks + multiset{h} && heldNodes == w0.heldNodes
      requires h in hooks && hooks[h] == Hook(2, None, Some(n), true, name) && n in w0.nodes
      modifies `nodes, `hooks, `heldNodes, `heldHooks
      ensures Valid() && heldNodes == w0.heldNodes && heldHooks == w0.heldHooks
      ensures Fresh(w0, new_) && Extends(w0, W(), new_)
      ensures error == if !a.granted then ENOMEM else SecondError(old(W()), n2, name2, w0.nodes[n].invalid, a)
      ensures error != 0 ==> forall x :: x in new_ ==> x !in hooks
      ensures error == 0 ==> new_ == {h, h2} && h != h2 && h in hooks && h2 in hooks
      ensures error == 0 ==> hooks[h] == Hook(hooks[h].refs, Some(h2), Some(n), false, name)
      ensures error == 0 ==> hooks[h2] == Hook(hooks[h2].refs, Some(h), Some(n2), false, name2)
    {
      if !a.granted {
        h2, new_ := 0, {h};
        error := ENOMEM;
        FreeFirst(h, w0);
      } else {
        ghost var w1 := W();
        var hook2 := BareHook(h, name2, w0);
        h2, new_ := hook2, {h, hook2};
        TakenBare(w1, W(), h, n2, name2, a.search2);
        error := ConSecond(n, n2, h, hook2, a, w0);
      }
    }

    /** Both hooks exist: the other node is asked, and the maker lets them go. */
    method ConSecond(n: NodeId, n2: NodeId, h: HookId, h2: HookId, a: ConAnswers, ghost w0: World) returns (error: int)
      requires Valid() && Pending(w0, W(), h, h2) && hooks[h].invalid && hooks[h2].invalid
      requires hooks[h].node == Some(n) && n in w0.nodes
      requires heldHooks == w0.heldHooks + multiset{h} + multiset{h2}
      requires n2 in nodes && hooks[h2].node.None? && hooks[h2].peer == Some(h)
      modifies `nodes, `hooks, `heldNodes, `heldHooks
      ensures Valid() && Extends(w0, W(), {h, h2}) && heldNodes == old(heldNodes) && heldHooks == w0.heldHooks
      ensures error == SecondError(old(W()), n2, old(hooks[h2].name), w0.nodes[n].invalid, a)
      ensures error != 0 ==> h !in hooks && h2 !in hooks
      ensures error == 0 ==> h in hooks && h2 in hooks
      ensures error == 0 ==> hooks[h] == old(hooks[h]).(invalid := false, refs := hooks[h].refs)
      ensures error == 0 ==> hooks[h2] == old(hooks[h2]).(invalid := false, node := Some(n2), refs := hooks[h2].refs)
    {
      error := SendPart2(n, n2, h, h2, a, w0);
      if error != 0 {
        FreeBoth(h, h2, w0);
      } else {
        DropTwo(h, h2, w0);
        HeldTwice(w0.heldHooks, h, h2);
      }
    }

    /** There will be no second hook: the first one is destroyed and freed. */
    method FreeFirst(h: HookId, ghost w0: World)
      requires Valid() && Inv(w0) && Extends(w0, W(), {h}) && h !in w0.hooks && h in hooks && hooks[h].peer.None?
      requires heldHooks == w0.heldHooks + multiset{h}
      modifies `nodes, `hooks, `heldNodes, `heldHooks
      ensures Valid() && Extends(w0, W(), {h}) && h !in hooks
      ensures heldNodes == old(heldNodes) && heldHooks == w0.heldHooks
    {
      DestroyNew(h, w0);
      ghost var w2 := W();
      Forget(h);
      ExtendsShape(w0, w2, W(), {h}, {h}, {});
      HeldAgain(w0.heldHooks, h);
      NoReferents(w0, W(), h);
    }

    method DestroyNew(h: HookId, ghost w0: World)
      requires Valid() && Extends(w0, W(), {h}) && h !in w0.hooks && h in heldHooks && h in hooks && hooks[h].peer.None?
      modifies `nodes, `hooks, `heldNodes, `heldHooks
      ensures Valid() && Extends(w0, W(), {h}) && heldNodes == old(heldNodes) && heldHooks == old(heldHooks)
      ensures h in hooks && hooks[h].node.None? && hooks[h].peer.None?
    {
      ghost var w1 := W();
      var _ := Destroy(h, false);
      ExtendsShape(w0, w1, W(), {h}, {h}, {h});
    }

    /** The second hook, pointing to no node yet, joined to the first. */
    method BareHook(h: HookId, name2: string, ghost w0: World) returns (h2: HookId)
      requires Valid() && Inv(w0) && Extends(w0, W(), {h}) && h !in w0.hooks && h in hooks && hooks[h].peer.None?
      requires heldHooks == w0.heldHooks + multiset{h}
      modifies `hooks, `heldHooks
      ensures Valid() && Pending(w0, W(), h, h2) && heldHooks == w0.heldHooks + multiset{h} + multiset{h2}
      ensures hooks[h] == old(hooks[h]).(peer := Some(h2), refs := hooks[h].refs)
      ensures hooks[h2] == Hook(hooks[h2].refs, Some(h), None, true, name2)
      ensures forall x :: x in old(hooks) && x != h ==> x in hooks && hooks[x] == old(hooks)[x]
    {
      ghost var w1 := W();
      h2 := AllocHook(name2);
      ghost var w2 := W();
      ExtendsBare(w0, w1, {h}, h2, name2, {h, h2});
      Link(h, h2);
      ExtendsTouch(w0, w2, W(), {h, h2});
    }

    method AllocHook(name: string) returns (h: HookId)
      requires Valid()
      modifies `hooks, `heldHooks
      ensures Valid() && h !in old(hooks) && W() == AddHook(old(W()), h, name)
    {
      ghost var w0 := W();
      FreshExists(hooks);
      h :| h !in hooks;
      AddHookInv(w0, h, name);
      BareListed(w0, h, name);
      hooks := hooks[h := Hook(1, None, None, true, name)];
      heldHooks := heldHooks + multiset{h};
      assert W() == AddHook(w0, h, name);
    }

    /** `ng_con_nodes`: two nodes are joined by two new hooks, or no hook is left behind. */
    method ConNodes(n: NodeId, name: string, n2: NodeId, name2: string, a: ConAnswers)
      returns (error: int, ghost h: HookId, ghost h2: HookId, ghost new_: set<HookId>)
      requires Valid() && n in heldNodes && n in nodes && n2 in heldNodes && n2 in nodes
      modifies `nodes, `hooks, `heldNodes, `heldHooks
      ensures Valid() && heldNodes == old(heldNodes) && heldHooks == old(heldHooks)
      ensures Fresh(old(W()), new_) && Extends(old(W()), W(), new_)
      ensures error == ConError(old(W()), n, name, n2, name2, a)
      ensures error != 0 ==> hooks == old(hooks)
      ensures error == 0 ==> new_ == {h, h2} && Connected(W(), h, n, name, h2, n2, name2)
    {
      ghost var w0 := W();
      h, h2, new_ := 0, 0, {};
      ExtendsSelf(w0);
      var found := FindHook(n2, name2, a.search);
      if found.Some? {
        return EEXIST, 0, 0, {};
      }
      var hook;
      error, hook := AddNewHook(n, name, a.first);
      h := hook;
      if error == 0 {
        ExtendsHooked(w0, w0, {}, h, n, name, {h});
        TakenHooked(w0, h, n, name, n2, name2, a.search2);
        error, h2, new_ := ConRest(n, hook, name, n2, name2, a, w0);
        if error == 0 {
          assert Listed(W(), h) && Listed(W(), h2);
        } else {
          NothingNew(w0, W(), new_);
        }
      }
    }

    // ---- messages

    /** NGM_RMHOOK: a hook of that name, if there is one, is destroyed. */
    method RmHook(n: NodeId, name: string, search: int, item: bool) returns (found: Option<HookId>)
      requires Valid() && n in nodes
      modifies `nodes, `hooks, `heldNodes, `heldHooks
      ensures Valid() && heldNodes == old(heldNodes) && heldHooks == old(heldHooks) && created == old(created)
      ensures found.Some? <==> Taken(old(W()), n, name, search)
      ensures found.None? ==> W() == old(W())
      ensures found.Some? ==> Picked(old(W()), n, name, search, found.value)
      ensures found.Some? ==> Removes(old(W()), W(), found.value, item)
      ensures found.Some? && found.value in hooks ==>
                hooks[found.value].invalid && hooks[found.value].node.None? && hooks[found.value].peer.None?
      ensures !old(nodes[n].ownFind) && found.None? ==>
                forall h :: old(h in nodes[n].hooks) ==> old(h in hooks && (hooks[h].invalid || hooks[h].name != name))
      ensures !old(nodes[n].ownFind) && found.Some? ==>
                old(found.value in hooks && !hooks[found.value].invalid && hooks[found.value].name == name)
    {
      found := FindHook(n, name, search);
      if found.Some? {
        assert NodeOk(W(), n);
        var _ := Destroy(found.value, item);
      }
    }

    /** `ng_bypass`: the peers of two hooks of one node become each other's peers. */
    method Bypass(h1: HookId, h2: HookId) returns (error: int)
      requires Valid() && h1 != h2 && h1 in hooks && h2 in hooks && hooks[h1].node.Some? && hooks[h2].node.Some?
      requires !hooks[h1].invalid && !hooks[h2].invalid ==> hooks[h1].peer.Some? && hooks[h2].peer.Some?
      modifies `nodes, `hooks, `heldNodes, `heldHooks
      ensures Valid() && heldNodes == old(heldNodes) && heldHooks == old(heldHooks)
      ensures (error == 0) == old(hooks[h1].node == hooks[h2].node && !hooks[h1].invalid && !hooks[h2].invalid)
      ensures error != 0 ==> W() == old(W())
      ensures error == 0 ==> Bypasses(old(W()), W(), h1, h2)
      ensures error == 0 && old(hooks[h1].peer) != Some(h2) ==>
                var p1, p2 := old(hooks[h1].peer.value), old(hooks[h2].peer.value);
                p1 in hooks && p2 in hooks && hooks[p1].peer == Some(p2) && hooks[p2].peer == Some(p1)
      ensures old(Tidy(W())) ==> Tidy(W())
    {
      if hooks[h1].node != hooks[h2].node {
        return EINVAL;
      }
      if hooks[h1].invalid || hooks[h2].invalid {
        return EINVAL;
      }
      BypassValid(h1, h2);
      error := 0;
    }

    /** The checks passed: the peers are joined to each other and the two hooks destroyed. */
    method BypassValid(h1: HookId, h2: HookId)
      requires Valid() && Between(W(), h1, h2) && hooks[h1].node.Some? && hooks[h2].node.Some?
      modifies `nodes, `hooks, `heldNodes, `heldHooks
      ensures Valid() && heldNodes == old(heldNodes) && heldHooks == old(heldHooks)
      ensures Bypasses(old(W()), W(), h1, h2)
      ensures old(hooks[h1].peer) != Some(h2) ==>
                var p1, p2 := old(hooks[h1].peer.value), old(hooks[h2].peer.value);
                p1 in hooks && p2 in hooks && hooks[p1].peer == Some(p2) && hooks[p2].peer == Some(p1)
      ensures old(Tidy(W())) ==> Tidy(W())
    {
      ghost var w0, p1, p2 := W(), hooks[h1].peer.value, hooks[h2].peer.value;
      Splice(h1, h2);
      ghost var w1 := W();
      LetGo(h1, h2);
      HeldTwice(old(heldHooks), h1, h2);
      BypassStages(w0, w1, W(), h1, h2);
      assert BypassesHook(w0, W(), h1, h2, p1) && BypassesHook(w0, W(), h1, h2, p2);
    }

    /** Two hooks without peers lose the references the caller held, and are destroyed. */
    method LetGo(h1: HookId, h2: HookId)
      requires Valid() && h1 != h2 && h1 in heldHooks && h2 in heldHooks && h1 in hooks && h2 in hooks
      requires hooks[h1].peer.None? && hooks[h2].peer.None? && hooks[h1].node.Some? && hooks[h2].node.Some?
      modifies `nodes, `hooks, `heldNodes, `heldHooks
      ensures Valid() && heldNodes == old(heldNodes) && heldHooks == old(heldHooks) - multiset{h1} - multiset{h2}
      ensures Loose(W(), {h1, h2}) && Shape(old(W()), W(), {h1, h2}, {h1, h2})
      ensures old(Tidy(W())) ==> Tidy(W())
    {
      ghost var w1 := W();
      assert Listed(w1, h1) && Listed(w1, h2);
      ForgetTwo(h1, h2);
      ghost var w2 := W();
      if Tidy(w1) {
        TidyShape(w1, w2, {h1, h2}, {});
      }
      BypassEnd(h1, h2);
      ShapeTrans(w1, w2, W(), {h1, h2}, {}, {h1, h2}, {h1, h2});
    }

    method BypassEnd(h1: HookId, h2: HookId)
      requires Valid() && h1 != h2 && h1 in hooks && h2 in hooks && hooks[h1].peer.None? && hooks[h2].peer.None?
      requires hooks[h2].node.Some?
      modifies `nodes, `hooks, `heldNodes, `heldHooks
      ensures Valid() && heldNodes == old(heldNodes) && heldHooks == old(heldHooks)
      ensures Loose(W(), {h1, h2}) && Shape(old(W()), W(), {h1, h2}, {h1, h2})
      ensures old(Tidy(W())) ==> Tidy(W())
    {
      ghost var w1 := W();
      var _ := Destroy(h1, false);
      ghost var w2 := W();
      assert ShapeHook(w1, w2, {h1}, {h1}, h2);
      var _ := Destroy(h2, false);
      if Tidy(w1) {
        TidyShape(w1, w2, {h1}, {h1});
        TidyShape(w2, W(), {h2}, {h2});
      }
      assert ShapeHook(w2, W(), {h2}, {h2}, h1);
      ShapeWider(w1, w2, {h1}, {h1, h2}, {h1});
      ShapeWider(w2, W(), {h2}, {h1, h2}, {h2});
      ShapeTrans(w1, w2, W(), {h1, h2}, {h1}, {h2}, {h1, h2});
    }

    /** The pointer assignments of `ng_bypass`; the links given up are references the caller holds now. */
    method Splice(h1: HookId, h2: HookId)
      requires Valid() && h1 != h2 && h1 in hooks && h2 in hooks && hooks[h1].peer.Some? && hooks[h2].peer.Some?
      modifies `hooks, `heldHooks
      ensures Valid() && heldHooks == old(heldHooks) + multiset{h1} + multiset{h2} && hooks.Keys == old(hooks).Keys
      ensures hooks[h1].node == old(hooks[h1].node) && hooks[h2].node == old(hooks[h2].node)
      ensures hooks[h1].peer.None? && hooks[h2].peer.None?
      ensures forall x :: x in hooks ==> BypassedHook(old(W()), h1, h2, x, hooks[x])
      ensures HookOk(old(W()), h1) && HookOk(old(W()), h2)
      ensures old(Tidy(W())) ==> Tidy(W())
    {
      ghost var w0 := W();
      assert HookOk(w0, h1) && HookOk(w0, h2);
      BypassKeeps(w0, h1, h2);
      BypassedIs(w0, h1, h2);
      Rewire(h1, h2);
      heldHooks := heldHooks + multiset{h1} + multiset{h2};
      assert W() == Bypassed(w0, h1, h2);
      SameNodesKeepListed(w0, W());
      if Tidy(w0) {
        TidyBypassed(w0, h1, h2);
      }
    }

    method Rewire(h1: HookId, h2: HookId)
      requires h1 != h2 && h1 in hooks && h2 in hooks && HookOk(W(), h1) && HookOk(W(), h2)
      requires hooks[h1].peer.Some? && hooks[h2].peer.Some?
      modifies `hooks
      ensures hooks == Bypassed(old(W()), h1, h2).hooks
    {
      var p1 := hooks[h1].peer.value;
      hooks := hooks[p1 := hooks[p1].(peer := hooks[h2].peer)];
      var p2 := hooks[h2].peer.value;
      hooks := hooks[p2 := hooks[p2].(peer := hooks[h1].peer)];
      hooks := hooks[h1 := hooks[h1].(peer := None)];
      hooks := hooks[h2 := hooks[h2].(peer := None)];
    }

    /** One message to a node that may or may not exist; it carries a reference to the node. */
    method Handle(m: Message)
      requires Ready() && !m.Create?
      modifies `nodes, `hooks, `created, `heldNodes, `heldHooks
      ensures Ready() && heldNodes == old(heldNodes) && heldHooks == old(heldHooks) && Effect(m, old(W()), W())
    {
      if m.n !in nodes || (nodes[m.n].invalid && !m.MsgShutdown?) {
        return;
      }
      Deliver(m);
    }

    method Deliver(m: Message)
      requires Ready() && !m.Create? && m.n in nodes && (m.MsgShutdown? || !nodes[m.n].invalid)
      modifies `nodes, `hooks, `created, `heldNodes, `heldHooks
      ensures Ready() && heldNodes == old(heldNodes) && heldHooks == old(heldHooks) && Does(m, old(W()), W())
    {
      ghost var w0 := W();
      Take(m.n);
      Apply(m);
      ghost var w2 := W();
      Release(m.n);
      HeldAgain(w0.heldNodes, m.n);
      DoesHeld(m, w0, w2);
      DoesThenIdle(m, w0, w2, W());
    }

    method Take(n: NodeId)
      requires Ready() && n in nodes
      modifies `nodes, `heldNodes
      ensures Ready() && W() == HoldNode(old(W()), n)
    {
      ghost var w0 := W();
      NodeRef(n);
      ShapeKeepsListed(w0, W(), {}, {});
      TidyShape(w0, W(), {}, {});
    }

    method Release(n: NodeId)
      requires Ready() && n in heldNodes
      modifies `nodes, `heldNodes
      ensures Ready() && heldNodes == old(heldNodes) - multiset{n} && Idles(old(W()), W())
    {
      ghost var w0 := W();
      NodeUnref(n);
      ShapeKeepsListed(w0, W(), {}, {});
      TidyShape(w0, W(), {}, {});
    }

    method Apply(m: Message)
      requires Ready() && !m.Create? && m.n in heldNodes && m.n in nodes && (m.MsgShutdown? || !nodes[m.n].invalid)
      modifies `nodes, `hooks, `created, `heldNodes, `heldHooks
      ensures Ready() && heldNodes == old(heldNodes) && heldHooks == old(heldHooks) && Does(m, old(W()), W())
    {
      match m
      case MsgMkPeer(n, name, name2, a) =>
        ApplyMkPeer(n, name, name2, a);
      case MsgConnect(n, name, n2, name2, a) =>
        if n2 in nodes {
          ApplyConnect(n, name, n2, name2, a);
        } else {
          ShapeQuiet(W(), W(), {});
        }
      case MsgRmHook(n, name, search, item) =>
        ApplyRmHook(n, name, search, item);
      case MsgShutdown(n, items, revive) =>
        ApplyShutdown(n, items, revive);
      case MsgBypass(n, name, name2, search, search2) =>
        BypassByName(n, name, name2, search, search2);
    }

    method ApplyMkPeer(n: NodeId, name: string, name2: string, a: PeerAnswers)
      requires Ready() && n in heldNodes && n in nodes && !nodes[n].invalid
      modifies `nodes, `hooks, `created, `heldNodes, `heldHooks
      ensures Ready() && heldNodes == old(heldNodes) && heldHooks == old(heldHooks)
      ensures Does(MsgMkPeer(n, name, name2, a), old(W()), W())
    {
      ghost var w0 := W();
      assert TidyNode(w0, n);
      var error, h1, h2, n2, xs := MkPeer(n, name, name2, a);
      TidyExtends(w0, W(), xs);
      if error == 0 {
        assert Gains(w0, W(), h1, n, name, h2, n2, name2);
      } else {
        assert Remains(w0, W(), xs, n);
      }
    }

    method ApplyConnect(n: NodeId, name: string, n2: NodeId, name2: string, a: ConAnswers)
      requires Ready() && n in heldNodes && n in nodes && n2 in nodes && !nodes[n].invalid
      modifies `nodes, `hooks, `heldNodes, `heldHooks
      ensures Ready() && heldNodes == old(heldNodes) && heldHooks == old(heldHooks)
      ensures Does(MsgConnect(n, name, n2, name2, a), old(W()), W())
    {
      ghost var w0 := W();
      assert TidyNode(w0, n) && TidyNode(w0, n2);
      var error, h, h2, xs := Connect(n, name, n2, name2, a);
      TidyExtends(w0, W(), xs);
      if error == 0 {
        assert Gains(w0, W(), h, n, name, h2, n2, name2);
      } else {
        KeptAll(w0, W(), xs);
      }
    }

    method ApplyRmHook(n: NodeId, name: string, search: int, item: bool)
      requires Ready() && n in nodes
      modifies `nodes, `hooks, `heldNodes, `heldHooks
      ensures Ready() && heldNodes == old(heldNodes) && heldHooks == old(heldHooks)
      ensures Does(MsgRmHook(n, name, search, item), old(W()), W())
    {
      ghost var w0 := W();
      var found := RmHook(n, name, search, item);
      if found.Some? {
        ghost var pair := Pair(w0, found.value);
        TidyShape(w0, W(), pair, if Told(w0, found.value, item) then pair else {found.value});
      } else {
        ShapeQuiet(w0, w0, {});
      }
    }

    method ApplyShutdown(n: NodeId, items: HookId -> bool, revive: bool)
      requires Ready() && n in nodes
      modifies `nodes, `hooks, `created, `heldNodes, `heldHooks
      ensures Ready() && heldNodes == old(heldNodes) && heldHooks == old(heldHooks)
      ensures Does(MsgShutdown(n, items, revive), old(W()), W())
    {
      ghost var w0 := W();
      ghost var d := RmNode(n, items, revive);
      if !w0.nodes[n].closing {
        TidyShutdown(w0, W(), n, d);
      } else {
        ShapeQuiet(w0, w0, {});
      }
    }

    /** A node takes itself out from between two neighbours that are both still there. */
    method BypassByName(n: NodeId, name: string, name2: string, search: int, search2: int)
      requires Ready() && n in nodes
      modifies `nodes, `hooks, `heldNodes, `heldHooks
      ensures Ready() && heldNodes == old(heldNodes) && heldHooks == old(heldHooks)
      ensures Does(MsgBypass(n, name, name2, search, search2), old(W()), W())
    {
      ShapeQuiet(W(), W(), {});
      var h1 := FindHook(n, name, search);
      var h2 := FindHook(n, name2, search2);
      if h1.None? || h2.None? || h1 == h2 {
        return;
      }
      assert NodeOk(W(), n);
      if hooks[h1.value].peer.Some? && hooks[h2.value].peer.Some? {
        var _ := Bypass(h1.value, h2.value);
      }
    }

    /** NGM_CONNECT: the path of the other node was resolved to a reference. */
    method Connect(n: NodeId, name: string, n2: NodeId, name2: string, a: ConAnswers)
      returns (error: int, ghost h: HookId, ghost h2: HookId, ghost new_: set<HookId>)
      requires Valid() && n in heldNodes && n in nodes && n2 in nodes
      modifies `nodes, `hooks, `heldNodes, `heldHooks
      ensures Valid() && heldNodes == old(heldNodes) && heldHooks == old(heldHooks)
      ensures Fresh(old(W()), new_) && Extends(old(W()), W(), new_)
      ensures error == ConError(old(W()), n, name, n2, name2, a)
      ensures error == 0 <==> ConAgreed(old(W()), n, name, n2, name2, a)
      ensures error != 0 ==> hooks == old(hooks)
      ensures error == 0 ==> new_ == {h, h2} && Connected(W(), h, n, name, h2, n2, name2)
    {
      ghost var w0 := W();
      NodeRef(n2);
      ShapeKeepsListed(w0, W(), {}, {});
      ConErrorHeld(w0, n2, n, name, n2, name2, a);
      WhenAgreed(w0, n, name, n2, name2, a);
      error, h, h2, new_ := ConNodes(n, name, n2, name2, a);
      ExtendsHeld(w0, n2, W(), new_);
      HeldAgain(w0.heldNodes, n2);
      Unhold(n2, w0, new_);
      if error == 0 {
        assert Connected(W(), h, n, name, h2, n2, name2);
      }
    }

    /** The reference to the other node is given back. */
    method Unhold(n2: NodeId, ghost w0: World, ghost new_: set<HookId>)
      requires Valid() && n2 in heldNodes && Extends(w0, W(), new_) && Fresh(w0, new_)
      modifies `nodes, `heldNodes
      ensures Valid() && heldNodes == old(heldNodes) - multiset{n2} && Extends(w0, W(), new_)
    {
      ghost var w1 := W();
      NodeUnref(n2);
      ShapeKeepsListed(w1, W(), {}, {});
      ExtendsShape(w0, w1, W(), new_, {}, {});
    }

    /**
     After any run every count is the number of referents, no reference has been lost or kept, and each message has had
     its effect on the graph the one before it left.
     */
    method Run(ms: seq<Message>) returns (ghost ws: seq<World>)
      requires Ready()
      modifies `nodes, `hooks, `created, `heldNodes, `heldHooks
      ensures Ready() && heldNodes == old(heldNodes) && heldHooks == old(heldHooks)
      ensures History(ms, ws) && ws[0] == old(W()) && ws[|ms|] == W()
      ensures forall i :: 0 <= i < |ws| ==> Sane(ws[i])
    {
      ws := [W()];
      for i := 0 to |ms|
        invariant Ready() && heldNodes == old(heldNodes) && heldHooks == old(heldHooks)
        invariant |ws| == i + 1 && History(ms[..i], ws) && ws[0] == old(W()) && ws[i] == W()
        invariant forall j :: 0 <= j < |ws| ==> Sane(ws[j])
      {
        Receive(ms[i]);
        HistorySnoc(ms, i, ws, W());
        ws := ws + [W()];
      }
      assert ms[..|ms|] == ms;
    }

    method Receive(m: Message)
      requires Ready()
      modifies `nodes, `hooks, `created, `heldNodes, `heldHooks
      ensures Ready() && heldNodes == old(heldNodes) && heldHooks == old(heldHooks) && Effect(m, old(W()), W())
    {
      if m.Create? {
        ApplyCreate(m.made);
      } else {
        Handle(m);
      }
    }

    method ApplyCreate(a: NodeAnswers)
      requires Ready()
      modifies `nodes, `created
      ensures Ready() && Effect(Create(a), old(W()), W())
    {
      ghost var w0 := W();
      var error, n := MakeNode(a);
      if error == 0 {
        TidyAddNode(w0, n, a.ownFind);
        assert Adds(w0, W(), n, a.ownFind);
      }
    }
  }

  /**
   The whole life of a graph, from nothing: whatever has happened, the nodes that exist are those that were created
   and not shut down, every hook is on one of them, and with the last node everything is gone.  No node ever had two
   valid hooks of one name, exactly if no node was ever connected to itself by one name twice.
   */
  method Live(ms: seq<Message>) returns (graph: Graph, ghost ws: seq<World>)
    ensures fresh(graph) && graph.Ready() && Accounted(graph.W())
    ensures History(ms, ws) && ws[0] == World(map[], map[], {}, multiset{}, multiset{}) && ws[|ms|] == graph.W()
    ensures (forall i :: 0 <= i < |ws| ==> Distinct(ws[i])) <==> (forall i :: 0 <= i < |ms| ==> !Doubles(ms[i], ws[i]))
    ensures graph.created == {} ==> graph.nodes == map[] && graph.hooks == map[]
  {
    graph := new Graph();
    ws := graph.Run(ms);
    NothingLeaks(graph.W());
    DistinctThroughout(ms, ws);
  }
}
