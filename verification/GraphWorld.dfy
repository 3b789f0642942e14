/**
 The node and hook graph of netgraph (`lib/ff_ng_base.c`, the synchronous FSTACK build).

 Nodes and hooks are reference counted objects in an explicit memory: freeing one removes it, so
 every access is a proof that the object has not been freed.  `World` adds to that memory who owns
 references at the moment: `heldNodes` and `heldHooks` are the references that code or queued items
 hold, `created` are the nodes whose creation reference has not been given up.  What types and allocator
 answer is a parameter; type methods do not re-enter the graph.
 */
module GraphWorld {
  import opened Basics
  import opened Options

  type NodeId = nat
  type HookId = nat

  /** `struct ng_node`. */
  datatype Node = Node(refs: int, hooks: seq<HookId>, numhooks: int, invalid: bool, closing: bool, ownFind: bool)

  /** `struct ng_hook`; no peer means `ng_deadhook`, no node means `ng_deadnode`. */
  datatype Hook = Hook(refs: int, peer: Option<HookId>, node: Option<NodeId>, invalid: bool, name: string)

  datatype World = World(nodes: map<NodeId, Node>, hooks: map<HookId, Hook>,
                         created: set<NodeId>, heldNodes: multiset<NodeId>, heldHooks: multiset<HookId>)

  /** A list without the hooks in d. */
  function Minus(s: seq<HookId>, d: set<HookId>): seq<HookId> {
    if s == [] then [] else if s[0] in d then Minus(s[1..], d) else [s[0]] + Minus(s[1..], d)
  }

  lemma NoDupCons(x: HookId, s: seq<HookId>)
    requires NoDup(s) && x !in s
    ensures NoDup([x] + s)
  {
  }

  lemma {:induction false} MinusHas(s: seq<HookId>, d: set<HookId>)
    ensures forall x :: x in Minus(s, d) <==> x in s && x !in d
    ensures |Minus(s, d)| <= |s|
  {
    if s != [] {
      assert s == [s[0]] + s[1..];
      MinusHas(s[1..], d);
    }
  }

  lemma {:induction false} MinusNoDup(s: seq<HookId>, d: set<HookId>)
    requires NoDup(s)
    ensures NoDup(Minus(s, d))
  {
    if s != [] {
      MinusNoDup(s[1..], d);
      MinusHas(s[1..], d);
      if s[0] !in d {
        assert s[0] !in s[1..];
        NoDupCons(s[0], Minus(s[1..], d));
      }
    }
  }

  lemma {:induction false} MinusNothing(s: seq<HookId>, d: set<HookId>)
    requires forall x :: x in s ==> x !in d
    ensures Minus(s, d) == s
  {
    if s != [] {
      assert s == [s[0]] + s[1..];
      MinusNothing(s[1..], d);
    }
  }

  lemma {:induction false} MinusMinus(s: seq<HookId>, d: set<HookId>, e: set<HookId>)
    ensures Minus(Minus(s, d), e) == Minus(s, d + e)
  {
    if s != [] {
      MinusMinus(s[1..], d, e);
      if s[0] !in d {
        assert Minus(s, d)[1..] == Minus(s[1..], d);
      }
    }
  }

  /** Taking one hook off a list makes it one shorter. */
  lemma {:induction false} MinusOne(s: seq<HookId>, h: HookId)
    requires NoDup(s) && h in s
    ensures |Minus(s, {h})| == |s| - 1
  {
    if s[0] == h {
      assert h !in s[1..];
      MinusNothing(s[1..], {h});
    } else {
      assert h in s[1..];
      MinusOne(s[1..], h);
    }
  }

  // ---- the invariant

  /** The hooks that count as references to node n. */
  function Attached(hooks: map<HookId, Hook>, n: NodeId): set<HookId> {
    set h | h in hooks && hooks[h].node == Some(n)
  }

  /** The hook is on the list of its node. */
  predicate Listed(w: World, h: HookId) {
    h in w.hooks && w.hooks[h].node.Some? && w.hooks[h].node.value in w.nodes &&
    h in w.nodes[w.hooks[h].node.value].hooks
  }

  /** A hook's count is the number of its referents: list, peer and holders.  Peers are mutual. */
  ghost predicate HookOk(w: World, h: HookId)
    requires h in w.hooks
  {
    var hook := w.hooks[h];
    && hook.refs >= 1
    && hook.refs == Bit(Listed(w, h)) + Bit(hook.peer.Some?) + w.heldHooks[h]
    && (hook.peer.Some? ==>
          hook.peer.value != h && hook.peer.value in w.hooks && w.hooks[hook.peer.value].peer == Some(h))
    && (hook.node.Some? ==> hook.node.value in w.nodes)
  }

  /** A node's count is the number of its referents: attached hooks, its creation and holders. */
  ghost predicate NodeOk(w: World, n: NodeId)
    requires n in w.nodes
  {
    var node := w.nodes[n];
    && node.refs >= 1
    && node.refs == |Attached(w.hooks, n)| + Bit(n in w.created) + w.heldNodes[n]
    && node.numhooks == |node.hooks| && NoDup(node.hooks)
    && (forall h :: h in node.hooks ==> h in w.hooks && w.hooks[h].node == Some(n))
    && (!node.closing ==> n in w.created)
  }

  ghost predicate Inv(w: World) {
    && (forall h {:trigger HookOk(w, h)} :: h in w.hooks ==> HookOk(w, h))
    && (forall n {:trigger NodeOk(w, n)} :: n in w.nodes ==> NodeOk(w, n))
    && (forall h :: h in w.heldHooks ==> h in w.hooks)
    && (forall n :: n in w.heldNodes ==> n in w.nodes)
    && w.created <= w.nodes.Keys
  }

  // ---- reference counting

  function HoldHook(w: World, h: HookId): World
    requires h in w.hooks
  {
    w.(hooks := w.hooks[h := w.hooks[h].(refs := w.hooks[h].refs + 1)], heldHooks := w.heldHooks + multiset{h})
  }

  function HoldNode(w: World, n: NodeId): World
    requires n in w.nodes
  {
    w.(nodes := w.nodes[n := w.nodes[n].(refs := w.nodes[n].refs + 1)], heldNodes := w.heldNodes + multiset{n})
  }

  /** `ng_unref_node`. */
  function DropNode(w: World, n: NodeId): World
    requires n in w.nodes
  {
    w.(nodes := NodesLess(w.nodes, n), heldNodes := w.heldNodes - multiset{n})
  }

  /** One reference less to node n; the last one frees it. */
  function NodesLess(nodes: map<NodeId, Node>, n: NodeId): map<NodeId, Node>
    requires n in nodes
  {
    if nodes[n].refs == 1 then nodes - {n} else nodes[n := nodes[n].(refs := nodes[n].refs - 1)]
  }

  /** The hook no longer points to its node; whoever cleared the pointer now owns that reference. */
  function Loosen(w: World, h: HookId): World
    requires h in w.hooks
  {
    if w.hooks[h].node.None? then w else
    w.(hooks := w.hooks[h := w.hooks[h].(node := None)], heldNodes := w.heldNodes + multiset{w.hooks[h].node.value})
  }

  lemma AttachedUpdate(hooks: map<HookId, Hook>, h: HookId, r: Hook, n: NodeId)
    ensures Attached(hooks[h := r], n) ==
            if r.node == Some(n) then Attached(hooks, n) + {h} else Attached(hooks, n) - {h}
    ensures Attached(hooks - {h}, n) == Attached(hooks, n) - {h}
  {
  }

  lemma HoldHookInv(w: World, h: HookId)
    requires Inv(w) && h in w.hooks
    ensures Inv(HoldHook(w, h))
  {
    var w' := HoldHook(w, h);
    forall n | n in w'.nodes ensures NodeOk(w', n) {
      AttachedUpdate(w.hooks, h, w'.hooks[h], n);
      assert NodeOk(w, n);
    }
    forall x | x in w'.hooks ensures HookOk(w', x) {
      assert HookOk(w, x);
    }
  }

  lemma HoldNodeInv(w: World, n: NodeId)
    requires Inv(w) && n in w.nodes
    ensures Inv(HoldNode(w, n))
  {
    var w' := HoldNode(w, n);
    forall m | m in w'.nodes ensures NodeOk(w', m) {
      assert NodeOk(w, m);
    }
    forall x | x in w'.hooks ensures HookOk(w', x) {
      assert HookOk(w, x);
    }
  }

  lemma FreeNodeInv(w: World, n: NodeId)
    requires Inv(w) && n in w.heldNodes && w.nodes[n].refs == 1
    ensures Inv(w.(nodes := w.nodes - {n}, heldNodes := w.heldNodes - multiset{n}))
  {
    var w' := w.(nodes := w.nodes - {n}, heldNodes := w.heldNodes - multiset{n});
    assert NodeOk(w, n);
    assert Attached(w.hooks, n) == {};
    forall m | m in w'.nodes ensures NodeOk(w', m) {
      assert NodeOk(w, m);
    }
    forall x | x in w'.hooks ensures HookOk(w', x) {
      assert HookOk(w, x);
      assert x !in Attached(w.hooks, n);
    }
  }

  lemma DropNodeInv(w: World, n: NodeId)
    requires Inv(w) && n in w.heldNodes
    ensures n in w.nodes && Inv(DropNode(w, n))
  {
    assert NodeOk(w, n);
    if w.nodes[n].refs == 1 {
      FreeNodeInv(w, n);
    } else {
      var w' := DropNode(w, n);
      forall m | m in w'.nodes ensures NodeOk(w', m) {
        assert NodeOk(w, m);
      }
      forall x | x in w'.hooks ensures HookOk(w', x) {
        assert HookOk(w, x);
      }
    }
  }

  lemma LoosenInv(w: World, h: HookId)
    requires Inv(w) && h in w.hooks && !Listed(w, h)
    ensures Inv(Loosen(w, h)) && Loosen(w, h).hooks[h] == w.hooks[h].(node := None)
  {
    var w' := Loosen(w, h);
    assert HookOk(w, h);
    forall n | n in w'.nodes ensures NodeOk(w', n) {
      assert NodeOk(w, n);
      AttachedUpdate(w.hooks, h, w'.hooks[h], n);
    }
    forall x | x in w'.hooks ensures HookOk(w', x) {
      assert HookOk(w, x);
    }
  }

  /** The hook no longer points to its node, and no longer counts as a reference to it. */
  function LoseNode(w: World, h: HookId): World
    requires h in w.hooks && (w.hooks[h].node.Some? ==> w.hooks[h].node.value in w.nodes)
  {
    if w.hooks[h].node.None? then w else
    w.(hooks := w.hooks[h := w.hooks[h].(node := None)], nodes := NodesLess(w.nodes, w.hooks[h].node.value))
  }

  lemma LoseNodeInv(w: World, h: HookId)
    requires Inv(w) && h in w.hooks && !Listed(w, h)
    ensures HookOk(w, h) && Inv(LoseNode(w, h))
  {
    assert HookOk(w, h);
    if w.hooks[h].node.Some? {
      var n := w.hooks[h].node.value;
      LoosenInv(w, h);
      DropNodeInv(Loosen(w, h), n);
      assert w.heldNodes + multiset{n} - multiset{n} == w.heldNodes;
      assert DropNode(Loosen(w, h), n) == LoseNode(w, h);
    }
  }

  /** One reference less to a hook that has others. */
  function ReleaseHook(w: World, h: HookId): World
    requires h in w.hooks
  {
    w.(hooks := w.hooks[h := w.hooks[h].(refs := w.hooks[h].refs - 1)], heldHooks := w.heldHooks - multiset{h})
  }

  function ForgetHook(w: World, h: HookId): World {
    w.(hooks := w.hooks - {h}, heldHooks := w.heldHooks - multiset{h})
  }

  /** `ng_unref_hook`: the last reference gives up the hook's node as well. */
  function DropHook(w: World, h: HookId): World
    requires h in w.hooks && (w.hooks[h].node.Some? ==> w.hooks[h].node.value in w.nodes)
  {
    if w.hooks[h].refs > 1 then ReleaseHook(w, h) else ForgetHook(LoseNode(w, h), h)
  }

  lemma ForgetHookInv(w: World, h: HookId)
    requires Inv(w) && h in w.heldHooks && w.hooks[h].refs == 1 && w.hooks[h].node.None?
    ensures Inv(ForgetHook(w, h))
  {
    var w' := ForgetHook(w, h);
    assert HookOk(w, h);
    forall n | n in w'.nodes ensures NodeOk(w', n) {
      assert NodeOk(w, n);
      AttachedUpdate(w.hooks, h, w.hooks[h], n);
      assert Attached(w.hooks, n) == Attached(w'.hooks, n);
    }
    forall x | x in w'.hooks ensures HookOk(w', x) {
      assert HookOk(w, x);
    }
  }

  lemma ReleaseHookInv(w: World, h: HookId)
    requires Inv(w) && h in w.heldHooks && w.hooks[h].refs > 1
    ensures Inv(ReleaseHook(w, h))
  {
    var w' := ReleaseHook(w, h);
    forall n | n in w'.nodes ensures NodeOk(w', n) {
      assert NodeOk(w, n);
      AttachedUpdate(w.hooks, h, w'.hooks[h], n);
    }
    forall x | x in w'.hooks ensures HookOk(w', x) {
      assert HookOk(w, x);
    }
  }

  lemma DropHookInv(w: World, h: HookId)
    requires Inv(w) && h in w.heldHooks
    ensures h in w.hooks && HookOk(w, h) && Inv(DropHook(w, h))
  {
    assert HookOk(w, h);
    if w.hooks[h].refs > 1 {
      ReleaseHookInv(w, h);
    } else {
      LoseNodeInv(w, h);
      ForgetHookInv(LoseNode(w, h), h);
    }
  }

  // ---- changing links

  /** Two peers forget each other; the references they were stand with whoever did it. */
  function Sever(w: World, h: HookId): World
    requires h in w.hooks && w.hooks[h].peer.Some? && w.hooks[h].peer.value in w.hooks
  {
    var p := w.hooks[h].peer.value;
    w.(hooks := w.hooks[h := w.hooks[h].(peer := None)][p := w.hooks[p].(peer := None)],
       heldHooks := w.heldHooks + multiset{h, p})
  }

  lemma SeverInv(w: World, h: HookId)
    requires Inv(w) && h in w.hooks && w.hooks[h].peer.Some?
    ensures HookOk(w, h) && Inv(Sever(w, h))
  {
    assert HookOk(w, h);
    var p := w.hooks[h].peer.value;
    assert HookOk(w, p);
    var w' := Sever(w, h);
    forall n | n in w'.nodes ensures NodeOk(w', n) {
      assert NodeOk(w, n);
      assert Attached(w'.hooks, n) == Attached(w.hooks, n);
    }
    forall x | x in w'.hooks ensures HookOk(w', x) {
      assert HookOk(w, x);
    }
  }

  /** Two hooks without peers become peers; each is a reference to the other. */
  function Join(w: World, h: HookId, p: HookId): World
    requires h in w.hooks && p in w.hooks
  {
    w.(hooks := w.hooks[h := w.hooks[h].(peer := Some(p), refs := w.hooks[h].refs + 1)]
                       [p := w.hooks[p].(peer := Some(h), refs := w.hooks[p].refs + 1)])
  }

  lemma JoinInv(w: World, h: HookId, p: HookId)
    requires Inv(w) && h in w.hooks && p in w.hooks && h != p && w.hooks[h].peer.None? && w.hooks[p].peer.None?
    ensures Inv(Join(w, h, p))
  {
    var w' := Join(w, h, p);
    assert HookOk(w, h) && HookOk(w, p);
    forall n | n in w'.nodes ensures NodeOk(w', n) {
      assert NodeOk(w, n);
      assert Attached(w'.hooks, n) == Attached(w.hooks, n);
    }
    forall x | x in w'.hooks ensures HookOk(w', x) {
      assert HookOk(w, x);
    }
  }

  /** Off the node's list; the list's reference stands with whoever did it. */
  function Delist(w: World, h: HookId): World
    requires h in w.hooks && w.hooks[h].node.Some? && w.hooks[h].node.value in w.nodes
  {
    var n := w.hooks[h].node.value;
    w.(nodes := w.nodes[n := w.nodes[n].(hooks := Minus(w.nodes[n].hooks, {h}), numhooks := w.nodes[n].numhooks - 1)],
       heldHooks := w.heldHooks + multiset{h})
  }

  lemma DelistInv(w: World, h: HookId)
    requires Inv(w) && Listed(w, h)
    ensures Inv(Delist(w, h)) && !Listed(Delist(w, h), h)
  {
    var w', n := Delist(w, h), w.hooks[h].node.value;
    assert NodeOk(w, n) && HookOk(w, h);
    MinusHas(w.nodes[n].hooks, {h});
    MinusNoDup(w.nodes[n].hooks, {h});
    MinusOne(w.nodes[n].hooks, h);
    forall m | m in w'.nodes ensures NodeOk(w', m) {
      assert NodeOk(w, m);
    }
    forall x | x in w'.hooks ensures HookOk(w', x) {
      assert HookOk(w, x);
    }
  }

  /** `LIST_INSERT_HEAD` with the count and the reference that go with it. */
  function Enlist(w: World, h: HookId): World
    requires h in w.hooks && w.hooks[h].node.Some? && w.hooks[h].node.value in w.nodes
  {
    var n := w.hooks[h].node.value;
    w.(nodes := w.nodes[n := w.nodes[n].(hooks := [h] + w.nodes[n].hooks, numhooks := w.nodes[n].numhooks + 1)],
       hooks := w.hooks[h := w.hooks[h].(refs := w.hooks[h].refs + 1)])
  }

  lemma EnlistInv(w: World, h: HookId)
    requires Inv(w) && h in w.hooks && w.hooks[h].node.Some? && w.hooks[h].node.value in w.nodes && !Listed(w, h)
    ensures Inv(Enlist(w, h)) && Listed(Enlist(w, h), h)
  {
    var w', n := Enlist(w, h), w.hooks[h].node.value;
    assert NodeOk(w, n) && HookOk(w, h);
    NoDupCons(h, w.nodes[n].hooks);
    forall m | m in w'.nodes ensures NodeOk(w', m) {
      assert NodeOk(w, m);
      AttachedUpdate(w.hooks, h, w'.hooks[h], m);
    }
    forall x | x in w'.hooks ensures HookOk(w', x) {
      assert HookOk(w, x);
    }
  }

  /** The hook points to node n, and counts as a reference to it. */
  function Attach(w: World, h: HookId, n: NodeId): World
    requires h in w.hooks && n in w.nodes
  {
    w.(hooks := w.hooks[h := w.hooks[h].(node := Some(n))],
       nodes := w.nodes[n := w.nodes[n].(refs := w.nodes[n].refs + 1)])
  }

  lemma AttachInv(w: World, h: HookId, n: NodeId)
    requires Inv(w) && h in w.hooks && n in w.nodes && w.hooks[h].node.None?
    ensures Inv(Attach(w, h, n)) && !Listed(Attach(w, h, n), h)
  {
    var w' := Attach(w, h, n);
    assert NodeOk(w, n) && HookOk(w, h);
    forall m | m in w'.nodes ensures NodeOk(w', m) {
      assert NodeOk(w, m);
      AttachedUpdate(w.hooks, h, w'.hooks[h], m);
    }
    forall x | x in w'.hooks ensures HookOk(w', x) {
      assert HookOk(w, x);
    }
  }

  /** A new hook, without node or peer, held by its maker. */
  function AddHook(w: World, h: HookId, name: string): World {
    w.(hooks := w.hooks[h := Hook(1, None, None, true, name)], heldHooks := w.heldHooks + multiset{h})
  }

  lemma AddHookInv(w: World, h: HookId, name: string)
    requires Inv(w) && h !in w.hooks
    ensures Inv(AddHook(w, h, name)) && !Listed(AddHook(w, h, name), h)
  {
    var w' := AddHook(w, h, name);
    assert h !in w.heldHooks;
    forall m | m in w'.nodes ensures NodeOk(w', m) {
      assert NodeOk(w, m);
      AttachedUpdate(w.hooks, h, w'.hooks[h], m);
      assert Attached(w'.hooks, m) == Attached(w.hooks, m);
    }
    forall x | x in w'.hooks ensures HookOk(w', x) {
      if x != h {
        assert HookOk(w, x);
      }
    }
  }

  /** A new node with its creation reference. */
  function AddNode(w: World, n: NodeId, ownFind: bool): World {
    w.(nodes := w.nodes[n := Node(1, [], 0, false, false, ownFind)], created := w.created + {n})
  }

  lemma AddNodeInv(w: World, n: NodeId, ownFind: bool)
    requires Inv(w) && n !in w.nodes
    ensures Inv(AddNode(w, n, ownFind))
  {
    var w' := AddNode(w, n, ownFind);
    assert n !in w.heldNodes;
    forall h | h in w.hooks ensures HookOk(w', h) && w.hooks[h].node != Some(n) {
      assert HookOk(w, h);
    }
    assert Attached(w.hooks, n) == {};
    forall m | m in w'.nodes ensures NodeOk(w', m) {
      if m != n {
        assert NodeOk(w, m);
      }
    }
  }

  /** The creation reference passes to the code that is about to drop it. */
  function GiveUp(w: World, n: NodeId): World {
    w.(created := w.created - {n}, heldNodes := w.heldNodes + multiset{n})
  }

  lemma GiveUpInv(w: World, n: NodeId)
    requires Inv(w) && n in w.created && w.nodes[n].closing
    ensures Inv(GiveUp(w, n))
  {
    var w' := GiveUp(w, n);
    forall m | m in w'.nodes ensures NodeOk(w', m) {
      assert NodeOk(w, m);
    }
    forall x | x in w'.hooks ensures HookOk(w', x) {
      assert HookOk(w, x);
    }
  }

  /** Flags are no references. */
  lemma FlagInv(w: World, h: HookId, invalid: bool)
    requires Inv(w) && h in w.hooks
    ensures Inv(w.(hooks := w.hooks[h := w.hooks[h].(invalid := invalid)]))
  {
    var w' := w.(hooks := w.hooks[h := w.hooks[h].(invalid := invalid)]);
    forall m | m in w'.nodes ensures NodeOk(w', m) {
      assert NodeOk(w, m);
      assert Attached(w'.hooks, m) == Attached(w.hooks, m);
    }
    forall x | x in w'.hooks ensures HookOk(w', x) {
      assert HookOk(w, x);
    }
  }

  lemma NodeFlagInv(w: World, n: NodeId, invalid: bool, closing: bool)
    requires Inv(w) && n in w.nodes && (!closing ==> n in w.created)
    ensures Inv(w.(nodes := w.nodes[n := w.nodes[n].(invalid := invalid, closing := closing)]))
  {
    var w' := w.(nodes := w.nodes[n := w.nodes[n].(invalid := invalid, closing := closing)]);
    forall m | m in w'.nodes ensures NodeOk(w', m) {
      assert NodeOk(w, m);
    }
    forall x | x in w'.hooks ensures HookOk(w', x) {
      assert HookOk(w, x);
    }
  }

  // ---- what a step changes

  /** How a hook in the hands of an operation may change; those in d have left their node. */
  predicate HookShape(old_: Hook, new_: Hook, left: bool) {
    && new_.name == old_.name && (old_.invalid ==> new_.invalid)
    && (new_.peer.None? || new_.peer == old_.peer)
    && new_.node == (if left then None else old_.node)
  }

  predicate ShapeHook(w: World, w': World, xs: set<HookId>, d: set<HookId>, x: HookId) {
    && (x in w'.hooks ==> x in w.hooks)
    && (x in w.hooks && x !in xs ==> x in w'.hooks && w'.hooks[x] == w.hooks[x])
    && (x in w.hooks && x in w'.hooks && x in xs ==> HookShape(w.hooks[x], w'.hooks[x], x in d))
  }

  predicate ShapeNode(w: World, w': World, d: set<HookId>, n: NodeId) {
    n in w'.nodes ==>
      && n in w.nodes && w'.nodes[n].hooks == Minus(w.nodes[n].hooks, d)
      && w'.nodes[n].invalid == w.nodes[n].invalid && w'.nodes[n].closing == w.nodes[n].closing
      && w'.nodes[n].ownFind == w.nodes[n].ownFind
  }

  /**
   Nothing is added, hooks outside `xs` are untouched, and exactly the hooks in `d` leave the lists.
   Counts are not mentioned: the invariant determines them.
   */
  ghost predicate Shape(w: World, w': World, xs: set<HookId>, d: set<HookId>) {
    && w'.created == w.created
    && (forall x {:trigger ShapeHook(w, w', xs, d, x)} :: ShapeHook(w, w', xs, d, x))
    && (forall n {:trigger ShapeNode(w, w', d, n)} :: ShapeNode(w, w', d, n))
  }

  lemma ShapeTrans(a: World, b: World, c: World, xs: set<HookId>, d: set<HookId>, e: set<HookId>, f: set<HookId>)
    requires Shape(a, b, xs, d) && Shape(b, c, xs, e) && f == d + e
    ensures Shape(a, c, xs, f)
  {
    forall x: HookId ensures ShapeHook(a, c, xs, f, x) {
      assert ShapeHook(a, b, xs, d, x) && ShapeHook(b, c, xs, e, x);
    }
    forall n: NodeId ensures ShapeNode(a, c, f, n) {
      assert ShapeNode(a, b, d, n) && ShapeNode(b, c, e, n);
      if n in c.nodes {
        MinusMinus(a.nodes[n].hooks, d, e);
      }
    }
  }

  lemma ShapeWider(w: World, w': World, xs: set<HookId>, ys: set<HookId>, d: set<HookId>)
    requires Shape(w, w', xs, d) && xs <= ys && d <= xs
    ensures Shape(w, w', ys, d)
  {
    forall x: HookId ensures ShapeHook(w, w', ys, d, x) {
      assert ShapeHook(w, w', xs, d, x);
    }
  }

  lemma ShapeQuiet(w: World, w': World, xs: set<HookId>)
    requires w'.created == w.created
    requires forall x :: ShapeHook(w, w', xs, {}, x)
    requires forall n :: n in w'.nodes ==> n in w.nodes && w'.nodes[n] == w.nodes[n].(refs := w'.nodes[n].refs)
    ensures Shape(w, w', xs, {})
  {
    forall n: NodeId ensures ShapeNode(w, w', {}, n) {
      if n in w'.nodes {
        MinusNothing(w.nodes[n].hooks, {});
      }
    }
  }

  lemma DropNodeShape(w: World, n: NodeId)
    requires n in w.nodes
    ensures Shape(w, DropNode(w, n), {}, {})
  {
    ShapeQuiet(w, DropNode(w, n), {});
  }

  lemma HoldNodeShape(w: World, n: NodeId)
    requires n in w.nodes
    ensures Shape(w, HoldNode(w, n), {}, {})
  {
    ShapeQuiet(w, HoldNode(w, n), {});
  }

  lemma HoldHookShape(w: World, h: HookId)
    requires h in w.hooks
    ensures Shape(w, HoldHook(w, h), {h}, {})
  {
    ShapeQuiet(w, HoldHook(w, h), {h});
  }

  lemma ReleaseHookShape(w: World, h: HookId)
    requires h in w.hooks
    ensures Shape(w, ReleaseHook(w, h), {h}, {})
  {
    ShapeQuiet(w, ReleaseHook(w, h), {h});
  }

  lemma FreeHookShape(w: World, h: HookId)
    requires h in w.hooks && (w.hooks[h].node.Some? ==> w.hooks[h].node.value in w.nodes)
    ensures Shape(w, ForgetHook(LoseNode(w, h), h), {h}, {})
  {
    var w' := ForgetHook(LoseNode(w, h), h);
    forall x: HookId ensures ShapeHook(w, w', {h}, {}, x) {
    }
    ShapeQuiet(w, w', {h});
  }

  lemma DropHookShape(w: World, h: HookId)
    requires Inv(w) && h in w.heldHooks
    ensures h in w.hooks && HookOk(w, h) && Shape(w, DropHook(w, h), {h}, {})
  {
    assert HookOk(w, h);
    if w.hooks[h].refs > 1 {
      ReleaseHookShape(w, h);
    } else {
      FreeHookShape(w, h);
    }
  }

  lemma SeverShape(w: World, h: HookId)
    requires Inv(w) && h in w.hooks && w.hooks[h].peer.Some?
    ensures HookOk(w, h) && Shape(w, Sever(w, h), {h, w.hooks[h].peer.value}, {})
  {
    assert HookOk(w, h);
    ShapeQuiet(w, Sever(w, h), {h, w.hooks[h].peer.value});
  }

  lemma LoseNodeShape(w: World, h: HookId)
    requires Inv(w) && h in w.hooks && !Listed(w, h)
    ensures HookOk(w, h) && Shape(w, LoseNode(w, h), {h}, {h})
  {
    assert HookOk(w, h);
    var w' := LoseNode(w, h);
    forall n: NodeId ensures ShapeNode(w, w', {h}, n) {
      if n in w'.nodes {
        assert NodeOk(w, n);
        MinusNothing(w.nodes[n].hooks, {h});
      }
    }
    forall x: HookId ensures ShapeHook(w, w', {h}, {h}, x) {
    }
  }

  /** Off the list, but still pointing to the node: everything else is as it was. */
  lemma DelistLists(w: World, h: HookId)
    requires Inv(w) && Listed(w, h)
    ensures forall n :: n in w.nodes ==> Delist(w, h).nodes[n].hooks == Minus(w.nodes[n].hooks, {h})
  {
    forall n | n in w.nodes ensures Delist(w, h).nodes[n].hooks == Minus(w.nodes[n].hooks, {h}) {
      if w.hooks[h].node != Some(n) {
        assert NodeOk(w, n);
        MinusNothing(w.nodes[n].hooks, {h});
      }
    }
  }

  lemma LeaveShape(w: World, h: HookId)
    requires Inv(w) && Listed(w, h)
    ensures Inv(Delist(w, h)) && !Listed(Delist(w, h), h) && Inv(LoseNode(Delist(w, h), h))
    ensures Shape(w, LoseNode(Delist(w, h), h), {h}, {h})
  {
    DelistInv(w, h);
    DelistLists(w, h);
    var w1 := Delist(w, h);
    LoseNodeInv(w1, h);
    LoseNodeShape(w1, h);
    var w2 := LoseNode(w1, h);
    forall n: NodeId ensures ShapeNode(w, w2, {h}, n) {
      assert ShapeNode(w1, w2, {h}, n);
      if n in w2.nodes {
        assert {h} + {h} == {h};
        MinusMinus(w.nodes[n].hooks, {h}, {h});
      }
    }
    forall x: HookId ensures ShapeHook(w, w2, {h}, {h}, x) {
      assert ShapeHook(w1, w2, {h}, {h}, x);
    }
  }

  lemma ShapeKeepsNoPeer(w: World, w': World, xs: set<HookId>, d: set<HookId>)
    requires Shape(w, w', xs, d)
    ensures forall x :: x in w'.hooks ==> x in w.hooks
    ensures forall x :: x in w'.hooks && w.hooks[x].peer.None? ==> w'.hooks[x].peer.None?
    ensures forall x :: x in w'.hooks && w.hooks[x].invalid ==> w'.hooks[x].invalid
  {
    forall x | x in w'.hooks
      ensures x in w.hooks && (w.hooks[x].peer.None? ==> w'.hooks[x].peer.None?)
      ensures w.hooks[x].invalid ==> w'.hooks[x].invalid
    {
      assert ShapeHook(w, w', xs, d, x);
    }
  }

  lemma FlagShape(w: World, h: HookId)
    requires Inv(w) && h in w.hooks
    ensures Inv(Flag(w, h)) && Shape(w, Flag(w, h), {h}, {})
  {
    FlagInv(w, h, true);
    ShapeQuiet(w, Flag(w, h), {h});
  }

  function Flag(w: World, h: HookId): World
    requires h in w.hooks
  {
    w.(hooks := w.hooks[h := w.hooks[h].(invalid := true)])
  }

  /** A hook without a node is on no list, so it may be counted among those that left. */
  lemma AlsoLeaves(w: World, w': World, xs: set<HookId>, d: set<HookId>, h: HookId, f: set<HookId>)
    requires Inv(w) && (h in w.hooks ==> w.hooks[h].node.None?) && h in xs && Shape(w, w', xs, d) && f == d + {h}
    ensures Shape(w, w', xs, f)
  {
    forall x: HookId ensures ShapeHook(w, w', xs, f, x) {
      assert ShapeHook(w, w', xs, d, x);
    }
    forall n: NodeId ensures ShapeNode(w, w', f, n) {
      assert ShapeNode(w, w', d, n);
      if n in w'.nodes {
        assert NodeOk(w, n);
        MinusNothing(w.nodes[n].hooks, {h});
        assert {h} + d == f;
        MinusMinus(w.nodes[n].hooks, {h}, d);
      }
    }
  }

  // ---- between operations

  /** Every hook that points to a node is on that node's list. */
  ghost predicate AllListed(w: World) {
    forall h {:trigger Listed(w, h)} :: h in w.hooks && w.hooks[h].node.Some? ==> Listed(w, h)
  }

  /** The hook and its peer are on the lists of the nodes they point to. */
  ghost predicate InOrder(w: World, h: HookId) {
    && h in w.hooks && (w.hooks[h].node.Some? ==> Listed(w, h))
    && (w.hooks[h].peer.Some? && w.hooks[h].peer.value in w.hooks ==>
          (w.hooks[w.hooks[h].peer.value].node.Some? ==> Listed(w, w.hooks[h].peer.value)))
  }

  lemma AllInOrder(w: World, h: HookId)
    requires Inv(w) && AllListed(w) && h in w.hooks
    ensures InOrder(w, h)
  {
    assert HookOk(w, h);
    assert w.hooks[h].node.Some? ==> Listed(w, h);
    if w.hooks[h].peer.Some? {
      var p := w.hooks[h].peer.value;
      assert w.hooks[p].node.Some? ==> Listed(w, p);
    }
  }

  lemma ListedStays(w: World, w': World, xs: set<HookId>, d: set<HookId>, h: HookId)
    requires Inv(w') && Shape(w, w', xs, d) && h in w'.hooks && h !in d && Listed(w, h)
    ensures Listed(w', h)
  {
    assert ShapeHook(w, w', xs, d, h) && HookOk(w', h);
    var n := w'.hooks[h].node.value;
    assert ShapeNode(w, w', d, n);
    MinusHas(w.nodes[n].hooks, d);
  }

  lemma ShapeKeepsListed(w: World, w': World, xs: set<HookId>, d: set<HookId>)
    requires Inv(w') && AllListed(w) && Shape(w, w', xs, d) && d <= xs
    ensures AllListed(w')
  {
    forall h | h in w'.hooks && w'.hooks[h].node.Some? ensures Listed(w', h) {
      assert ShapeHook(w, w', xs, d, h);
      assert Listed(w, h);
      ListedStays(w, w', xs, d, h);
    }
  }

  lemma NothingToLeave(w: World, h: HookId)
    requires Inv(w) && (h in w.hooks ==> w.hooks[h].node.None?)
    ensures Shape(w, w, {h}, {h})
  {
    ShapeQuiet(w, w, {h});
    AlsoLeaves(w, w, {h}, {}, h, {h});
  }

  /** Flag, divorce and departure put together. */
  lemma ThreeStages(w: World, w1: World, w2: World, w3: World, h: HookId, xs: set<HookId>, told: bool)
    requires Shape(w, w1, {h}, {}) && Shape(w1, w2, xs, if told then xs - {h} else {}) && Shape(w2, w3, {h}, {h})
    requires h in xs && h in w1.hooks && w1.hooks[h].invalid
    requires forall x :: x in xs && x in w2.hooks ==> w2.hooks[x].peer.None?
    ensures Shape(w, w3, xs, if told then xs else {h})
    ensures forall x :: x in xs && x in w3.hooks ==> w3.hooks[x].peer.None?
    ensures h in w3.hooks ==> w3.hooks[h].invalid
  {
    var d := if told then xs - {h} else {};
    ShapeWider(w, w1, {h}, xs, {});
    ShapeTrans(w, w1, w2, xs, {}, d, d);
    ShapeWider(w2, w3, {h}, xs, {h});
    ShapeTrans(w, w2, w3, xs, d, {h}, if told then xs else {h});
    ShapeKeepsNoPeer(w1, w2, xs, d);
    ShapeKeepsNoPeer(w2, w3, {h}, {h});
  }

  lemma TellKeeps(w1: World, w2: World, h: HookId, p: HookId, told: bool)
    requires Inv(w2) && Shape(w1, w2, {p}, if told then {p} else {}) && h != p && h in w2.heldHooks
    ensures Listed(w1, h) ==> Listed(w2, h)
  {
    if Listed(w1, h) {
      ListedStays(w1, w2, {p}, if told then {p} else {}, h);
    }
  }

  lemma ToldStages(w1: World, w2: World, w3: World, h: HookId, p: HookId, d: set<HookId>)
    requires Shape(w1, w2, {p}, d) && d <= {p} && Shape(w2, w3, {h, p}, {})
    ensures Shape(w1, w3, {h, p}, d)
  {
    ShapeWider(w1, w2, {p}, {h, p}, d);
    ShapeTrans(w1, w2, w3, {h, p}, d, {}, d);
  }

  /** Severing, and then telling the peer and dropping the two references, put together. */
  lemma DivorceStages(w: World, w1: World, w2: World, h: HookId, p: HookId, told: bool)
    requires h != p && Shape(w, w1, {h, p}, {}) && Shape(w1, w2, {h, p}, if told then {p} else {})
    requires h in w1.hooks && p in w1.hooks && w1.hooks[h].peer.None? && w1.hooks[p].peer.None?
    ensures Shape(w, w2, {h, p}, if told then {h, p} - {h} else {})
    ensures forall x :: x in {h, p} && x in w2.hooks ==> w2.hooks[x].peer.None?
  {
    var d := if told then {h, p} - {h} else {};
    assert d == if told then {p} else {};
    ShapeTrans(w, w1, w2, {h, p}, {}, d, d);
    ShapeKeepsNoPeer(w1, w2, {h, p}, d);
  }

  /** A message's references taken, the message delivered or not, and the references given back. */
  lemma MessageStages(w: World, w1: World, w2: World, w3: World, p: HookId, d: set<HookId>)
    requires Shape(w, w1, {p}, {}) && Shape(w1, w2, {p}, d) && Shape(w2, w3, {p}, {})
    ensures Shape(w, w3, {p}, d)
    ensures p in w3.hooks ==> p in w2.hooks && (w2.hooks[p].invalid ==> w3.hooks[p].invalid)
  {
    ShapeTrans(w, w1, w2, {p}, {}, d, d);
    ShapeTrans(w, w2, w3, {p}, d, {}, d);
    ShapeKeepsNoPeer(w2, w3, {p}, {});
  }

  lemma HeldTwice(held: multiset<nat>, x: nat, y: nat)
    ensures held + multiset{x} + multiset{y} - multiset{x} - multiset{y} == held
  {
  }

  lemma HeldAgain(held: multiset<nat>, x: nat)
    ensures held + multiset{x} - multiset{x} == held
  {
  }

  lemma HeldBack(held: multiset<HookId>, h: HookId, p: HookId)
    ensures held + multiset{h, p} - multiset{p} - multiset{h} == held
  {
  }

  /** The hooks an operation on h concerns. */
  function Pair(w: World, h: HookId): set<HookId>
    requires h in w.hooks
  {
    if w.hooks[h].peer.Some? then {h, w.hooks[h].peer.value} else {h}
  }

  /** A hook that lost its peer learns of it: an item can be had, and it is on a node that takes messages. */
  predicate Hears(w: World, p: HookId, item: bool) {
    item && p in w.hooks && w.hooks[p].node.Some? && w.hooks[p].node.value in w.nodes &&
    !w.nodes[w.hooks[p].node.value].invalid
  }

  predicate Told(w: World, h: HookId, item: bool) {
    h in w.hooks && w.hooks[h].peer.Some? && Hears(w, w.hooks[h].peer.value, item)
  }

  // ---- shutting a node down

  /** The hooks of node n and their peers. */
  function Near(w: World, n: NodeId): set<HookId> {
    set x | x in w.hooks &&
      (w.hooks[x].node == Some(n) ||
       (w.hooks[x].peer.Some? && w.hooks[x].peer.value in w.hooks && w.hooks[w.hooks[x].peer.value].node == Some(n)))
  }

  /** A hook still on the node, and its peer, were near the node from the start. */
  lemma EvictOrder(w0: World, w1: World, n: NodeId, d: set<HookId>, h: HookId)
    requires Inv(w0) && Inv(w1) && AllListed(w1) && n in w1.nodes && h in w1.nodes[n].hooks
    requires Shape(w0, w1, Near(w0, n), d) && d <= Near(w0, n)
    ensures InOrder(w1, h) && Pair(w1, h) <= Near(w0, n)
  {
    assert NodeOk(w1, n) && HookOk(w1, h);
    AllInOrder(w1, h);
    assert ShapeHook(w0, w1, Near(w0, n), d, h);
    assert w0.hooks[h].node == Some(n);
    if w1.hooks[h].peer.Some? {
      var p := w1.hooks[h].peer.value;
      assert ShapeHook(w0, w1, Near(w0, n), d, p);
      assert HookOk(w0, h);
    }
  }

  lemma EvictStep(w0: World, w1: World, w2: World, n: NodeId, h: HookId, d: set<HookId>, e: set<HookId>)
    requires Inv(w2) && AllListed(w1) && n in w1.nodes && n in w2.nodes && h in w1.nodes[n].hooks && h in w1.hooks
    requires Shape(w0, w1, Near(w0, n), d) && Shape(w1, w2, Pair(w1, h), e)
    requires h in e && e <= Pair(w1, h) && Pair(w1, h) <= Near(w0, n)
    ensures Shape(w0, w2, Near(w0, n), d + e) && AllListed(w2) && |w2.nodes[n].hooks| < |w1.nodes[n].hooks|
  {
    ShapeWider(w1, w2, Pair(w1, h), Near(w0, n), e);
    ShapeTrans(w0, w1, w2, Near(w0, n), d, e, d + e);
    ShapeKeepsListed(w1, w2, Pair(w1, h), e);
    assert ShapeNode(w1, w2, e, n);
    MinusShrinks(w1.nodes[n].hooks, e, h);
  }

  /** Of the hooks once near node n, only those still near it may have a peer. */
  ghost predicate Parting(w0: World, w: World, n: NodeId) {
    forall x {:trigger PartingHook(w0, w, n, x)} :: PartingHook(w0, w, n, x)
  }

  predicate PartingHook(w0: World, w: World, n: NodeId, x: HookId) {
    x in Near(w0, n) && x in w.hooks && w.hooks[x].peer.Some? ==> x in Near(w, n)
  }

  /** Destroying a hook of the node parts it from its peer, and leaves every other pair as it was. */
  lemma PartingStep(w0: World, w1: World, w2: World, n: NodeId, h: HookId, e: set<HookId>)
    requires Inv(w1) && Parting(w0, w1, n) && h in w1.hooks && Shape(w1, w2, Pair(w1, h), e)
    requires forall x :: x in Pair(w1, h) && x in w2.hooks ==> w2.hooks[x].peer.None?
    ensures Parting(w0, w2, n)
  {
    forall x: HookId ensures PartingHook(w0, w2, n, x) {
      assert PartingHook(w0, w1, n, x) && ShapeHook(w1, w2, Pair(w1, h), e, x);
      if x in w2.hooks && w2.hooks[x].peer.Some? {
        var p := w1.hooks[x].peer.value;
        assert HookOk(w1, x) && HookOk(w1, h);
        assert p !in Pair(w1, h);
        assert ShapeHook(w1, w2, Pair(w1, h), e, p);
      }
    }
  }

  /** A node without hooks has nothing near it, so all those pairs have parted. */
  lemma AllParted(w0: World, w: World, n: NodeId)
    requires Inv(w) && AllListed(w) && Parting(w0, w, n) && n in w.nodes && w.nodes[n].hooks == []
    ensures forall x :: x in Near(w0, n) && x in w.hooks ==> w.hooks[x].peer.None?
  {
    NearEmpty(w, n);
    forall x | x in Near(w0, n) && x in w.hooks ensures w.hooks[x].peer.None? {
      assert PartingHook(w0, w, n, x);
    }
  }

  /** A hook whose peer is on node n, and that hears when its peer is destroyed. */
  predicate HearsPeer(w: World, n: NodeId, items: HookId -> bool, x: HookId) {
    && x in w.hooks && w.hooks[x].peer.Some? && w.hooks[x].peer.value in w.hooks
    && w.hooks[w.hooks[x].peer.value].node == Some(n) && Hears(w, x, items(w.hooks[x].peer.value))
  }

  /** What leaves the lists when node n shuts down: its own hooks, and those of their peers that hear of it. */
  function Leaving(w: World, n: NodeId, items: HookId -> bool): set<HookId> {
    set x | x in w.hooks && (w.hooks[x].node == Some(n) || HearsPeer(w, n, items, x))
  }

  /** A peer that will hear of it but has not left yet is still joined to its hook on the node. */
  predicate StillDue(w0: World, w: World, n: NodeId, items: HookId -> bool, d: set<HookId>, x: HookId) {
    HearsPeer(w0, n, items, x) && w0.hooks[x].node != Some(n) && x !in d ==>
      var p := w0.hooks[x].peer.value;
      p !in d && p in w.hooks && w.hooks[p].peer == Some(x)
  }

  ghost predicate Evicting(w0: World, w: World, n: NodeId, items: HookId -> bool, d: set<HookId>) {
    && d <= Leaving(w0, n, items)
    && forall x {:trigger StillDue(w0, w, n, items, d, x)} :: StillDue(w0, w, n, items, d, x)
  }

  lemma EvictStarts(w0: World, n: NodeId, items: HookId -> bool)
    requires Inv(w0)
    ensures Evicting(w0, w0, n, items, {})
  {
    forall x: HookId ensures StillDue(w0, w0, n, items, {}, x) {
      assert x in w0.hooks ==> HookOk(w0, x);
    }
  }

  lemma EvictLeaves(w0: World, w1: World, w2: World, n: NodeId, items: HookId -> bool, h: HookId, d: set<HookId>,
                    e: set<HookId>)
    requires Inv(w0) && Inv(w1) && Shape(w0, w1, Near(w0, n), d) && Evicting(w0, w1, n, items, d)
    requires n in w0.nodes && n in w1.nodes && w0.nodes[n].invalid && h in w1.nodes[n].hooks && h in w1.hooks
    requires e == if Told(w1, h, items(h)) then Pair(w1, h) else {h}
    requires Shape(w1, w2, Pair(w1, h), e)
    ensures Evicting(w0, w2, n, items, d + e)
  {
    assert NodeOk(w1, n) && HookOk(w1, h) && ShapeHook(w0, w1, Near(w0, n), d, h) && ShapeNode(w0, w1, d, n);
    if Told(w1, h, items(h)) {
      ToldLeaves(w0, w1, n, items, h, d);
    }
    forall x: HookId ensures StillDue(w0, w2, n, items, d + e, x) {
      assert StillDue(w0, w1, n, items, d, x);
      if HearsPeer(w0, n, items, x) && w0.hooks[x].node != Some(n) && x !in d + e {
        StaysDue(w0, w1, n, items, h, d, x);
        assert ShapeHook(w1, w2, Pair(w1, h), e, w0.hooks[x].peer.value);
      }
    }
  }

  lemma ToldLeaves(w0: World, w1: World, n: NodeId, items: HookId -> bool, h: HookId, d: set<HookId>)
    requires Inv(w0) && Inv(w1) && Shape(w0, w1, Near(w0, n), d)
    requires h in w1.hooks && w1.hooks[h].node == Some(n) && Told(w1, h, items(h))
    ensures w1.hooks[h].peer.value in Leaving(w0, n, items)
  {
    var p := w1.hooks[h].peer.value;
    assert ShapeHook(w0, w1, Near(w0, n), d, h) && ShapeHook(w0, w1, Near(w0, n), d, p);
    assert HookOk(w0, h) && HookOk(w0, p);
    assert ShapeNode(w0, w1, d, w1.hooks[p].node.value);
  }

  /** A peer that is due hears of it when its own hook is destroyed, and is not touched when another one is. */
  lemma StaysDue(w0: World, w1: World, n: NodeId, items: HookId -> bool, h: HookId, d: set<HookId>, x: HookId)
    requires Inv(w0) && Inv(w1) && Shape(w0, w1, Near(w0, n), d) && StillDue(w0, w1, n, items, d, x)
    requires h in w1.hooks && w1.hooks[h].node == Some(n)
    requires HearsPeer(w0, n, items, x) && w0.hooks[x].node != Some(n) && x !in d
    ensures w0.hooks[x].peer.value == h ==> Told(w1, h, items(h)) && x in Pair(w1, h)
    ensures w0.hooks[x].peer.value != h ==> w0.hooks[x].peer.value !in Pair(w1, h)
  {
    var p := w0.hooks[x].peer.value;
    assert HookOk(w1, p) && HookOk(w1, h) && HookOk(w1, x);
    assert ShapeHook(w0, w1, Near(w0, n), d, x);
    if p == h {
      assert ShapeNode(w0, w1, d, w0.hooks[x].node.value);
    }
  }

  lemma AllLeft(w0: World, w: World, n: NodeId, items: HookId -> bool, d: set<HookId>)
    requires Inv(w0) && AllListed(w0) && Evicting(w0, w, n, items, d) && Shape(w0, w, Near(w0, n), d)
    requires n in w.nodes && w.nodes[n].hooks == []
    ensures d == Leaving(w0, n, items)
  {
    assert ShapeNode(w0, w, d, n);
    MinusHas(w0.nodes[n].hooks, d);
    forall x | x in Leaving(w0, n, items) ensures x in d {
      if w0.hooks[x].node == Some(n) {
        assert Listed(w0, x);
      } else {
        assert StillDue(w0, w, n, items, d, x);
        assert Listed(w0, w0.hooks[x].peer.value);
      }
    }
  }

  lemma {:induction false} MinusShrinks(s: seq<HookId>, d: set<HookId>, h: HookId)
    requires h in s && h in d
    ensures |Minus(s, d)| < |s|
  {
    if s[0] in d {
      MinusHas(s[1..], d);
    } else {
      assert h in s[1..];
      MinusShrinks(s[1..], d, h);
    }
  }

  lemma FlagsKeepListed(w: World, w': World)
    requires AllListed(w) && w'.hooks == w.hooks && w'.nodes.Keys == w.nodes.Keys
    requires forall n :: n in w.nodes ==> w'.nodes[n].hooks == w.nodes[n].hooks
    ensures AllListed(w')
  {
    forall h | h in w'.hooks && w'.hooks[h].node.Some? ensures Listed(w', h) {
      assert Listed(w, h);
    }
  }

  predicate ShutHook(w: World, w': World, n: NodeId, x: HookId) {
    && (x in w'.hooks ==> x in w.hooks && w'.hooks[x].node != Some(n))
    && (x in w'.hooks && x in w.hooks ==> HookShape(w.hooks[x], w'.hooks[x], w'.hooks[x].node.None?))
    && (x in Near(w, n) && x in w'.hooks ==> w'.hooks[x].peer.None?)
    && (x in w.hooks && x !in Near(w, n) ==> x in w'.hooks && w'.hooks[x] == w.hooks[x])
  }

  /** Node n has no hooks left, those it had and their peers are parted, and the rest is as it was. */
  ghost predicate Shutdown(w: World, w': World, n: NodeId, d: set<HookId>) {
    && d <= Near(w, n)
    && (forall x {:trigger ShutHook(w, w', n, x)} :: ShutHook(w, w', n, x))
    && (forall m {:trigger ShapeNode(w, w', d, m)} :: m != n ==> ShapeNode(w, w', d, m))
  }

  /** Node n lost all its hooks: what became of them and of their peers. */
  ghost predicate Emptied(w: World, w': World, n: NodeId, d: set<HookId>) {
    && n in w.nodes && n in w'.nodes && w'.nodes[n].hooks == []
    && d <= Near(w, n) && Shape(w, w', Near(w, n), d)
    && forall x :: x in Near(w, n) && x in w'.hooks ==> w'.hooks[x].peer.None?
  }

  /** Hooks and all nodes but n are the same. */
  ghost predicate OnlyNode(w: World, w': World, n: NodeId) {
    w'.hooks == w.hooks && forall m :: m in w'.nodes && m != n ==> m in w.nodes && w'.nodes[m] == w.nodes[m]
  }

  lemma SameLeaving(w: World, w': World, n: NodeId, items: HookId -> bool)
    requires Inv(w) && Inv(w') && OnlyNode(w, w', n)
    ensures Leaving(w', n, items) == Leaving(w, n, items)
  {
    forall x | x in w.hooks && w.hooks[x].node != Some(n)
      ensures HearsPeer(w', n, items, x) == HearsPeer(w, n, items, x)
    {
      assert HookOk(w, x) && HookOk(w', x);
    }
  }

  lemma ShutdownStages(w: World, w2: World, w3: World, w4: World, n: NodeId, items: HookId -> bool, d: set<HookId>)
    requires Inv(w) && Inv(w2) && OnlyNode(w, w2, n) && n in w.nodes && d == Leaving(w2, n, items)
    requires Inv(w3) && AllListed(w3) && Emptied(w2, w3, n, d)
    requires w4.hooks == w3.hooks
    requires forall m {:trigger ShapeNode(w3, w4, {}, m)} :: m != n ==> ShapeNode(w3, w4, {}, m)
    ensures Shutdown(w, w4, n, d) && d == Leaving(w, n, items)
  {
    SameLeaving(w, w2, n, items);
    assert Near(w2, n) == Near(w, n);
    forall x: HookId ensures ShutHook(w, w4, n, x) {
      assert ShapeHook(w2, w3, Near(w2, n), d, x);
      if x in w3.hooks && w3.hooks[x].node.Some? {
        assert Listed(w3, x);
      }
    }
    forall m: NodeId | m != n ensures ShapeNode(w, w4, d, m) {
      assert ShapeNode(w2, w3, d, m) && ShapeNode(w3, w4, {}, m);
      if m in w4.nodes {
        MinusNothing(w3.nodes[m].hooks, {});
      }
    }
  }

  // ---- making nodes and hooks

  lemma NewNodeListed(w: World, n: NodeId, ownFind: bool)
    requires Inv(w) && AllListed(w) && n !in w.nodes
    ensures AllListed(AddNode(w, n, ownFind))
  {
    var w' := AddNode(w, n, ownFind);
    forall h | h in w'.hooks && w'.hooks[h].node.Some? ensures Listed(w', h) {
      assert Listed(w, h);
    }
  }

  /** A new hook that points to its node but is not on its list yet. */
  function Attached1(w: World, h: HookId, n: NodeId, name: string): World
    requires n in w.nodes
  {
    w.(hooks := w.hooks[h := Hook(1, None, Some(n), true, name)],
       nodes := w.nodes[n := w.nodes[n].(refs := w.nodes[n].refs + 1)], heldHooks := w.heldHooks + multiset{h})
  }

  /** A new hook on the list of its node, held by its maker. */
  function Hooked(w: World, h: HookId, n: NodeId, name: string): World
    requires n in w.nodes
  {
    w.(hooks := w.hooks[h := Hook(2, None, Some(n), true, name)],
       nodes := w.nodes[n := w.nodes[n].(refs := w.nodes[n].refs + 1, hooks := [h] + w.nodes[n].hooks,
                                         numhooks := w.nodes[n].numhooks + 1)],
       heldHooks := w.heldHooks + multiset{h})
  }

  lemma Attached1Inv(w: World, h: HookId, n: NodeId, name: string)
    requires Inv(w) && h !in w.hooks && n in w.nodes
    ensures Inv(Attached1(w, h, n, name)) && !Listed(Attached1(w, h, n, name), h)
  {
    AddHookInv(w, h, name);
    AttachInv(AddHook(w, h, name), h, n);
    assert Attached1(w, h, n, name) == Attach(AddHook(w, h, name), h, n);
  }

  lemma HookedInv(w: World, h: HookId, n: NodeId, name: string)
    requires Inv(w) && AllListed(w) && h !in w.hooks && n in w.nodes
    ensures !Listed(Attached1(w, h, n, name), h) && Enlist(Attached1(w, h, n, name), h) == Hooked(w, h, n, name)
    ensures Inv(Hooked(w, h, n, name)) && AllListed(Hooked(w, h, n, name))
  {
    Attached1Inv(w, h, n, name);
    var w1, w' := Attached1(w, h, n, name), Hooked(w, h, n, name);
    EnlistInv(w1, h);
    assert w' == Enlist(w1, h);
    forall x | x in w'.hooks && w'.hooks[x].node.Some? ensures Listed(w', x) {
      assert x == h || Listed(w, x);
    }
  }

  /** What the second hook of a new pair finds. */
  lemma SecondHook(w: World, h1: HookId, h2: HookId, n2: NodeId, name2: string)
    requires Listed(w, h1) && h2 !in w.hooks && n2 in w.nodes && w.nodes[n2].hooks == []
    ensures var w' := Hooked(w, h2, n2, name2);
            && Listed(w', h1) && Listed(w', h2) && w'.hooks[h1] == w.hooks[h1] && w'.nodes[n2].hooks == [h2]
            && w'.nodes[n2].closing == w.nodes[n2].closing && w'.hooks[h2] == Hook(2, None, Some(n2), true, name2)
  {
  }

  /** A hook refused by its node's type leaves no trace: its last reference takes the node's along. */
  lemma VetoRestores(w: World, h: HookId, n: NodeId, name: string)
    requires Inv(w) && h !in w.hooks && n in w.nodes
    ensures DropHook(Attached1(w, h, n, name), h) == w
  {
    assert NodeOk(w, n);
    var w' := DropHook(Attached1(w, h, n, name), h);
    MapBack(w.nodes, n, w.nodes[n].(refs := w.nodes[n].refs + 1));
    assert w'.hooks == w.hooks;
    HeldAgain(w.heldHooks, h);
  }

  lemma MapBack<K, V>(m: map<K, V>, k: K, v: V)
    requires k in m
    ensures m[k := v][k := m[k]] == m
  {
  }

  lemma NearEmpty(w: World, n: NodeId)
    requires Inv(w) && AllListed(w) && n in w.nodes && w.nodes[n].hooks == []
    ensures Near(w, n) == {}
  {
    forall x | x in w.hooks ensures w.hooks[x].node != Some(n) {
      assert w.hooks[x].node.Some? ==> Listed(w, x);
    }
  }

  lemma ShutdownKeepsHooks(w: World, w': World, n: NodeId, d: set<HookId>)
    requires Shutdown(w, w', n, d) && Near(w, n) == {}
    ensures w'.hooks == w.hooks
    ensures forall m {:trigger ShapeNode(w, w', {}, m)} :: m != n ==> ShapeNode(w, w', {}, m)
  {
    assert d == {};
    forall x: HookId ensures x in w.hooks <==> x in w'.hooks {
      assert ShutHook(w, w', n, x);
    }
    forall x | x in w.hooks ensures w.hooks[x] == w'.hooks[x] {
      assert ShutHook(w, w', n, x);
    }
  }

  lemma SameNodesKeepListed(w: World, w': World)
    requires AllListed(w) && w'.nodes == w.nodes && w'.hooks.Keys == w.hooks.Keys
    requires forall h :: h in w.hooks ==> w'.hooks[h].node == w.hooks[h].node
    ensures AllListed(w')
  {
    forall h | h in w'.hooks && w'.hooks[h].node.Some? ensures Listed(w', h) {
      assert Listed(w, h);
    }
  }

  // ---- names

  /**
   A search for the name succeeds: a valid hook of the node has it, or the type of the node, which searches itself,
   answers with a place on the list.
   */
  ghost predicate Taken(w: World, n: NodeId, name: string, search: int)
    requires n in w.nodes
  {
    if w.nodes[n].ownFind then 0 <= search < |w.nodes[n].hooks|
    else exists h :: h in w.nodes[n].hooks && Bears(w, h, name)
  }

  predicate Bears(w: World, h: HookId, name: string) { h in w.hooks && !w.hooks[h].invalid && w.hooks[h].name == name }

  /** The hook has not changed in what a search looks at. */
  predicate SameToSearch(w: World, w': World, h: HookId) {
    && (h in w.hooks ==> h in w'.hooks)
    && (h in w.hooks ==> w'.hooks[h].invalid == w.hooks[h].invalid && w'.hooks[h].name == w.hooks[h].name)
  }

  /** A search does not notice changes to counts and peers. */
  lemma TakenStill(w: World, w': World, n: NodeId, name: string, search: int)
    requires Inv(w) && n in w.nodes && n in w'.nodes && w'.nodes[n].hooks == w.nodes[n].hooks
    requires w'.nodes[n].ownFind == w.nodes[n].ownFind
    requires forall h :: h in w.nodes[n].hooks ==> SameToSearch(w, w', h)
    ensures Taken(w', n, name, search) <==> Taken(w, n, name, search)
  {
    assert NodeOk(w, n);
    assert forall h :: h in w.nodes[n].hooks ==> (Bears(w', h, name) <==> Bears(w, h, name));
  }

  lemma TakenEntered(w: World, w': World, x: HookId, n: NodeId, name: string, search: int)
    requires Inv(w) && Shape(w, w', {x}, {}) && n in w.nodes && n in w'.nodes
    requires x in w.hooks && x in w'.hooks && w'.hooks[x] == w.hooks[x].(refs := w'.hooks[x].refs)
    ensures Taken(w', n, name, search) <==> Taken(w, n, name, search)
  {
    assert ShapeNode(w, w', {}, n) && NodeOk(w, n);
    MinusNothing(w.nodes[n].hooks, {});
    forall h | h in w.nodes[n].hooks ensures SameToSearch(w, w', h) {
      assert ShapeHook(w, w', {x}, {}, h);
    }
    TakenStill(w, w', n, name, search);
  }

  lemma TakenBare(w: World, w': World, x: HookId, n: NodeId, name: string, search: int)
    requires Inv(w) && w'.nodes == w.nodes && n in w.nodes && x in w.hooks && x in w'.hooks
    requires forall h :: h in w.hooks && h != x ==> h in w'.hooks && w'.hooks[h] == w.hooks[h]
    requires w'.hooks[x].name == w.hooks[x].name && w'.hooks[x].invalid == w.hooks[x].invalid
    ensures Taken(w', n, name, search) <==> Taken(w, n, name, search)
  {
    TakenStill(w, w', n, name, search);
  }

  /** Nor a new hook that may not be used yet, unless the type searches itself. */
  lemma TakenHooked(w: World, h: HookId, m: NodeId, name1: string, n: NodeId, name: string, search: int)
    requires Inv(w) && h !in w.hooks && m in w.nodes && n in w.nodes
    ensures Taken(Hooked(w, h, m, name1), n, name, search) <==>
            if w.nodes[n].ownFind then 0 <= search < |w.nodes[n].hooks| + Bit(m == n) else Taken(w, n, name, search)
  {
    var w' := Hooked(w, h, m, name1);
    assert NodeOk(w, n);
    assert forall x :: x in w.nodes[n].hooks ==> (Bears(w', x, name) <==> Bears(w, x, name));
    assert !Bears(w', h, name);
  }

  // ---- what was there before an operation

  predicate ExtHook(w0: World, w: World, new_: set<HookId>, x: HookId) {
    && (x in w0.hooks ==> x in w.hooks && w.hooks[x] == w0.hooks[x])
    && (x in w.hooks && x !in w0.hooks ==> x in new_)
  }

  predicate ExtNode(w0: World, w: World, new_: set<HookId>, n: NodeId) {
    n in w.nodes ==>
      if n in w0.nodes then
        && Minus(w.nodes[n].hooks, new_) == w0.nodes[n].hooks && (n in w.created ==> n in w0.created)
        && w.nodes[n].invalid == w0.nodes[n].invalid && w.nodes[n].closing == w0.nodes[n].closing
        && w.nodes[n].ownFind == w0.nodes[n].ownFind
      else !w.nodes[n].closing && !w.nodes[n].invalid
  }

  /**
   Every hook of w0 is exactly as it was, the nodes of w0 differ at most by new hooks on their lists, and every new
   node takes messages.
   */
  ghost predicate Extends(w0: World, w: World, new_: set<HookId>) {
    && w0.created <= w.created
    && (forall x {:trigger ExtHook(w0, w, new_, x)} :: ExtHook(w0, w, new_, x))
    && (forall n {:trigger ExtNode(w0, w, new_, n)} :: ExtNode(w0, w, new_, n))
  }

  predicate Fresh(w0: World, new_: set<HookId>) { forall x :: x in new_ ==> x !in w0.hooks }

  /** What of these hooks is still there is unusable, joined to nothing and on no node but n. */
  predicate Gone(w: World, xs: set<HookId>, n: NodeId) {
    forall x :: x in xs && x in w.hooks ==>
      w.hooks[x].peer.None? && w.hooks[x].invalid && (w.hooks[x].node.None? || w.hooks[x].node == Some(n))
  }

  /** What of these hooks is still there has neither node nor peer. */
  predicate Loose(w: World, xs: set<HookId>) {
    forall x :: x in xs && x in w.hooks ==> w.hooks[x].node.None? && w.hooks[x].peer.None?
  }

  lemma ExtendsSelf(w: World)
    ensures Extends(w, w, {})
  {
    forall n: NodeId ensures ExtNode(w, w, {}, n) {
      if n in w.nodes {
        MinusNothing(w.nodes[n].hooks, {});
      }
    }
  }

  lemma ExtendsAddNode(w: World, n: NodeId, ownFind: bool)
    requires n !in w.nodes
    ensures Extends(w, AddNode(w, n, ownFind), {})
  {
    ExtendsSelf(w);
    var w' := AddNode(w, n, ownFind);
    forall m: NodeId ensures ExtNode(w, w', {}, m) {
      assert ExtNode(w, w, {}, m);
    }
  }

  lemma ExtendsHooked(w0: World, w: World, new_: set<HookId>, h: HookId, n: NodeId, name: string, f: set<HookId>)
    requires Inv(w) && Extends(w0, w, new_) && h !in w.hooks && n in w.nodes && f == new_ + {h}
    ensures h !in w0.hooks && Extends(w0, Hooked(w, h, n, name), f)
  {
    assert ExtHook(w0, w, new_, h);
    var w' := Hooked(w, h, n, name);
    forall x: HookId ensures ExtHook(w0, w', f, x) {
      assert ExtHook(w0, w, new_, x) && ExtHook(w0, w, new_, h);
    }
    forall m: NodeId ensures ExtNode(w0, w', f, m) {
      assert ExtNode(w0, w, new_, m);
      if m in w.nodes {
        assert NodeOk(w, m);
        MinusNothing(w.nodes[m].hooks, {h});
        assert {h} + new_ == f;
        MinusMinus(w.nodes[m].hooks, {h}, new_);
      }
    }
  }

  lemma ExtendsShape(w0: World, w: World, w': World, new_: set<HookId>, xs: set<HookId>, d: set<HookId>)
    requires Extends(w0, w, new_) && Shape(w, w', xs, d) && xs <= new_ && d <= new_ && Fresh(w0, new_)
    ensures Extends(w0, w', new_)
  {
    forall x: HookId ensures ExtHook(w0, w', new_, x) {
      assert ExtHook(w0, w, new_, x) && ShapeHook(w, w', xs, d, x);
    }
    forall n: NodeId ensures ExtNode(w0, w', new_, n) {
      assert ExtNode(w0, w, new_, n) && ShapeNode(w, w', d, n);
      if n in w'.nodes {
        assert d + new_ == new_;
        MinusMinus(w.nodes[n].hooks, d, new_);
      }
    }
  }

  /** Changes to new hooks only. */
  lemma ExtendsTouch(w0: World, w: World, w': World, new_: set<HookId>)
    requires Extends(w0, w, new_) && Fresh(w0, new_)
    requires w'.nodes == w.nodes && w'.created == w.created && w'.hooks.Keys == w.hooks.Keys
    requires forall x :: x in w.hooks && x !in new_ ==> w'.hooks[x] == w.hooks[x]
    ensures Extends(w0, w', new_)
  {
    forall x: HookId ensures ExtHook(w0, w', new_, x) {
      assert ExtHook(w0, w, new_, x);
    }
    forall n: NodeId ensures ExtNode(w0, w', new_, n) {
      assert ExtNode(w0, w, new_, n);
    }
  }

  /** Holding a node changes nothing that matters here. */
  lemma ExtendsHeld(w0: World, n: NodeId, w: World, new_: set<HookId>)
    requires n in w0.nodes && Extends(HoldNode(w0, n), w, new_)
    ensures Extends(w0, w, new_)
  {
    forall x: HookId ensures ExtHook(w0, w, new_, x) {
      assert ExtHook(HoldNode(w0, n), w, new_, x);
    }
    forall m: NodeId ensures ExtNode(w0, w, new_, m) {
      assert ExtNode(HoldNode(w0, n), w, new_, m);
    }
  }

  /** A node made by the operation is discarded again. */
  lemma ExtendsDiscard(w0: World, w: World, w': World, new_: set<HookId>, n: NodeId)
    requires Extends(w0, w, new_) && n !in w0.nodes && w0.created <= w0.nodes.Keys
    requires w'.hooks == w.hooks && w.created - {n} <= w'.created <= w.created
    requires n in w'.nodes ==> !w'.nodes[n].closing && !w'.nodes[n].invalid
    requires forall m {:trigger ShapeNode(w, w', {}, m)} :: m != n ==> ShapeNode(w, w', {}, m)
    ensures Extends(w0, w', new_)
  {
    forall x: HookId ensures ExtHook(w0, w', new_, x) {
      assert ExtHook(w0, w, new_, x);
    }
    forall m: NodeId ensures ExtNode(w0, w', new_, m) {
      assert ExtNode(w0, w, new_, m);
      if m != n && m in w'.nodes {
        assert ShapeNode(w, w', {}, m);
        MinusNothing(w.nodes[m].hooks, {});
      }
    }
  }

  /** The two hooks are each other's peer and may be used; apart from that the hooks are as they were. */
  ghost predicate Joined(w: World, w': World, h: HookId, p: HookId) {
    && h in w.hooks && p in w.hooks
    && w'.hooks == w.hooks[h := w.hooks[h].(peer := Some(p), refs := w.hooks[h].refs + 1, invalid := false)]
                          [p := w.hooks[p].(peer := Some(h), refs := w.hooks[p].refs + 1, invalid := false)]
  }

  /** Destroying the only hook of a node leaves the node without hooks. */
  lemma EmptiedBy(w: World, w': World, n: NodeId, h: HookId, xs: set<HookId>, d: set<HookId>)
    requires Inv(w) && Inv(w') && Shape(w, w', xs, d)
    requires n in w.nodes && !w.nodes[n].closing && w.nodes[n].hooks == [h] && h in d
    ensures n in w'.nodes && w'.nodes[n].hooks == [] && !w'.nodes[n].closing
  {
    assert NodeOk(w, n) && ShapeNode(w, w', d, n);
    assert [h][1..] == [];
    assert Minus([h], d) == [];
  }

  /** Two hooks on the lists of their nodes are each other's peer and may be used. */
  predicate Connected(w: World, h1: HookId, n1: NodeId, name1: string, h2: HookId, n2: NodeId, name2: string) {
    && h1 != h2 && h1 in w.hooks && h2 in w.hooks && Listed(w, h1) && Listed(w, h2)
    && w.hooks[h1].peer == Some(h2) && w.hooks[h1].node == Some(n1) && w.hooks[h1].name == name1 && !w.hooks[h1].invalid
    && w.hooks[h2].peer == Some(h1) && w.hooks[h2].node == Some(n2) && w.hooks[h2].name == name2 && !w.hooks[h2].invalid
  }

  // ---- nothing is left behind

  predicate TidyHook(w: World, x: HookId) { x in w.hooks && w.hooks[x].node.None? ==> w.hooks[x].peer.None? }

  predicate TidyNode(w: World, n: NodeId) {
    n in w.nodes && w.nodes[n].closing ==> w.nodes[n].invalid && w.nodes[n].hooks == [] && n !in w.created
  }

  /**
   Between operations a hook without a node has no peer, and a node that is shutting down takes no messages, has no
   hooks and has lost its creation reference.
   */
  ghost predicate Tidy(w: World) {
    && (forall x {:trigger TidyHook(w, x)} :: TidyHook(w, x))
    && (forall n {:trigger TidyNode(w, n)} :: TidyNode(w, n))
  }

  lemma TidyShape(w: World, w': World, xs: set<HookId>, d: set<HookId>)
    requires Tidy(w) && Shape(w, w', xs, d)
    requires forall x :: x in d && x in w'.hooks ==> w'.hooks[x].peer.None?
    ensures Tidy(w')
  {
    forall x: HookId ensures TidyHook(w', x) {
      assert TidyHook(w, x) && ShapeHook(w, w', xs, d, x);
    }
    forall n: NodeId ensures TidyNode(w', n) {
      assert TidyNode(w, n) && ShapeNode(w, w', d, n);
    }
  }

  lemma TidyAddNode(w: World, n: NodeId, ownFind: bool)
    requires Tidy(w) && n !in w.nodes
    ensures Tidy(AddNode(w, n, ownFind))
  {
    var w' := AddNode(w, n, ownFind);
    forall x: HookId ensures TidyHook(w', x) {
      assert TidyHook(w, x);
    }
    forall m: NodeId ensures TidyNode(w', m) {
      assert TidyNode(w, m);
    }
  }

  lemma TidyShutdown(w: World, w': World, n: NodeId, d: set<HookId>)
    requires Tidy(w) && Shutdown(w, w', n, d) && w'.created <= w.created && TidyNode(w', n)
    ensures Tidy(w')
  {
    forall x: HookId ensures TidyHook(w', x) {
      assert TidyHook(w, x) && ShutHook(w, w', n, x);
    }
    forall m: NodeId ensures TidyNode(w', m) {
      assert m == n || (TidyNode(w, m) && ShapeNode(w, w', d, m));
    }
  }

  /** A new hook that an operation leaves behind. */
  predicate WellLeft(w0: World, w: World, x: HookId) {
    x in w.hooks ==>
      if w.hooks[x].node.None? then w.hooks[x].peer.None?
      else w.hooks[x].node.value in w0.nodes ==> !w0.nodes[w.hooks[x].node.value].closing
  }

  lemma TidyExtends(w0: World, w: World, new_: set<HookId>)
    requires Tidy(w0) && Inv(w) && Extends(w0, w, new_) && forall x :: x in new_ ==> WellLeft(w0, w, x)
    ensures Tidy(w)
  {
    forall x: HookId ensures TidyHook(w, x) {
      assert TidyHook(w0, x) && ExtHook(w0, w, new_, x);
    }
    forall n: NodeId ensures TidyNode(w, n) {
      assert TidyNode(w0, n) && ExtNode(w0, w, new_, n);
      if n in w.nodes && w.nodes[n].closing {
        NothingEnlisted(w0, w, new_, n);
      }
    }
  }

  lemma NothingEnlisted(w0: World, w: World, new_: set<HookId>, n: NodeId)
    requires Inv(w) && ExtNode(w0, w, new_, n) && forall x :: x in new_ ==> WellLeft(w0, w, x)
    requires n in w.nodes && w.nodes[n].closing && n in w0.nodes && w0.nodes[n].hooks == []
    ensures w.nodes[n].hooks == []
  {
    assert NodeOk(w, n);
    MinusHas(w.nodes[n].hooks, new_);
    assert forall x :: x in w.nodes[n].hooks ==> x in new_ && WellLeft(w0, w, x);
    if w.nodes[n].hooks != [] {
      assert false;
    }
  }

  /** Only holders keep a node that is shutting down and has no hooks. */
  lemma ClosingIsHeld(w: World, n: NodeId)
    requires Inv(w) && AllListed(w)
    requires n in w.nodes && w.nodes[n].closing ==> w.nodes[n].hooks == [] && n !in w.created
    ensures n in w.nodes && w.nodes[n].closing ==> n in w.heldNodes
  {
    if n in w.nodes && w.nodes[n].closing {
      NearEmpty(w, n);
      assert NodeOk(w, n) && Attached(w.hooks, n) <= Near(w, n);
    }
  }

  /** Nothing leaks: the nodes there are have been created and not shut down, and every hook is on one of them. */
  ghost predicate Accounted(w: World) {
    && w.nodes.Keys == w.created && (forall n :: n in w.nodes ==> !w.nodes[n].closing)
    && forall x :: x in w.hooks ==> Listed(w, x)
  }

  lemma NothingLeaks(w: World)
    requires Inv(w) && AllListed(w) && Tidy(w) && w.heldNodes == multiset{} && w.heldHooks == multiset{}
    ensures Accounted(w) && (w.created == {} ==> w.nodes == map[] && w.hooks == map[])
  {
    forall x | x in w.hooks ensures Listed(w, x) {
      assert TidyHook(w, x) && HookOk(w, x);
    }
    forall n | n in w.nodes ensures !w.nodes[n].closing && n in w.created {
      assert TidyNode(w, n) && NodeOk(w, n);
      if w.nodes[n].closing {
        ClosingIsHeld(w, n);
        assert false;
      }
    }
  }

  // ---- connecting two nodes

  /** Two new hooks, held by the operation that makes them, are all that differs from w0; peers only of each other. */
  ghost predicate Pending(w0: World, w: World, h: HookId, h2: HookId) {
    && Inv(w0) && Extends(w0, w, {h, h2}) && h != h2 && h !in w0.hooks && h2 !in w0.hooks
    && h in w.heldHooks && h2 in w.heldHooks && h in w.hooks && h2 in w.hooks
    && (w.hooks[h].peer.None? || w.hooks[h].peer == Some(h2)) && (w.hooks[h2].peer.None? || w.hooks[h2].peer == Some(h))
  }

  lemma PendingPair(w0: World, w: World, h: HookId, h2: HookId, x: HookId)
    requires Inv(w) && Pending(w0, w, h, h2) && x in {h, h2}
    ensures Pair(w, x) <= {h, h2}
    ensures w.hooks[h].peer.None? == w.hooks[h2].peer.None?
    ensures w.hooks[x].peer.Some? ==> Pair(w, x) == {h, h2}
  {
    assert HookOk(w, h) && HookOk(w, h2);
  }

  lemma PendingAfter(w: World, w': World, h: HookId, h2: HookId, xs: set<HookId>, d: set<HookId>)
    requires Shape(w, w', xs, d) && d <= xs <= {h, h2} && h in w'.hooks && h2 in w'.hooks
    ensures h in w.hooks && h2 in w.hooks
    ensures forall y :: y in {h, h2} && w.hooks[y].node.None? ==> w'.hooks[y].node.None?
    ensures forall y :: y in {h, h2} && w.hooks[y].invalid ==> w'.hooks[y].invalid
    ensures forall y :: y in {h, h2} ==> w'.hooks[y].peer.None? || w'.hooks[y].peer == w.hooks[y].peer
    ensures forall y :: y in d && y in {h, h2} ==> w'.hooks[y].node.None?
    ensures forall y :: y in {h, h2} && y !in d ==> w'.hooks[y].node == w.hooks[y].node
  {
    assert ShapeHook(w, w', xs, d, h) && ShapeHook(w, w', xs, d, h2);
  }

  lemma PutListed(w: World, w': World, h: HookId, n: NodeId)
    requires Inv(w) && AllListed(w) && h in w.hooks && w.hooks[h].node.None? && n in w.nodes
    requires w' == Enlist(Attach(w, h, n), h)
    ensures AllListed(w')
  {
    forall x | x in w'.hooks && w'.hooks[x].node.Some? ensures Listed(w', x) {
      assert x == h || Listed(w, x);
    }
  }

  lemma ExtendsPut(w0: World, w: World, w': World, new_: set<HookId>, h: HookId, n: NodeId)
    requires Extends(w0, w, new_) && h in new_ && Fresh(w0, new_) && h in w.hooks && n in w.nodes
    requires w' == Enlist(Attach(w, h, n), h)
    ensures Extends(w0, w', new_)
  {
    forall x: HookId ensures ExtHook(w0, w', new_, x) {
      assert ExtHook(w0, w, new_, x);
    }
    forall m: NodeId ensures ExtNode(w0, w', new_, m) {
      assert ExtNode(w0, w, new_, m);
    }
  }

  lemma OtherStays(w: World, w': World, x: HookId, h: HookId)
    requires Inv(w') && Shape(w, w', {x}, {}) && x != h
    ensures (h in w.hooks) == (h in w'.hooks) && (h in w.hooks ==> w'.hooks[h] == w.hooks[h])
    ensures Listed(w, h) ==> Listed(w', h)
  {
    assert ShapeHook(w, w', {x}, {}, h);
    if Listed(w, h) {
      ListedStays(w, w', {x}, {}, h);
    }
  }

  /** A reference to one of two new hooks that is not the last one goes. */
  lemma PendingStays(w0: World, w: World, w': World, h: HookId, h2: HookId, x: HookId)
    requires Pending(w0, w, h, h2) && x in {h, h2} && Inv(w') && Shape(w, w', {x}, {})
    requires w'.heldHooks == w.heldHooks - multiset{x} && w.heldHooks[x] > 1
    requires x in w'.hooks ==> w'.hooks[x] == w.hooks[x].(refs := w'.hooks[x].refs)
    ensures Pending(w0, w', h, h2)
    ensures w'.hooks[h] == w.hooks[h].(refs := w'.hooks[h].refs)
    ensures w'.hooks[h2] == w.hooks[h2].(refs := w'.hooks[h2].refs)
  {
    var y := if x == h then h2 else h;
    OtherStays(w, w', x, y);
    assert x in w'.heldHooks && y in w'.heldHooks;
    ExtendsShape(w0, w, w', {h, h2}, {x}, {});
  }

  lemma NotHeld(w: World, h: HookId)
    requires Inv(w) && h !in w.hooks
    ensures w.heldHooks[h] == 0
  {
  }

  /** A hook that nothing refers to has been freed. */
  lemma NoReferents(w0: World, w: World, h: HookId)
    requires Inv(w0) && Inv(w) && h !in w0.hooks && w.heldHooks == w0.heldHooks
    requires h in w.hooks ==> w.hooks[h].node.None? && w.hooks[h].peer.None?
    ensures h !in w.hooks
  {
    NotHeld(w0, h);
    assert h in w.hooks ==> HookOk(w, h);
  }

  lemma BareListed(w: World, h: HookId, name: string)
    requires AllListed(w) && h !in w.hooks
    ensures AllListed(AddHook(w, h, name))
  {
    var w' := AddHook(w, h, name);
    forall x | x in w'.hooks && w'.hooks[x].node.Some? ensures Listed(w', x) {
      assert Listed(w, x);
    }
  }

  lemma ExtendsBare(w0: World, w: World, new_: set<HookId>, h: HookId, name: string, f: set<HookId>)
    requires Inv(w) && Extends(w0, w, new_) && h !in w.hooks && f == new_ + {h}
    ensures h !in w0.hooks && Extends(w0, AddHook(w, h, name), f)
  {
    assert ExtHook(w0, w, new_, h);
    var w' := AddHook(w, h, name);
    forall x: HookId ensures ExtHook(w0, w', f, x) {
      assert ExtHook(w0, w, new_, x);
    }
    forall m: NodeId ensures ExtNode(w0, w', f, m) {
      assert ExtNode(w0, w, new_, m);
      if m in w.nodes {
        assert NodeOk(w, m);
        MinusNothing(w.nodes[m].hooks, {h});
        assert {h} + new_ == f;
        MinusMinus(w.nodes[m].hooks, {h}, new_);
      }
    }
  }

  lemma NothingNew(w0: World, w: World, new_: set<HookId>)
    requires Extends(w0, w, new_) && forall x :: x in new_ ==> x !in w.hooks
    ensures w.hooks == w0.hooks
  {
    forall x: HookId ensures x in w0.hooks <==> x in w.hooks {
      assert ExtHook(w0, w, new_, x);
    }
    forall x | x in w0.hooks ensures w.hooks[x] == w0.hooks[x] {
      assert ExtHook(w0, w, new_, x);
    }
  }

  lemma KeptAll(w0: World, w: World, new_: set<HookId>)
    requires Inv(w) && Extends(w0, w, new_) && Fresh(w0, new_) && w.hooks == w0.hooks
    ensures Extends(w0, w, {})
  {
    forall x: HookId ensures ExtHook(w0, w, {}, x) {
      assert ExtHook(w0, w, new_, x);
    }
    forall n: NodeId ensures ExtNode(w0, w, {}, n) {
      assert ExtNode(w0, w, new_, n);
      if n in w.nodes {
        assert NodeOk(w, n);
        MinusNothing(w.nodes[n].hooks, new_);
        MinusNothing(w.nodes[n].hooks, {});
      }
    }
  }

  // ---- bypassing a node

  /** The pointer assignments of `ng_bypass`; writing to the peer of a hook that has none hits `ng_deadhook`. */
  function Bypassed(w: World, h1: HookId, h2: HookId): World
    requires h1 in w.hooks && h2 in w.hooks
    requires forall h :: h in {h1, h2} && w.hooks[h].peer.Some? ==> w.hooks[h].peer.value in w.hooks
  {
    var a := if w.hooks[h1].peer.None? then w.hooks else
             var p1 := w.hooks[h1].peer.value; w.hooks[p1 := w.hooks[p1].(peer := w.hooks[h2].peer)];
    var b := if a[h2].peer.None? || a[h2].peer.value !in a then a else
             var p2 := a[h2].peer.value; a[p2 := a[p2].(peer := a[h1].peer)];
    var c := b[h1 := b[h1].(peer := None)];
    w.(hooks := c[h2 := c[h2].(peer := None)], heldHooks := w.heldHooks + multiset{h1} + multiset{h2})
  }

  /** What the assignments amount to. */
  lemma BypassedIs(w: World, h1: HookId, h2: HookId)
    requires Inv(w) && h1 != h2 && h1 in w.hooks && h2 in w.hooks && w.hooks[h1].peer.Some? && w.hooks[h2].peer.Some?
    ensures HookOk(w, h1) && HookOk(w, h2)
    ensures Bypassed(w, h1, h2).hooks.Keys == w.hooks.Keys
    ensures forall x :: x in w.hooks ==> BypassedHook(w, h1, h2, x, Bypassed(w, h1, h2).hooks[x])
  {
    assert HookOk(w, h1) && HookOk(w, h2);
  }

  predicate BypassedHook(w: World, h1: HookId, h2: HookId, x: HookId, hook: Hook)
    requires h1 in w.hooks && h2 in w.hooks && x in w.hooks && w.hooks[h1].peer.Some? && w.hooks[h2].peer.Some?
  {
    hook == w.hooks[x].(peer := if x == h1 || x == h2 then None
                                else if Some(x) == w.hooks[h1].peer then w.hooks[h2].peer
                                else if Some(x) == w.hooks[h2].peer then w.hooks[h1].peer
                                else w.hooks[x].peer)
  }

  lemma TidyBypassed(w: World, h1: HookId, h2: HookId)
    requires Inv(w) && h1 != h2 && h1 in w.hooks && h2 in w.hooks && w.hooks[h1].peer.Some? && w.hooks[h2].peer.Some?
    requires Tidy(w)
    ensures HookOk(w, h1) && HookOk(w, h2) && Tidy(Bypassed(w, h1, h2))
  {
    BypassedIs(w, h1, h2);
    var w' := Bypassed(w, h1, h2);
    forall x: HookId ensures TidyHook(w', x) {
      assert TidyHook(w, x);
      if x in w.hooks {
        assert HookOk(w, x) && BypassedHook(w, h1, h2, x, w'.hooks[x]);
      }
    }
    forall n: NodeId ensures TidyNode(w', n) {
      assert TidyNode(w, n);
    }
  }

  lemma BypassKeeps(w: World, h1: HookId, h2: HookId)
    requires Inv(w) && h1 != h2 && h1 in w.hooks && h2 in w.hooks && w.hooks[h1].peer.Some? && w.hooks[h2].peer.Some?
    ensures HookOk(w, h1) && HookOk(w, h2) && Inv(Bypassed(w, h1, h2))
  {
    BypassedIs(w, h1, h2);
    var w' := Bypassed(w, h1, h2);
    forall n | n in w'.nodes ensures NodeOk(w', n) {
      assert NodeOk(w, n);
      assert Attached(w'.hooks, n) == Attached(w.hooks, n);
    }
    forall x | x in w'.hooks ensures HookOk(w', x) {
      BypassHookOk(w, w', h1, h2, x);
    }
  }

  lemma BypassHookOk(w: World, w': World, h1: HookId, h2: HookId, x: HookId)
    requires Inv(w) && h1 != h2 && h1 in w.hooks && h2 in w.hooks && w.hooks[h1].peer.Some? && w.hooks[h2].peer.Some?
    requires w'.nodes == w.nodes && w'.hooks.Keys == w.hooks.Keys && x in w.hooks
    requires w'.heldHooks == w.heldHooks + multiset{h1} + multiset{h2}
    requires forall y :: y in w.hooks ==> BypassedHook(w, h1, h2, y, w'.hooks[y])
    ensures HookOk(w', x)
  {
    assert HookOk(w, x) && HookOk(w, h1) && HookOk(w, h2);
    assert BypassedHook(w, h1, h2, x, w'.hooks[x]);
    if w'.hooks[x].peer.Some? {
      assert BypassedHook(w, h1, h2, w'.hooks[x].peer.value, w'.hooks[w'.hooks[x].peer.value]);
      if w.hooks[x].peer.Some? {
        assert HookOk(w, w.hooks[x].peer.value);
      }
    }
  }

  /** `ng_bypass` keeps the counts right exactly when both hooks still have a live peer. */
  lemma BypassExact(w: World, h1: HookId, h2: HookId)
    requires Inv(w) && h1 != h2 && h1 in w.hooks && h2 in w.hooks
    ensures HookOk(w, h1) && HookOk(w, h2)
    ensures Inv(Bypassed(w, h1, h2)) <==> w.hooks[h1].peer.Some? && w.hooks[h2].peer.Some?
  {
    assert HookOk(w, h1) && HookOk(w, h2);
    var w' := Bypassed(w, h1, h2);
    if w.hooks[h1].peer.Some? && w.hooks[h2].peer.Some? {
      BypassKeeps(w, h1, h2);
    } else if w.hooks[h1].peer.None? {
      assert !HookOk(w', h1);
    } else {
      assert !HookOk(w', h2);
    }
  }

  /** A graph in order on which `ng_bypass` miscounts: two usable hooks that could not be told
      that their peers left. */
  lemma BypassMiscounts() returns (w: World)
    ensures Inv(w) && AllListed(w) && 1 in w.hooks && 2 in w.hooks && w.hooks[1].node == w.hooks[2].node == Some(0)
    ensures !w.hooks[1].invalid && !w.hooks[2].invalid && HookOk(w, 1) && HookOk(w, 2) && !Inv(Bypassed(w, 1, 2))
  {
    w := World(map[0 := Node(3, [1, 2], 2, false, false, false)],
               map[1 := Hook(1, None, Some(0), false, "a"), 2 := Hook(1, None, Some(0), false, "b")],
               {0}, multiset{}, multiset{});
    assert Attached(w.hooks, 0) == {1, 2};
    assert NodeOk(w, 0);
    assert Listed(w, 1) && Listed(w, 2);
    assert HookOk(w, 1) && HookOk(w, 2);
    BypassExact(w, 1, 2);
  }
}
