/**
 System initialisation (`lib/ff_init_main.c`): sort the registered items by subsystem and order, run them,
 and start over with a larger table whenever an item has registered further ones.

 Items are numbered.  `sub` and `order` are what an item was declared with; the code overwrites the
 subsystem of an item that has run with SI_SUB_LAST, which `done` records.
 */
module SysInit {
  type Id = nat

  const SI_SUB_DUMMY := 0
  const SI_SUB_LAST := 0xfff_ffff

  /** What the items are, and which sets of further items running one registers. */
  datatype Items = Items(sub: Id -> int, order: Id -> int, adds: Id -> seq<seq<Id>>)

  /** The `subsystem` field now. */
  function Sub(items: Items, done: set<Id>, x: Id): int { if x in done then SI_SUB_LAST else items.sub(x) }

  predicate Runnable(items: Items, done: set<Id>, x: Id) {
    Sub(items, done, x) != SI_SUB_DUMMY && Sub(items, done, x) != SI_SUB_LAST
  }

  /** The order of the sort. */
  predicate Le(items: Items, done: set<Id>, x: Id, y: Id) {
    || Sub(items, done, x) < Sub(items, done, y)
    || (Sub(items, done, x) == Sub(items, done, y) && items.order(x) <= items.order(y))
  }

  ghost predicate Sorted(items: Items, done: set<Id>, s: seq<Id>, n: nat)
    requires n <= |s|
  {
    forall i, j :: 0 <= i < n && i < j < |s| ==> Le(items, done, s[i], s[j])
  }

  function Elems(s: seq<Id>): set<Id> { set x | x in s }

  function Flatten(sets: seq<seq<Id>>): seq<Id> {
    if sets == [] then [] else Flatten(sets[..|sets| - 1]) + sets[|sets| - 1]
  }

  // ---- the sort

  function Swapped(s: seq<Id>, i: nat, j: nat): seq<Id>
    requires i < |s| && j < |s|
  {
    s[i := s[j]][j := s[i]]
  }

  lemma SwapKeeps(s: seq<Id>, i: nat, j: nat)
    requires i < j < |s|
    ensures multiset(Swapped(s, i, j)) == multiset(s)
  {
    assert s == s[..i] + [s[i]] + s[i + 1..j] + [s[j]] + s[j + 1..];
    assert Swapped(s, i, j) == s[..i] + [s[j]] + s[i + 1..j] + [s[i]] + s[j + 1..];
  }

  /** What the inner loop has achieved: the first i are in place, and s[i] is least among those looked at. */
  ghost predicate Placing(items: Items, done: set<Id>, s: seq<Id>, i: nat, j: nat) {
    && i < |s| && i < j <= |s| && Sorted(items, done, s, i)
    && forall k :: i <= k < j ==> Le(items, done, s[i], s[k])
  }

  lemma SwapPlaces(items: Items, done: set<Id>, s: seq<Id>, i: nat, j: nat)
    requires Placing(items, done, s, i, j) && j < |s| && !Le(items, done, s[i], s[j])
    ensures Placing(items, done, Swapped(s, i, j), i, j + 1)
  {
    var t := Swapped(s, i, j);
    forall k | i <= k < j + 1 ensures Le(items, done, t[i], t[k]) {
      assert Le(items, done, s[i], if k < j then s[k] else s[i]);
    }
  }

  /** The exchange sort of `mi_startup`. */
  method Sort(items: Items, done: set<Id>, a: array<Id>)
    modifies a
    ensures Sorted(items, done, a[..], a.Length) && multiset(a[..]) == multiset(old(a[..]))
  {
    var i := 0;
    while i < a.Length
      invariant 0 <= i <= a.Length && Sorted(items, done, a[..], i) && multiset(a[..]) == multiset(old(a[..]))
    {
      SinkLeast(items, done, a, i);
      i := i + 1;
    }
  }

  method SinkLeast(items: Items, done: set<Id>, a: array<Id>, i: nat)
    requires i < a.Length && Sorted(items, done, a[..], i)
    modifies a
    ensures Sorted(items, done, a[..], i + 1) && multiset(a[..]) == multiset(old(a[..]))
  {
    var j := i + 1;
    while j < a.Length
      invariant i < j <= a.Length && Placing(items, done, a[..], i, j) && multiset(a[..]) == multiset(old(a[..]))
    {
      if !Le(items, done, a[i], a[j]) {
        ghost var s := a[..];
        SwapPlaces(items, done, s, i, j);
        SwapKeeps(s, i, j);
        a[i], a[j] := a[j], a[i];
        assert a[..] == Swapped(s, i, j);
      }
      j := j + 1;
    }
  }

  // ---- what a run of initialisation is

  /** All items known after those in h have run. */
  function Registered(items: Items, initial: set<Id>, h: seq<Id>): set<Id> {
    if h == [] then initial
    else Registered(items, initial, h[..|h| - 1]) + Elems(Flatten(items.adds(h[|h| - 1])))
  }

  /** The known items are those there were at first and those of the sets that the items in h added. */
  lemma {:induction false} RegisteredIs(items: Items, initial: set<Id>, h: seq<Id>, x: Id)
    ensures x in Registered(items, initial, h) <==>
            x in initial || exists i, j :: 0 <= i < |h| && 0 <= j < |items.adds(h[i])| && x in items.adds(h[i])[j]
  {
    if h != [] {
      var n := |h| - 1;
      RegisteredIs(items, initial, h[..n], x);
      FlattenIs(items.adds(h[n]), x);
      assert forall i :: 0 <= i < n ==> h[..n][i] == h[i];
    }
  }

  lemma {:induction false} FlattenIs(sets: seq<seq<Id>>, x: Id)
    ensures x in Flatten(sets) <==> exists j :: 0 <= j < |sets| && x in sets[j]
  {
    if sets != [] {
      FlattenIs(sets[..|sets| - 1], x);
    }
  }

  /** An item declared to run: neither SI_SUB_DUMMY nor SI_SUB_LAST. */
  predicate Declared(items: Items, x: Id) { items.sub(x) != 0 && items.sub(x) != 0xfff_ffff }

  /** x is next: of the lowest subsystem, and lowest order in it, among the known items that have not run. */
  ghost predicate IsNext(items: Items, done: set<Id>, known: set<Id>, x: Id) {
    && x in known && x !in done && Declared(items, x)
    && forall y :: y in known && y !in done && Declared(items, y) ==>
         items.sub(x) < items.sub(y) || (items.sub(x) == items.sub(y) && items.order(x) <= items.order(y))
  }

  /** At every moment the item that ran was the next one. */
  ghost predicate InOrder(items: Items, initial: set<Id>, h: seq<Id>) {
    forall k {:trigger NextAt(items, initial, h, k)} :: 0 <= k < |h| ==> NextAt(items, initial, h, k)
  }

  ghost predicate NextAt(items: Items, initial: set<Id>, h: seq<Id>, k: nat)
    requires k < |h|
  {
    IsNext(items, Elems(h[..k]), Registered(items, initial, h[..k]), h[k])
  }

  ghost predicate Finished(items: Items, initial: set<Id>, h: seq<Id>) {
    forall x :: x in Registered(items, initial, h) && Declared(items, x) ==> x in h
  }

  lemma InOrderSnoc(items: Items, initial: set<Id>, h: seq<Id>, x: Id)
    requires InOrder(items, initial, h) && IsNext(items, Elems(h), Registered(items, initial, h), x)
    ensures InOrder(items, initial, h + [x])
  {
    var h' := h + [x];
    forall k | 0 <= k < |h'| ensures NextAt(items, initial, h', k) {
      assert h'[..k] == h[..k];
      if k < |h| {
        assert NextAt(items, initial, h, k);
      } else {
        assert h[..k] == h;
      }
    }
  }

  lemma {:induction false} RegisteredGrows(items: Items, initial: set<Id>, h: seq<Id>, k: nat)
    requires k <= |h|
    ensures Registered(items, initial, h[..k]) <= Registered(items, initial, h)
  {
    if k < |h| {
      var n := |h| - 1;
      RegisteredGrows(items, initial, h[..n], k);
      assert h[..n][..k] == h[..k];
    } else {
      assert h[..k] == h;
    }
  }

  /** So every registered item that is declared to run has run exactly once, and nothing else has. */
  lemma ExactlyOnce(items: Items, initial: set<Id>, h: seq<Id>, x: Id)
    requires InOrder(items, initial, h) && Finished(items, initial, h)
    ensures multiset(h)[x] == if x in Registered(items, initial, h) && Declared(items, x) then 1 else 0
  {
    AtMostOnce(items, initial, h, x, |h|);
    assert h[..|h|] == h;
    assert x in multiset(h) <==> x in h;
    if x in h {
      var k :| 0 <= k < |h| && h[k] == x;
      assert NextAt(items, initial, h, k);
      RegisteredGrows(items, initial, h, k);
    }
  }

  lemma {:induction false} AtMostOnce(items: Items, initial: set<Id>, h: seq<Id>, x: Id, n: nat)
    requires InOrder(items, initial, h) && n <= |h|
    ensures multiset(h[..n])[x] <= 1
  {
    if n > 0 {
      AtMostOnce(items, initial, h, x, n - 1);
      assert h[..n] == h[..n - 1] + [h[n - 1]];
      assert NextAt(items, initial, h, n - 1);
      assert h[n - 1] !in Elems(h[..n - 1]);
      assert h[n - 1] !in multiset(h[..n - 1]);
    }
  }

  lemma ElemsAppend(s: seq<Id>, t: seq<Id>)
    ensures Elems(s + t) == Elems(s) + Elems(t)
  {
  }

  lemma FlattenNext(sets: seq<seq<Id>>, i: nat)
    requires i < |sets|
    ensures Elems(Flatten(sets[..i + 1])) == Elems(Flatten(sets[..i])) + Elems(sets[i])
  {
    assert sets[..i + 1][..i] == sets[..i];
    ElemsAppend(Flatten(sets[..i]), sets[i]);
  }

  lemma OneMoreRan(items: Items, initial: set<Id>, universe: set<Id>, h: seq<Id>, x: Id)
    requires InOrder(items, initial, h) && IsNext(items, Elems(h), Registered(items, initial, h), x)
    requires Closed(items, universe) && Registered(items, initial, h) <= universe
    ensures InOrder(items, initial, h + [x]) && Elems(h + [x]) == Elems(h) + {x} && x in universe && x !in Elems(h)
    ensures Registered(items, initial, h + [x]) == Registered(items, initial, h) + Elems(Flatten(items.adds(x)))
    ensures Registered(items, initial, h + [x]) <= universe
  {
    InOrderSnoc(items, initial, h, x);
    ElemsAppend(h, [x]);
    assert (h + [x])[..|h|] == h;
  }

  lemma ElemsPermuted(s: seq<Id>, t: seq<Id>)
    requires multiset(s) == multiset(t)
    ensures Elems(s) == Elems(t)
  {
    forall x ensures x in s <==> x in t {
      assert x in s <==> x in multiset(s);
    }
  }

  // ---- the code

  /** Copy s to where xipp points, and move xipp on. */
  method CopyTo(s: seq<Id>, newset: array<Id>, at: nat) returns (xipp: nat)
    requires at + |s| <= newset.Length
    modifies newset
    ensures xipp == at + |s| && newset[..xipp] == old(newset[..at]) + s
  {
    xipp := at;
    var sipp := 0;
    while sipp < |s|
      invariant 0 <= sipp <= |s| && xipp == at + sipp && newset[..xipp] == old(newset[..at]) + s[..sipp]
    {
      newset[xipp] := s[sipp];
      assert newset[..xipp + 1] == newset[..xipp] + [s[sipp]] && s[..sipp + 1] == s[..sipp] + [s[sipp]];
      sipp, xipp := sipp + 1, xipp + 1;
    }
  }

  /** Those of the table still to run are in order. */
  ghost predicate RestSorted(items: Items, done: set<Id>, s: seq<Id>) {
    forall i, j :: 0 <= i < j < |s| && Runnable(items, done, s[i]) && Runnable(items, done, s[j]) ==>
      Le(items, done, s[i], s[j])
  }

  lemma RestStaysSorted(items: Items, done: set<Id>, done': set<Id>, s: seq<Id>)
    requires RestSorted(items, done, s) && done <= done'
    ensures RestSorted(items, done', s)
    ensures forall x :: Runnable(items, done', x) ==> Runnable(items, done, x)
  {
  }

  lemma FirstIsNext(items: Items, done: set<Id>, s: seq<Id>, i: nat)
    requires i < |s| && RestSorted(items, done, s) && Runnable(items, done, s[i])
    requires forall j :: 0 <= j < i ==> !Runnable(items, done, s[j])
    ensures IsNext(items, done, Elems(s), s[i])
  {
  }

  /** All items that can ever be registered. */
  ghost predicate Closed(items: Items, universe: set<Id>) {
    forall x :: x in universe ==> Elems(Flatten(items.adds(x))) <= universe
  }

  class Startup {
    const items: Items
    var table: array<Id>              // `sysinit`
    var pending: array?<Id>           // `newsysinit`
    var done: set<Id>

    ghost const initial: set<Id>
    ghost const universe: set<Id>
    ghost var history: seq<Id>

    ghost predicate Sound()
      reads this
    {
      && done == Elems(history) && InOrder(items, initial, history)
      && Closed(items, universe) && Registered(items, initial, history) <= universe
    }

    ghost predicate Valid()
      reads this, table
    {
      Sound() && pending == null && Elems(table[..]) == Registered(items, initial, history)
    }

    constructor (items: Items, set_: seq<Id>, ghost universe: set<Id>)
      requires Closed(items, universe) && Elems(set_) <= universe
      ensures Valid() && history == [] && fresh(table) && this.items == items && initial == Elems(set_)
      ensures this.universe == universe
    {
      this.items, this.universe, initial, done, history, pending := items, universe, Elems(set_), {}, [], null;
      table := new Id[|set_|](i requires 0 <= i < |set_| => set_[i]);
      new;
      assert table[..] == set_;
    }

    /** The items known now: those of the larger table, if there is one. */
    function Known(): seq<Id>
      reads this, table, pending
    {
      if pending != null then pending[..] else table[..]
    }

    /** `sysinit_add`: a larger table; what is known stays known and in its place, and the set comes after it. */
    method SysinitAdd(set_: seq<Id>)
      modifies `pending
      ensures pending != null && fresh(pending) && Known() == old(Known()) + set_
      ensures Elems(Known()) == old(Elems(Known())) + Elems(set_)
    {
      var count := |set_| + if pending != null then pending.Length else table.Length;
      var newset := new Id[count];
      var xipp := 0;
      if pending != null {
        xipp := CopyTo(pending[..], newset, 0);
      } else {
        xipp := CopyTo(table[..], newset, 0);
      }
      xipp := CopyTo(set_, newset, xipp);
      assert newset[..xipp] == newset[..];
      ElemsAppend(Known(), set_);
      pending := newset;
    }

    /** The function of an item is called, and the item checked off. */
    method RunItem(x: Id)
      requires Valid() && IsNext(items, done, Elems(table[..]), x)
      modifies `pending, `done, `history
      ensures Sound() && history == old(history) + [x] && x !in old(done) && x in universe
      ensures (pending == null || fresh(pending)) && Elems(Known()) == Registered(items, initial, history)
    {
      CallFunction(x);
      OneMoreRan(items, initial, universe, history, x);
      done := done + {x};
      history := history + [x];
    }

    method CallFunction(x: Id)
      requires pending == null
      modifies `pending
      ensures pending == null || fresh(pending)
      ensures Elems(Known()) == Elems(table[..]) + Elems(Flatten(items.adds(x)))
    {
      var sets := items.adds(x);
      var i := 0;
      while i < |sets|
        invariant 0 <= i <= |sets| && (pending == null || fresh(pending))
        invariant Elems(Known()) == Elems(table[..]) + Elems(Flatten(sets[..i]))
      {
        SysinitAdd(sets[i]);
        FlattenNext(sets, i);
        i := i + 1;
      }
      assert sets[..|sets|] == sets;
    }

    /** Sort the table and run it, until an item has registered others: then they are merged in. */
    method Pass() returns (again: bool)
      requires Valid()
      modifies this, table
      ensures Valid() && (table == old(table) || fresh(table)) && old(history) <= history
      ensures again ==> exists x :: x in universe && x in done && x !in old(done)
      ensures !again ==> Finished(items, initial, history)
    {
      ghost var s := table[..];
      Sort(items, done, table);
      ElemsPermuted(s, table[..]);
      again := Traverse();
    }

    method Traverse() returns (again: bool)
      requires Valid() && RestSorted(items, done, table[..])
      modifies this
      ensures Valid() && (table == old(table) || fresh(table)) && old(history) <= history
      ensures again ==> exists x :: x in universe && x in done && x !in old(done)
      ensures !again ==> Finished(items, initial, history)
    {
      var i := 0;
      while i < table.Length
        invariant 0 <= i <= table.Length && Valid() && table == old(table) && old(history) <= history
                  && old(done) <= done
        invariant RestSorted(items, done, table[..]) && forall j :: 0 <= j < i ==> !Runnable(items, done, table[j])
      {
        var x := table[i];
        if Sub(items, done, x) != SI_SUB_DUMMY && Sub(items, done, x) != SI_SUB_LAST {
          FirstIsNext(items, done, table[..], i);
          ghost var was := done;
          RunItem(x);
          RestStaysSorted(items, was, done, table[..]);
          if pending != null {
            Install();
            return true;
          }
        }
        i := i + 1;
      }
      again := false;
    }

    /** The larger table takes the place of the old one. */
    method Install()
      requires Sound() && pending != null && Elems(pending[..]) == Registered(items, initial, history)
      modifies `table, `pending
      ensures Valid() && table == old(pending)
    {
      table := pending;
      pending := null;
    }

    /** `mi_startup`: it ends, and what has run then is everything there is to run, in order. */
    method MiStartup()
      requires Valid()
      modifies this, table
      ensures Valid() && InOrder(items, initial, history) && Finished(items, initial, history)
    {
      while true
        invariant Valid() && (table == old(table) || fresh(table))
        decreases universe - done
      {
        var again := Pass();
        if !again {
          return;
        }
      }
    }
  }
}
