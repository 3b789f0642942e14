/**
 Linear probing in a table that only grows: the walk behind both levels of the RSS port tables of
 `lib/ff_dpdk_if.c`.  A table is the sequence of the keys in its cells; `home` is where a key's walk
 starts.
 */
module Probing {
  import opened Options

  /** The cell d steps after h, around the end of a table of n cells. */
  function At(h: nat, d: nat, n: nat): nat
    requires h < n && d < n
    ensures At(h, d, n) < n
  {
    if h + d < n then h + d else h + d - n
  }

  /** How many steps it takes from h to i. */
  function Dist(h: nat, i: nat, n: nat): nat
    requires h < n && i < n
    ensures Dist(h, i, n) < n && At(h, Dist(h, i, n), n) == i
  {
    if h <= i then i - h else i + n - h
  }

  ghost predicate Homes<T(!new)>(home: T -> nat, n: nat) { forall k :: home(k) < n }

  ghost predicate KeysOnce<T>(ks: seq<Option<T>>) {
    forall i, j :: 0 <= i < |ks| && 0 <= j < |ks| && ks[i].Some? && ks[i] == ks[j] ==> i == j
  }

  /** No empty cell lies on the way from a key's home to its cell. */
  predicate Reached<T>(ks: seq<Option<T>>, h: nat, i: nat)
    requires h < |ks| && i < |ks|
  {
    forall d :: 0 <= d < Dist(h, i, |ks|) ==> ks[At(h, d, |ks|)].Some?
  }

  ghost predicate Probed<T(!new)>(ks: seq<Option<T>>, home: T -> nat) {
    && Homes(home, |ks|) && KeysOnce(ks)
    && forall i :: 0 <= i < |ks| && ks[i].Some? ==> Reached(ks, home(ks[i].value), i)
  }

  /** The d cells from h on are taken by other keys. */
  predicate Passed<T(==)>(ks: seq<Option<T>>, h: nat, k: T, d: nat)
    requires h < |ks| && d <= |ks|
  {
    forall e :: 0 <= e < d ==> ks[At(h, e, |ks|)].Some? && ks[At(h, e, |ks|)] != Some(k)
  }

  /** A walk that stops at a key's cell or at an empty one has missed nothing. */
  lemma NothingHidden<T(!new)>(ks: seq<Option<T>>, home: T -> nat, k: T, d: nat)
    requires Probed(ks, home) && d < |ks| && Passed(ks, home(k), k, d)
    requires ks[At(home(k), d, |ks|)].None?
    ensures Some(k) !in ks
  {
    forall i | 0 <= i < |ks| ensures ks[i] != Some(k) {
      var e := Dist(home(k), i, |ks|);
      assert e < d ==> ks[At(home(k), e, |ks|)] != Some(k);
      assert d < e ==> !Reached(ks, home(k), i);
    }
  }

  lemma AllPassed<T>(ks: seq<Option<T>>, h: nat, k: T)
    requires h < |ks| && Passed(ks, h, k, |ks|)
    ensures Some(k) !in ks && forall i :: 0 <= i < |ks| ==> ks[i].Some?
  {
    forall i | 0 <= i < |ks| ensures ks[i].Some? && ks[i] != Some(k) {
      assert ks[At(h, Dist(h, i, |ks|), |ks|)].Some?;
    }
  }

  lemma Inserted<T(!new)>(ks: seq<Option<T>>, home: T -> nat, k: T, d: nat)
    requires Probed(ks, home) && d < |ks| && Passed(ks, home(k), k, d) && Some(k) !in ks
    requires ks[At(home(k), d, |ks|)].None?
    ensures Probed(ks[At(home(k), d, |ks|) := Some(k)], home)
  {
    var p := At(home(k), d, |ks|);
    var ks' := ks[p := Some(k)];
    forall i | 0 <= i < |ks'| && ks'[i].Some? ensures Reached(ks', home(ks'[i].value), i) {
      if i == p {
        assert Dist(home(k), p, |ks|) == d;
      } else {
        assert Reached(ks, home(ks[i].value), i);
      }
    }
  }

  /** The probing loop: stop at the key or at the first empty cell, or give up back at the start. */
  method Probe<T(==, !new)>(ks: seq<Option<T>>, home: T -> nat, k: T) returns (i: nat, ok: bool)
    requires |ks| > 0 && Probed(ks, home)
    ensures ok ==> i < |ks| && (ks[i] == Some(k) || (ks[i].None? && Some(k) !in ks))
    ensures ok && ks[i].None? ==> Probed(ks[i := Some(k)], home)
    ensures !ok ==> Some(k) !in ks && forall j :: 0 <= j < |ks| ==> ks[j].Some?
  {
    var start := home(k);
    i := start;
    ghost var d := 0;
    while true
      invariant 0 <= d < |ks| && i == At(start, d, |ks|) && Passed(ks, start, k, d)
      decreases |ks| - d
    {
      if ks[i].None? {
        NothingHidden(ks, home, k, d);
        Inserted(ks, home, k, d);
        return i, true;
      }
      if ks[i] == Some(k) {
        return i, true;
      }
      i := if i + 1 == |ks| then 0 else i + 1;
      d := d + 1;
      if i == start {
        assert d == |ks|;
        AllPassed(ks, start, k);
        return 0, false;
      }
    }
  }

  // ---- what a table holds

  ghost function Held<T>(ks: seq<Option<T>>): set<T> {
    set i | 0 <= i < |ks| && ks[i].Some? :: ks[i].value
  }

  lemma HeldIs<T>(ks: seq<Option<T>>, k: T)
    ensures k in Held(ks) <==> Some(k) in ks
  {
    if Some(k) in ks {
      var i :| 0 <= i < |ks| && ks[i] == Some(k);
      assert ks[i].value in Held(ks);
    }
  }

  lemma HeldInsert<T>(ks: seq<Option<T>>, i: nat, k: T)
    requires i < |ks| && ks[i].None?
    ensures Held(ks[i := Some(k)]) == Held(ks) + {k}
  {
    var ks' := ks[i := Some(k)];
    forall x ensures x in Held(ks') <==> x in Held(ks) + {k} {
      HeldIs(ks, x);
      HeldIs(ks', x);
      if Some(x) in ks {
        var j :| 0 <= j < |ks| && ks[j] == Some(x);
        assert ks'[j] == Some(x);
      }
      assert ks'[i] == Some(k);
    }
  }

  function Count<T>(ks: seq<Option<T>>): nat {
    if ks == [] then 0 else Count(ks[..|ks| - 1]) + if ks[|ks| - 1].Some? then 1 else 0
  }

  lemma {:induction false} CountHeld<T>(ks: seq<Option<T>>)
    requires KeysOnce(ks)
    ensures |Held(ks)| == Count(ks) <= |ks|
  {
    if ks == [] {
      assert Held(ks) == {};
    } else {
      var init, last := ks[..|ks| - 1], ks[|ks| - 1];
      CountHeld(init);
      assert forall i :: 0 <= i < |init| ==> init[i] == ks[i];
      if last.Some? {
        assert Held(ks) == Held(init) + {last.value};
        assert last.value !in Held(init);
      } else {
        assert Held(ks) == Held(init);
      }
    }
  }

  lemma {:induction false} CountFull<T>(ks: seq<Option<T>>)
    ensures Count(ks) <= |ks|
    ensures Count(ks) == |ks| <==> forall i :: 0 <= i < |ks| ==> ks[i].Some?
  {
    if ks != [] {
      var init := ks[..|ks| - 1];
      CountFull(init);
      assert forall i :: 0 <= i < |init| ==> init[i] == ks[i];
    }
  }

  /** A table is full exactly if it holds as many keys as it has cells. */
  lemma HeldFull<T>(ks: seq<Option<T>>)
    requires KeysOnce(ks)
    ensures |Held(ks)| == |ks| <==> forall i :: 0 <= i < |ks| ==> ks[i].Some?
  {
    CountHeld(ks);
    CountFull(ks);
  }

  /** An empty table. */
  lemma Blank<T(!new)>(ks: seq<Option<T>>, home: T -> nat)
    requires Homes(home, |ks|) && forall i :: 0 <= i < |ks| ==> ks[i].None?
    ensures Probed(ks, home) && Held(ks) == {}
  {
  }
}
