/**
 The hashed timing wheel of `lib/ff_kern_timeout.c`.

 A callout structure is addressed by its id; one never armed is in the state `callout_init` leaves
 it in.  A handler is an arbitrary finite sequence of resets, stops and clock movements, chosen
 afresh for every invocation (`handlers`), so it may arm or stop any callout, itself and the one
 under the cursor included.  Ticks are unbounded; `ClockWrapsSafely` gives the horizon within which
 the 32-bit tests of the source agree with them.
 */
module Callwheel {
  import opened Options
  import opened TimerSpec
  import opened Arithmetic
  import opened Basics

  /** `struct callout`. */
  datatype Callout = Callout(time: int, pending: bool, active: bool, direct: bool, call: Call)

  /** `struct cc_exec`: which callout is executing, and whether it can no longer be cancelled. */
  datatype Exec = Exec(curr: Option<Id>, cancel: bool)

  const INITIAL := Callout(0, false, false, false, Call(0, 0))

  function Lookup(cs: map<Id, Callout>, c: Id): Callout { if c in cs then cs[c] else INITIAL }

  function Bucket(t: int, size: nat): nat
    requires size > 0
  {
    t % size
  }

  /** `callout_get_bucket` masks the tick with the size less one, a power of two. */
  lemma BucketIsMask(t: nat, size: nat)
    requires IsPow2(size)
    ensures size > 0 && Bucket(t, size) == And(t, size - 1)
  {
    AndIsRemainder(t, size);
  }

  // ---- bucket lists

  lemma {:induction false} FirstOccurrence(s: seq<Id>, c: Id) returns (i: nat)
    requires c in s
    ensures i < |s| && s[i] == c && c !in s[..i]
    decreases |s|
  {
    if s[0] == c {
      i := 0;
    } else {
      i := FirstOccurrence(s[1..], c);
      i := i + 1;
      assert s[..i] == [s[0]] + s[1..][..i - 1];
    }
  }

  function IndexOf(s: seq<Id>, c: Id): (i: nat)
    requires c in s
    ensures i < |s| && s[i] == c && c !in s[..i]
  {
    assert exists i :: 0 <= i < |s| && s[i] == c && c !in s[..i] by {
      var i := FirstOccurrence(s, c);
    }
    var i: nat :| i < |s| && s[i] == c && c !in s[..i];
    i
  }

  /** `LIST_NEXT`. */
  function Next(s: seq<Id>, c: Id): Option<Id>
    requires c in s
  {
    var i := IndexOf(s, c);
    if i + 1 < |s| then Some(s[i + 1]) else None
  }

  /** `LIST_REMOVE`. */
  function Without(s: seq<Id>, c: Id): seq<Id>
    requires c in s
  {
    s[..IndexOf(s, c)] + s[IndexOf(s, c) + 1..]
  }

  lemma WithoutAt(s: seq<Id>, c: Id)
    requires c in s
    ensures |Without(s, c)| == |s| - 1
    ensures forall k :: 0 <= k < |s| - 1 ==> Without(s, c)[k] == if k < IndexOf(s, c) then s[k] else s[k + 1]
  {
  }

  lemma WithoutIs(s: seq<Id>, c: Id)
    requires NoDup(s) && c in s
    ensures NoDup(Without(s, c)) && c !in Without(s, c)
    ensures forall x :: x in Without(s, c) <==> x in s && x != c
  {
    WithoutAt(s, c);
    var i := IndexOf(s, c);
    var w := Without(s, c);
    forall x | x in s && x != c ensures x in w {
      var k := IndexOf(s, x);
      assert w[if k < i then k else k - 1] == x;
    }
  }

  lemma IndexUnique(s: seq<Id>, i: nat)
    requires NoDup(s) && i < |s|
    ensures IndexOf(s, s[i]) == i
  {
  }

  /** Where a cursor stands in a list; a null cursor stands past its end. */
  function Position(s: seq<Id>, cursor: Option<Id>): nat
    requires cursor.Some? ==> cursor.value in s
    ensures Position(s, cursor) <= |s|
  {
    if cursor.None? then |s| else IndexOf(s, cursor.value)
  }

  /** The cursor once `c` is off the list. */
  function Moved(s: seq<Id>, cursor: Option<Id>, c: Id): Option<Id>
    requires c in s
  {
    if cursor == Some(c) then Next(s, c) else cursor
  }

  lemma CursorPosition(s: seq<Id>, cursor: Option<Id>, c: Id)
    requires NoDup(s) && c in s && (cursor.Some? ==> cursor.value in s)
    ensures var cursor' := Moved(s, cursor, c); var s' := Without(s, c);
            && (cursor'.Some? ==> cursor'.value in s')
            && Position(s', cursor') ==
               if Position(s, cursor) <= IndexOf(s, c) then Position(s, cursor) else Position(s, cursor) - 1
  {
    WithoutAt(s, c);
    WithoutIs(s, c);
    var cursor', s' := Moved(s, cursor, c), Without(s, c);
    if cursor'.Some? {
      var p := Position(s, cursor);
      var p' := if p <= IndexOf(s, c) then p else p - 1;
      assert s'[p'] == cursor'.value;
      IndexUnique(s', p');
    }
  }

  /** Removing an element uncovers nothing new before the cursor. */
  lemma CursorAfterRemoval(s: seq<Id>, cursor: Option<Id>, c: Id)
    requires NoDup(s) && c in s && (cursor.Some? ==> cursor.value in s)
    ensures var cursor' := Moved(s, cursor, c); var s' := Without(s, c);
            && (cursor'.Some? ==> cursor'.value in s')
            && forall x :: x in s'[..Position(s', cursor')] ==> x in s[..Position(s, cursor)]
  {
    CursorPosition(s, cursor, c);
    WithoutAt(s, c);
    var s', i := Without(s, c), IndexOf(s, c);
    var p, p' := Position(s, cursor), Position(s', Moved(s, cursor, c));
    forall x | x in s'[..p'] ensures x in s[..p] {
      var k :| 0 <= k < p' && s'[k] == x;
      assert s[..p][if k < i then k else k + 1] == x;
    }
  }

  // ---- the wheel as a whole

  /** Each pending callout is in exactly one place: once in the bucket of its own tick. */
  ghost predicate Placed(buckets: seq<seq<Id>>, cs: map<Id, Callout>)
    requires |buckets| > 0
  {
    && (forall b :: 0 <= b < |buckets| ==> NoDup(buckets[b]))
    && (forall b, c :: 0 <= b < |buckets| && c in buckets[b] ==>
          c in cs && cs[c].pending && Bucket(cs[c].time, |buckets|) == b)
    && (forall c :: c in cs && cs[c].pending ==> c in buckets[Bucket(cs[c].time, |buckets|)])
  }

  lemma PlacedHas(buckets: seq<seq<Id>>, cs: map<Id, Callout>, b: nat, c: Id)
    requires |buckets| > 0 && Placed(buckets, cs) && b < |buckets| && c in buckets[b]
    ensures c in cs && cs[c].pending && NoDup(buckets[b])
  {
  }

  lemma PlacedRemove(buckets: seq<seq<Id>>, cs: map<Id, Callout>, c: Id, r: Callout)
    requires |buckets| > 0 && Placed(buckets, cs) && c in cs && cs[c].pending && !r.pending
    ensures var b := Bucket(cs[c].time, |buckets|);
            c in buckets[b] && Placed(buckets[b := Without(buckets[b], c)], cs[c := r])
  {
    var b := Bucket(cs[c].time, |buckets|);
    WithoutIs(buckets[b], c);
  }

  lemma PlacedInsert(buckets: seq<seq<Id>>, cs: map<Id, Callout>, c: Id, r: Callout)
    requires |buckets| > 0 && Placed(buckets, cs) && !Lookup(cs, c).pending && r.pending
    ensures var b := Bucket(r.time, |buckets|);
            Placed(buckets[b := [c] + buckets[b]], cs[c := r])
  {
    var b := Bucket(r.time, |buckets|);
    assert c !in buckets[b];
    var s := [c] + buckets[b];
    assert NoDup(s);
    assert forall x :: x in s <==> x == c || x in buckets[b];
  }

  /** The plain map the wheel stands for. */
  function ArmedIn(cs: map<Id, Callout>): map<Id, Timer> {
    map c | c in cs && cs[c].pending :: Timer(cs[c].time, cs[c].call)
  }

  function DirectIn(cs: map<Id, Callout>): set<Id> { set c | c in cs && cs[c].direct }

  /** Everything before the cursor of a bucket walk is not due. */
  ghost predicate CleanBefore(s: seq<Id>, cursor: Option<Id>, cs: map<Id, Callout>, t: int)
    requires cursor.Some? ==> cursor.value in s
  {
    forall x :: x in s[..Position(s, cursor)] ==> Lookup(cs, x).time != t
  }

  lemma CleanAfterRemoval(s: seq<Id>, cursor: Option<Id>, cs: map<Id, Callout>, t: int, c: Id, r: Callout)
    requires NoDup(s) && c in s && (cursor.Some? ==> cursor.value in s)
    requires CleanBefore(s, cursor, cs, t) && r.time == Lookup(cs, c).time
    ensures var cursor' := Moved(s, cursor, c);
            (cursor'.Some? ==> cursor'.value in Without(s, c)) && CleanBefore(Without(s, c), cursor', cs[c := r], t)
  {
    CursorAfterRemoval(s, cursor, c);
  }

  lemma CleanNext(s: seq<Id>, c: Id, cs: map<Id, Callout>, t: int)
    requires NoDup(s) && c in s && CleanBefore(s, Some(c), cs, t) && Lookup(cs, c).time != t
    ensures var n := Next(s, c);
            (n.Some? ==> n.value in s) && CleanBefore(s, n, cs, t) && Position(s, n) == Position(s, Some(c)) + 1
  {
    var i := IndexOf(s, c);
    if i + 1 < |s| {
      IndexUnique(s, i + 1);
    }
    assert s[..i + 1] == s[..i] + [c];
  }

  lemma Shrinks(small: set<Id>, large: set<Id>, c: Id)
    requires small <= large - {c} && c in large
    ensures |small| < |large|
  {
    Subset(small, large - {c});
  }

  lemma {:induction false} Subset(small: set<Id>, large: set<Id>)
    requires small <= large
    ensures |small| <= |large|
  {
    if small != {} {
      var x :| x in small;
      Subset(small - {x}, large - {x});
    }
  }

  lemma ArmedUpdate(cs: map<Id, Callout>, c: Id, r: Callout)
    ensures ArmedIn(cs[c := r]) ==
            if r.pending then ArmedIn(cs)[c := Timer(r.time, r.call)] else ArmedIn(cs) - {c}
    ensures DirectIn(cs[c := r]) == if r.direct then DirectIn(cs) + {c} else DirectIn(cs) - {c}
  {
  }

  lemma ArmedByReset(cs: map<Id, Callout>, c: Id, r: Callout, direct: bool)
    requires r.pending && r.direct == (direct || Lookup(cs, c).direct)
    ensures ArmedIn(cs[c := r]) == ArmedIn(cs)[c := Timer(r.time, r.call)]
    ensures DirectIn(cs[c := r]) == if direct then DirectIn(cs) + {c} else DirectIn(cs)
    ensures (c in ArmedIn(cs)) == Lookup(cs, c).pending
  {
    ArmedUpdate(cs, c, r);
  }

  /** The callouts armed for tick t. */
  ghost function DueIn(armed: map<Id, Timer>, t: int): set<Id> {
    set c | c in armed && armed[c].due == t
  }

  lemma DueAfterRemoval(armed: map<Id, Timer>, t: int, c: Id)
    ensures DueIn(armed - {c}, t) == DueIn(armed, t) - {c}
  {
  }

  lemma NothingDue(cs: map<Id, Callout>, t: int)
    requires DueIn(ArmedIn(cs), t) == {}
    ensures forall c :: c in ArmedIn(cs) ==> ArmedIn(cs)[c].due != t
    ensures forall c :: c in cs && cs[c].pending ==> cs[c].time != t
  {
    forall c | c in ArmedIn(cs) ensures ArmedIn(cs)[c].due != t {
      assert c !in DueIn(ArmedIn(cs), t);
    }
    forall c | c in cs && cs[c].pending ensures cs[c].time != t {
      assert c in ArmedIn(cs);
    }
  }

  /** Nothing due stands before a null cursor, so nothing is due at all. */
  lemma WalkIsOver(buckets: seq<seq<Id>>, cs: map<Id, Callout>, t: int)
    requires |buckets| > 0 && Placed(buckets, cs) && CleanBefore(buckets[Bucket(t, |buckets|)], None, cs, t)
    ensures DueIn(ArmedIn(cs), t) == {}
  {
    var s := buckets[Bucket(t, |buckets|)];
    assert s[..|s|] == s;
    assert forall x :: x in s ==> Lookup(cs, x).time != t;
  }

  lemma NotArmed(cs: map<Id, Callout>, c: Id)
    requires !Lookup(cs, c).pending
    ensures ArmedIn(cs) == ArmedIn(cs) - {c}
  {
  }

  lemma ArmedUpdateIfKnown(cs: map<Id, Callout>, cs': map<Id, Callout>, c: Id)
    requires cs' == cs || (c in cs && c in cs' && cs' == cs[c := cs'[c]] && cs'[c].direct == cs[c].direct)
    requires !Lookup(cs', c).pending
    ensures ArmedIn(cs') == ArmedIn(cs) - {c} && DirectIn(cs') == DirectIn(cs)
    ensures forall x :: x in cs' && cs'[x].pending ==> x in cs && cs'[x] == cs[x]
  {
    if cs' == cs {
      NotArmed(cs, c);
    } else {
      ArmedUpdate(cs, c, cs'[c]);
    }
  }

  ghost predicate Bounded(h: Handlers, horizon: int) {
    forall n: nat, i :: 0 <= i < |h(n)| && h(n)[i].DoAdvance? ==> h(n)[i].to <= horizon
  }

  class Wheel {
    const size: nat
    const wheel: array<seq<Id>>
    const handlers: Handlers
    const locked: Id -> bool
    var ticks: int
    var softticks: int
    var ccNext: Option<Id>
    var ccBucket: nat
    var callouts: map<Id, Callout>
    var exec: seq<Exec>
    var fired: nat              // handler invocations so far

    ghost const horizon: int    // other threads stop moving the clock here
    ghost var log: seq<Event>
    ghost var states: seq<State>
    ghost var todo: seq<Op>
    ghost var swept: int        // first tick not handled yet
    ghost var walking: bool     // a handler runs from inside a bucket walk

    ghost function View(): State
      reads this
      requires |exec| == 2
    {
      State(ArmedIn(callouts), DirectIn(callouts), ticks, swept, fired, exec[1].curr, todo)
    }

    /** Lists and cursor agree with the callouts' own fields. */
    ghost predicate Structure()
      reads `ccNext, `ccBucket, `callouts, `walking, `swept, `ticks, wheel
    {
      && wheel.Length == size > 0 && Placed(wheel[..], callouts)
      && ccBucket < size && (ccNext.Some? ==> ccNext.value in wheel[ccBucket])
      && (walking ==> swept < ticks && ccBucket == Bucket(swept, size)
                      && CleanBefore(wheel[ccBucket], ccNext, callouts, swept))
    }

    ghost predicate Timely()
      reads `callouts, `swept, `softticks, `ticks
    {
      && swept <= softticks <= swept + 1 && softticks <= ticks
      && (forall c :: c in callouts && callouts[c].pending ==> callouts[c].active && swept <= callouts[c].time)
    }

    /** Slot 0 is never used, and what slot 1 executes can no longer be cancelled. */
    ghost predicate Executing()
      reads `exec, `todo
    {
      && |exec| == 2 && exec[0].curr.None?
      && (exec[1].curr.Some? && locked(exec[1].curr.value) ==> exec[1].cancel)
      && (exec[1].curr.None? ==> todo == [])
    }

    /** What has happened so far is a run of the plain map, and led to what the wheel holds now. */
    ghost predicate Refines()
      reads this
    {
      && Bounded(handlers, horizon)
      && Run(handlers, states, log) && Initial(states[0])
      && |exec| == 2 && states[|log|] == View()
    }

    ghost predicate Valid()
      reads this, wheel
    {
      Structure() && Timely() && Executing() && Refines()
    }

    /** No handler is running. */
    ghost predicate Quiet()
      reads this, wheel
    {
      Valid() && exec[1].curr.None? && !walking
    }

    /** Between calls the wheel has handled every tick it counted. */
    ghost predicate Idle()
      reads this, wheel
    {
      Quiet() && swept == softticks
    }

    constructor (size: nat, ticks: int, handlers: Handlers, locked: Id -> bool, ghost horizon: int)
      requires size > 0 && 0 <= ticks && Bounded(handlers, horizon)
      ensures Idle() && fresh(wheel) && this.size == size && this.handlers == handlers && this.ticks == ticks
      ensures log == [] && states == [View()] && View() == State(map[], {}, ticks, 0, 0, None, [])
    {
      this.size, this.ticks, this.handlers, this.locked, this.horizon := size, ticks, handlers, locked, horizon;
      wheel := new seq<Id>[size](_ => []);
      softticks, ccNext, ccBucket, callouts := 0, None, 0, map[];
      exec := [Exec(None, false), Exec(None, false)];
      log, todo, swept, fired, walking := [], [], 0, 0, false;
      states := [State(map[], {}, ticks, 0, 0, None, [])];
      new;
      assert View() == State(map[], {}, ticks, 0, 0, None, []);
    }

    /** Take a pending callout off its list, moving the shared cursor on if it stood there. */
    method Unlink(c: Id)
      requires Structure() && c in callouts && callouts[c].pending
      modifies wheel, `ccNext, `callouts
      ensures callouts == old(callouts)[c := old(callouts)[c].(pending := false, active := false)]
      ensures Structure()
    {
      var b := Bucket(callouts[c].time, size);
      var r := callouts[c].(pending := false, active := false);
      ghost var before, cursor := wheel[..], ccNext;
      PlacedRemove(before, callouts, c, r);
      if walking && b == ccBucket {
        CleanAfterRemoval(before[b], cursor, callouts, swept, c, r);
      } else if b == ccBucket {
        CursorAfterRemoval(before[b], cursor, c);
      }
      if ccNext == Some(c) {
        ccNext := Next(wheel[b], c);
      }
      wheel[b] := Without(wheel[b], c);
      assert wheel[..] == before[b := Without(before[b], c)];
      callouts := callouts[c := r];
    }

    /** `callout_cc_add`: link at the head of the bucket; inserting into the walked bucket rewinds the cursor. */
    method Add(c: Id, delay: int, call: Call, direct: bool)
      requires Structure() && !Lookup(callouts, c).pending && swept <= ticks && delay > 0
      modifies wheel, `ccNext, `callouts
      ensures callouts == old(callouts)[c :=
                Callout(ticks + delay, true, true, direct || Lookup(old(callouts), c).direct, call)]
      ensures Structure()
      ensures var b := Bucket(ticks + delay, size);
              wheel[b] == [c] + old(wheel[b]) && ccNext == if ccBucket == b then Some(c) else old(ccNext)
    {
      var r := Callout(ticks + delay, true, true, direct || Lookup(callouts, c).direct, call);
      var b := Bucket(r.time, size);
      ghost var before := wheel[..];
      PlacedInsert(before, callouts, c, r);
      wheel[b] := [c] + wheel[b];
      assert wheel[..] == before[b := [c] + before[b]];
      callouts := callouts[c := r];
      if ccBucket == b {
        ccNext := Some(c);
      }
    }

    /** The body of `callout_reset_tick_on`, as far as lists and flags go. */
    method Rearm(c: Id, delay: int, direct: bool, call: Call) returns (cancelled: bool)
      requires Structure() && Executing() && swept <= ticks
      modifies wheel, `ccNext, `callouts
      ensures Structure()
      ensures cancelled == Lookup(old(callouts), c).pending
      ensures callouts == old(callouts)[c := Callout(ticks + (if delay <= 0 then 1 else delay), true, true,
                                                     direct || Lookup(old(callouts), c).direct, call)]
    {
      cancelled := false;
      var slot := if direct then 1 else 0;
      if exec[slot].curr == Some(c) && locked(c) && !exec[slot].cancel {
        assert false;  // what runs can no longer be cancelled
      }
      if Lookup(callouts, c).pending {
        Unlink(c);
        cancelled := true;
      }
      Add(c, if delay <= 0 then 1 else delay, call, direct);
    }

    /** `callout_reset_tick_on`: answers whether the callout was pending, and arms it afresh. */
    method Reset(c: Id, delay: int, direct: bool, call: Call) returns (cancelled: bool)
      requires Valid()
      requires exec[1].curr.Some? ==> todo != [] && Does(todo[0], Event.Reset(c, delay, direct, call, false))
      modifies wheel, `ccNext, `callouts, `log, `states, `todo
      ensures Valid() && cancelled == (c in old(View()).armed)
      ensures log == old(log) + [Event.Reset(c, delay, direct, call, cancelled)] && states == old(states) + [View()]
      ensures View() == Apply(handlers, old(View()), Event.Reset(c, delay, direct, call, cancelled))
      ensures Armed(old(View()), View(), c, delay, direct, call)
    {
      ghost var was := View();
      cancelled := Relink(c, delay, direct, call);
      ResetMeans(handlers, was, c, delay, direct, call, cancelled);
      Record(was, Event.Reset(c, delay, direct, call, cancelled), Rest(todo));
    }

    /** The same, seen as a change of the plain map. */
    method Relink(c: Id, delay: int, direct: bool, call: Call) returns (cancelled: bool)
      requires Structure() && Executing() && Timely()
      modifies wheel, `ccNext, `callouts
      ensures Structure() && Timely() && cancelled == (c in ArmedIn(old(callouts)))
      ensures ArmedIn(callouts) ==
              ArmedIn(old(callouts))[c := Timer(ticks + (if delay <= 0 then 1 else delay), call)]
      ensures DirectIn(callouts) == if direct then DirectIn(old(callouts)) + {c} else DirectIn(old(callouts))
    {
      cancelled := Rearm(c, delay, direct, call);
      ArmedByReset(old(callouts), c, callouts[c], direct);
    }

    /** Append an event the wheel has just carried out. */
    ghost method Record(was: State, e: Event, rest: seq<Op>)
      requires Structure() && Timely() && Executing() && (exec[1].curr.None? ==> rest == [])
      requires Bounded(handlers, horizon) && Run(handlers, states, log)
      requires Initial(states[0]) && states[|log|] == was
      requires Step(handlers, was, e, View().(todo := rest))
      modifies `log, `states, `todo
      ensures Valid() && log == old(log) + [e] && states == old(states) + [View()]
      ensures View() == Apply(handlers, was, e)
    {
      RunSnoc(handlers, states, log, e, View().(todo := rest));
      todo := rest;
      log := log + [e];
      states := states + [View()];
    }

    /** The body of `_ff_callout_stop_safe` without draining, as far as lists and flags go. */
    method Disarm(c: Id, executing: bool) returns (result: int)
      requires Structure() && Executing()
      modifies wheel, `ccNext, `callouts
      ensures Structure()
      ensures ArmedIn(callouts) == ArmedIn(old(callouts)) - {c} && DirectIn(callouts) == DirectIn(old(callouts))
      ensures forall x :: x in callouts && callouts[x].pending ==> x in old(callouts) && callouts[x] == old(callouts)[x]
      ensures var r := Lookup(old(callouts), c);
              result == if exec[1].curr == Some(c) && r.direct then (if executing then 1 else 0)
                        else if r.pending then 1 else -1
    {
      var slot := if Lookup(callouts, c).direct then 1 else 0;
      result := 1;
      if exec[slot].curr == Some(c) {
        if locked(c) && !exec[slot].cancel {
          assert false;  // what runs can no longer be cancelled
        }
        result := if executing then 1 else 0;
      }
      if !Lookup(callouts, c).pending {
        if exec[slot].curr != Some(c) {
          result := -1;
        } else {
          Deactivate(c);
        }
      } else {
        Unlink(c);
      }
      ArmedUpdateIfKnown(old(callouts), callouts, c);
    }

    /** Clear `CALLOUT_ACTIVE` of a callout that is on no list. */
    method Deactivate(c: Id)
      requires Structure() && c in callouts && !callouts[c].pending
      modifies `callouts
      ensures Structure() && callouts == old(callouts)[c := old(callouts)[c].(active := false)]
    {
      callouts := callouts[c := callouts[c].(active := false)];
    }

    /** `_ff_callout_stop_safe`. */
    method Stop(c: Id, executing: bool) returns (result: int)
      requires Valid()
      requires exec[1].curr.Some? ==> todo != [] && Does(todo[0], Event.Stop(c, executing, 0))
      modifies wheel, `ccNext, `callouts, `log, `states, `todo
      ensures Valid() && result == StopResult(old(View()), c, executing)
      ensures log == old(log) + [Event.Stop(c, executing, result)] && states == old(states) + [View()]
      ensures View() == Apply(handlers, old(View()), Event.Stop(c, executing, result))
      ensures View().armed == old(View()).armed - {c} && View().direct == old(View()).direct
      ensures result == if exec[1].curr == Some(c) && c in old(View()).direct then (if executing then 1 else 0)
                        else if c in old(View()).armed then 1 else -1
    {
      result := Disarm(c, executing);
      Record(old(View()), Event.Stop(c, executing, result), Rest(todo));
    }

    /** The clock moves: `atomic_add_int(&ticks, 1)` here or in the thread that owns the time base. */
    method AdvanceClock(to: int)
      requires Valid()
      requires exec[1].curr.Some? ==> todo != [] && Does(todo[0], Event.Advance(to))
      modifies `ticks, `log, `states, `todo
      ensures Valid() && log == old(log) + [Event.Advance(to)] && states == old(states) + [View()]
      ensures View() == Apply(handlers, old(View()), Event.Advance(to))
      ensures ticks == if old(ticks) < to then to else old(ticks)
    {
      ticks := Max(ticks, to);
      Record(old(View()), Event.Advance(to), Rest(todo));
    }

    /** What a handler does: its steps in order, through the same entry points as anybody else. */
    method Perform(ops: seq<Op>)
      requires Valid() && walking && exec[1].curr.Some? && todo == ops
      requires forall i :: 0 <= i < |ops| && ops[i].DoAdvance? ==> ops[i].to <= horizon
      modifies wheel, `ccNext, `callouts, `ticks, `log, `states, `todo
      ensures Valid() && todo == [] && old(log) <= log && old(states) <= states
      ensures old(ticks) <= ticks <= Max(old(ticks), horizon)
      ensures DueIn(View().armed, swept) <= old(DueIn(View().armed, swept))
    {
      var i := 0;
      while i < |ops|
        invariant 0 <= i <= |ops| && Valid() && todo == ops[i..]
        invariant old(log) <= log && old(states) <= states && old(ticks) <= ticks <= Max(old(ticks), horizon)
        invariant DueIn(View().armed, swept) <= old(DueIn(View().armed, swept))
      {
        PerformOne(ops[i]);
        i := i + 1;
      }
    }

    method PerformOne(op: Op)
      requires Valid() && walking && exec[1].curr.Some? && todo != [] && todo[0] == op
      requires op.DoAdvance? ==> op.to <= horizon
      modifies wheel, `ccNext, `callouts, `ticks, `log, `states, `todo
      ensures Valid() && todo == old(todo[1..]) && old(log) <= log && old(states) <= states
      ensures old(ticks) <= ticks <= Max(old(ticks), horizon)
      ensures DueIn(View().armed, swept) <= old(DueIn(View().armed, swept))
    {
      match op
      case DoReset(c, delay, direct, call) =>
        var _ := Reset(c, delay, direct, call);
      case DoStop(c, executing) =>
        var _ := Stop(c, executing);
      case DoAdvance(to) =>
        AdvanceClock(to);
    }

    /** Take a due callout off the walked bucket: `cc_next`, `cc_bucket` and the list move together. */
    method Take(c: Id)
      requires Structure() && !walking && swept < ticks
      requires c in callouts && callouts[c].pending && callouts[c].time == swept
      requires c in wheel[Bucket(swept, size)] && CleanBefore(wheel[Bucket(swept, size)], Some(c), callouts, swept)
      modifies wheel, `ccNext, `ccBucket, `callouts, `walking
      ensures Structure() && walking && ccBucket == Bucket(swept, size)
      ensures c in callouts && callouts[c].call == old(callouts)[c].call
      ensures ArmedIn(callouts) == ArmedIn(old(callouts)) - {c} && DirectIn(callouts) == DirectIn(old(callouts))
      ensures forall x :: x in callouts && callouts[x].pending ==> x in old(callouts) && callouts[x] == old(callouts)[x]
    {
      var b := Bucket(callouts[c].time, size);
      var r := callouts[c].(pending := false);
      ghost var before := wheel[..];
      PlacedRemove(before, callouts, c, r);
      CleanAfterRemoval(before[b], Some(c), callouts, swept, c, r);
      ccNext := Next(wheel[b], c);
      ccBucket := b;
      wheel[b] := Without(wheel[b], c);
      assert wheel[..] == before[b := Without(before[b], c)];
      callouts := callouts[c := r];
      walking := true;
      ArmedUpdateIfKnown(old(callouts), callouts, c);
    }

    /** The first half of `softclock_call_cc`: the callout is no longer pending and occupies slot 1. */
    method Begin(c: Id, ghost was: State) returns (ops: seq<Op>)
      requires Structure() && Timely() && Executing() && walking && exec[1].curr.None?
      requires Bounded(handlers, horizon) && Run(handlers, states, log) && states[|log|] == was
      requires Initial(states[0])
      requires c in callouts && c in was.armed && was.armed[c] == Timer(swept, callouts[c].call)
      requires was == View().(armed := was.armed) && View().armed == was.armed - {c}
      modifies `exec, `log, `states, `todo, `fired
      ensures Valid() && exec[1].curr == Some(c) && todo == ops == handlers(old(fired))
      ensures log == old(log) + [Fire(c, was.armed[c])] && old(states) <= states
    {
      exec := exec[1 := Exec(Some(c), locked(c))];
      ops := handlers(fired);
      fired := fired + 1;
      Record(was, Fire(c, was.armed[c]), ops);
    }

    method Launch(c: Id) returns (ops: seq<Op>)
      requires Quiet() && c in callouts && callouts[c].pending && callouts[c].time == swept < ticks
      requires c in wheel[Bucket(swept, size)] && CleanBefore(wheel[Bucket(swept, size)], Some(c), callouts, swept)
      modifies wheel, `ccNext, `ccBucket, `callouts, `walking, `exec, `log, `states, `todo, `fired
      ensures Valid() && walking && exec[1].curr == Some(c) && todo == ops == handlers(old(fired))
      ensures log == old(log) + [Fire(c, Timer(swept, old(callouts)[c].call))] && old(states) <= states
      ensures DueIn(View().armed, swept) == old(DueIn(View().armed, swept)) - {c}
    {
      Take(c);
      ops := Begin(c, old(View()));
      DueAfterRemoval(old(View()).armed, swept, c);
    }

    /** The second half: the slot is free again. */
    method Finish(c: Id)
      requires Valid() && exec[1].curr == Some(c) && todo == []
      modifies `exec, `log, `states, `todo
      ensures Valid() && exec[1].curr.None? && log == old(log) + [Return(c)] && old(states) <= states
      ensures View().armed == old(View().armed)
    {
      exec := exec[1 := exec[1].(curr := None)];
      Record(old(View()), Return(c), []);
    }

    /** `softclock_call_cc`, always with execution slot 1. */
    method CallCc(c: Id)
      requires Quiet() && c in callouts && callouts[c].pending && callouts[c].time == swept < ticks
      requires c in wheel[Bucket(swept, size)] && CleanBefore(wheel[Bucket(swept, size)], Some(c), callouts, swept)
      modifies wheel, `ccNext, `ccBucket, `callouts, `walking, `exec, `ticks, `log, `states, `todo, `fired
      ensures Valid() && walking && exec[1].curr.None?
      ensures old(log) <= log && old(states) <= states && |old(log)| < |log|
      ensures log[|old(log)|] == Fire(c, Timer(swept, old(callouts)[c].call))
      ensures old(ticks) <= ticks <= Max(old(ticks), horizon)
      ensures DueIn(View().armed, swept) <= old(DueIn(View().armed, swept)) - {c}
    {
      var ops := Launch(c);
      RunHandler(c, ops);
    }

    /** The handler's steps, and then the slot is free again. */
    method RunHandler(c: Id, ops: seq<Op>)
      requires Valid() && walking && exec[1].curr == Some(c) && todo == ops
      requires forall i :: 0 <= i < |ops| && ops[i].DoAdvance? ==> ops[i].to <= horizon
      modifies wheel, `ccNext, `callouts, `exec, `ticks, `log, `states, `todo
      ensures Valid() && exec[1].curr.None? && old(log) <= log && old(states) <= states
      ensures old(ticks) <= ticks <= Max(old(ticks), horizon)
      ensures DueIn(View().armed, swept) <= old(DueIn(View().armed, swept))
    {
      Perform(ops);
      Finish(c);
    }

    /** Run one due callout and read the shared cursor back: it stands where the walk has to go on. */
    method Expire(c: Id) returns (next: Option<Id>)
      requires Quiet() && c in callouts && callouts[c].pending && callouts[c].time == swept < ticks
      requires c in wheel[Bucket(swept, size)] && CleanBefore(wheel[Bucket(swept, size)], Some(c), callouts, swept)
      modifies wheel, `ccNext, `ccBucket, `callouts, `walking, `exec, `ticks, `log, `states, `todo, `fired
      ensures Quiet() && (next.Some? ==> next.value in wheel[Bucket(swept, size)])
      ensures CleanBefore(wheel[Bucket(swept, size)], next, callouts, swept)
      ensures old(log) <= log && old(states) <= states && old(ticks) <= ticks <= Max(old(ticks), horizon)
      ensures |DueIn(View().armed, swept)| < old(|DueIn(View().armed, swept)|)
    {
      ghost var due := DueIn(View().armed, swept);
      assert c in due;
      CallCc(c);
      Shrinks(DueIn(View().armed, swept), due, c);
      next := ccNext;
      ccNext, walking := None, false;
    }

    /** One bucket of `softclock`: run everything due at `swept`, whatever the handlers do to the list meanwhile. */
    method WalkBucket()
      requires Quiet() && swept < ticks && softticks == swept + 1
      modifies wheel, `ccNext, `ccBucket, `callouts, `walking, `exec, `ticks, `log, `states, `todo, `fired
      ensures Quiet() && DueIn(View().armed, swept) == {}
      ensures old(log) <= log && old(states) <= states && old(ticks) <= ticks <= Max(old(ticks), horizon)
    {
      var curticks := softticks - 1;
      var b := Bucket(curticks, size);
      var c := if wheel[b] == [] then None else Some(wheel[b][0]);
      while c.Some?
        invariant Quiet() && swept < ticks
        invariant c.Some? ==> c.value in wheel[b]
        invariant CleanBefore(wheel[b], c, callouts, swept)
        invariant old(log) <= log && old(states) <= states && old(ticks) <= ticks <= Max(old(ticks), horizon)
        decreases |DueIn(View().armed, swept)|, |wheel[b]| - Position(wheel[b], c)
      {
        PlacedHas(wheel[..], callouts, b, c.value);
        if callouts[c.value].time != curticks {
          CleanNext(wheel[b], c.value, callouts, swept);
          c := Next(wheel[b], c.value);
        } else {
          c := Expire(c.value);
        }
      }
      WalkIsOver(wheel[..], callouts, swept);
    }

    /** `softclock`. */
    method Softclock()
      requires Idle()
      modifies wheel, `ccNext, `ccBucket, `callouts, `walking, `exec, `ticks, `log, `states, `todo, `fired,
               `softticks, `swept
      ensures Idle() && softticks == ticks
      ensures old(log) <= log && old(states) <= states && old(ticks) <= ticks
    {
      while softticks != ticks
        invariant Idle() && old(log) <= log && old(states) <= states && old(ticks) <= ticks
        decreases Max(ticks, horizon) - softticks
      {
        softticks := softticks + 1;
        WalkBucket();
        SweepTick();
      }
    }

    /** The tick is done. */
    ghost method SweepTick()
      requires Quiet() && swept < ticks && softticks == swept + 1 && DueIn(View().armed, swept) == {}
      modifies `swept, `log, `states, `todo
      ensures Idle() && log == old(log) + [Sweep(old(swept))] && View().armed == old(View().armed)
      ensures old(states) <= states
    {
      NothingDue(callouts, swept);
      swept := swept + 1;
      Record(old(View()), Sweep(swept - 1), []);
    }

    /** `callout_tick`: pass over empty buckets, and run the rest from the first that is not. */
    method CalloutTick()
      requires Idle()
      modifies wheel, `ccNext, `ccBucket, `callouts, `walking, `exec, `ticks, `log, `states, `todo, `fired,
               `softticks, `swept
      ensures Idle() && softticks == ticks
      ensures old(log) <= log && old(states) <= states && old(ticks) <= ticks
      ensures forall c :: c in View().armed ==> ticks <= View().armed[c].due
    {
      var needSoftclock := false;
      while softticks - ticks < 0
        invariant Idle() && old(log) <= log && old(states) <= states && old(ticks) == ticks
      {
        var bucket := Bucket(softticks, size);
        if wheel[bucket] != [] {
          needSoftclock := true;
          break;
        }
        softticks := softticks + 1;
        SweepTick();
      }
      if needSoftclock {
        Softclock();
      }
    }

    /** `ff_hardclock`: one tick of the thread that owns the clock. */
    method Hardclock()
      requires Idle()
      modifies wheel, `ccNext, `ccBucket, `callouts, `walking, `exec, `ticks, `log, `states, `todo, `fired,
               `softticks, `swept
      ensures Idle() && softticks == ticks > old(ticks)
      ensures old(log) + [Event.Advance(old(ticks) + 1)] <= log && old(states) <= states
      ensures forall c :: c in View().armed ==> ticks <= View().armed[c].due
    {
      AdvanceClock(ticks + 1);
      CalloutTick();
    }

    /**
     Any sequence of calls from outside, whatever the handlers do meanwhile: each of them is in the log, and
     every arming ever made whose tick has been handled is answered for.
     */
    method Serve(acts: seq<Act>) returns (ghost at: seq<nat>)
      requires Idle()
      modifies wheel, `ccNext, `ccBucket, `callouts, `walking, `exec, `ticks, `log, `states, `todo, `fired,
               `softticks, `swept
      ensures Idle() && old(log) <= log && old(states) <= states && Noted(acts, at, log)
      ensures acts != [] && acts[|acts| - 1].ActTick? ==> softticks == ticks
      ensures AllHonoured(states, log, softticks)
    {
      at := [];
      for i := 0 to |acts|
        invariant Idle() && old(log) <= log && old(states) <= states && Noted(acts[..i], at, log)
        invariant i > 0 && acts[i - 1].ActTick? ==> softticks == ticks
      {
        ghost var before := log;
        ServeOne(acts[i]);
        NotedNext(acts, i, at, before, log);
        at := at + [|before|];
      }
      assert acts[..|acts|] == acts;
      WheelHonours(this);
    }

    method ServeOne(act: Act)
      requires Idle()
      modifies wheel, `ccNext, `ccBucket, `callouts, `walking, `exec, `ticks, `log, `states, `todo, `fired,
               `softticks, `swept
      ensures Idle() && old(log) <= log && old(states) <= states
      ensures act.ActTick? ==> softticks == ticks
      ensures !act.ActTick? ==> |old(log)| < |log| && Asks(act, log[|old(log)|])
    {
      match act
      case ActReset(c, delay, direct, call) =>
        var _ := Reset(c, delay, direct, call);
      case ActStop(c, executing) =>
        var _ := Stop(c, executing);
      case ActAdvance(to) =>
        AdvanceClock(to);
      case ActTick =>
        CalloutTick();
    }
  }

  /** What the outside does between handlers: the calls of the callout interface, and the tick. */
  datatype Act =
    | ActReset(c: Id, delay: int, direct: bool, call: Call)
    | ActStop(c: Id, executing: bool)
    | ActAdvance(to: int)
    | ActTick

  predicate Asks(act: Act, e: Event) {
    match act
    case ActReset(c, delay, direct, call) =>
      e.Reset? && e.c == c && e.delay == delay && e.direct == direct && e.call == call
    case ActStop(c, executing) => e.Stop? && e.c == c && e.executing == executing
    case ActAdvance(to) => e == Event.Advance(to)
    case ActTick => false
  }

  /** Call j from outside is entry at[j] of the log. */
  ghost predicate Noted(acts: seq<Act>, at: seq<nat>, log: seq<Event>) {
    |at| == |acts| && forall j :: 0 <= j < |acts| && !acts[j].ActTick? ==> at[j] < |log| && Asks(acts[j], log[at[j]])
  }

  lemma NotedNext(acts: seq<Act>, i: nat, at: seq<nat>, before: seq<Event>, log: seq<Event>)
    requires i < |acts| && Noted(acts[..i], at, before) && before <= log
    requires !acts[i].ActTick? ==> |before| < |log| && Asks(acts[i], log[|before|])
    ensures Noted(acts[..i + 1], at + [|before|], log)
  {
  }

  /** The arming at position i came to an end at k: by a stop, a re-arming, or its own call at its own tick. */
  ghost predicate Answers(states: seq<State>, log: seq<Event>, i: nat, k: nat)
    requires i < |log| < |states| && log[i].Reset?
  {
    && i < k < |log| && Touches(log[k], log[i].c) && Untouched(log, log[i].c, i + 1, k)
    && (log[k].Fire? ==>
          && log[k].timer.due == states[i].now + (if log[i].delay <= 0 then 1 else log[i].delay)
          && log[k].timer.call == log[i].call && states[k].next == log[k].timer.due < states[k].now)
  }

  ghost predicate AllHonoured(states: seq<State>, log: seq<Event>, handled: int)
    requires |log| < |states|
  {
    forall i: nat :: i < |log| && log[i].Reset? &&
                     states[i].now + (if log[i].delay <= 0 then 1 else log[i].delay) < handled ==>
                       exists k: nat :: Answers(states, log, i, k)
  }

  lemma WheelHonours(w: Wheel)
    requires w.Idle()
    ensures AllHonoured(w.states, w.log, w.softticks)
  {
    forall i: nat | i < |w.log| && w.log[i].Reset? &&
                    w.states[i].now + (if w.log[i].delay <= 0 then 1 else w.log[i].delay) < w.softticks
      ensures exists k: nat :: Answers(w.states, w.log, i, k)
    {
      var k := WheelNeverSkips(w, i);
    }
  }

  /**
   What users of the wheel get, after any run of resets, stops and clock advances: a callout whose tick
   has been handled was touched after it was armed, and if the first touch is not a stop or a re-arming
   it is its own call, made while its own tick was handled.
   */
  lemma WheelNeverSkips(w: Wheel, i: nat) returns (k: nat)
    requires w.Idle() && i < |w.log| && w.log[i].Reset?
    requires w.states[i].now + (if w.log[i].delay <= 0 then 1 else w.log[i].delay) < w.softticks
    ensures Answers(w.states, w.log, i, k)
  {
    k := NeverSkipped(w.handlers, w.states, w.log, i);
  }

  /** And nothing is ever called that was not armed for exactly that tick and still armed at that moment. */
  lemma WheelNeverInvents(w: Wheel, k: nat) returns (i: nat)
    requires w.Valid() && k < |w.log| && w.log[k].Fire?
    ensures i < k && w.log[i].Reset? && w.log[i].c == w.log[k].c
    ensures w.log[k].timer.due == w.states[i].now + if w.log[i].delay <= 0 then 1 else w.log[i].delay
    ensures w.log[k].timer.call == w.log[i].call && Untouched(w.log, w.log[k].c, i + 1, k)
    ensures w.states[k].next == w.log[k].timer.due < w.states[k].now
  {
    i := FiredWasArmed(w.handlers, w.states, w.log, k);
    assert Step(w.handlers, w.states[k], w.log[k], w.states[k + 1]);
  }

  // ---- 32-bit ticks

  /** Two's complement wrap-around of `int`. */
  function Wrap(t: int): int {
    (t + 0x8000_0000) % 0x1_0000_0000 - 0x8000_0000
  }

  /**
   With ticks held in 32-bit `int`s and a wheel size that divides 2^32, the source's tests agree with
   the unbounded ones while the times involved are less than 2^31 apart: the comparison of
   `callout_tick`, the equality test of `softclock`, and the choice of the bucket.
   */
  lemma ClockWrapsSafely(a: int, b: int, size: nat)
    requires -0x8000_0000 < a - b < 0x8000_0000 && size > 0 && 0x1_0000_0000 % size == 0
    ensures (Wrap(Wrap(a) - Wrap(b)) < 0) == (a < b)
    ensures (Wrap(a) == Wrap(b)) == (a == b)
    ensures Bucket(Wrap(a), size) == Bucket(a, size)
  {
    WrapIsClose(a);
    WrapIsClose(b);
    DifferenceWraps(a, b);
    BucketWrapsSafely(a, size);
  }

  lemma WrapIsClose(a: int)
    ensures Wrap(a) == a - (a + 0x8000_0000) / 0x1_0000_0000 * 0x1_0000_0000
    ensures -0x8000_0000 <= Wrap(a) < 0x8000_0000
  {
  }

  lemma DifferenceWraps(a: int, b: int)
    requires -0x8000_0000 < a - b < 0x8000_0000
    ensures Wrap(Wrap(a) - Wrap(b)) == a - b
  {
    var j, k := (a + 0x8000_0000) / 0x1_0000_0000, (b + 0x8000_0000) / 0x1_0000_0000;
    WrapIsClose(a);
    WrapIsClose(b);
    var d := Wrap(a) - Wrap(b) + 0x8000_0000;
    assert d == (k - j) * 0x1_0000_0000 + (a - b + 0x8000_0000);
    RemainderUnique(d, k - j, a - b + 0x8000_0000, 0x1_0000_0000);
  }

  lemma BucketWrapsSafely(a: int, size: nat)
    requires size > 0 && 0x1_0000_0000 % size == 0
    ensures Bucket(Wrap(a), size) == Bucket(a, size)
  {
    var k := (a + 0x8000_0000) / 0x1_0000_0000;
    var m := 0x1_0000_0000 / size;
    calc {
      Wrap(a);
      a - k * 0x1_0000_0000;
      { assert 0x1_0000_0000 == m * size; }
      a - (k * m) * size;
    }
    ModShift(a, k * m, size);
  }
}
