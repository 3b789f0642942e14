/**
 The timer service as its users see it: a plain map from callout to expiry tick.

 A run is a log of events.  `Enabled` says which event may happen next and with which return
 value, `Apply` what it does to the map, and `Run` that every event of a log was enabled.
 The lemmas derive what the service promises from that alone, so they hold for every
 implementation whose log is a run; `Callwheel` proves that of the hashed timing wheel.
 */
module TimerSpec {
  import opened Options

  type Id = nat

  /** What a callout runs when it expires. */
  datatype Call = Call(func: int, arg: int)

  datatype Timer = Timer(due: int, call: Call)

  /** One step of a handler: arm or stop any callout, or let another thread move the clock. */
  datatype Op =
    | DoReset(c: Id, delay: int, direct: bool, call: Call)
    | DoStop(c: Id, executing: bool)
    | DoAdvance(to: int)

  datatype Event =
    | Reset(c: Id, delay: int, direct: bool, call: Call, cancelled: bool)
    | Stop(c: Id, executing: bool, result: int)
    | Advance(to: int)
    | Fire(c: Id, timer: Timer)
    | Return(c: Id)
    | Sweep(tick: int)

  /** `next` is the first tick not handled yet; `todo` is what the running handler still does. */
  datatype State = State(armed: map<Id, Timer>, direct: set<Id>, now: int, next: int,
                         fired: nat, running: Option<Id>, todo: seq<Op>)

  /** The n-th invocation of a handler performs `handlers(n)`. */
  type Handlers = nat -> seq<Op>

  function Max(a: int, b: int): int { if a < b then b else a }

  function Due(now: int, delay: int): int { now + Max(1, delay) }

  /** What `callout_stop` answers: it cannot tell for a direct callout that is executing. */
  function StopResult(s: State, c: Id, executing: bool): int {
    if s.running == Some(c) && c in s.direct then (if executing then 1 else 0)
    else if c in s.armed then 1
    else -1
  }

  predicate Does(op: Op, e: Event) {
    match op
    case DoReset(c, delay, direct, call) =>
      e.Reset? && e.c == c && e.delay == delay && e.direct == direct && e.call == call
    case DoStop(c, executing) => e.Stop? && e.c == c && e.executing == executing
    case DoAdvance(to) => e.Advance? && e.to == to
  }

  /** While a handler runs, only its own next step may happen. */
  predicate Scripted(s: State, e: Event) {
    s.running.Some? ==> s.todo != [] && Does(s.todo[0], e)
  }

  predicate Enabled(s: State, e: Event) {
    match e
    case Reset(c, _, _, _, cancelled) => Scripted(s, e) && cancelled == (c in s.armed)
    case Stop(c, executing, result) => Scripted(s, e) && result == StopResult(s, c, executing)
    case Advance(_) => Scripted(s, e)
    case Fire(c, timer) =>
      s.running.None? && c in s.armed && s.armed[c] == timer && timer.due == s.next < s.now
    case Return(c) => s.running == Some(c) && s.todo == []
    case Sweep(tick) =>
      s.running.None? && tick == s.next < s.now && forall c :: c in s.armed ==> s.armed[c].due != tick
  }

  function Rest(todo: seq<Op>): seq<Op> { if todo == [] then [] else todo[1..] }

  function Apply(h: Handlers, s: State, e: Event): State {
    match e
    case Reset(c, delay, direct, call, _) =>
      s.(armed := s.armed[c := Timer(Due(s.now, delay), call)],
         direct := if direct then s.direct + {c} else s.direct, todo := Rest(s.todo))
    case Stop(c, _, _) => s.(armed := s.armed - {c}, todo := Rest(s.todo))
    case Advance(to) => s.(now := Max(s.now, to), todo := Rest(s.todo))
    case Fire(c, _) => s.(armed := s.armed - {c}, running := Some(c), todo := h(s.fired), fired := s.fired + 1)
    case Return(_) => s.(running := None)
    case Sweep(_) => s.(next := s.next + 1)
  }

  /** What arming a callout changes: its entry is that many ticks ahead, and at least one. */
  ghost predicate Armed(s: State, s': State, c: Id, delay: int, direct: bool, call: Call) {
    && s'.armed == s.armed[c := Timer(s.now + (if delay <= 0 then 1 else delay), call)]
    && s'.direct == (if direct then s.direct + {c} else s.direct)
    && s'.now == s.now && s'.next == s.next && s'.running == s.running
  }

  lemma ResetMeans(h: Handlers, s: State, c: Id, delay: int, direct: bool, call: Call, cancelled: bool)
    ensures Armed(s, Apply(h, s, Reset(c, delay, direct, call, cancelled)), c, delay, direct, call)
  {
  }

  predicate Step(h: Handlers, s: State, e: Event, s': State) {
    Enabled(s, e) && s' == Apply(h, s, e)
  }

  /** A run: the events that happened and the states before, between and after them. */
  ghost predicate Run(h: Handlers, states: seq<State>, log: seq<Event>) {
    && |states| == |log| + 1
    && forall i {:trigger log[i]} :: 0 <= i < |log| ==> Step(h, states[i], log[i], states[i + 1])
  }

  lemma RunSnoc(h: Handlers, states: seq<State>, log: seq<Event>, e: Event, s': State)
    requires Run(h, states, log) && Step(h, states[|log|], e, s')
    ensures Run(h, states + [s'], log + [e])
  {
  }

  /** Nothing is armed for a tick already handled, and the handled ticks lie in the past. */
  ghost predicate Fresh(s: State) {
    && s.next <= s.now
    && (forall c :: c in s.armed ==> s.next <= s.armed[c].due)
    && (s.running.None? ==> s.todo == [])
  }

  /** A timer service that has done nothing yet. */
  ghost predicate Initial(s: State) {
    s.armed == map[] && s.direct == {} && s.next == 0 <= s.now && s.fired == 0 && s.running.None? && s.todo == []
  }

  lemma StepKeepsFresh(h: Handlers, s: State, e: Event, s': State)
    requires Fresh(s) && Step(h, s, e, s')
    ensures Fresh(s') && s.next <= s'.next
  {
  }

  /** Every reachable state is fresh: no timer is ever left behind in a tick already handled. */
  lemma {:induction false} ReachableIsFresh(h: Handlers, states: seq<State>, log: seq<Event>, i: nat)
    requires Run(h, states, log) && Fresh(states[0]) && i <= |log|
    ensures Fresh(states[i])
  {
    if i > 0 {
      ReachableIsFresh(h, states, log, i - 1);
      StepKeepsFresh(h, states[i - 1], log[i - 1], states[i]);
    }
  }

  lemma {:induction false} NextGrows(h: Handlers, states: seq<State>, log: seq<Event>, i: nat, j: nat)
    requires Run(h, states, log) && Fresh(states[0]) && i <= j <= |log|
    ensures states[i].next <= states[j].next
    decreases j
  {
    if i < j {
      NextGrows(h, states, log, i, j - 1);
      ReachableIsFresh(h, states, log, j - 1);
      StepKeepsFresh(h, states[j - 1], log[j - 1], states[j]);
    }
  }

  predicate Touches(e: Event, c: Id) {
    (e.Reset? || e.Stop? || e.Fire?) && e.c == c
  }

  ghost predicate Untouched(log: seq<Event>, c: Id, i: nat, j: nat)
    requires i <= j <= |log|
  {
    forall k :: i <= k < j ==> !Touches(log[k], c)
  }

  /** A timer nobody touches keeps its entry, or keeps having none. */
  lemma {:induction false} Persists(h: Handlers, states: seq<State>, log: seq<Event>, c: Id, i: nat, j: nat)
    requires Run(h, states, log) && i <= j <= |log| && Untouched(log, c, i, j)
    ensures (c in states[i].armed) == (c in states[j].armed)
    ensures c in states[i].armed ==> states[i].armed[c] == states[j].armed[c]
    decreases j
  {
    if i < j {
      Persists(h, states, log, c, i, j - 1);
      assert Step(h, states[j - 1], log[j - 1], states[j]);
    }
  }

  /** Neither re-armed nor stopped between two positions. */
  ghost predicate LeftAlone(log: seq<Event>, c: Id, i: nat, j: nat)
    requires i <= j <= |log|
  {
    forall k :: i <= k < j ==> !((log[k].Reset? || log[k].Stop?) && log[k].c == c)
  }

  /** The last position in [i, j) at which `c` was touched, if any. */
  lemma {:induction false} LastTouch(log: seq<Event>, c: Id, i: nat, j: nat) returns (k: int)
    requires i <= j <= |log|
    ensures k == -1 ==> Untouched(log, c, i, j)
    ensures k != -1 ==> i <= k < j && Touches(log[k], c) && Untouched(log, c, k + 1, j)
    decreases j
  {
    if i == j {
      k := -1;
    } else if Touches(log[j - 1], c) {
      k := j - 1;
    } else {
      k := LastTouch(log, c, i, j - 1);
    }
  }

  /** Once `c` is disarmed and left alone, it cannot fire. */
  lemma {:induction false} StaysDisarmed(h: Handlers, states: seq<State>, log: seq<Event>, c: Id, i: nat, j: nat)
    requires Run(h, states, log) && i <= j <= |log| && LeftAlone(log, c, i, j)
    requires c !in states[i].armed
    ensures c !in states[j].armed && Untouched(log, c, i, j)
    decreases j
  {
    if i < j {
      StaysDisarmed(h, states, log, c, i, j - 1);
      assert Step(h, states[j - 1], log[j - 1], states[j]);
    }
  }

  ghost predicate FiresOnlyAt(log: seq<Event>, c: Id, timer: Timer, i: nat, j: nat, k: nat)
    requires i <= j <= |log|
  {
    && i <= k < j && log[k] == Fire(c, timer)
    && forall k' :: i <= k' < j && log[k'].Fire? && log[k'].c == c ==> k' == k
  }

  /** The timer that the arming at position i sets. */
  function TimerSet(s: State, e: Event): Timer
    requires e.Reset?
  {
    Timer(Due(s.now, e.delay), e.call)
  }

  /** The tick an arming asks for is handled after the arming. */
  lemma SweepComesLater(h: Handlers, states: seq<State>, log: seq<Event>, i: nat, j: nat)
    requires Run(h, states, log) && Fresh(states[0]) && i < |log| && j < |log|
    requires log[i].Reset? && log[j] == Sweep(TimerSet(states[i], log[i]).due)
    ensures i < j
  {
    assert Step(h, states[j], log[j], states[j + 1]);
    ReachableIsFresh(h, states, log, i);
    if j < i {
      NextGrows(h, states, log, j + 1, i);
    }
  }

  /**
   A callout armed at position i and then left alone fires exactly once before its tick has been
   handled, with the function and argument it was armed with, while that very tick is being handled.
   */
  lemma FiresExactlyOnce(h: Handlers, states: seq<State>, log: seq<Event>, i: nat, j: nat) returns (k: nat)
    requires Run(h, states, log) && Fresh(states[0]) && i < |log| && j < |log|
    requires log[i].Reset? && log[j] == Sweep(states[i].now + if log[i].delay <= 0 then 1 else log[i].delay)
    requires i < j ==> LeftAlone(log, log[i].c, i + 1, j)
    ensures i < j && FiresOnlyAt(log, log[i].c, Timer(log[j].tick, log[i].call), i + 1, j, k)
    ensures states[k].next == log[j].tick < states[k].now
  {
    var c := log[i].c;
    SweepComesLater(h, states, log, i, j);
    assert Step(h, states[i], log[i], states[i + 1]);
    assert Step(h, states[j], log[j], states[j + 1]);
    var last := LastTouch(log, c, i + 1, j);
    if last == -1 {
      Persists(h, states, log, c, i + 1, j);
      assert false;
    }
    OnlyOneFires(h, states, log, c, i + 1, last);
    k := last;
  }

  /** Of the firings between an arming and the next, only the first is possible. */
  lemma OnlyOneFires(h: Handlers, states: seq<State>, log: seq<Event>, c: Id, i: nat, last: nat)
    requires Run(h, states, log) && i <= last < |log| && LeftAlone(log, c, i, last)
    requires c in states[i].armed && log[last].Fire? && log[last].c == c
    ensures log[last].timer == states[i].armed[c] && states[last].next == log[last].timer.due
    ensures Untouched(log, c, i, last)
  {
    var k := LastTouch(log, c, i, last);
    assert Step(h, states[last], log[last], states[last + 1]);
    if k != -1 {
      assert Step(h, states[k], log[k], states[k + 1]);
      StaysDisarmed(h, states, log, c, k + 1, last);
      assert false;
    }
    Persists(h, states, log, c, i, last);
  }

  /**
   Nothing fires that was not armed: every firing goes back to one arming, for that tick and that
   call, with neither a stop, a re-arming nor another firing in between.
   */
  lemma FiredWasArmed(h: Handlers, states: seq<State>, log: seq<Event>, k: nat) returns (i: nat)
    requires Run(h, states, log) && states[0].armed == map[] && k < |log| && log[k].Fire?
    ensures i < k && log[i].Reset? && log[i].c == log[k].c && log[k].timer.call == log[i].call
    ensures log[k].timer.due == states[i].now + if log[i].delay <= 0 then 1 else log[i].delay
    ensures Untouched(log, log[k].c, i + 1, k) && states[k].next == log[k].timer.due
  {
    var c := log[k].c;
    assert Step(h, states[k], log[k], states[k + 1]);
    var last := LastTouch(log, c, 0, k);
    if last == -1 {
      Persists(h, states, log, c, 0, k);
      assert false;
    }
    i := last;
    assert Step(h, states[i], log[i], states[i + 1]);
    Persists(h, states, log, c, i + 1, k);
  }

  /** Handled ticks form an unbroken range: none below `next` was skipped. */
  lemma {:induction false} EveryTickHandled(h: Handlers, states: seq<State>, log: seq<Event>, n: nat, t: int)
    returns (j: nat)
    requires Run(h, states, log) && n <= |log| && states[0].next <= t < states[n].next
    ensures j < n && log[j] == Sweep(t)
    decreases n
  {
    assert Step(h, states[n - 1], log[n - 1], states[n]);
    if t < states[n - 1].next {
      j := EveryTickHandled(h, states, log, n - 1, t);
    } else {
      j := n - 1;
    }
  }

  /**
   The promise in one statement: by the time the clock has been handled up to a callout's tick, the
   callout has been re-armed, stopped, or fired once with its own call at its own tick.
   */
  lemma NeverSkipped(h: Handlers, states: seq<State>, log: seq<Event>, i: nat) returns (k: nat)
    requires Run(h, states, log) && Fresh(states[0]) && i < |log| && log[i].Reset?
    requires states[i].now + (if log[i].delay <= 0 then 1 else log[i].delay) < states[|log|].next
    ensures i < k < |log| && Touches(log[k], log[i].c) && Untouched(log, log[i].c, i + 1, k)
    ensures log[k].Fire? ==>
              && log[k].timer.due == states[i].now + (if log[i].delay <= 0 then 1 else log[i].delay)
              && log[k].timer.call == log[i].call && states[k].next == log[k].timer.due < states[k].now
  {
    var c, timer := log[i].c, TimerSet(states[i], log[i]);
    ReachableIsFresh(h, states, log, i);
    NextGrows(h, states, log, 0, i);
    var j := EveryTickHandled(h, states, log, |log|, timer.due);
    SweepComesLater(h, states, log, i, j);
    assert Step(h, states[i], log[i], states[i + 1]);
    assert Step(h, states[j], log[j], states[j + 1]);
    if Untouched(log, c, i + 1, j) {
      Persists(h, states, log, c, i + 1, j);
      assert false;
    }
    k :| i < k < j && Touches(log[k], c);
    k := FirstTouch(log, c, i + 1, k);
    assert Step(h, states[k], log[k], states[k + 1]);
    Persists(h, states, log, c, i + 1, k);
  }

  lemma {:induction false} FirstTouch(log: seq<Event>, c: Id, i: nat, j: nat) returns (k: nat)
    requires i <= j < |log| && Touches(log[j], c)
    ensures i <= k <= j && Touches(log[k], c) && Untouched(log, c, i, k)
    decreases j - i
  {
    if Touches(log[i], c) {
      k := i;
    } else {
      k := FirstTouch(log, c, i + 1, j);
    }
  }

  /** The handler of a firing performs exactly the steps it was given, in order, before it returns. */
  lemma HandlerRunsToCompletion(h: Handlers, states: seq<State>, log: seq<Event>, k: nat, r: nat)
    requires Run(h, states, log) && k < r < |log| && log[k].Fire? && log[r].Return?
    requires forall i :: k < i < r ==> !log[i].Return?
    ensures r == k + 1 + |h(states[k].fired)|
    ensures forall i :: 0 <= i < |h(states[k].fired)| ==> Does(h(states[k].fired)[i], log[k + 1 + i])
  {
    assert Step(h, states[r], log[r], states[r + 1]);
    HandlerProgress(h, states, log, k, r);
  }

  lemma {:induction false} HandlerProgress(h: Handlers, states: seq<State>, log: seq<Event>, k: nat, r: nat)
    requires Run(h, states, log) && k < r <= |log| && log[k].Fire?
    requires forall i :: k < i < r ==> !log[i].Return?
    ensures states[r].running.Some?
    ensures r - k - 1 <= |h(states[k].fired)| && states[r].todo == h(states[k].fired)[r - k - 1..]
    ensures forall i :: 0 <= i < r - k - 1 ==> Does(h(states[k].fired)[i], log[k + 1 + i])
    decreases r
  {
    assert Step(h, states[r - 1], log[r - 1], states[r]);
    if k + 1 < r {
      HandlerProgress(h, states, log, k, r - 1);
    }
  }
}
