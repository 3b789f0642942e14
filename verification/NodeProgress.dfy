/**
 Progress of a node's input queue: the protocol of `NodeQueue` never gets stuck.  From every reachable state
 the threads can, without any new item, finish everything that was handed in and go idle.

 The proof is a weight that some thread can always lower.  Each program counter weighs more than what it
 leads to, counting the queue entry or worklist entry it makes; a thread whose compare-and-set fails keeps
 its weight, and is seen to have to try only once more.
 */
module NodeProgress {
  import opened NodeQueue
  import opened Options

  /** The weight of a queued item, and of a worklist entry. */
  const ENTRY: nat := 8

  function Base(pc: Pc): nat {
    match pc
    case Idle => 0
    case Unlock => 1
    case WorkerGiveUp => 2
    case DequeueRemove(_) => 3
    case DequeueWriteCas => 4
    case DequeueLoad => 4
    case DequeueReadCas(_) => 4
    case DequeueHead => 5
    case DequeueActive => 6
    case WorkerLock => 7
    case DequeueUnlock(_) => 9
    case DequeueClear(_) => 10
    case WorklistAdd => 10
    case QueueCheck => 11
    case RecheckHead => 11
    case RecheckActive => 12
    case RecheckLock => 13
    case RecheckPending => 14
    case QueueInsert(_) => 20
    case QueuePending(_) => 21
    case QueueLock(_) => 22
    case ReadLoad(_) => 23
    case ReadCas(_, _) => 23
    case WriteCas(_) => 23
    case Applying(_, worker) => Apply(worker)
    case FlushUnlock(_, worker, more) => Apply(worker) + if more then 4 else 1
    case FlushNext(_, worker) => Apply(worker) + 2
    case FlushLock(_, worker) => Apply(worker) + 3
    case FlushClear(_, worker) => Apply(worker) + 5
  }

  function Apply(worker: bool): nat { if worker then 8 else 15 }

  /** How far a thread is from a compare-and-set that succeeds if nobody interferes. */
  function Retries(flags: Flags, pc: Pc): nat {
    match pc
    case ReadCas(_, seen) => if seen == flags then 0 else 2
    case DequeueReadCas(seen) => if seen == flags then 0 else 2
    case ReadLoad(_) => 1
    case DequeueLoad => 1
    case _ => 0
  }

  function RetryWeight(flags: Flags): Pc -> nat { pc => Retries(flags, pc) }

  // ---- sums over all threads

  ghost function Total(pcs: map<Tid, Pc>, w: Pc -> nat): nat
    decreases pcs.Keys
  {
    if pcs == map[] then 0
    else var t :| t in pcs; w(pcs[t]) + Total(pcs - {t}, w)
  }

  lemma {:induction false} TotalAt(pcs: map<Tid, Pc>, t: Tid, w: Pc -> nat)
    requires t in pcs
    ensures Total(pcs, w) == w(pcs[t]) + Total(pcs - {t}, w)
    decreases pcs.Keys
  {
    var u :| u in pcs && Total(pcs, w) == w(pcs[u]) + Total(pcs - {u}, w);
    if u != t {
      TotalAt(pcs - {u}, t, w);
      TotalAt(pcs - {t}, u, w);
      assert pcs - {u} - {t} == pcs - {t} - {u};
    }
  }

  lemma TotalGoto(pcs: map<Tid, Pc>, t: Tid, pc: Pc, w: Pc -> nat)
    requires t in pcs
    ensures Total(pcs[t := pc], w) + w(pcs[t]) == Total(pcs, w) + w(pc)
  {
    TotalAt(pcs, t, w);
    TotalAt(pcs[t := pc], t, w);
    assert pcs[t := pc] - {t} == pcs - {t};
  }

  // ---- one step

  /** What there is still to do. */
  ghost function Weight(s: State): nat { Total(s.pcs, Base) + ENTRY * s.worklist + ENTRY * |s.queue| }

  ghost function Tries(s: State): nat { Total(s.pcs, RetryWeight(s.flags)) }

  /** Thread t is not waiting for anybody. */
  predicate CanMove(s: State, t: Tid, choice: Choice) {
    && t in s.pcs && (s.mutex.None? || HoldsMutex(s.pcs[t]))
    && (if s.pcs[t].Idle? then choice.Work? && s.worklist > 0 else choice.Leave?)
  }

  /** The thread's own share of the weight went down. */
  ghost predicate Descends(s: State, s': State, t: Tid)
    requires t in s.pcs
  {
    && t in s'.pcs && s'.pcs == s.pcs[t := s'.pcs[t]] && s'.submitted == s.submitted
    && var d := Base(s.pcs[t]) + ENTRY * s.worklist + ENTRY * |s.queue|;
       var d' := Base(s'.pcs[t]) + ENTRY * s'.worklist + ENTRY * |s'.queue|;
       d' < d || (d' == d && s'.flags == s.flags && Retries(s.flags, s'.pcs[t]) < Retries(s.flags, s.pcs[t]))
  }

  lemma AcquireDescends(s: State, t: Tid, choice: Choice)
    requires CanMove(s, t, choice) && Acquiring(s.pcs[t])
    ensures Descends(s, StepAcquire(s, t, s.pcs[t]), t)
  {
    match s.pcs[t]
    case ReadLoad(_) =>
    case ReadCas(_, _) =>
    case WriteCas(_) =>
  }

  lemma QueueDescends(s: State, t: Tid, choice: Choice)
    requires CanMove(s, t, choice) && Queueing(s.pcs[t])
    ensures Descends(s, StepQueue(s, t, s.pcs[t]), t)
  {
    match s.pcs[t]
    case QueueLock(_) =>
    case QueuePending(_) =>
    case QueueInsert(_) =>
    case QueueCheck =>
    case WorklistAdd =>
    case Unlock =>
  }

  lemma ApplyDescends(s: State, t: Tid, choice: Choice)
    requires CanMove(s, t, choice) && Finishing(s.pcs[t])
    ensures Descends(s, StepApply(s, t, choice, s.pcs[t]), t)
  {
    match s.pcs[t]
    case Applying(_, _) =>
    case RecheckPending =>
    case RecheckLock =>
    case RecheckActive =>
    case RecheckHead =>
  }

  lemma AdmitDescends(s: State, t: Tid, choice: Choice)
    requires CanMove(s, t, choice) && KnownAt(s.queue, s.pcs[t])
    requires s.pcs[t].DequeueReadCas? || s.pcs[t].DequeueWriteCas?
    ensures Descends(s, StepDequeue(s, t, s.pcs[t]), t)
  {
    match s.pcs[t]
    case DequeueReadCas(seen) =>
      assert Retries(s.flags, s.pcs[t]) == if seen == s.flags then 0 else 2;
    case DequeueWriteCas =>
  }

  lemma RemoveDescends(s: State, t: Tid, choice: Choice)
    requires CanMove(s, t, choice) && KnownAt(s.queue, s.pcs[t])
    requires s.pcs[t].DequeueRemove? || s.pcs[t].DequeueClear? || s.pcs[t].DequeueUnlock?
    ensures Descends(s, StepDequeue(s, t, s.pcs[t]), t)
  {
    match s.pcs[t]
    case DequeueRemove(_) =>
    case DequeueClear(_) =>
    case DequeueUnlock(_) =>
  }

  lemma DequeueDescends(s: State, t: Tid, choice: Choice)
    requires CanMove(s, t, choice) && Dequeueing(s.pcs[t]) && KnownAt(s.queue, s.pcs[t])
    ensures Descends(s, StepDequeue(s, t, s.pcs[t]), t)
  {
    match s.pcs[t]
    case DequeueReadCas(_) => AdmitDescends(s, t, choice);
    case DequeueWriteCas => AdmitDescends(s, t, choice);
    case DequeueRemove(_) => RemoveDescends(s, t, choice);
    case DequeueClear(_) => RemoveDescends(s, t, choice);
    case DequeueUnlock(_) => RemoveDescends(s, t, choice);
    case _ =>
  }

  lemma FlushDescends(s: State, t: Tid, choice: Choice)
    requires CanMove(s, t, choice) && Flushing(s.pcs[t])
    ensures Descends(s, StepFlush(s, t, s.pcs[t]), t)
  {
    match s.pcs[t]
    case FlushLock(_, _) =>
    case FlushNext(_, _) => FlushNextDescends(s, t);
    case FlushClear(_, _) =>
    case FlushUnlock(_, _, _) =>
  }

  lemma FlushNextDescends(s: State, t: Tid)
    requires t in s.pcs && s.pcs[t].FlushNext?
    ensures Descends(s, StepFlush(s, t, s.pcs[t]), t)
  {
  }

  lemma StepDescends(s: State, t: Tid, choice: Choice)
    requires CanMove(s, t, choice) && KnownAt(s.queue, s.pcs[t])
    ensures Descends(s, Step(s, t, choice), t)
  {
    var pc := s.pcs[t];
    if Acquiring(pc) {
      AcquireDescends(s, t, choice);
    } else if Queueing(pc) {
      QueueDescends(s, t, choice);
    } else if Finishing(pc) {
      ApplyDescends(s, t, choice);
    } else if Dequeueing(pc) {
      DequeueDescends(s, t, choice);
    } else if Flushing(pc) {
      FlushDescends(s, t, choice);
    }
  }

  /** Every step of a thread that waits for nobody brings the end nearer. */
  lemma StepLightens(s: State, t: Tid, choice: Choice)
    requires CanMove(s, t, choice) && KnownAt(s.queue, s.pcs[t])
    ensures var s' := Step(s, t, choice);
            && s'.submitted == s.submitted
            && (Weight(s') < Weight(s) || (Weight(s') == Weight(s) && Tries(s') < Tries(s)))
  {
    var s' := Step(s, t, choice);
    StepDescends(s, t, choice);
    TotalGoto(s.pcs, t, s'.pcs[t], Base);
    TotalGoto(s.pcs, t, s'.pcs[t], RetryWeight(s.flags));
  }

  // ---- the whole system

  /** Everybody is idle and nothing waits on the worklist. */
  ghost predicate Quiescent(s: State) { s.worklist == 0 && forall t :: t in s.pcs ==> s.pcs[t].Idle? }

  /** As long as there is something to do, some thread can do it: nobody waits for a thread that waits. */
  lemma SomebodyCanMove(s: State) returns (t: Tid, choice: Choice)
    requires FullInv(s) && !Quiescent(s) && s.pcs != map[]
    ensures CanMove(s, t, choice) && KnownAt(s.queue, s.pcs[t]) && !choice.Send?
  {
    if s.mutex.Some? {
      t, choice := s.mutex.value, Leave;
    } else if u :| u in s.pcs && !s.pcs[u].Idle? {
      t, choice := u, Leave;
    } else {
      t :| t in s.pcs;
      choice := Work;
    }
  }

  /** A schedule in which no new item arrives. */
  ghost predicate NothingNew(schedule: seq<(Tid, Choice)>) {
    forall i :: 0 <= i < |schedule| ==> !schedule[i].1.Send?
  }

  lemma RunSnoc(s: State, schedule: seq<(Tid, Choice)>, x: (Tid, Choice))
    ensures RunOf(s, schedule + [x]) == Step(RunOf(s, schedule), x.0, x.1)
  {
    assert (schedule + [x])[..|schedule|] == schedule;
  }

  lemma {:induction false} RunAppend(s: State, first: seq<(Tid, Choice)>, then_: seq<(Tid, Choice)>)
    ensures RunOf(s, first + then_) == RunOf(RunOf(s, first), then_)
    decreases |then_|
  {
    if then_ == [] {
      assert first + then_ == first;
    } else {
      var init, x := then_[..|then_| - 1], then_[|then_| - 1];
      assert then_ == init + [x] && first + then_ == first + init + [x];
      RunAppend(s, first, init);
      RunSnoc(s, first + init, x);
      RunSnoc(RunOf(s, first), init, x);
    }
  }

  lemma {:induction false} CanFinish(s: State) returns (more: seq<(Tid, Choice)>)
    requires FullInv(s) && s.pcs != map[]
    ensures NothingNew(more) && Quiescent(RunOf(s, more)) && RunOf(s, more).submitted == s.submitted
    decreases Weight(s), Tries(s)
  {
    if Quiescent(s) {
      more := [];
    } else {
      var x, s' := OneMove(s);
      var rest := CanFinish(s');
      more := [x] + rest;
      NothingNewEither(x, rest);
      RunAppend(s, [x], rest);
    }
  }

  lemma NothingNewEither(x: (Tid, Choice), rest: seq<(Tid, Choice)>)
    requires !x.1.Send? && NothingNew(rest)
    ensures NothingNew([x] + rest)
  {
  }

  lemma OneMove(s: State) returns (x: (Tid, Choice), s': State)
    requires FullInv(s) && !Quiescent(s) && s.pcs != map[]
    ensures !x.1.Send? && s' == RunOf(s, [x]) && FullInv(s') && s'.pcs != map[] && s'.submitted == s.submitted
    ensures Weight(s') < Weight(s) || (Weight(s') == Weight(s) && Tries(s') < Tries(s))
  {
    var t, choice := SomebodyCanMove(s);
    x, s' := (t, choice), Step(s, t, choice);
    StepLightens(s, t, choice);
    StepKeepsAll(s, t, choice);
    assert t in s'.pcs;
    RunSnoc(s, [], x);
    assert [] + [x] == [x];
  }

  lemma {:induction false} NobodyMoves(s: State, schedule: seq<(Tid, Choice)>)
    requires s.pcs == map[]
    ensures RunOf(s, schedule) == s
    decreases |schedule|
  {
    if schedule != [] {
      NobodyMoves(s, schedule[..|schedule| - 1]);
    }
  }

  /**
   Neither deadlock nor a lost wake-up: whatever has happened so far, the threads can go on, without any new
   item, to a state in which every item ever handed in has been finished and everybody is idle.
   */
  lemma EverythingCanFinish(s: State, schedule: seq<(Tid, Choice)>) returns (more: seq<(Tid, Choice)>)
    requires Init(s)
    ensures NothingNew(more) && Quiescent(RunOf(s, schedule + more))
    ensures RunOf(s, schedule + more).finished == RunOf(s, schedule).submitted
  {
    var r := RunOf(s, schedule);
    Reachable(s, schedule);
    if s.pcs == map[] {
      NobodyMoves(s, schedule);
      more := [];
    } else {
      assert r.pcs != map[];
      more := CanFinish(r);
    }
    RunAppend(s, schedule, more);
    QuiescentMeansDone(s, schedule + more);
  }
}
