/**
 The input queue of a netgraph node (`lib/ff_ng_base.c`, the build without FSTACK): a gate for many
 readers or one writer kept in one word of flags, with a queue of items behind it that worker
 threads empty.

 Every access to a shared word is one atomic step of one thread; any number of threads interleave
 freely.  `Step` is the whole protocol, and a run is an arbitrary schedule of steps.  A call nested
 inside the item a thread is applying is a thread of its own here.
 */
module NodeQueue {
  import opened Basics
  import opened Options

  type Tid = nat

  datatype Item = Item(id: nat, writer: bool)

  /** Where a thread stands; `worker` tells a thread of `ngthread` from a caller of `ng_snd_item`. */
  datatype Pc =
    | Idle
    // ng_acquire_read, ng_acquire_write
    | ReadLoad(item: Item)
    | ReadCas(item: Item, seen: Flags)
    | WriteCas(item: Item)
    // ng_queue_rw
    | QueueLock(item: Item)
    | QueuePending(item: Item)
    | QueueInsert(item: Item)
    | QueueCheck
    | WorklistAdd
    | Unlock
    // ng_apply_item, up to ng_leave_read or ng_leave_write
    | Applying(item: Item, worker: bool)
    // ng_snd_item after the item was applied
    | RecheckPending
    | RecheckLock
    | RecheckActive
    | RecheckHead
    // ngthread and ng_dequeue
    | WorkerLock
    | DequeueActive
    | DequeueHead
    | DequeueLoad
    | DequeueReadCas(seen: Flags)
    | DequeueWriteCas
    | DequeueRemove(writes: bool)
    | DequeueClear(item: Item)
    | DequeueUnlock(item: Item)
    | WorkerGiveUp
    // ng_flush_input_queue, called while applying a shutdown item
    | FlushLock(item: Item, worker: bool)
    | FlushNext(item: Item, worker: bool)
    | FlushClear(item: Item, worker: bool)
    | FlushUnlock(item: Item, worker: bool, more: bool)

  /** The flag word `q_flags`; `WordLemmas` ties its bits to these fields. */
  datatype Flags = Flags(writer: bool, pending: bool, readers: int)

  datatype State = State(
    flags: Flags,          // q_flags
    queue: seq<Item>,      // queue
    mutex: Option<Tid>,    // q_mtx
    workq: bool,           // NGQ2_WORKQ in q_flags2
    worklist: nat,         // entries of this node in ng_worklist
    pcs: map<Tid, Pc>,
    submitted: set<nat>,   // items ever handed to ng_snd_item
    finished: set<nat>,    // items applied or flushed
    enqueued: seq<Item>,   // history of the queue's tail
    dequeued: seq<Item>)   // history of the queue's head

  /** What an idle thread does next, or whether a shutdown item flushes the queue. */
  datatype Choice = Send(item: Item, queued: bool) | Work | Flush | Leave

  /** `NEXT_QUEUED_ITEM_CAN_PROCEED`. */
  predicate HeadCanProceed(flags: Flags, queue: seq<Item>) {
    queue != [] && !flags.writer && (queue[0].writer ==> flags.readers == 0)
  }

  function AddReader(flags: Flags): Flags { flags.(readers := flags.readers + 1) }

  function LeaveGate(flags: Flags, writer: bool): Flags {
    if writer then flags.(writer := false) else flags.(readers := flags.readers - 1)
  }

  function ClearIfEmpty(flags: Flags, queue: seq<Item>): Flags {
    if queue == [] then flags.(pending := false) else flags
  }

  // ---- steps

  function Goto(s: State, t: Tid, pc: Pc): State { s.(pcs := s.pcs[t := pc]) }

  function Lock(s: State, t: Tid, pc: Pc): State {
    if s.mutex.Some? then s else Goto(s, t, pc).(mutex := Some(t))
  }

  function Release(s: State, t: Tid, pc: Pc): State { Goto(s, t, pc).(mutex := None) }

  /** An idle thread enters `ng_snd_item` with a new item, or takes the node off the worklist. */
  function StepIdle(s: State, t: Tid, choice: Choice): State {
    match choice
    case Send(item, queued) =>
      if item.id in s.submitted then s else
      Goto(s, t, if queued then QueueLock(item) else if item.writer then WriteCas(item) else ReadLoad(item))
        .(submitted := s.submitted + {item.id})
    case Work =>
      if s.worklist == 0 then s else Goto(s, t, WorkerLock).(worklist := s.worklist - 1)
    case _ => s
  }

  /** `ng_acquire_read` and `ng_acquire_write`. */
  function StepAcquire(s: State, t: Tid, pc: Pc): State
    requires Acquiring(pc)
  {
    match pc
    case ReadLoad(item) =>
      if s.flags.writer || s.flags.pending then Goto(s, t, QueueLock(item)) else Goto(s, t, ReadCas(item, s.flags))
    case ReadCas(item, seen) =>
      if s.flags == seen then Goto(s, t, Applying(item, false)).(flags := AddReader(seen))
      else Goto(s, t, ReadLoad(item))
    case WriteCas(item) =>
      if s.flags == Flags(false, false, 0) then Goto(s, t, Applying(item, false)).(flags := Flags(true, false, 0))
      else Goto(s, t, QueueLock(item))
  }

  /** `ng_queue_rw` and `ng_worklist_add`. */
  function StepQueue(s: State, t: Tid, pc: Pc): State
    requires Queueing(pc)
  {
    match pc
    case QueueLock(item) => Lock(s, t, QueuePending(item))
    case QueuePending(item) => Goto(s, t, QueueInsert(item)).(flags := s.flags.(pending := true))
    case QueueInsert(item) =>
      Goto(s, t, QueueCheck).(queue := s.queue + [item], enqueued := s.enqueued + [item])
    case QueueCheck => Goto(s, t, if HeadCanProceed(s.flags, s.queue) then WorklistAdd else Unlock)
    case WorklistAdd =>
      if s.workq then Goto(s, t, Unlock)
      else Goto(s, t, Unlock).(workq := true, worklist := s.worklist + 1)
    case Unlock => Release(s, t, Idle)
  }

  /** The end of `ng_apply_item`, and what `ng_snd_item` does after it. */
  function StepApply(s: State, t: Tid, choice: Choice, pc: Pc): State
    requires Finishing(pc)
  {
    match pc
    case Applying(item, worker) =>
      if choice.Flush? && item.writer then Goto(s, t, FlushLock(item, worker)) else
      Goto(s, t, if worker then WorkerLock else RecheckPending)
        .(flags := LeaveGate(s.flags, item.writer), finished := s.finished + {item.id})
    case RecheckPending => Goto(s, t, if s.flags.pending then RecheckLock else Idle)
    case RecheckLock => Lock(s, t, RecheckActive)
    case RecheckActive => Goto(s, t, if s.flags.pending then RecheckHead else Unlock)
    case RecheckHead => Goto(s, t, if HeadCanProceed(s.flags, s.queue) then WorklistAdd else Unlock)
  }

  /** `ngthread` and `ng_dequeue`. */
  function StepDequeue(s: State, t: Tid, pc: Pc): State
    requires Dequeueing(pc)
  {
    match pc
    case WorkerLock => Lock(s, t, DequeueActive)
    case DequeueActive => Goto(s, t, if s.flags.pending then DequeueHead else WorkerGiveUp)
    case DequeueHead =>
      if s.queue == [] then s else Goto(s, t, if s.queue[0].writer then DequeueWriteCas else DequeueLoad)
    case DequeueLoad => Goto(s, t, if s.flags.writer then WorkerGiveUp else DequeueReadCas(s.flags))
    case DequeueReadCas(seen) =>
      if s.flags == seen then Goto(s, t, DequeueRemove(false)).(flags := AddReader(seen))
      else Goto(s, t, DequeueLoad)
    case DequeueWriteCas =>
      if s.flags == Flags(false, true, 0) then Goto(s, t, DequeueRemove(true)).(flags := Flags(true, true, 0))
      else Goto(s, t, WorkerGiveUp)
    case DequeueRemove(_) =>
      if s.queue == [] then s else
      Goto(s, t, DequeueClear(s.queue[0])).(queue := s.queue[1..], dequeued := s.dequeued + [s.queue[0]])
    case DequeueClear(item) => Goto(s, t, DequeueUnlock(item)).(flags := ClearIfEmpty(s.flags, s.queue))
    case DequeueUnlock(item) => Release(s, t, Applying(item, true))
    case WorkerGiveUp => Goto(s, t, Unlock).(workq := false)
  }

  /** `ng_flush_input_queue`. */
  function StepFlush(s: State, t: Tid, pc: Pc): State
    requires Flushing(pc)
  {
    match pc
    case FlushLock(item, worker) => Lock(s, t, FlushNext(item, worker))
    case FlushNext(item, worker) =>
      if s.queue == [] then Goto(s, t, FlushUnlock(item, worker, false)) else
      Goto(s, t, FlushClear(item, worker))
        .(queue := s.queue[1..], dequeued := s.dequeued + [s.queue[0]], finished := s.finished + {s.queue[0].id})
    case FlushClear(item, worker) =>
      Goto(s, t, FlushUnlock(item, worker, true)).(flags := ClearIfEmpty(s.flags, s.queue))
    case FlushUnlock(item, worker, more) =>
      Release(s, t, if more then FlushLock(item, worker) else Applying(item, worker))
  }

  predicate Acquiring(pc: Pc) { pc.ReadLoad? || pc.ReadCas? || pc.WriteCas? }
  predicate Queueing(pc: Pc) {
    pc.QueueLock? || pc.QueuePending? || pc.QueueInsert? || pc.QueueCheck? || pc.WorklistAdd? || pc.Unlock?
  }
  predicate Finishing(pc: Pc) {
    pc.Applying? || pc.RecheckPending? || pc.RecheckLock? || pc.RecheckActive? || pc.RecheckHead?
  }
  predicate Dequeueing(pc: Pc) {
    || pc.WorkerLock? || pc.DequeueActive? || pc.DequeueHead? || pc.DequeueLoad? || pc.DequeueReadCas?
    || pc.DequeueWriteCas? || pc.DequeueRemove? || pc.DequeueClear? || pc.DequeueUnlock? || pc.WorkerGiveUp?
  }
  predicate Flushing(pc: Pc) { pc.FlushLock? || pc.FlushNext? || pc.FlushClear? || pc.FlushUnlock? }

  /** One atomic step of thread t; a thread that cannot move leaves the state as it is. */
  function Step(s: State, t: Tid, choice: Choice): State {
    if t !in s.pcs then s
    else if Acquiring(s.pcs[t]) then StepAcquire(s, t, s.pcs[t])
    else if Queueing(s.pcs[t]) then StepQueue(s, t, s.pcs[t])
    else if Finishing(s.pcs[t]) then StepApply(s, t, choice, s.pcs[t])
    else if Dequeueing(s.pcs[t]) then StepDequeue(s, t, s.pcs[t])
    else if Flushing(s.pcs[t]) then StepFlush(s, t, s.pcs[t])
    else StepIdle(s, t, choice)
  }

  // ---- what a program counter owns

  /** The thread has been admitted through the gate. */
  predicate Admitted(pc: Pc) { pc.Applying? || pc.DequeueClear? || pc.DequeueUnlock? || Flushing(pc) }

  predicate Reads(pc: Pc) {
    (Admitted(pc) && !Flushing(pc) && !pc.item.writer) || (pc.DequeueRemove? && !pc.writes)
  }

  predicate Writes(pc: Pc) {
    Flushing(pc) || (Admitted(pc) && !Flushing(pc) && pc.item.writer) || (pc.DequeueRemove? && pc.writes)
  }

  predicate HoldsMutex(pc: Pc) {
    || pc.QueuePending? || pc.QueueInsert? || pc.QueueCheck? || pc.WorklistAdd? || pc.Unlock?
    || pc.RecheckActive? || pc.RecheckHead?
    || pc.DequeueActive? || pc.DequeueHead? || pc.DequeueLoad? || pc.DequeueReadCas? || pc.DequeueWriteCas?
    || pc.DequeueRemove? || pc.DequeueClear? || pc.DequeueUnlock? || pc.WorkerGiveUp?
    || pc.FlushNext? || pc.FlushClear? || pc.FlushUnlock?
  }

  /** The thread works on this node on behalf of the worklist. */
  predicate Working(pc: Pc) {
    || pc.WorkerLock? || pc.DequeueActive? || pc.DequeueHead? || pc.DequeueLoad? || pc.DequeueReadCas?
    || pc.DequeueWriteCas? || pc.DequeueRemove? || pc.DequeueClear? || pc.DequeueUnlock? || pc.WorkerGiveUp?
    || ((pc.Applying? || Flushing(pc)) && pc.worker)
  }

  /** The thread will look at the queue again before it goes idle. */
  predicate WillLook(pc: Pc) {
    || ((pc.Applying? || Flushing(pc)) && !pc.worker)
    || pc.RecheckPending? || pc.RecheckLock? || pc.RecheckActive? || pc.RecheckHead?
    || pc.QueueCheck? || pc.WorklistAdd?
  }

  /** Between raising or lowering OP_PENDING and changing the queue. */
  predicate BetweenFlagAndQueue(pc: Pc) { pc.QueueInsert? || pc.DequeueClear? || pc.FlushClear? }

  /** The code at this point reads the head of the queue. */
  predicate ReadsHead(pc: Pc) {
    || pc.QueueCheck? || pc.RecheckHead? || pc.DequeueHead? || pc.DequeueLoad? || pc.DequeueReadCas?
    || pc.DequeueWriteCas? || pc.DequeueRemove?
  }

  function Threads(pcs: map<Tid, Pc>, p: Pc -> bool): set<Tid> { set t | t in pcs && p(pcs[t]) }

  function Count(pcs: map<Tid, Pc>, p: Pc -> bool): nat { |Threads(pcs, p)| }

  lemma CountGoto(pcs: map<Tid, Pc>, t: Tid, pc: Pc, p: Pc -> bool)
    requires t in pcs
    ensures Count(pcs[t := pc], p) == Count(pcs, p) - (if p(pcs[t]) then 1 else 0) + (if p(pc) then 1 else 0)
    ensures p(pcs[t]) ==> Count(pcs, p) > 0
  {
    var rest := Threads(pcs, p) - {t};
    assert Threads(pcs, p) == if p(pcs[t]) then rest + {t} else rest;
    assert Threads(pcs[t := pc], p) == if p(pc) then rest + {t} else rest;
  }

  lemma CountZero(pcs: map<Tid, Pc>, p: Pc -> bool)
    ensures Count(pcs, p) == 0 <==> forall t :: t in pcs ==> !p(pcs[t])
  {
    if Count(pcs, p) == 0 {
      forall t | t in pcs ensures !p(pcs[t]) { assert t !in Threads(pcs, p); }
    } else {
      var t :| t in Threads(pcs, p);
    }
  }

  lemma CountOne(pcs: map<Tid, Pc>, p: Pc -> bool, t: Tid, u: Tid)
    requires Count(pcs, p) <= 1 && t in pcs && u in pcs && p(pcs[t]) && p(pcs[u])
    ensures t == u
  {
    var others := Threads(pcs, p) - {t};
    assert Threads(pcs, p) == others + {t};
    assert others == {};
    assert u !in others;
  }

  // ---- the invariant

  /** The mutex is held by exactly the thread whose program counter says so. */
  ghost predicate MutexInv(s: State) {
    && (forall t :: t in s.pcs ==> (s.mutex == Some(t) <==> HoldsMutex(s.pcs[t])))
    && (s.mutex.Some? ==> s.mutex.value in s.pcs)
  }

  /** The flag word counts the threads inside the gate, and a writer is alone in there. */
  ghost predicate GateInv(s: State) {
    && s.flags.readers == Count(s.pcs, Reads)
    && Count(s.pcs, Writes) == (if s.flags.writer then 1 else 0)
    && (s.flags.writer ==> s.flags.readers == 0)
  }

  /** OP_PENDING as a mutex holder at `pc` leaves it: equal to "not empty", or raised while it changes both. */
  predicate PendingAt(s: State, pc: Pc) {
    if BetweenFlagAndQueue(pc) then s.flags.pending else s.flags.pending == (s.queue != [])
  }

  /** OP_PENDING tells whether the queue is empty, except while the mutex holder is changing both. */
  ghost predicate PendingInv(s: State) {
    match s.mutex
    case None => s.flags.pending == (s.queue != [])
    case Some(m) => m in s.pcs && PendingAt(s, s.pcs[m])
  }

  /** What a thread at `pc` may rely on; in particular no null head is ever looked at. */
  predicate KnownAt(queue: seq<Item>, pc: Pc) {
    && (pc.ReadCas? || pc.DequeueReadCas? ==> !pc.seen.writer) && (pc.ReadCas? ==> !pc.seen.pending)
    && (pc.ReadLoad? || pc.ReadCas? ==> !pc.item.writer)
    && (pc.WriteCas? || Flushing(pc) ==> pc.item.writer)
    && (ReadsHead(pc) ==> queue != [])
    && (pc.DequeueLoad? || pc.DequeueReadCas? ==> !queue[0].writer)
    && (pc.DequeueWriteCas? ==> queue[0].writer)
    && (pc.DequeueRemove? ==> queue[0].writer == pc.writes)
  }

  ghost predicate KnownInv(s: State) { forall t :: t in s.pcs ==> KnownAt(s.queue, s.pcs[t]) }

  /** NGQ2_WORKQ means: on the worklist once, or one thread is working the queue off. */
  ghost predicate WorkInv(s: State) {
    s.worklist + Count(s.pcs, Working) == if s.workq then 1 else 0
  }

  /** Queued work is never forgotten: without NGQ2_WORKQ some thread is bound to look at the queue. */
  ghost predicate LookInv(s: State) {
    s.queue != [] && (!s.workq || exists t :: t in s.pcs && s.pcs[t].WorkerGiveUp?) ==>
      exists t :: t in s.pcs && WillLook(s.pcs[t])
  }

  ghost predicate Inv(s: State) {
    MutexInv(s) && GateInv(s) && PendingInv(s) && KnownInv(s) && WorkInv(s) && LookInv(s)
  }

  ghost predicate Init(s: State) {
    && s.flags == Flags(false, false, 0) && s.queue == s.enqueued == s.dequeued == [] && s.mutex.None?
        && !s.workq && s.worklist == 0
    && s.submitted == s.finished == {} && forall t :: t in s.pcs ==> s.pcs[t].Idle?
  }

  lemma InitInv(s: State)
    requires Init(s)
    ensures Inv(s)
  {
    CountZero(s.pcs, Reads);
    CountZero(s.pcs, Writes);
    CountZero(s.pcs, Working);
  }

  /** What one step does to the mutex. */
  ghost predicate MutexMove(s: State, s': State, t: Tid)
    requires t in s.pcs
  {
    && t in s'.pcs && s'.pcs == s.pcs[t := s'.pcs[t]]
    && (HoldsMutex(s.pcs[t]) == HoldsMutex(s'.pcs[t]) ==> s'.mutex == s.mutex)
    && (!HoldsMutex(s.pcs[t]) && HoldsMutex(s'.pcs[t]) ==> s.mutex.None? && s'.mutex == Some(t))
    && (HoldsMutex(s.pcs[t]) && !HoldsMutex(s'.pcs[t]) ==> s'.mutex.None?)
  }

  /** What one step does to the gate. */
  ghost predicate GateMove(s: State, s': State, t: Tid)
    requires t in s.pcs && t in s'.pcs
  {
    && s'.flags.readers == s.flags.readers + Bit(Reads(s'.pcs[t])) - Bit(Reads(s.pcs[t]))
    && Bit(s'.flags.writer) == Bit(s.flags.writer) + Bit(Writes(s'.pcs[t])) - Bit(Writes(s.pcs[t]))
    && (!Reads(s.pcs[t]) && Reads(s'.pcs[t]) ==> !s.flags.writer)
    && (!Writes(s.pcs[t]) && Writes(s'.pcs[t]) ==> s.flags.readers == 0)
  }

  /** What one step does to the worklist. */
  ghost predicate WorkMove(s: State, s': State, t: Tid)
    requires t in s.pcs && t in s'.pcs
  {
    s'.worklist + Bit(Working(s'.pcs[t])) - Bit(s'.workq) == s.worklist + Bit(Working(s.pcs[t])) - Bit(s.workq)
  }

  /** What one step does to the queue and OP_PENDING: nothing unless the thread holds the mutex. */
  ghost predicate PendingMove(s: State, s': State, t: Tid)
    requires t in s.pcs && t in s'.pcs
  {
    && (HoldsMutex(s.pcs[t]) && PendingAt(s, s.pcs[t]) ==> PendingAt(s', s'.pcs[t]))
    && (!HoldsMutex(s.pcs[t]) ==> s'.queue == s.queue && s'.flags.pending == s.flags.pending)
    && (!HoldsMutex(s.pcs[t]) ==> !BetweenFlagAndQueue(s'.pcs[t]))
  }

  /** What thread t knows at the start of its step. */
  ghost predicate Local(s: State, t: Tid)
    requires t in s.pcs
  {
    && KnownAt(s.queue, s.pcs[t])
    && (HoldsMutex(s.pcs[t]) ==> PendingAt(s, s.pcs[t]))
    && (Writes(s.pcs[t]) ==> s.flags.writer)
    && (s.pcs[t].WorkerGiveUp? ==> s.workq)
  }

  lemma AcquireMoves(s: State, t: Tid)
    requires t in s.pcs && Acquiring(s.pcs[t]) && Local(s, t)
    ensures var s' := StepAcquire(s, t, s.pcs[t]); MutexMove(s, s', t) && GateMove(s, s', t) && WorkMove(s, s', t)
  {
    match s.pcs[t]
    case ReadLoad(_) =>
    case ReadCas(_, _) => ReadMoves(s, t);
    case WriteCas(_) =>
  }

  lemma ReadMoves(s: State, t: Tid)
    requires t in s.pcs && s.pcs[t].ReadCas? && Local(s, t)
    ensures var s' := StepAcquire(s, t, s.pcs[t]); MutexMove(s, s', t) && GateMove(s, s', t) && WorkMove(s, s', t)
  {
    if s.flags == s.pcs[t].seen {
    } else {
    }
  }

  lemma EnqueueMoves(s: State, t: Tid)
    requires t in s.pcs && Local(s, t)
    requires s.pcs[t].QueueLock? || s.pcs[t].QueuePending? || s.pcs[t].QueueInsert?
    ensures var s' := StepQueue(s, t, s.pcs[t]); MutexMove(s, s', t) && GateMove(s, s', t) && WorkMove(s, s', t)
  {
    match s.pcs[t]
    case QueueLock(_) =>
    case QueuePending(_) =>
    case QueueInsert(_) =>
  }

  lemma QueueMoves(s: State, t: Tid)
    requires t in s.pcs && Queueing(s.pcs[t]) && Local(s, t)
    ensures var s' := StepQueue(s, t, s.pcs[t]); MutexMove(s, s', t) && GateMove(s, s', t) && WorkMove(s, s', t)
  {
    match s.pcs[t]
    case QueueCheck =>
    case WorklistAdd =>
    case Unlock =>
    case _ => EnqueueMoves(s, t);
  }

  lemma LeaveMoves(s: State, t: Tid, choice: Choice)
    requires t in s.pcs && s.pcs[t].Applying? && Local(s, t)
    ensures var s' := StepApply(s, t, choice, s.pcs[t]);
            MutexMove(s, s', t) && GateMove(s, s', t) && WorkMove(s, s', t)
  {
    if s.pcs[t].worker {
    } else {
    }
  }

  lemma RelockMoves(s: State, t: Tid, choice: Choice)
    requires t in s.pcs && (s.pcs[t].RecheckPending? || s.pcs[t].RecheckLock?) && Local(s, t)
    ensures var s' := StepApply(s, t, choice, s.pcs[t]);
            MutexMove(s, s', t) && GateMove(s, s', t) && WorkMove(s, s', t)
  {
    match s.pcs[t]
    case RecheckPending =>
    case RecheckLock =>
  }

  lemma RecheckMoves(s: State, t: Tid, choice: Choice)
    requires t in s.pcs && Finishing(s.pcs[t]) && !s.pcs[t].Applying? && Local(s, t)
    ensures var s' := StepApply(s, t, choice, s.pcs[t]);
            MutexMove(s, s', t) && GateMove(s, s', t) && WorkMove(s, s', t)
  {
    match s.pcs[t]
    case RecheckPending => RelockMoves(s, t, choice);
    case RecheckLock => RelockMoves(s, t, choice);
    case RecheckActive =>
    case RecheckHead =>
  }

  lemma InspectMoves(s: State, t: Tid)
    requires t in s.pcs && Dequeueing(s.pcs[t]) && Local(s, t)
    requires var pc := s.pcs[t];
             pc.WorkerLock? || pc.DequeueActive? || pc.DequeueHead? || pc.DequeueLoad? || pc.WorkerGiveUp?
    ensures var s' := StepDequeue(s, t, s.pcs[t]); MutexMove(s, s', t) && GateMove(s, s', t) && WorkMove(s, s', t)
  {
    match s.pcs[t]
    case WorkerLock =>
    case DequeueActive =>
    case DequeueHead =>
    case DequeueLoad =>
    case WorkerGiveUp =>
  }

  lemma AdmitMoves(s: State, t: Tid)
    requires t in s.pcs && Dequeueing(s.pcs[t]) && Local(s, t)
    requires s.pcs[t].DequeueReadCas? || s.pcs[t].DequeueWriteCas?
    ensures var s' := StepDequeue(s, t, s.pcs[t]); MutexMove(s, s', t) && GateMove(s, s', t) && WorkMove(s, s', t)
  {
    match s.pcs[t]
    case DequeueReadCas(_) =>
    case DequeueWriteCas =>
  }

  lemma DequeueMoves(s: State, t: Tid)
    requires t in s.pcs && Dequeueing(s.pcs[t]) && Local(s, t)
    ensures var s' := StepDequeue(s, t, s.pcs[t]); MutexMove(s, s', t) && GateMove(s, s', t) && WorkMove(s, s', t)
  {
    match s.pcs[t]
    case DequeueReadCas(_) => AdmitMoves(s, t);
    case DequeueWriteCas => AdmitMoves(s, t);
    case DequeueRemove(_) =>
    case DequeueClear(_) =>
    case DequeueUnlock(_) =>
    case _ => InspectMoves(s, t);
  }

  lemma FlushMoves(s: State, t: Tid)
    requires t in s.pcs && Flushing(s.pcs[t]) && Local(s, t)
    ensures var s' := StepFlush(s, t, s.pcs[t]); MutexMove(s, s', t) && GateMove(s, s', t) && WorkMove(s, s', t)
  {
    match s.pcs[t]
    case FlushLock(_, _) =>
    case FlushNext(_, _) =>
    case FlushClear(_, _) =>
    case FlushUnlock(_, _, _) =>
  }

  lemma IdleMoves(s: State, t: Tid, choice: Choice)
    requires t in s.pcs && s.pcs[t].Idle?
    ensures var s' := StepIdle(s, t, choice); MutexMove(s, s', t) && GateMove(s, s', t) && WorkMove(s, s', t)
  {
    match choice
    case Send(_, _) =>
    case Work =>
    case Flush =>
    case Leave =>
  }

  lemma StepMoves(s: State, t: Tid, choice: Choice)
    requires t in s.pcs && Local(s, t)
    ensures var s' := Step(s, t, choice); MutexMove(s, s', t) && GateMove(s, s', t) && WorkMove(s, s', t)
  {
    var pc := s.pcs[t];
    if Acquiring(pc) {
      AcquireMoves(s, t);
    } else if Queueing(pc) {
      QueueMoves(s, t);
    } else if pc.Applying? {
      LeaveMoves(s, t, choice);
    } else if Finishing(pc) {
      RecheckMoves(s, t, choice);
    } else if Dequeueing(pc) {
      DequeueMoves(s, t);
    } else if Flushing(pc) {
      FlushMoves(s, t);
    } else {
      IdleMoves(s, t, choice);
    }
  }

  lemma AcquireKeeps(s: State, t: Tid)
    requires t in s.pcs && Acquiring(s.pcs[t]) && Local(s, t)
    ensures var s' := StepAcquire(s, t, s.pcs[t]); PendingMove(s, s', t) && KnownAt(s'.queue, s'.pcs[t])
  {
    match s.pcs[t]
    case ReadLoad(_) =>
    case ReadCas(_, _) =>
    case WriteCas(_) =>
  }

  lemma QueueKeeps(s: State, t: Tid)
    requires t in s.pcs && Queueing(s.pcs[t]) && Local(s, t)
    ensures var s' := StepQueue(s, t, s.pcs[t]); PendingMove(s, s', t) && KnownAt(s'.queue, s'.pcs[t])
  {
    match s.pcs[t]
    case QueueLock(_) =>
    case QueuePending(_) =>
    case QueueInsert(_) =>
    case QueueCheck =>
    case WorklistAdd =>
    case Unlock =>
  }

  lemma ApplyKeeps(s: State, t: Tid, choice: Choice)
    requires t in s.pcs && Finishing(s.pcs[t]) && Local(s, t)
    ensures var s' := StepApply(s, t, choice, s.pcs[t]); PendingMove(s, s', t) && KnownAt(s'.queue, s'.pcs[t])
  {
    match s.pcs[t]
    case Applying(_, _) => LeaveKeeps(s, t, choice);
    case RecheckPending =>
    case RecheckLock =>
    case RecheckActive =>
    case RecheckHead =>
  }

  lemma LeaveKeeps(s: State, t: Tid, choice: Choice)
    requires t in s.pcs && s.pcs[t].Applying? && Local(s, t)
    ensures var s' := StepApply(s, t, choice, s.pcs[t]); PendingMove(s, s', t) && KnownAt(s'.queue, s'.pcs[t])
  {
    if s.pcs[t].worker {
    } else {
    }
  }

  lemma InspectKeeps(s: State, t: Tid)
    requires t in s.pcs && Dequeueing(s.pcs[t]) && Local(s, t)
    requires var pc := s.pcs[t];
             pc.WorkerLock? || pc.DequeueActive? || pc.DequeueHead? || pc.DequeueLoad? || pc.WorkerGiveUp?
    ensures var s' := StepDequeue(s, t, s.pcs[t]); PendingMove(s, s', t) && KnownAt(s'.queue, s'.pcs[t])
  {
    match s.pcs[t]
    case WorkerLock =>
    case DequeueActive =>
    case DequeueHead =>
    case DequeueLoad =>
    case WorkerGiveUp =>
  }

  lemma DequeueKeeps(s: State, t: Tid)
    requires t in s.pcs && Dequeueing(s.pcs[t]) && Local(s, t)
    ensures var s' := StepDequeue(s, t, s.pcs[t]); PendingMove(s, s', t) && KnownAt(s'.queue, s'.pcs[t])
  {
    match s.pcs[t]
    case DequeueReadCas(_) =>
    case DequeueWriteCas =>
    case DequeueRemove(_) => RemoveKeeps(s, t);
    case DequeueClear(_) => RemoveKeeps(s, t);
    case DequeueUnlock(_) => RemoveKeeps(s, t);
    case _ => InspectKeeps(s, t);
  }

  lemma RemoveKeeps(s: State, t: Tid)
    requires t in s.pcs && (s.pcs[t].DequeueRemove? || s.pcs[t].DequeueClear? || s.pcs[t].DequeueUnlock?) && Local(s, t)
    ensures var s' := StepDequeue(s, t, s.pcs[t]); PendingMove(s, s', t) && KnownAt(s'.queue, s'.pcs[t])
  {
    match s.pcs[t]
    case DequeueRemove(_) =>
    case DequeueClear(_) =>
    case DequeueUnlock(_) =>
  }

  lemma FlushKeeps(s: State, t: Tid)
    requires t in s.pcs && Flushing(s.pcs[t]) && Local(s, t)
    ensures var s' := StepFlush(s, t, s.pcs[t]); PendingMove(s, s', t) && KnownAt(s'.queue, s'.pcs[t])
  {
    match s.pcs[t]
    case FlushLock(_, _) =>
    case FlushNext(_, _) =>
    case FlushClear(_, _) =>
    case FlushUnlock(_, _, _) =>
  }

  lemma IdleKeeps(s: State, t: Tid, choice: Choice)
    requires t in s.pcs && s.pcs[t].Idle?
    ensures var s' := StepIdle(s, t, choice);
            t in s'.pcs && PendingMove(s, s', t) && KnownAt(s'.queue, s'.pcs[t])
  {
    match choice
    case Send(_, _) =>
    case Work =>
    case Flush =>
    case Leave =>
  }

  lemma StepKeeps(s: State, t: Tid, choice: Choice)
    requires t in s.pcs && Local(s, t)
    ensures var s' := Step(s, t, choice);
            t in s'.pcs && PendingMove(s, s', t) && KnownAt(s'.queue, s'.pcs[t])
  {
    var pc := s.pcs[t];
    if Acquiring(pc) {
      AcquireKeeps(s, t);
    } else if Queueing(pc) {
      QueueKeeps(s, t);
    } else {
      StepOnKeeps(s, t, choice);
    }
  }

  lemma StepOnKeeps(s: State, t: Tid, choice: Choice)
    requires t in s.pcs && Local(s, t) && !Acquiring(s.pcs[t]) && !Queueing(s.pcs[t])
    ensures var s' := Step(s, t, choice);
            t in s'.pcs && PendingMove(s, s', t) && KnownAt(s'.queue, s'.pcs[t])
  {
    var pc := s.pcs[t];
    if Finishing(pc) {
      ApplyKeeps(s, t, choice);
    } else if Dequeueing(pc) {
      DequeueKeeps(s, t);
    } else if Flushing(pc) {
      FlushKeeps(s, t);
    } else {
      IdleKeeps(s, t, choice);
    }
  }

  lemma InvIsLocal(s: State, t: Tid)
    requires Inv(s) && t in s.pcs
    ensures Local(s, t)
  {
    CountZero(s.pcs, Writes);
    CountZero(s.pcs, Working);
  }

  /** Everything but the promise that somebody will look is kept by every step. */
  lemma StepKeepsSafety(s: State, t: Tid, choice: Choice)
    requires Inv(s) && t in s.pcs
    ensures var s' := Step(s, t, choice); MutexInv(s') && GateInv(s') && PendingInv(s') && KnownInv(s') && WorkInv(s')
  {
    var s' := Step(s, t, choice);
    InvIsLocal(s, t);
    StepMoves(s, t, choice);
    StepKeeps(s, t, choice);
    CountGoto(s.pcs, t, s'.pcs[t], Reads);
    CountGoto(s.pcs, t, s'.pcs[t], Writes);
    CountGoto(s.pcs, t, s'.pcs[t], Working);
  }

  /** Whoever is inside the gate while another thread holds the mutex is applying or flushing. */
  lemma SomebodyInside(s: State, t: Tid) returns (h: Tid)
    requires MutexInv(s) && GateInv(s) && t in s.pcs && HoldsMutex(s.pcs[t])
    requires !Reads(s.pcs[t]) && !Writes(s.pcs[t]) && (s.flags.writer || s.flags.readers != 0)
    ensures h in s.pcs && h != t && (s.pcs[h].Applying? || Flushing(s.pcs[h]))
  {
    if s.flags.writer {
      CountZero(s.pcs, Writes);
      h :| h in s.pcs && Writes(s.pcs[h]);
    } else {
      CountZero(s.pcs, Reads);
      h :| h in s.pcs && Reads(s.pcs[h]);
    }
  }

  /** The four places where a thread turns its back on a queue it has found, or may find, non-empty. */
  predicate TurnsAway(s: State, pc: Pc) {
    || ((pc.QueueCheck? || pc.RecheckHead?) && !HeadCanProceed(s.flags, s.queue))
    || (pc.DequeueLoad? && s.flags.writer)
    || (pc.DequeueWriteCas? && s.flags != Flags(false, true, 0))
  }

  /** A thread stops watching only because the queue is empty, because NGQ2_WORKQ is set, or at one of those places. */
  lemma StopsWatching(s: State, t: Tid, choice: Choice)
    requires t in s.pcs && Local(s, t) && (s.queue != [] ==> s.flags.pending)
    requires var s' := Step(s, t, choice);
             t in s'.pcs && s'.queue != [] && !WillLook(s'.pcs[t]) && (WillLook(s.pcs[t]) || s'.pcs[t].WorkerGiveUp?)
    ensures HoldsMutex(s.pcs[t])
    ensures TurnsAway(s, s.pcs[t]) || (s.pcs[t].WorklistAdd? && Step(s, t, choice).workq)
    ensures TurnsAway(s, s.pcs[t]) ==> Step(s, t, choice).workq == s.workq
  {
    if s.pcs[t].Applying? || Flushing(s.pcs[t]) {
      KeepsWatching(s, t, choice);
      assert false;
    }
    match s.pcs[t]
    case RecheckPending =>
    case RecheckLock =>
    case RecheckActive =>
    case RecheckHead =>
    case QueueCheck =>
    case WorklistAdd =>
    case DequeueActive =>
    case DequeueLoad =>
    case DequeueWriteCas =>
    case _ =>
  }

  /** Applying or flushing an item outside a worker never ends without a look at the queue. */
  lemma KeepsWatching(s: State, t: Tid, choice: Choice)
    requires t in s.pcs && (s.pcs[t].Applying? || Flushing(s.pcs[t])) && t in Step(s, t, choice).pcs
    ensures WillLook(Step(s, t, choice).pcs[t]) == WillLook(s.pcs[t])
    ensures !Step(s, t, choice).pcs[t].WorkerGiveUp?
  {
    match s.pcs[t]
    case Applying(_, _) =>
    case FlushLock(_, _) =>
    case FlushNext(_, _) =>
    case FlushClear(_, _) =>
    case FlushUnlock(_, _, _) =>
  }

  /** Whoever makes a thread turn away will look at the queue when it leaves. */
  lemma SomebodyElseLooks(s: State, t: Tid) returns (h: Tid)
    requires Inv(s) && t in s.pcs && TurnsAway(s, s.pcs[t]) && (!s.workq || Working(s.pcs[t]))
    ensures h in s.pcs && h != t && WillLook(s.pcs[h])
  {
    assert KnownAt(s.queue, s.pcs[t]);
    assert HoldsMutex(s.pcs[t]);
    h := SomebodyInside(s, t);
    if s.pcs[h].worker {
      CountZero(s.pcs, Working);
      CountOne(s.pcs, Working, h, t);
      assert false;
    }
  }

  lemma StepKeepsLook(s: State, t: Tid, choice: Choice)
    requires Inv(s) && t in s.pcs
    ensures LookInv(Step(s, t, choice))
  {
    var s' := Step(s, t, choice);
    InvIsLocal(s, t);
    StepMoves(s, t, choice);
    StepKeeps(s, t, choice);
    if s'.queue != [] && (!s'.workq || exists u :: u in s'.pcs && s'.pcs[u].WorkerGiveUp?) && !WillLook(s'.pcs[t]) {
      assert s.queue != [] by { QueueFillsUnderWatch(s, t, choice); }
      if WillLook(s.pcs[t]) || s'.pcs[t].WorkerGiveUp? {
        StopsWatching(s, t, choice);
        var h := SomebodyElseLooks(s, t);
        assert s'.pcs[h] == s.pcs[h];
      } else {
        StillUnwatched(s, t, choice);
        var h :| h in s.pcs && WillLook(s.pcs[h]);
        assert s'.pcs[h] == s.pcs[h];
      }
    }
  }

  /** The queue becomes non-empty only in the hands of a thread that goes on to look at it. */
  lemma QueueFillsUnderWatch(s: State, t: Tid, choice: Choice)
    requires t in s.pcs && t in Step(s, t, choice).pcs && !WillLook(Step(s, t, choice).pcs[t])
    ensures s.queue == [] ==> Step(s, t, choice).queue == []
  {
    match s.pcs[t]
    case QueueInsert(_) =>
    case DequeueRemove(_) =>
    case FlushNext(_, _) =>
    case _ =>
  }

  /** If neither the flag nor a giving-up thread appeared in this step, they were there before. */
  lemma StillUnwatched(s: State, t: Tid, choice: Choice)
    requires Inv(s) && t in s.pcs
    requires var s' := Step(s, t, choice);
             && t in s'.pcs && s'.pcs == s.pcs[t := s'.pcs[t]] && !s'.pcs[t].WorkerGiveUp?
             && (!s'.workq || exists u :: u in s'.pcs && s'.pcs[u].WorkerGiveUp?)
    ensures !s.workq || exists u :: u in s.pcs && s.pcs[u].WorkerGiveUp?
  {
    var s' := Step(s, t, choice);
    if s'.workq {
      var u :| u in s'.pcs && s'.pcs[u].WorkerGiveUp?;
      assert s.pcs[u].WorkerGiveUp?;
    } else if s.workq {
      assert s.pcs[t].WorkerGiveUp? by { WorkqFalls(s, t, choice); }
    }
  }

  lemma WorkqFalls(s: State, t: Tid, choice: Choice)
    requires t in s.pcs && s.workq && !Step(s, t, choice).workq
    ensures s.pcs[t].WorkerGiveUp?
  {
    match s.pcs[t]
    case WorkerGiveUp =>
    case WorklistAdd =>
    case _ =>
  }

  /** The invariant is kept by every step of every thread. */
  lemma StepKeepsInv(s: State, t: Tid, choice: Choice)
    requires Inv(s)
    ensures Inv(Step(s, t, choice))
  {
    if t in s.pcs {
      StepKeepsSafety(s, t, choice);
      StepKeepsLook(s, t, choice);
    }
  }

  // ---- items

  predicate Carries(pc: Pc) {
    || pc.ReadLoad? || pc.ReadCas? || pc.WriteCas? || pc.QueueLock? || pc.QueuePending? || pc.QueueInsert?
    || Admitted(pc)
  }

  /** Every item handed in is in exactly one place: with one thread, once in the queue, or finished. */
  ghost predicate ItemInv(s: State) {
    && (forall t, u :: t in s.pcs && u in s.pcs && t != u && Carries(s.pcs[t]) && Carries(s.pcs[u]) ==>
          s.pcs[t].item.id != s.pcs[u].item.id)
    && (forall t :: t in s.pcs && Carries(s.pcs[t]) ==> s.pcs[t].item.id in s.submitted - s.finished)
    && (forall t, i :: t in s.pcs && Carries(s.pcs[t]) && 0 <= i < |s.queue| ==> s.pcs[t].item.id != s.queue[i].id)
    && (forall i :: 0 <= i < |s.queue| ==> s.queue[i].id in s.submitted - s.finished)
    && (forall i, j :: 0 <= i < j < |s.queue| ==> s.queue[i].id != s.queue[j].id)
    && s.finished <= s.submitted
  }

  /** And none has disappeared. */
  ghost predicate NothingLost(s: State) {
    forall id :: id in s.submitted ==>
      || id in s.finished
      || (exists t :: t in s.pcs && Carries(s.pcs[t]) && s.pcs[t].item.id == id)
      || (exists i :: 0 <= i < |s.queue| && s.queue[i].id == id)
  }

  /** Items leave the queue in the order they entered it. */
  ghost predicate FifoInv(s: State) { s.enqueued == s.dequeued + s.queue }

  /** How one step moves an item. */
  datatype ItemMove = Stays | Enters(id: nat) | IsQueued | IsTaken | IsDone | IsFlushed

  function MoveOf(s: State, t: Tid, choice: Choice): ItemMove
    requires t in s.pcs
  {
    match s.pcs[t]
    case Idle => if choice.Send? && choice.item.id !in s.submitted then Enters(choice.item.id) else Stays
    case QueueInsert(_) => IsQueued
    case Applying(item, _) => if choice.Flush? && item.writer then Stays else IsDone
    case DequeueRemove(_) => IsTaken
    case FlushNext(_, _) => if s.queue == [] then Stays else IsFlushed
    case _ => Stays
  }

  ghost predicate Moved(s: State, s': State, t: Tid, move: ItemMove)
    requires t in s.pcs
  {
    && t in s'.pcs && s'.pcs == s.pcs[t := s'.pcs[t]]
    && match move
       case Stays =>
         && Carries(s'.pcs[t]) == Carries(s.pcs[t]) && (Carries(s.pcs[t]) ==> s'.pcs[t].item == s.pcs[t].item)
         && s'.queue == s.queue && s'.submitted == s.submitted && s'.finished == s.finished
         && s'.enqueued == s.enqueued && s'.dequeued == s.dequeued
       case Enters(id) =>
         && id !in s.submitted && !Carries(s.pcs[t]) && Carries(s'.pcs[t]) && s'.pcs[t].item.id == id
         && s'.queue == s.queue && s'.submitted == s.submitted + {id} && s'.finished == s.finished
         && s'.enqueued == s.enqueued && s'.dequeued == s.dequeued
       case IsQueued =>
         && Carries(s.pcs[t]) && !Carries(s'.pcs[t])
         && s'.queue == s.queue + [s.pcs[t].item] && s'.submitted == s.submitted && s'.finished == s.finished
         && s'.enqueued == s.enqueued + [s.pcs[t].item] && s'.dequeued == s.dequeued
       case IsTaken =>
         && s.queue != [] && !Carries(s.pcs[t]) && Carries(s'.pcs[t]) && s'.pcs[t].item == s.queue[0]
         && s'.queue == s.queue[1..] && s'.submitted == s.submitted && s'.finished == s.finished
         && s'.enqueued == s.enqueued && s'.dequeued == s.dequeued + [s.queue[0]]
       case IsDone =>
         && Carries(s.pcs[t]) && !Carries(s'.pcs[t])
         && s'.queue == s.queue && s'.submitted == s.submitted && s'.finished == s.finished + {s.pcs[t].item.id}
         && s'.enqueued == s.enqueued && s'.dequeued == s.dequeued
       case IsFlushed =>
         && s.queue != [] && Carries(s.pcs[t]) && Carries(s'.pcs[t]) && s'.pcs[t].item == s.pcs[t].item
         && s'.queue == s.queue[1..] && s'.submitted == s.submitted && s'.finished == s.finished + {s.queue[0].id}
         && s'.enqueued == s.enqueued && s'.dequeued == s.dequeued + [s.queue[0]]
  }

  lemma AcquireItem(s: State, t: Tid, choice: Choice)
    requires t in s.pcs && (s.pcs[t].ReadLoad? || s.pcs[t].ReadCas? || s.pcs[t].WriteCas? || s.pcs[t].QueueLock?)
    ensures Moved(s, Step(s, t, choice), t, MoveOf(s, t, choice))
  {
    match s.pcs[t]
    case ReadLoad(_) =>
    case ReadCas(_, _) =>
    case WriteCas(_) =>
    case QueueLock(_) =>
  }

  lemma QueueItem(s: State, t: Tid, choice: Choice)
    requires t in s.pcs && (s.pcs[t].QueuePending? || s.pcs[t].QueueInsert? || s.pcs[t].QueueCheck?
             || s.pcs[t].WorklistAdd? || s.pcs[t].Unlock?)
    ensures Moved(s, Step(s, t, choice), t, MoveOf(s, t, choice))
  {
    match s.pcs[t]
    case QueuePending(_) =>
    case QueueInsert(_) =>
    case QueueCheck =>
    case WorklistAdd =>
    case Unlock =>
  }

  lemma InspectItem(s: State, t: Tid, choice: Choice)
    requires t in s.pcs && (s.pcs[t].WorkerLock? || s.pcs[t].DequeueActive? || s.pcs[t].WorkerGiveUp?)
    ensures Moved(s, Step(s, t, choice), t, MoveOf(s, t, choice))
  {
    match s.pcs[t]
    case WorkerLock =>
    case DequeueActive =>
    case WorkerGiveUp =>
  }

  lemma HeadItem(s: State, t: Tid, choice: Choice)
    requires t in s.pcs && (s.pcs[t].DequeueHead? || s.pcs[t].DequeueLoad?) && s.queue != []
    ensures Moved(s, Step(s, t, choice), t, MoveOf(s, t, choice))
  {
    match s.pcs[t]
    case DequeueHead =>
    case DequeueLoad =>
  }

  lemma AdmitItem(s: State, t: Tid, choice: Choice)
    requires t in s.pcs && (s.pcs[t].DequeueReadCas? || s.pcs[t].DequeueWriteCas?)
    ensures Moved(s, Step(s, t, choice), t, MoveOf(s, t, choice))
  {
    match s.pcs[t]
    case DequeueReadCas(_) => AdmitReader(s, t, choice);
    case DequeueWriteCas =>
  }

  lemma AdmitReader(s: State, t: Tid, choice: Choice)
    requires t in s.pcs && s.pcs[t].DequeueReadCas?
    ensures Moved(s, Step(s, t, choice), t, MoveOf(s, t, choice))
  {
    if s.flags == s.pcs[t].seen {
    } else {
    }
  }

  lemma DequeueItem(s: State, t: Tid, choice: Choice)
    requires t in s.pcs && Dequeueing(s.pcs[t]) && !(s.pcs[t].DequeueReadCas? || s.pcs[t].DequeueWriteCas?)
    requires ReadsHead(s.pcs[t]) ==> s.queue != []
    ensures Moved(s, Step(s, t, choice), t, MoveOf(s, t, choice))
  {
    match s.pcs[t]
    case WorkerLock => InspectItem(s, t, choice);
    case DequeueActive => InspectItem(s, t, choice);
    case DequeueHead => HeadItem(s, t, choice);
    case DequeueLoad => HeadItem(s, t, choice);
    case WorkerGiveUp => InspectItem(s, t, choice);
    case DequeueRemove(_) =>
    case DequeueClear(_) =>
    case DequeueUnlock(_) =>
  }

  lemma ApplyItem(s: State, t: Tid, choice: Choice)
    requires t in s.pcs && (s.pcs[t].Idle? || s.pcs[t].Applying? || s.pcs[t].RecheckPending?)
    ensures Moved(s, Step(s, t, choice), t, MoveOf(s, t, choice))
  {
    match s.pcs[t]
    case Idle =>
    case Applying(_, _) =>
    case RecheckPending =>
  }

  lemma RecheckItem(s: State, t: Tid, choice: Choice)
    requires t in s.pcs && (s.pcs[t].RecheckLock? || s.pcs[t].RecheckActive? || s.pcs[t].RecheckHead?)
    ensures Moved(s, Step(s, t, choice), t, MoveOf(s, t, choice))
  {
    match s.pcs[t]
    case RecheckLock =>
    case RecheckActive =>
    case RecheckHead =>
  }

  lemma FlushItem(s: State, t: Tid, choice: Choice)
    requires t in s.pcs && (s.pcs[t].FlushLock? || s.pcs[t].FlushNext? || s.pcs[t].FlushClear? || s.pcs[t].FlushUnlock?)
    ensures Moved(s, Step(s, t, choice), t, MoveOf(s, t, choice))
  {
    match s.pcs[t]
    case FlushLock(_, _) =>
    case FlushNext(_, _) =>
    case FlushClear(_, _) =>
    case FlushUnlock(_, _, _) =>
  }

  lemma StepItem(s: State, t: Tid, choice: Choice)
    requires t in s.pcs && KnownAt(s.queue, s.pcs[t])
    ensures Moved(s, Step(s, t, choice), t, MoveOf(s, t, choice))
  {
    var pc := s.pcs[t];
    if Acquiring(pc) || pc.QueueLock? {
      AcquireItem(s, t, choice);
    } else if Queueing(pc) {
      QueueItem(s, t, choice);
    } else if pc.DequeueReadCas? || pc.DequeueWriteCas? {
      AdmitItem(s, t, choice);
    } else if Dequeueing(pc) {
      DequeueItem(s, t, choice);
    } else if Flushing(pc) {
      FlushItem(s, t, choice);
    } else if pc.Idle? || pc.Applying? || pc.RecheckPending? {
      ApplyItem(s, t, choice);
    } else {
      RecheckItem(s, t, choice);
    }
  }

  lemma FifoStep(s: State, s': State, t: Tid, move: ItemMove)
    requires t in s.pcs && Moved(s, s', t, move) && FifoInv(s)
    ensures FifoInv(s')
  {
    assert s.queue != [] ==> s.queue == [s.queue[0]] + s.queue[1..];
  }

  lemma HeadLeaves(s: State, s': State, t: Tid, move: ItemMove)
    requires t in s.pcs && Moved(s, s', t, move) && ItemInv(s) && (move.IsTaken? || move.IsFlushed?)
    ensures ItemInv(s')
  {
    assert forall i :: 0 <= i < |s'.queue| ==> s'.queue[i] == s.queue[i + 1];
    if move.IsTaken? {
    } else {
    }
  }

  lemma ItemStep(s: State, s': State, t: Tid, move: ItemMove)
    requires t in s.pcs && Moved(s, s', t, move) && ItemInv(s)
    ensures ItemInv(s')
  {
    match move
    case Stays =>
    case Enters(id) =>
    case IsQueued =>
    case IsTaken => HeadLeaves(s, s', t, move);
    case IsDone =>
    case IsFlushed => HeadLeaves(s, s', t, move);
  }

  lemma LostStep(s: State, s': State, t: Tid, move: ItemMove, id: nat)
    requires t in s.pcs && Moved(s, s', t, move) && NothingLost(s) && id in s'.submitted
    ensures || id in s'.finished
            || (exists t :: t in s'.pcs && Carries(s'.pcs[t]) && s'.pcs[t].item.id == id)
            || (exists i :: 0 <= i < |s'.queue| && s'.queue[i].id == id)
  {
    if id in s.submitted && id !in s.finished {
      if u :| u in s.pcs && Carries(s.pcs[u]) && s.pcs[u].item.id == id {
        if u != t {
          assert s'.pcs[u] == s.pcs[u];
        } else if move.IsQueued? {
          assert s'.queue[|s.queue|].id == id;
        }
      } else {
        var i :| 0 <= i < |s.queue| && s.queue[i].id == id;
        if move.IsTaken? || move.IsFlushed? {
          assert i > 0 ==> s'.queue[i - 1] == s.queue[i];
        } else {
          assert s'.queue[i] == s.queue[i];
        }
      }
    }
  }

  ghost predicate FullInv(s: State) { Inv(s) && ItemInv(s) && FifoInv(s) && NothingLost(s) }

  // ---- runs

  /** The state after a schedule of steps. */
  function RunOf(s: State, schedule: seq<(Tid, Choice)>): State
    decreases |schedule|
  {
    if schedule == [] then s
    else Step(RunOf(s, schedule[..|schedule| - 1]), schedule[|schedule| - 1].0, schedule[|schedule| - 1].1)
  }

  lemma StepKeepsAll(s: State, t: Tid, choice: Choice)
    requires FullInv(s)
    ensures FullInv(Step(s, t, choice)) && Step(s, t, choice).pcs.Keys == s.pcs.Keys
  {
    StepKeepsInv(s, t, choice);
    if t in s.pcs {
      StepItem(s, t, choice);
      var s', move := Step(s, t, choice), MoveOf(s, t, choice);
      ItemStep(s, s', t, move);
      FifoStep(s, s', t, move);
      LosesNothing(s, s', t, move);
    }
  }

  lemma LosesNothing(s: State, s': State, t: Tid, move: ItemMove)
    requires t in s.pcs && Moved(s, s', t, move) && NothingLost(s)
    ensures NothingLost(s')
  {
    forall id | id in s'.submitted
      ensures || id in s'.finished
              || (exists t :: t in s'.pcs && Carries(s'.pcs[t]) && s'.pcs[t].item.id == id)
              || (exists i :: 0 <= i < |s'.queue| && s'.queue[i].id == id)
    {
      LostStep(s, s', t, move, id);
    }
  }

  /** Every reachable state, under every schedule of any number of threads, satisfies the invariant. */
  lemma {:induction false} Reachable(s: State, schedule: seq<(Tid, Choice)>)
    requires Init(s)
    ensures FullInv(RunOf(s, schedule)) && RunOf(s, schedule).pcs.Keys == s.pcs.Keys
    decreases |schedule|
  {
    if schedule == [] {
      InitInv(s);
    } else {
      var n := |schedule| - 1;
      Reachable(s, schedule[..n]);
      StepKeepsAll(RunOf(s, schedule[..n]), schedule[n].0, schedule[n].1);
    }
  }

  /** An active writer excludes every reader and every other writer. */
  lemma WriterExcludes(s: State, schedule: seq<(Tid, Choice)>, t: Tid, u: Tid)
    requires Init(s) && t in RunOf(s, schedule).pcs && u in RunOf(s, schedule).pcs && t != u
    requires Writes(RunOf(s, schedule).pcs[t])
    ensures !Reads(RunOf(s, schedule).pcs[u]) && !Writes(RunOf(s, schedule).pcs[u])
  {
    Reachable(s, schedule);
    var pcs := RunOf(s, schedule).pcs;
    CountZero(pcs, Writes);
    CountZero(pcs, Reads);
    if Writes(pcs[u]) {
      CountOne(pcs, Writes, t, u);
    }
  }

  /** Whenever the mutex is free, OP_PENDING is set exactly when the queue is not empty. */
  lemma PendingIffQueued(s: State, schedule: seq<(Tid, Choice)>)
    requires Init(s) && RunOf(s, schedule).mutex.None?
    ensures RunOf(s, schedule).flags.pending <==> RunOf(s, schedule).queue != []
  {
    Reachable(s, schedule);
  }

  /** A non-empty queue without NGQ2_WORKQ has a holder, or a thread between its release and its recheck. */
  lemma WorkIsWatched(s: State, schedule: seq<(Tid, Choice)>) returns (t: Tid)
    requires Init(s) && RunOf(s, schedule).queue != [] && !RunOf(s, schedule).workq
    ensures t in RunOf(s, schedule).pcs && WillLook(RunOf(s, schedule).pcs[t])
  {
    Reachable(s, schedule);
    t :| t in RunOf(s, schedule).pcs && WillLook(RunOf(s, schedule).pcs[t]);
  }

  /** NGQ2_WORKQ is honest: the node is on the worklist once, or exactly one thread works for it. */
  lemma WorkqMeansWork(s: State, schedule: seq<(Tid, Choice)>)
    requires Init(s)
    ensures var r := RunOf(s, schedule);
            r.worklist + Count(r.pcs, Working) == if r.workq then 1 else 0
  {
    Reachable(s, schedule);
  }

  /** When everybody has gone idle and the worklist is empty, every item handed in has been finished. */
  lemma QuiescentMeansDone(s: State, schedule: seq<(Tid, Choice)>)
    requires Init(s) && RunOf(s, schedule).worklist == 0
    requires forall t :: t in RunOf(s, schedule).pcs ==> RunOf(s, schedule).pcs[t].Idle?
    ensures var r := RunOf(s, schedule);
            r.submitted == r.finished && r.queue == [] && r.flags == Flags(false, false, 0) && r.enqueued == r.dequeued
  {
    Reachable(s, schedule);
    var r := RunOf(s, schedule);
    CountZero(r.pcs, Reads);
    CountZero(r.pcs, Writes);
    CountZero(r.pcs, Working);
    assert r.queue == [];
    assert r.submitted <= r.finished;
  }

  /** An item is finished at most once: the thread or the flush that finishes it finds it unfinished. */
  lemma FinishedOnce(s: State, schedule: seq<(Tid, Choice)>, t: Tid, choice: Choice)
    requires Init(s) && t in RunOf(s, schedule).pcs
    ensures var r := RunOf(s, schedule);
            && (MoveOf(r, t, choice).IsDone? ==> r.pcs[t].Applying? && r.pcs[t].item.id !in r.finished)
            && (MoveOf(r, t, choice).IsFlushed? ==> r.queue != [] && r.queue[0].id !in r.finished)
  {
    Reachable(s, schedule);
  }

  /** The step lets the item its caller came with in directly. */
  predicate LetsIn(s: State, s': State, t: Tid) {
    t in s.pcs && t in s'.pcs && Acquiring(s.pcs[t]) && s'.pcs[t].Applying?
  }

  lemma LetsInWhenEmpty(s: State, t: Tid, choice: Choice)
    requires Inv(s) && LetsIn(s, Step(s, t, choice), t)
    ensures !s.flags.pending && s.queue == []
  {
    match s.pcs[t]
    case ReadLoad(_) =>
    case ReadCas(_, _) =>
    case WriteCas(_) =>
  }

  /**
   Nobody overtakes: an item is let in directly only when everything ever queued has left the queue, and what
   leaves the queue is what has been in it longest.
   */
  lemma NobodyOvertakes(s: State, schedule: seq<(Tid, Choice)>, t: Tid, choice: Choice)
    requires Init(s)
    ensures var r := RunOf(s, schedule);
            && (LetsIn(r, Step(r, t, choice), t) ==> r.queue == [] && r.enqueued == r.dequeued)
            && (t in r.pcs && r.pcs[t].DequeueRemove? ==>
                  && r.queue != [] && |r.dequeued| < |r.enqueued| && r.queue[0] == r.enqueued[|r.dequeued|]
                  && Step(r, t, choice).pcs[t] == DequeueClear(r.queue[0]))
  {
    Reachable(s, schedule);
    var r := RunOf(s, schedule);
    if LetsIn(r, Step(r, t, choice), t) {
      LetsInWhenEmpty(r, t, choice);
    }
    if t in r.pcs && r.pcs[t].DequeueRemove? {
      OldestLeaves(r, t, choice);
    }
  }

  lemma OldestLeaves(s: State, t: Tid, choice: Choice)
    requires FullInv(s) && t in s.pcs && s.pcs[t].DequeueRemove?
    ensures s.queue != [] && |s.dequeued| < |s.enqueued| && s.queue[0] == s.enqueued[|s.dequeued|]
    ensures t in Step(s, t, choice).pcs && Step(s, t, choice).pcs[t] == DequeueClear(s.queue[0])
  {
    assert KnownAt(s.queue, s.pcs[t]);
  }

  // ---- who is let in

  ghost predicate NobodyReads(s: State) { forall u :: u in s.pcs ==> !Reads(s.pcs[u]) }
  ghost predicate NobodyWrites(s: State) { forall u :: u in s.pcs ==> !Writes(s.pcs[u]) }

  lemma GateIs(s: State)
    requires Inv(s)
    ensures s.flags.writer <==> !NobodyWrites(s)
    ensures s.flags.readers == 0 <==> NobodyReads(s)
  {
    CountZero(s.pcs, Reads);
    CountZero(s.pcs, Writes);
  }

  /** The state after n steps of one thread, while nobody else moves. */
  function Alone(s: State, t: Tid, n: nat): State {
    if n == 0 then s else Step(Alone(s, t, n - 1), t, Leave)
  }

  lemma AloneSteps(s: State, t: Tid, n: nat)
    ensures Alone(s, t, 0) == s && Alone(s, t, n + 1) == Step(Alone(s, t, n), t, Leave)
  {
  }

  /**
   A reader that nobody disturbs gets in exactly if nobody writes and nothing is pending, however many others read;
   otherwise it goes to the queue.
   */
  lemma ReaderEnters(s: State, schedule: seq<(Tid, Choice)>, t: Tid)
    requires Init(s) && t in RunOf(s, schedule).pcs && RunOf(s, schedule).pcs[t].ReadLoad?
    ensures var r := RunOf(s, schedule);
            var item := r.pcs[t].item;
            if NobodyWrites(r) && !r.flags.pending then
              Alone(r, t, 2) == r.(pcs := r.pcs[t := Applying(item, false)],
                                   flags := r.flags.(readers := r.flags.readers + 1))
            else Alone(r, t, 1) == r.(pcs := r.pcs[t := QueueLock(item)])
  {
    Reachable(s, schedule);
    var r := RunOf(s, schedule);
    GateIs(r);
    var one := Step(r, t, Leave);
    AloneSteps(r, t, 0);
    AloneSteps(r, t, 1);
    if NobodyWrites(r) && !r.flags.pending {
      assert one.pcs[t] == ReadCas(r.pcs[t].item, r.flags);
      assert one.pcs[t := Applying(r.pcs[t].item, false)] == r.pcs[t := Applying(r.pcs[t].item, false)];
    }
  }

  /** A writer gets in at once exactly if nobody reads or writes and nothing is pending. */
  lemma WriterEnters(s: State, schedule: seq<(Tid, Choice)>, t: Tid)
    requires Init(s) && t in RunOf(s, schedule).pcs && RunOf(s, schedule).pcs[t].WriteCas?
    ensures var r := RunOf(s, schedule);
            var item := r.pcs[t].item;
            if NobodyWrites(r) && NobodyReads(r) && !r.flags.pending then
              Alone(r, t, 1) == r.(pcs := r.pcs[t := Applying(item, false)], flags := r.flags.(writer := true))
            else Alone(r, t, 1) == r.(pcs := r.pcs[t := QueueLock(item)])
  {
    Reachable(s, schedule);
    var r := RunOf(s, schedule);
    GateIs(r);
    AloneSteps(r, t, 0);
  }

  /** Whether `NEXT_QUEUED_ITEM_CAN_PROCEED` holds, in terms of the threads. */
  lemma HeadProceeds(s: State, schedule: seq<(Tid, Choice)>)
    requires Init(s)
    ensures var r := RunOf(s, schedule);
            HeadCanProceed(r.flags, r.queue) <==>
            r.queue != [] && NobodyWrites(r) && (r.queue[0].writer ==> NobodyReads(r))
  {
    Reachable(s, schedule);
    GateIs(RunOf(s, schedule));
  }

  /** A worker at the head of the queue takes it exactly if it can proceed, and else gives up. */
  lemma WorkerTakesHead(s: State, schedule: seq<(Tid, Choice)>, t: Tid)
    requires Init(s) && t in RunOf(s, schedule).pcs && RunOf(s, schedule).pcs[t].DequeueHead?
    ensures var r := RunOf(s, schedule);
            && r.queue != []
            && var head := r.queue[0];
               if NobodyWrites(r) && (head.writer ==> NobodyReads(r)) then
                 var after := Alone(r, t, if head.writer then 3 else 4);
                 && t in after.pcs && after.pcs[t] == DequeueClear(head) && after.queue == r.queue[1..]
                 && after.flags == if head.writer then r.flags.(writer := true)
                                   else r.flags.(readers := r.flags.readers + 1)
               else
                 var after := Alone(r, t, 2);
                 t in after.pcs && after.pcs[t] == WorkerGiveUp && after.queue == r.queue && after.flags == r.flags
  {
    Reachable(s, schedule);
    var r := RunOf(s, schedule);
    GateIs(r);
    HeadIsPending(r, t);
    if r.queue[0].writer {
      TakesWriter(r, t);
    } else {
      TakesReader(r, t);
    }
  }

  lemma HeadIsPending(s: State, t: Tid)
    requires Inv(s) && t in s.pcs && s.pcs[t].DequeueHead?
    ensures s.queue != [] && s.flags.pending && s.flags.readers >= 0
  {
    assert KnownAt(s.queue, s.pcs[t]) && s.mutex == Some(t);
  }

  lemma TakesWriter(s: State, t: Tid)
    requires t in s.pcs && s.pcs[t].DequeueHead? && s.queue != [] && s.queue[0].writer && s.flags.pending
    ensures if !s.flags.writer && s.flags.readers == 0 then
              var after := Alone(s, t, 3);
              && t in after.pcs && after.pcs[t] == DequeueClear(s.queue[0]) && after.queue == s.queue[1..]
              && after.flags == s.flags.(writer := true)
            else
              var after := Alone(s, t, 2);
              t in after.pcs && after.pcs[t] == WorkerGiveUp && after.queue == s.queue && after.flags == s.flags
  {
    Looks(s, t);
    var one := Goto(s, t, DequeueWriteCas);
    var two := Step(one, t, Leave);
    AloneSteps(s, t, 0);
    AloneSteps(s, t, 1);
    AloneSteps(s, t, 2);
  }

  lemma TakesReader(s: State, t: Tid)
    requires t in s.pcs && s.pcs[t].DequeueHead? && s.queue != [] && !s.queue[0].writer
    ensures if !s.flags.writer then
              var after := Alone(s, t, 4);
              && t in after.pcs && after.pcs[t] == DequeueClear(s.queue[0]) && after.queue == s.queue[1..]
              && after.flags == s.flags.(readers := s.flags.readers + 1)
            else
              var after := Alone(s, t, 2);
              t in after.pcs && after.pcs[t] == WorkerGiveUp && after.queue == s.queue && after.flags == s.flags
  {
    Looks(s, t);
    var one := Goto(s, t, DequeueLoad);
    Loads(one, t);
    var two := Step(one, t, Leave);
    AloneSteps(s, t, 0);
    AloneSteps(s, t, 1);
    if !s.flags.writer {
      TakesSeen(two, t);
      AloneSteps(s, t, 2);
      AloneSteps(s, t, 3);
    }
  }

  lemma Looks(s: State, t: Tid)
    requires t in s.pcs && s.pcs[t].DequeueHead? && s.queue != []
    ensures Step(s, t, Leave) == Goto(s, t, if s.queue[0].writer then DequeueWriteCas else DequeueLoad)
  {
  }

  lemma Loads(s: State, t: Tid)
    requires t in s.pcs && s.pcs[t].DequeueLoad?
    ensures Step(s, t, Leave) == Goto(s, t, if s.flags.writer then WorkerGiveUp else DequeueReadCas(s.flags))
  {
  }

  lemma TakesSeen(s: State, t: Tid)
    requires t in s.pcs && s.pcs[t] == DequeueReadCas(s.flags) && s.queue != []
    ensures var after := Step(Step(s, t, Leave), t, Leave);
            && t in after.pcs && after.pcs[t] == DequeueClear(s.queue[0]) && after.queue == s.queue[1..]
            && after.flags == s.flags.(readers := s.flags.readers + 1)
  {
    var one := Step(s, t, Leave);
    assert one.pcs[t] == DequeueRemove(false) && one.queue == s.queue && one.flags == AddReader(s.flags);
  }

  // ---- the flag word

  /** `q_flags` of a node with r active readers: bit 0 is WRITER_ACTIVE, bit 1 OP_PENDING, the rest counts. */
  function Word(f: Flags): int { 4 * f.readers + 2 * Bit(f.pending) + Bit(f.writer) }

  predicate WriterBit(w: int) { w % 2 == 1 }
  predicate PendingBit(w: int) { w / 2 % 2 == 1 }

  /**
   The mask tests and atomic operations of the source on the word are those of `Flags`: a
   compare-and-set succeeds exactly on equal flags, the tests of WRITER_ACTIVE, OP_PENDING, NGQ_RMASK
   and READER_MASK, setting and clearing one bit, and adding or subtracting READER_INCREMENT.
   */
  lemma WordLemmas(f: Flags, g: Flags)
    requires f.readers >= 0 && g.readers >= 0
    ensures (Word(f) == Word(g)) == (f == g)
    ensures WriterBit(Word(f)) == f.writer && PendingBit(Word(f)) == f.pending && Word(f) / 4 == f.readers
    ensures (Word(f) % 4 == 0) == (!f.writer && !f.pending)
    ensures !f.pending ==> Word(f) + 2 == Word(f.(pending := true))
    ensures !f.writer ==> Word(f) + 1 == Word(f.(writer := true))
    ensures Word(f) + 4 == Word(AddReader(f)) && Word(f) - 4 == Word(LeaveGate(f, false))
  {
    if Word(f) == Word(g) {
      assert f.readers == Word(f) / 4 == g.readers;
    }
  }
}
