# F-Stack library: a model and its proofs

F-Stack runs the FreeBSD network stack in user space on top of DPDK. This project models the algorithms of its
`lib/` directory that carry state of their own, and proves what they are relied on for. It is written in Dafny;
`dafny verify dfyconfig.toml` checks all of it.

| file | what it is about |
|---|---|
| `TimerSpec.dfy`, `Callwheel.dfy` | callouts: a plain map from callout to expiry tick, and the hashed timing wheel that refines it while handlers arm and stop callouts during the bucket walk |
| `NodeQueue.dfy`, `NodeProgress.dfy` | the netgraph node queue: readers, one writer, queue, flag word, worklist, as interleaved atomic steps of any number of threads; and that it never gets stuck |
| `GraphWorld.dfy`, `GraphMessages.dfy`, `GraphNames.dfy`, `NodeGraph.dfy` | the netgraph graph of nodes and hooks: every reference count is the number of referents, whatever types veto and whichever allocations fail; what each message does; and when hook names stay unique |
| `NodeTimer.dfy` | items owned by timers: each consumed exactly once |
| `Toeplitz.dfy` | the receive side scaling hash, its linearity and its symmetry |
| `Probing.dfy`, `PortWindow.dfy`, `RssTable.dfy` | the two-level table of ports and the port ranges over it |
| `RssPlacement.dfy` | redirection table, queues of the cores, and the reverse search for a port |
| `TxPath.dfy` | cutting packets into segments, collecting 32 of them, sending and dropping |
| `IniParser.dfy` | the configuration file parser |
| `Uio.dfy` | scatter/gather copying |
| `TxRing.dfy` | the shadow of the transmit ring |
| `SysInit.dfy` | the initialisation items: sort, run, start over |
| `TickConversion.dfy` | `tvtohz` |
| `Arithmetic.dfy`, `Basics.dfy`, `Options.dfy` | division, powers of two, masks, unused numbers; lists without repetition, error numbers; missing values |

State that the C code updates in place is a class whose methods follow the code's loops and branches. What lives
in C memory (netgraph nodes and hooks, packet segments, source buffers) is a map from addresses to contents from
which freeing removes the object, so that each access is also a proof that the object has not been freed; only
the two length fields of a packet chain are kept in the chain itself. What code outside the model answers is a
parameter, and the contracts say what follows from every answer: allocations, the methods of netgraph types, callout
handlers, the device that takes a prefix of a burst, configuration handlers, random numbers.

Three properties one would expect turn out to be false of the code, and the model says exactly when they hold:

* `ng_bypass` keeps the reference counts right if and only if both hooks still have a live peer
  (`GraphWorld.BypassExact`; `GraphWorld.BypassMiscounts` is a graph on which it does not).
* Hook names stay unique on every node if and only if no node is connected to itself with one name for both ends,
  because a hook that is being made does not count in the check (`GraphNames.DistinctThroughout`,
  `GraphNames.NamesCanClash`).
* `ff_rss_tbl_set_portrange` treats an entry right if and only if `PortWindow.Fair` holds of it: above the highest
  port it relies on the old `last_idx`, for a single port it takes the next port there is, and it does not notice
  that all ports lie above the range (`PortWindow.WindowExact`, `PortWindow.UnfairRanges`).

Where comment and code differ the code was followed: the header of the INI parser says that parsing does not stop
at the first error, but `INI_STOP_ON_FIRST_ERROR` is set.

## Model

| member | source | states |
|---|---|---|
| `TimerSpec.ReachableIsFresh` | lib/ff_kern_timeout.c:583-635 | in every reachable state nothing is armed for a tick already handled, and handled ticks lie in the past |
| `TimerSpec.FiresExactlyOnce` | lib/ff_kern_timeout.c:408-635 | a callout armed with some delay and then left alone fires exactly once before its tick has been handled; that is the tick of the clock then plus the delay, at least one, and it fires while that very tick is handled, with the function and argument it was armed with |
| `TimerSpec.FiredWasArmed` | lib/ff_kern_timeout.c:408-635 | every firing goes back to one arming whose clock and delay add up to that tick, with that call, and with no stop, re-arming or firing of the callout in between |
| `TimerSpec.EveryTickHandled` | lib/ff_kern_timeout.c:329-357 | handled ticks form an unbroken range |
| `TimerSpec.NeverSkipped` | lib/ff_kern_timeout.c:329-635 | once the clock has been handled past the tick at which a callout was armed plus its delay, the callout was re-armed, stopped, or fired with its own call at that tick |
| `TimerSpec.HandlerRunsToCompletion` | lib/ff_kern_timeout.c:408-565 | between a firing and its return the handler performs exactly its own steps, in order |
| `Callwheel.CursorAfterRemoval` | lib/ff_kern_timeout.c:778-789 | taking any element off a bucket, the cursor's included, puts nothing new before the cursor |
| `Callwheel.CleanAfterRemoval` | lib/ff_kern_timeout.c:1035-1043 | what lies before the cursor stays free of due callouts when an element is removed |
| `Callwheel.CleanNext` | lib/ff_kern_timeout.c:597-626 | moving past a callout that is not due keeps everything before the cursor not due, and moves one place on |
| `Callwheel.PlacedInsert` | lib/ff_kern_timeout.c:376-396 | inserting keeps every pending callout in exactly one bucket, the one of its own tick |
| `Callwheel.PlacedRemove` | lib/ff_kern_timeout.c:1035-1043 | so does removing |
| `Callwheel.Wheel.constructor` | lib/ff_kern_timeout.c:293-321 | an empty wheel refines the empty map, and its record begins with that |
| `Callwheel.Wheel.Unlink` | lib/ff_kern_timeout.c:778-789 | a pending callout leaves its list and its pending and active flags, and the shared cursor stays sound |
| `Callwheel.Wheel.Add` | lib/ff_kern_timeout.c:376-396 | the callout is pending at the head of the bucket of its tick, and an insertion into the walked bucket, and only that, moves the cursor back to it |
| `Callwheel.Wheel.Rearm` | lib/ff_kern_timeout.c:718-800 | answers whether the callout was pending and leaves it pending for the clock plus the delay, at least one tick |
| `Callwheel.Wheel.Reset` | lib/ff_kern_timeout.c:718-800 | armed for the clock plus the delay, at least one tick, with this call and no other callout touched, returning whether it was armed before; one step of the plain map |
| `Callwheel.Wheel.Disarm` | lib/ff_kern_timeout.c:825-1047 | the three return values of the stop, and that only this callout is disarmed |
| `Callwheel.Wheel.Stop` | lib/ff_kern_timeout.c:825-1047 | one step of the plain map: disarmed, returning 1 exactly if it was armed for callouts that are not direct |
| `Callwheel.Wheel.AdvanceClock` | lib/ff_kern_timeout.c:1242-1246 | the clock of the plain map moves, by one tick or by several at once |
| `Callwheel.Wheel.Perform` | lib/ff_kern_timeout.c:408-565 | whatever a handler does to the wheel, it is sound afterwards and no further callout is due at the tick being handled |
| `Callwheel.Wheel.Take` | lib/ff_kern_timeout.c:612-616 | the due callout leaves its bucket and the cursor stands where the walk goes on |
| `Callwheel.Wheel.Launch` | lib/ff_kern_timeout.c:612-621 | exactly this callout fires, at its tick |
| `Callwheel.Wheel.Finish` | lib/ff_kern_timeout.c:514-517 | the slot is free again and nothing else changed |
| `Callwheel.Wheel.CallCc` | lib/ff_kern_timeout.c:408-565 | the callout fires first, then its handler runs to its end, and the set of due callouts has shrunk by it |
| `Callwheel.Wheel.Expire` | lib/ff_kern_timeout.c:612-624 | after the handler the walk resumes at a place before which nothing is due, with fewer due callouts |
| `Callwheel.Wheel.WalkBucket` | lib/ff_kern_timeout.c:597-626 | the walk ends and leaves no due callout behind, whatever handlers do to the list |
| `Callwheel.Wheel.Softclock` | lib/ff_kern_timeout.c:583-635 | every tick up to the clock has been handled |
| `Callwheel.Wheel.CalloutTick` | lib/ff_kern_timeout.c:329-357 | skipping empty buckets skips no callout: afterwards everything armed is due at the clock or later |
| `Callwheel.Wheel.Hardclock` | lib/ff_kern_timeout.c:1242-1253 | the clock has moved on by a tick, and everything still armed is due later than all handled ticks |
| `Callwheel.Wheel.Serve` | lib/ff_kern_timeout.c:329-1047 | after any list of resets, stops, clock advances and ticks from outside, and whatever the handlers do meanwhile: each call is in the record, nothing recorded before is lost, and every arming whose tick has been handled came to its end by a stop, a re-arming or its own call at its own tick |
| `Callwheel.WheelNeverSkips` | lib/ff_kern_timeout.c:329-635 | the promise of `NeverSkipped` holds of the wheel between calls, whatever was called before |
| `Callwheel.WheelNeverInvents` | lib/ff_kern_timeout.c:408-635 | and nothing is called on the wheel that was not armed for exactly that tick and still armed |
| `Callwheel.ClockWrapsSafely` | lib/ff_kern_timeout.c:323-348 | with 32-bit ticks the comparisons and the bucket choice agree with unbounded ticks while times are less than 2^31 apart |
| `Callwheel.BucketIsMask` | lib/ff_kern_timeout.c:323-327 | masking a tick with the size of the wheel less one gives its bucket |
| `NodeQueue.StepMoves` | lib/ff_ng_base.c:1951-2094 | what any step may do to mutex, gate and worklist |
| `NodeQueue.StepKeeps` | lib/ff_ng_base.c:1951-2094 | what any step may do to queue and OP_PENDING, and that the head of the queue is there when the thread looks at it |
| `NodeQueue.StepKeepsSafety` | lib/ff_ng_base.c:1951-2205 | every step keeps mutual exclusion, the reader count, OP_PENDING and the worklist flag right |
| `NodeQueue.SomebodyElseLooks` | lib/ff_ng_base.c:2020-2044 | whoever makes a thread turn away from the queue will itself look at the queue when it leaves |
| `NodeQueue.QueueFillsUnderWatch` | lib/ff_ng_base.c:2020-2044 | the queue becomes non-empty only in the hands of a thread that goes on to look at it |
| `NodeQueue.StepKeepsLook` | lib/ff_ng_base.c:2309-2346 | no step loses queued work |
| `NodeQueue.StepKeepsInv` | lib/ff_ng_base.c:1951-2205 | the whole invariant is kept by every step of every thread |
| `NodeQueue.StepItem` | lib/ff_ng_base.c:1951-2205 | each step moves at most one item, from one place to another |
| `NodeQueue.Reachable` | lib/ff_ng_base.c:1951-2205 | every state reachable under any schedule of any number of threads satisfies the invariant |
| `NodeQueue.WriterExcludes` | lib/ff_ng_base.c:2048-2094 | an active writer excludes all readers and other writers |
| `NodeQueue.PendingIffQueued` | lib/ff_ng_base.c:1951-2044 | with the mutex free, OP_PENDING is set exactly when the queue is not empty |
| `NodeQueue.WorkIsWatched` | lib/ff_ng_base.c:2309-2346 | a non-empty queue without the WORKQ flag has a holder or a thread between its release and its recheck |
| `NodeQueue.WorkqMeansWork` | lib/ff_ng_base.c:3427-3504 | the WORKQ flag means once on the worklist, or exactly one thread working for the node |
| `NodeQueue.QuiescentMeansDone` | lib/ff_ng_base.c:3427-3504 | when all threads are idle and the worklist is empty, every item handed in has been finished |
| `NodeQueue.FinishedOnce` | lib/ff_ng_base.c:2231-2370 | an item is finished at most once |
| `NodeQueue.NobodyOvertakes` | lib/ff_ng_base.c:1951-2094 | under every schedule an item is let in directly only when everything ever queued has left the queue, and what leaves the queue is what has been in it longest |
| `NodeQueue.ReaderEnters` | lib/ff_ng_base.c:2048-2069 | in every reachable state a reader that nobody disturbs is let in exactly if nobody writes and nothing is pending, however many others read; otherwise it goes to the queue |
| `NodeQueue.WriterEnters` | lib/ff_ng_base.c:2073-2094 | a writer is let in exactly if nobody reads or writes and nothing is pending; otherwise it goes to the queue |
| `NodeQueue.HeadProceeds` | lib/ff_ng_base.c:1926-1936 | the test whether the head of the queue can proceed, in terms of who is inside |
| `NodeQueue.WorkerTakesHead` | lib/ff_ng_base.c:1951-2011 | a worker that nobody disturbs takes the head of the queue exactly if nobody writes and, for a writer, nobody reads; otherwise it gives up and changes nothing |
| `NodeQueue.WordLemmas` | lib/ff_ng_base.c:1907-1936 | the mask tests, compare-and-set and additions on the flag word are those of the flags it encodes |
| `NodeProgress.StepLightens` | lib/ff_ng_base.c:1951-2205 | every step of a thread that does not wait for the mutex leaves less to do, a failed compare-and-set being repeated only once unless somebody interferes |
| `NodeProgress.SomebodyCanMove` | lib/ff_ng_base.c:1951-2205 | as long as a thread is busy or the worklist is not empty, some thread does not have to wait |
| `NodeProgress.EverythingCanFinish` | lib/ff_ng_base.c:1951-2370 | from every reachable state the threads can, without any new item, come to a state in which everybody is idle and every item ever handed in is finished |
| `GraphWorld.DropNodeInv` | lib/ff_ng_base.c:799-826 | dropping a held node reference keeps every count equal to its referents, the last one freeing the node |
| `GraphWorld.DropHookInv` | lib/ff_ng_base.c:1052-1063 | the same for a hook, whose last reference gives up its node as well |
| `GraphWorld.SeverInv` | lib/ff_ng_base.c:1185-1192 | parting two peers keeps all counts |
| `GraphWorld.JoinInv` | lib/ff_ng_base.c:1500-1510 | joining two hooks keeps all counts |
| `GraphWorld.DelistInv` | lib/ff_ng_base.c:1217-1235 | taking a hook off its node's list keeps all counts and `nd_numhooks` |
| `GraphWorld.EnlistInv` | lib/ff_ng_base.c:1114-1116 | putting it there does too |
| `GraphWorld.AttachInv` | lib/ff_ng_base.c:1091-1095 | pointing a hook to a node keeps all counts |
| `GraphWorld.VetoRestores` | lib/ff_ng_base.c:1100-1109 | a hook refused by its node's type leaves no trace |
| `GraphWorld.BypassedIs` | lib/ff_ng_base.c:1243-1268 | what the pointer assignments of the bypass amount to for every hook |
| `GraphWorld.BypassKeeps` | lib/ff_ng_base.c:1243-1268 | with live peers the bypass keeps all counts |
| `GraphWorld.BypassExact` | lib/ff_ng_base.c:1243-1268 | the bypass keeps all counts if and only if both peers are live |
| `GraphWorld.BypassMiscounts` | lib/ff_ng_base.c:1243-1268 | a graph in order on which it does not |
| `GraphWorld.NothingLeaks` | lib/ff_ng_base.c:719-1236 | with nothing held between operations, the nodes there are have been created and not shut down and every hook is on the list of one of them; without nodes there are no hooks |
| `GraphMessages.WhenTaken` | lib/ff_ng_base.c:1484-1527 | between nodes searched the ordinary way EEXIST means that a valid hook of one of them has the name, or that a type answered so |
| `GraphNames.EffectOnNames` | lib/ff_ng_base.c:1390-1527 | if the names of valid hooks were distinct on every node that is searched the ordinary way, a message leaves them so exactly if it does not connect a node to itself with one name for both ends |
| `GraphNames.DistinctThroughout` | lib/ff_ng_base.c:1390-1527 | throughout a run of messages names are distinct if and only if none of them is such a connection |
| `GraphNames.NamesCanClash` | lib/ff_ng_base.c:1390-1527 | one node without hooks, and the message after which it has two hooks of one name |
| `NodeGraph.Graph.NodeUnref` | lib/ff_ng_base.c:799-826 | one held reference less, the graph otherwise unchanged |
| `NodeGraph.Graph.HookUnref` | lib/ff_ng_base.c:1052-1063 | one held reference less, the graph otherwise unchanged |
| `NodeGraph.Graph.RmhookSelf` | lib/ff_ng_base.c:1626-1643 | the hook leaves its node exactly if an item can be had and the node takes messages; otherwise nothing changed; no reference is kept |
| `NodeGraph.Graph.Divorce` | lib/ff_ng_base.c:1185-1206 | the hook and its peer have parted, and the peer has left its node exactly if it was on one that takes messages and an item could be had |
| `NodeGraph.Graph.LeaveNode` | lib/ff_ng_base.c:1210-1235 | the hook has left its node |
| `NodeGraph.Graph.DestroyHook` | lib/ff_ng_base.c:1164-1236 | hook and peer have parted, the hook has left its node, and so has its peer exactly if it could be told; nothing else changed, and destroying it again changes nothing |
| `NodeGraph.Graph.Destroy` | lib/ff_ng_base.c:1164-1236 | the same between operations, for every hook there is |
| `NodeGraph.Graph.Evict` | lib/ff_ng_base.c:747-749 | the node has no hooks left, they and their peers have parted, exactly those peers that could be told have left their nodes, and no other hook changed |
| `NodeGraph.Graph.RmNode` | lib/ff_ng_base.c:719-792 | shutdown parts the node's hooks from their peers, takes exactly those peers off their nodes that can be told, touches no other hook and keeps all counts; the node has lost its creation reference exactly if the type does not revive it |
| `NodeGraph.Graph.Settle` | lib/ff_ng_base.c:762-791 | the shutdown method and the last references, with all counts kept |
| `NodeGraph.Graph.FindHook` | lib/ff_ng_base.c:1131-1143 | finds the first valid hook of that name on the list if and only if there is one, unless the type searches itself |
| `NodeGraph.Graph.MakeNode` | lib/ff_ng_base.c:597-698 | a new node with its creation reference if and only if type, constructor and memory are there and the constructor agrees; otherwise which error, and the graph exactly as it was |
| `NodeGraph.Graph.AddNewHook` | lib/ff_ng_base.c:1070-1121 | a new hook on the node's list if and only if the name is free, memory is granted and the type agrees; otherwise which error, and the graph exactly as it was |
| `NodeGraph.Graph.MkPeer` | lib/ff_ng_base.c:1547-1602 | two connected hooks on a new node if and only if the name is free and every answer is yes; otherwise the error of the first refusal and exactly the hooks there were before, except that the first hook may stay, unusable, if no item can be had to remove it or its node takes no messages |
| `NodeGraph.Graph.ConPart3` | lib/ff_ng_base.c:1347-1387 | the first hook is valid, or both are unusable: ENOENT exactly if the hook has no node, else what its type answers |
| `NodeGraph.Graph.ConPart2` | lib/ff_ng_base.c:1390-1477 | the second hook is on its node and both are valid, or they have parted: EEXIST exactly if the name is taken, else the first refusal of the two types or of a node that takes no messages |
| `NodeGraph.Graph.ConNodes` | lib/ff_ng_base.c:1484-1527 | two connected hooks, or the error of the first check that fails, in the order of the code, and exactly the hooks that were there before |
| `NodeGraph.Graph.RmHook` | lib/ff_ng_base.c:2596-2610 | removes a valid hook of that name if and only if there is one, unless the type searches itself; then it has left its node and parted from its peer, no other hook has changed, and all counts are kept |
| `NodeGraph.Graph.Bypass` | lib/ff_ng_base.c:1243-1268 | refused unless both hooks are valid and on one node; otherwise their peers are each other's peers, both are gone from the node, and every other hook and list is as it was |
| `NodeGraph.Graph.Connect` | lib/ff_ng_base.c:2560-2582 | two connected hooks if and only if both names are free, both nodes take messages and every answer is yes; otherwise the error of the first check that fails and exactly the hooks that were there before; all counts kept and all references returned |
| `NodeGraph.Graph.Run` | lib/ff_ng_base.c:719-1602 | over any run of creations, mkpeer, connect, rmhook, shutdown, and bypass between live neighbours, each message has exactly its effect on the graph the one before it left; at every moment between messages all counts are right, hooks without a node have no peer, and a node shutting down has no hooks; no reference is lost or kept |
| `NodeGraph.Live` | lib/ff_ng_base.c:719-1602 | after any such run from the empty graph nothing has leaked, when the last node has been shut down every node and hook has been freed, and names were distinct throughout if and only if no node was connected to itself with one name for both ends |
| `NodeTimer.StepBalanced` | lib/ff_ng_base.c:3803-3870 | every event of the timer service keeps each item with one pending callout or spent exactly once |
| `NodeTimer.AlwaysBalanced` | lib/ff_ng_base.c:3803-3870 | so it is at every moment of every run |
| `NodeTimer.Outstanding` | lib/ff_ng_base.c:3816-3839 | until its callout is touched an item is unspent and `c_arg` points to it |
| `NodeTimer.ConsumedOnce` | lib/ff_ng_base.c:3803-3870 | an item is consumed exactly once: sent if the timer fires, freed if armed again or stopped for the same node, lost exactly if stopped for another node |
| `NodeTimer.ItemsAreNotForgotten` | lib/ff_ng_base.c:3803-3870 | on the timing wheel every item has been consumed once its tick has been handled |
| `NodeTimer.Timers.Callout` | lib/ff_ng_base.c:3816-3839 | frees exactly the item of a timer it cancels, although `c_arg` may point to one already sent |
| `NodeTimer.Timers.Uncallout` | lib/ff_ng_base.c:3843-3870 | frees exactly the item of a timer it stops, if it belongs to that node, and says whether it stopped one |
| `NodeTimer.Timers.Trampoline` | lib/ff_ng_base.c:3803-3813 | sends an item that has not been spent |
| `Toeplitz.FirstWindow` | lib/ff_dpdk_if.c:3050 | the first four key bytes are the window at bit 0 |
| `Toeplitz.BitIs` | lib/ff_dpdk_if.c:3053-3058 | a bit is numbered from the most significant of its byte |
| `Toeplitz.FirstWord` | lib/ff_dpdk_if.c:3050 | as a number the first window is key[0] * 2^24 + key[1] * 2^16 + key[2] * 2^8 + key[3] |
| `Toeplitz.HashIsProduct` | lib/ff_dpdk_if.c:3041-3062 | bit k of the hash is the parity of the set data bits that meet a set key bit k places further on: the product with the Toeplitz matrix of the key |
| `Toeplitz.Hash` | lib/ff_dpdk_if.c:3041-3062 | the shifting loop computes the exclusive or, over set data bits, of the 32-bit key window there, zeros past the key |
| `Toeplitz.HashByte` | lib/ff_dpdk_if.c:3052-3060 | the eight bits of one byte |
| `Toeplitz.Linear` | lib/ff_dpdk_if.c:3041-3062 | the hash is linear in the data |
| `Toeplitz.Symmetric` | lib/ff_dpdk_if.c:3386-3404 | with a key that repeats every 16 bits, swapping addresses and ports does not change the hash |
| `Toeplitz.SymmetricKeyIsSymmetric` | lib/ff_dpdk_if.c:134-142 | so it is for `symmetric_rsskey` of 40 or 52 bytes, for IPv4 and IPv6 |
| `Probing.NothingHidden` | lib/ff_dpdk_if.c:3305-3336 | a walk that ends at an empty cell has missed no key |
| `Probing.Inserted` | lib/ff_dpdk_if.c:3126-3138 | inserting where the walk stopped hides no other key |
| `Probing.Probe` | lib/ff_dpdk_if.c:3126-3170 | the walk finds the key if and only if it is there, else the cell to insert it, else the table is full |
| `Probing.HeldFull` | lib/ff_dpdk_if.c:3140-3144 | the walk comes back to its start exactly when the table holds as many keys as it has cells |
| `PortWindow.MatchingIs` | lib/ff_dpdk_if.c:3187-3197 | the list of ports is strictly ascending |
| `PortWindow.MatchingHas` | lib/ff_dpdk_if.c:3187-3197 | and holds exactly the ports that pass the test |
| `PortWindow.ListedIs` | lib/ff_dpdk_if.c:3198-3207 | the usable list is strictly ascending and shorter than 65536 |
| `PortWindow.ListedHas` | lib/ff_dpdk_if.c:3198-3207 | it holds exactly the matching ports, except port 65535 when all match |
| `PortWindow.Scan` | lib/ff_dpdk_if.c:3182-3209 | the scan with its 16-bit counter leaves exactly that list, and the window over all of it |
| `PortWindow.SetWindow` | lib/ff_dpdk_if.c:3253-3285 | which indices the loop over one entry ends with, and when it is content |
| `PortWindow.WindowExact` | lib/ff_dpdk_if.c:3253-3285 | an entry is accepted exactly if it has ports in the range, and delimits exactly those, if and only if `Fair` holds |
| `PortWindow.FirstRangeIsFair` | lib/ff_dpdk_if.c:3203-3285 | right after the scan, with first below last and the lowest port not above last, that is so |
| `PortWindow.UnfairRanges` | lib/ff_dpdk_if.c:3253-3285 | an entry with ports 10 and 30 that offers a port for 20 alone and for 1 to 5, and only port 10 for 1 to 100 if 1 to 15 was asked before |
| `RssTable.Added` | lib/ff_dpdk_if.c:3126-3216 | filling the cells the walks stopped at represents exactly one triple more |
| `RssTable.Room` | lib/ff_dpdk_if.c:3126-3170 | a free cell means the limits of 16 pairs and 4 addresses are not reached and the triple is new |
| `RssTable.Refused` | lib/ff_dpdk_if.c:3150-3178 | a triple turned away at the second level is a duplicate or over the limit |
| `RssTable.NoSlot` | lib/ff_dpdk_if.c:3140-3150 | a pair turned away at the first level is over the limit |
| `RssTable.Table.Init` | lib/ff_dpdk_if.c:3091-3231 | for any list of configurations a triple is in the table if and only if a configuration of this family has it, none before it does, fewer than 16 distinct remote pairs of the family came before its pair and fewer than 4 distinct local addresses before it under its pair; it has the port of that configuration |
| `RssTable.AcceptedInOrder` | lib/ff_dpdk_if.c:3109-3178 | the same, of the configurations taken one by one |
| `RssTable.Table.AddOne` | lib/ff_dpdk_if.c:3112-3222 | one configuration |
| `RssTable.Table.GetPortrange` | lib/ff_dpdk_if.c:3292-3345 | lookup succeeds exactly for accepted triples, and gives the entry whose list has, in ascending order, exactly the ports for which `ff_rss_check` holds, without 65535 if it holds for all |
| `RssTable.Table.SetPortrange` | lib/ff_dpdk_if.c:3233-3290 | returns 0 exactly if the test at the end of the loop passes for every entry, which for fair entries means that every entry has a port in the range; and if it returns 0, the windows all delimit exactly those ports if and only if all entries were fair |
| `RssTable.FirstRange` | lib/ff_dpdk_if.c:3233-3290 | the first range after building the table is fair to all entries under the two side conditions |
| `RssTable.AllSet` | lib/ff_dpdk_if.c:3233-3290 | when every entry was accepted, all windows are right if and only if all entries were fair, and then all are served |
| `RssTable.NotAllServed` | lib/ff_dpdk_if.c:3278-3285 | an entry the code is not content with fails that test, and if all entries are fair it has no port in the range |
| `RssPlacement.SetRssTable` | lib/ff_dpdk_if.c:831-854 | every entry n the device can ask for is in a group that was filled, and is n modulo the number of queues, if and only if the table fits in one group or fills whole groups; by `PowersAreWhole` that is so for every size the code accepts |
| `RssPlacement.PowersAreWhole` | lib/ff_dpdk_if.c:1070-1074 | a power of two, which the code asserts the size of the table to be, fits in one group or fills whole groups, so the device finds every entry |
| `RssPlacement.QueueOf` | lib/ff_dpdk_if.c:518-527 | the last place of the core in the port's list, or none |
| `RssPlacement.InitLcoreConf` | lib/ff_dpdk_if.c:513-541 | a core polls and sends on exactly the queue that stands for it, its last place in the port's list, on exactly the ports that list it |
| `RssPlacement.ExactlyOneCore` | lib/ff_dpdk_if.c:3371-3407 | exactly one configured core sees the check hold, and it polls the queue that the redirection table has at the hash modulo its size |
| `RssPlacement.PortsArePartitioned` | lib/ff_dpdk_if.c:3187-3207 | the usable port lists of the cores are disjoint and cover all ports, only 65535 being listed nowhere if its core has all of them, as with one queue |
| `RssPlacement.CheckTuple` | lib/ff_dpdk_if.c:3371-3407 | holds with more than one queue exactly if the hash of source address, destination address, source port and destination port, modulo the size of the table and then the number of queues, is this core's queue |
| `RssPlacement.BothDirections` | lib/ff_dpdk_if.c:3371-3407 | with the symmetric key both directions of a connection belong to one queue |
| `RssPlacement.TriesSuffice` | lib/ff_dpdk_if.c:3753-3757 | the number of tries is enough for every index of the queue |
| `RssPlacement.EveryCandidate` | lib/ff_dpdk_if.c:3748-3761 | every index that leads to the queue is reached by steps of the number of queues |
| `RssPlacement.ChooseBlock` | lib/ff_dpdk_if.c:3734-3745 | succeeds exactly if an aligned block fits in the range; the 16-bit steps do not wrap around and the block lies inside |
| `RssPlacement.TryAll` | lib/ff_dpdk_if.c:3753-3847 | tries only indices of the queue and all of them before it gives up; a port found is in range and passes the check |
| `RssPlacement.AdjustSport` | lib/ff_dpdk_if.c:3684-3847 | the same for the whole search, even without the recheck if the library adjusts as it should; nothing is found with one queue or without an aligned block in the range |
| `TxPath.FatesPartition` | lib/ff_dpdk_if.c:2477-2517 | every chain that left the table was transmitted or freed, not both |
| `TxPath.Tx.FreeChain` | lib/ff_dpdk_if.c:2508-2509 | exactly the segments of the chain are freed, each once |
| `TxPath.Tx.SendBurst` | lib/ff_dpdk_if.c:2477-2517 | the first chains, as many as the device accepts, are transmitted and their packets handed over in order; the rest are dropped and freed; nothing is left over, and what was decided or handed over before stays |
| `TxPath.Tx.SendSinglePacket` | lib/ff_dpdk_if.c:2520-2538 | the chain is in the table, and nothing else is decided, or it filled the table and all 32 chains were decided on as by `SendBurst` |
| `TxPath.Tx.Drain` | lib/ff_dpdk_if.c:2844-2860 | the table is empty and everything in it was decided on, as by `SendBurst` |
| `TxPath.Tx.GiveUp` | lib/ff_dpdk_if.c:2577-2602 | the partial chain is freed and the drop counted |
| `TxPath.Tx.Segment` | lib/ff_dpdk_if.c:2563-2609 | the packet is cut into the least number of segments that can hold it, each filled as far as it has room, if and only if it has enough bytes and the segments that can be had have enough room; otherwise all are freed again, and what is added to `tx_dropped` |
| `TxPath.Tx.Send` | lib/ff_dpdk_if.c:2541-2699 | 0 if and only if there is a context, the packet has as many bytes as are to be sent, and the segments that can be had hold them; then one chain that carries them is handed on, with the burst that may follow; otherwise nothing changes but `tx_dropped`, by one without a context and else by one more than the segments in hand; the source buffer is freed once in every case |
| `TxPath.Tx.Conservation` | lib/ff_dpdk_if.c:2477-2538 | each chain is transmitted, freed or in the table; the device has the transmitted packets in order, `tx_packets` counts their segments and `tx_bytes` their bytes |
| `TxPath.Tx.Run` | lib/ff_dpdk_if.c:2477-2860 | after any sequence of sends and drains every source buffer is freed, the chains made are exactly those of the packets that can be sent, in order, and neither a chain's fate nor what the device got is ever taken back |
| `IniParser.RStrip` | lib/ff_ini_parser.c:27-34 | cuts off exactly the white space at the end |
| `IniParser.LSkip` | lib/ff_ini_parser.c:36-42 | counts exactly the white space at the front |
| `IniParser.FindCharsOrComment` | lib/ff_ini_parser.c:44-62 | the first place that holds a wanted character or a semicolon after white space |
| `IniParser.Recognise` | lib/ff_ini_parser.c:103-166 | what a line is, as `LineMeans` states it |
| `IniParser.LineMeans` | lib/ff_ini_parser.c:103-166 | a line is taken for a comment, continuation, section, pair or malformed exactly according to where its text, its comments and its delimiters stand: malformed, for instance, if and only if it has a text that is neither comment nor continuation and each `]` of a header, or each `=` and `:` otherwise, lies behind a semicolon that follows white space; and white space is the six characters of C |
| `IniParser.ParseStream` | lib/ff_ini_parser.c:73-179 | in terms of the positions of lines: a pair calls the handler with the section of the last header before it, cut to 49 characters; a continuation with that section, the name of the last pair before it, cut to 49 characters, and its text; an indented line with no pair since the last header is no continuation; it returns 0 if no line is malformed and the handler likes every call, and else the number of the first line of which that is not so |
| `IniParser.LinesCut` | lib/ff_ini_parser.c:100 | the lines are the text cut after each newline and after 2047 characters, and together they are the text |
| `IniParser.HeaderParses` | lib/ff_ini_parser.c:127-139 | a written section header is read as that section, wherever it stands |
| `IniParser.PairParses` | lib/ff_ini_parser.c:140-166 | a written pair is read as that pair |
| `IniParser.PrintedReadsBack` | lib/ff_ini_parser.c:100-172 | reading written lines gives the calls written, in order, and no malformed line |
| `IniParser.RoundTrip` | lib/ff_ini_parser.c:73-179 | printing any well-formed list and parsing it makes exactly those handler calls and returns 0 |
| `Uio.ScatterGather` | lib/ff_kern_subr.c:192-213 | bytes written through a vector without overlaps are read back unchanged |
| `Uio.MovesCompose` | lib/ff_kern_subr.c:162-225 | two successive moves are one combined move, in either direction |
| `Uio.Request.Copy` | lib/ff_kern_subr.c:192-213 | the copy for one entry, in either direction or none |
| `Uio.Request.Step` | lib/ff_kern_subr.c:181-220 | one turn of the loop uses up the front of the vector, without running off it |
| `Uio.Request.Move` | lib/ff_kern_subr.c:162-225 | moves exactly min(n, resid) bytes in order and keeps resid equal to the sum of the lengths |
| `Uio.CopyInUio` | lib/ff_kern_subr.c:227-264 | succeeds exactly if count, memory, copy and total allow; then resid is the total and at most INT_MAX; which error otherwise |
| `TxRing.Ring.Post` | lib/ff_memory.c:78-81 | the ring is the last 512 descriptors, and exactly the buffers before them have been freed, in order |
| `TxRing.Ring.Enqueue` | lib/ff_memory.c:173-189 | adds one descriptor for each segment, at least one: the last holds the buffer and the others nothing; with the same guarantee |
| `TxRing.Ring.Conservation` | lib/ff_memory.c:173-189 | the buffers posted are those freed, followed by those still in the ring; freed, each once and in order, are exactly those posted before the last 512 descriptors |
| `SysInit.Sort` | lib/ff_init_main.c:198-212 | sorts by subsystem and order, and permutes |
| `SysInit.SinkLeast` | lib/ff_init_main.c:203-212 | the inner loop puts the least of the rest in its place |
| `SysInit.Startup.SysinitAdd` | lib/ff_init_main.c:130-159 | a new table holds everything known so far, in the same places, and then the set; the current table is not touched |
| `SysInit.Startup.RunItem` | lib/ff_init_main.c:262-271 | running the next item keeps the run in order and registers exactly what it adds |
| `SysInit.Startup.Traverse` | lib/ff_init_main.c:230-283 | runs in order until an item has registered others, or until nothing is left to run |
| `SysInit.Startup.Pass` | lib/ff_init_main.c:198-283 | the same including the sort |
| `SysInit.Startup.MiStartup` | lib/ff_init_main.c:174-285 | ends; each item that ran had the lowest subsystem, and the lowest order in it, of all known items declared to run that had not run, and nothing is left to run |
| `SysInit.RegisteredIs` | lib/ff_init_main.c:130-159 | the known items are those there were at first and those in the sets added by items that ran |
| `SysInit.ExactlyOnce` | lib/ff_init_main.c:174-285 | so every registered item declared to run has run exactly once, and nothing else has |
| `TickConversion.NothingOverflows` | lib/ff_glue.c:596-603 | no intermediate result of a branch taken leaves its 64-bit type |
| `TickConversion.InMicroseconds` | lib/ff_glue.c:596-598 | the first branch is the rounded-up quotient plus one |
| `TickConversion.InParts` | lib/ff_glue.c:599-601 | so is the second |
| `TickConversion.OffTheScale` | lib/ff_glue.c:602-605 | where neither applies the true value exceeds INT_MAX |
| `TickConversion.TvToHzIs` | lib/ff_glue.c:553-607 | all branches agree: the ticks that cover the time plus one, at most INT_MAX, and 1 for negative times |
| `TickConversion.Monotone` | lib/ff_glue.c:553-607 | a longer time never gives fewer ticks |
| `TickConversion.LongEnough` | lib/ff_glue.c:553-607 | the timeout is never too short, and less than two ticks too long; it is cut to INT_MAX only for times of more than INT_MAX - 2 ticks |

## Left out

- Callouts: draining, migration between CPUs, lock classes and profiling; locks and sleeps do nothing in this build.
- Callouts: ticks are unbounded in the wheel, with `Callwheel.ClockWrapsSafely` giving the 2^31 horizon.
- Netgraph: type methods do not re-enter the graph, so the branch of `ng_con_part2` for a peer that died meanwhile is not reached.
- Netgraph: names of nodes, path resolution, message parsing and truncation of hook names.
- Netgraph: the reader count of the flag word is assumed to stay below 2^30.
- NodeGraph.Graph.MkPeer: when the first hook stays after a refusal because the message that removes it was lost, the contract says that it is invalid and without peer, not whether it stays.
- NodeGraph.Graph.Bypass: asks that both hooks have a live peer if they are valid, which by `GraphWorld.BypassExact` is exactly when the code is right.
- NodeGraph.Graph.Run: passes over a bypass of hooks without live peers, after which by `GraphWorld.BypassExact` the counts are wrong.
- Netgraph queue: `ng_upgrade_write`, and the synchronous FSTACK build, which has no queue.
- NodeTimer.Timers.CalloutReset: the timer service is used as `TimerSpec` describes it; `NodeTimer.ItemsAreNotForgotten` joins it to the wheel.
- RSS table: where the walks start is a parameter, so the address folding of the IPv4 and IPv6 tables is not modelled; addresses are numbers, zero meaning none.
- RssTable.Table.Init: asks for non-zero addresses, because a configuration with address zero looks like a free cell.
- RssPlacement.InitLcoreConf: asks that a port listed twice has one configuration, which the code looks up by the port's number.
- RssPlacement.AdjustSport: asks for a power of two of at least as many entries as queues; the IPv6 search is the same with a longer tuple.
- RSS table: log messages, and the cursor in `dport[0]` after the table has been built.
- RssTable.Table.SetPortrange: what is left in the entries after a failed call is not stated beyond the table still representing the same ports.
- Key construction, device and port bring-up, flow rules, MTU and packet capture: configuration of the device.
- TxPath.Tx.Send: asks for a length that is not negative.
- TxPath.Tx.SendBurst: the code reads `nb_segs` and `pkt_len` of the chains after the device has taken them; the counters are exact if the device has not released the heads by then.
- TxPath: the page-array build, offload flags, and 16-bit wrap-around of `nb_segs`, which no packet reaches.
- IniParser: characters after a zero byte in a line, and reading from files.
- Uio.Request.Move: the kernel buffer and the user memory do not overlap.
- Uio: `copyin` and `copyout` always succeed in this build; yielding during long copies does nothing.
- TxRing: `ff_txring_pop`, which has no caller.
- SysInit.Startup.MiStartup: the items that can ever be registered are finitely many.
- SysInit: verbose output, and items that do not return.
- TickConversion.TvToHzIs: asks for hz times tick to be a million, and for less than a second of microseconds.
- Stubs, boot glue, epoll, host interface, packet classification and configuration fields.
