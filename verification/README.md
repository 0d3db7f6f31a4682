# J-core simulator and test programs: a verified model

A Dafny 4.11 model of the parts of the J-core repository whose correctness is not visible from
one function: the event scheduler that drives an HDL simulator and the devices on top of it, the
debug port, the two-CPU test programs, the GDB stub, the hash table, and the arithmetic of the
small C library.  `dafny verify dfyconfig.toml` checks everything.  Nothing was executed.

## Parts

- **Two-CPU merge sort** (`MergeSpec`, `SmpSort`, `SmpMergeProof`, `SmpHalfProof`, `SmpSortProof`, `SmpProgress`, `SmpFair`):
  every load and store of both CPUs is one step; all interleavings are covered, under sequential
  consistency, and all fair infinite schedules (`Schedules`).
- **Two-CPU workload** (`SmpWorkload`, `SmpWorkloadLaw`, `SmpWorkloadProof`, `SmpWorkloadProgress`, `SmpWorkloadFair`): the same treatment of
  the random read/write test, against the sequential program and a closed form of what each step does.
- **Scheduler** (`UtList`, `SchedulerSpec`, `SchedulerProof`, `Scheduler`, `BitVec`): the list macros, the
  firing round on sequences, and the class that relinks the lists and tests subscriptions on bit vectors.  A callback is a script that
  keeps the rules of the header: it adds, removes and re-times only hooks that are in no list.
- **Memory bus** (`MemBus`, `MemBusDevice`, `MemBusTable`, `MemBusProof`, `MemBusRuns`, `MemBusAck`, `MemBusDrop`): the callbacks
  as functions, the program that computes them, a decision table for them, and runs of the bus on the
  scheduler among other devices, to the acknowledgement and to the drop of the line.
- **Debug port** (`DebugPlan`, `DebugPlanRuns`, `DebugQueue`, `DebugQueueRuns`, `DebugQueueTiming`): the plans against
  an interpreter of the instructions they insert, and the command queue on the scheduler.
- **Simulator link** (`LineReader`, `IdleProtocol`): the chunked line reader and the echo protocol with a
  child that answers in order.
- **GDB stub** (`GdbTrap`, `GdbStep`, `GdbCodec`, `GdbPacket`, `GdbCommands`, `GdbWire`): exception entry and exit as SH-2
  programs, single step, codecs, packets (GDB Remote Serial Protocol, section E.1 of its appendix in
  the GDB manual) and the register and memory commands.
- **Hash table** (`HashTable`, `HashLoad`), **numbers** (`NumberText`), **primes** (`PrimeTheory`, `PrimeList`); `Arithmetic` holds
  shared facts, `Addresses` the addresses of linked structures.

Linked structures are kept as maps from addresses to link fields, so that a store through a pointer
is a map update and lemmas can speak about it; the classes hold those maps as fields.

## Where the code does less than one would expect

- cpu1 of smptest11 starts its walk through the pattern table in a gap: its first 769 entries are not those of
  the data file but zeros (`WalkLoaded`).
- cpu1's wait loop in smptest13 reads the control word twice; the stop word stored in between lets
  it start one round that was never announced.  Some schedule does so exactly for the limits from one
  to 0x7ffffffe other than 0x10000 (`ExtraRoundExactly`).  Some schedule gets stuck for ever exactly when
  the limit is above 0xffff (`StuckExactly`); up to there every state of every run can go on to the end
  (`FinishExactly`), and every fair schedule does (`FairFinishExactly`).
- `next_hook_delay` looks at the head only: it is the nearest delay exactly when no listed target has
  passed (`HeadIsNearest`, `PastHeadHidesTarget`).  The bus tests its target for equality, so an
  operation is acknowledged exactly when a round falls on its target (`AckExactly`); waits through
  `sim_wait_time` always do, if other devices set only future targets (`AcknowledgedOnTime`); a round past
  the target, which a wait for a clock edge can bring, loses the operation (`OverstepLoses`).
- The line reader drops a line of more than 2048 characters; it returns the lines of the stream exactly
  when all fit (`ReaderSplits`).
- `debug_add_cmd` prints a message for a command that is queued already and goes on all the same.  Outside
  a completion it keeps queue and hooks exactly when the command's prev link is null (`AddKeepsExactly`):
  otherwise a command is lost (`RequeueLoses`), or the ack hook is listed twice (`HeadListedTwice`).  Inside
  one it adds no hook, and also survives if the command is the only one queued (`AppendKeepsExactly`).
- A single step is undone exactly in the cases `StepUndone` lists; one onto an opcode zero is not, nor one
  that is entered again elsewhere.  A destination that is the stepped instruction or its slot, or a word it
  loads, changes what runs, unless it holds the trap already (`FetchesSame`, `LoadsSame`).
- The checksum of `read_memory` is not reset for a retransmission (`RepeatedTransmission` says exactly when
  it is right all the same).
- A negative length makes `read_memory` send four bytes; a '#' inside a register's digits does not end the
  text of `G` (`SendMemory`, `WriteRegisters`).
- `strtoul` under base 0 does not know `0X`, which `number` prints (`HexPrefix`), and reads a decimal that
  `number` has padded with zeros as octal (`Decimal`).

## Model

| member | source | states |
|---|---|---|
| MergeSpec.PassesSort | cache/tests/fpga_smp/smptest13/test13.c:121-126 | the bottom-up passes return a sorted permutation of a block of power-of-two length |
| MergeSpec.SortHalvesSorts | cache/tests/fpga_smp/smptest13/test13.c:121-132 | sorting both halves by passes and merging them is a sorted permutation of the whole |
| MergeSpec.SortedUnique | cache/tests/fpga_smp/smptest13/test13.c:134-143 | a sorted sequence is determined by its elements, so the sums of the result do not depend on the schedule |
| SmpMergeProof.MergeStep | cache/tests/fpga_smp/smptest13/test13.c:175-207 | every single access of a merge keeps: stored part plus what remains is the merge of the two blocks; the source is untouched |
| SmpHalfProof.SortStep | cache/tests/fpga_smp/smptest13/sub_cpu1/cpu1.c:47-53 | every access of a half-sort keeps its invariant, across blocks and levels |
| SmpHalfProof.SortForeign | cache/tests/fpga_smp/smptest13/sub_cpu1/cpu1.c:70-107 | a store outside the half does not disturb the sort of the half |
| SmpSortProof.RunInv | cache/tests/fpga_smp/smptest13/test13.c:110-148 | every state of every interleaved run satisfies the invariant of control words, handshake and data |
| SmpSortProof.InitialExists | cache/tests/fpga_smp/smptest13/test13.c:93-98 | there is an initial state for every input and whatever the work array holds |
| SmpSortProof.EverySchedule | cache/tests/fpga_smp/smptest13/test13.c:93-144 | every schedule of single accesses, from every initial memory, is a run, so the theorems cover it |
| SmpSortProof.NoSharedCell | cache/tests/fpga_smp/smptest13/sub_cpu1/cpu1.c:38-63 | in no reachable state are both CPUs about to access the same work cell |
| SmpSortProof.AccessesInBanks | cache/tests/fpga_smp/smptest13/test13.c:98-144 | every access of the work array stays inside the two banks |
| SmpSortProof.SortedAfterMerge | cache/tests/fpga_smp/smptest13/test13.c:132-139 | when the last merge of a round has ended, bank 1 is a sorted permutation of the input, in every interleaving |
| SmpSortProof.NoDifference | cache/tests/fpga_smp/smptest13/test13.c:81-85 | on a permutation of 0..511 the sum1/sum2 check never reports a difference |
| SmpSortProof.DifferenceExactly | cache/tests/fpga_smp/smptest13/test13.c:134-143 | a difference is reported in all finished rounds iff the sorted input lacks the plain sum 130816 or the weighted sum 44608256 in 32 bits, else in none |
| SmpSortProof.DeadlockExactly | cache/tests/fpga_smp/smptest13/test13.c:128-130 | while cpu0 polls, cpu1 is in a wait it cannot leave exactly in the round whose number is the stop word, before its first test |
| SmpProgress.StuckExactly | cache/tests/fpga_smp/smptest13/sub_cpu1/cpu1.c:59-62 | some run reaches the state in which both wait for ever iff the limit is above the stop word |
| SmpProgress.FinishExactly | cache/tests/fpga_smp/smptest13/test13.c:110-148 | every state of every run has a schedule to the end iff the limit is at most the stop word |
| SmpFair.FairFinishExactly | cache/tests/fpga_smp/smptest13/test13.c:110-148 | every infinite schedule that runs each CPU again and again, from every initial memory, comes to cpu0's end iff the limit is at most the stop word |
| SmpFair.FairSettles | cache/tests/fpga_smp/smptest13/test13.c:110-148 | for every limit, every fair schedule comes to cpu0's end or to the stuck state |
| SmpFair.WorkBounded | cache/tests/fpga_smp/smptest13/test13.c:110-148 | in every schedule the two CPUs together make at most 28684 accesses a round before cpu0's end that are not polls in vain |
| SmpProgress.StuckStays | cache/tests/fpga_smp/smptest13/test13.c:128-130 | no schedule leads out of the stuck state |
| SmpProgress.EveryRoundSorts | cache/tests/fpga_smp/smptest13/test13.c:110-139 | every round below the limit is reached, in some run, with the sorted input in bank 1 |
| SmpProgress.ToPoll | cache/tests/fpga_smp/smptest13/test13.c:111-130 | from any point of a round before it, cpu0 alone gets to its poll |
| SmpProgress.AckDone | cache/tests/fpga_smp/smptest13/sub_cpu1/cpu1.c:38-57 | while cpu0 polls, cpu1 alone acknowledges the round, unless the stop word holds it |
| SmpSortProof.StuckForever | cache/tests/fpga_smp/smptest13/sub_cpu1/cpu1.c:37-39 | that state is final |
| SmpSortProof.AtMostOneExtraRound | cache/tests/fpga_smp/smptest13/sub_cpu1/cpu1.c:59-63 | cpu1 never starts more than one round that was not announced |
| SmpSortProof.ExtraRound | cache/tests/fpga_smp/smptest13/sub_cpu1/cpu1.c:60-61 | from cpu0's end with cpu1 between its two loads, the stop word starts that round |
| SmpProgress.ExtraRoundExactly | cache/tests/fpga_smp/smptest13/sub_cpu1/cpu1.c:45-62 | some run has an unannounced round iff the limit is 1 to 0x7ffffffe and not the stop word plus one |
| SmpWorkload.CellParity | cache/tests/fpga_smp/smptest11/test11.c:113-130 | with even pattern entries each CPU computes cells of its own parity, inside the array |
| SmpWorkload.SoloParity | cache/tests/fpga_smp/smptest11/test11.c:107-138 | what a program computes depends only on the cells of its own parity |
| SmpWorkloadLaw.StaysLoaded | cache/tests/fpga_smp/smptest11/test11.c:131-137 | an index among the entries of the file is followed by one: the next, or the first of the next group, or 3 after the last |
| SmpWorkloadLaw.WalkStep | cache/tests/fpga_smp/smptest11/sub_cpu1/cpu1.c:21-56 | both programs walk the table as in closed form: cpu0 all entries and then those from 3 on for ever, cpu1 first 769 places from 17663 on |
| SmpWorkloadLaw.WalkLoaded | cache/tests/fpga_smp/smptest11/sub_cpu1/cpu1.c:21-56 | an index is an entry of the file iff it is cpu0's, or not among cpu1's first 769, which are all in gaps |
| SmpWorkloadLaw.IndexLaw | cache/tests/fpga_smp/smptest11/test11.c:106-138 | in every state of every run the index of each CPU is that of its access in the walk, 3200 accesses a round |
| SmpWorkloadProof.EverySchedule | cache/tests/fpga_smp/smptest11/test11.c:104-153 | every schedule of single accesses is a run |
| SmpWorkloadProof.RunInv | cache/tests/fpga_smp/smptest11/sub_cpu1/cpu1.c:16-57 | every interleaving keeps: each CPU is where it would be alone, on its own cells |
| SmpWorkloadProof.ConcurrentOutcome | cache/tests/fpga_smp/smptest11/test11.c:107-153 | every finished interleaving ends with the array the two programs compute alone: each cell is what the closed form of all inner steps of its program makes of it, for every loop count |
| SmpWorkloadProof.OutcomeTurns | cache/tests/fpga_smp/smptest11/test11.c:107-138 | each inner step loads three cells by its entries and one moved by 4 * i, and stores their sum + 11 + i modulo 131072 to one moved by 2 * i; the program alone is 640 of these a round |
| SmpWorkloadProof.InnerLoop | cache/tests/fpga_smp/smptest11/test11_x86/test11_x86.c:37-66 | one inner step of the sequential program, with its index update, is that closed form, and ends five places on in the walk |
| SmpWorkloadProgress.EveryRunFinishes | cache/tests/fpga_smp/smptest11/test11.c:107-153 | every run, wherever it stands, is the beginning of a run that has ended and holds that array |
| SmpWorkloadFair.FairOutcome | cache/tests/fpga_smp/smptest11/test11.c:107-153 | every fair infinite schedule comes to cpu0's end, for every loop count, and from then on the array is that of the sequential program |
| SmpWorkloadFair.WorkBounded | cache/tests/fpga_smp/smptest11/sub_cpu1/cpu1.c:16-57 | every schedule makes at most 13012 accesses a round, and two more, that are not polls in vain |
| SmpWorkloadProof.OwnParity | cache/tests/fpga_smp/smptest11/sub_cpu1/cpu1.c:26-52 | cpu0 stores even cells only, cpu1 odd cells only, and the pattern index stays in the table |
| SmpWorkloadProof.Vcpu | cache/tests/fpga_smp/smptest11/test11_x86/test11_x86.c:33-67 | one virtual CPU's turn of the sequential program is one round of the program it stands for, from place 3200 * i of the walk to 3200 * (i + 1), and leaves the other parity alone |
| SmpWorkloadProof.Sequential | cache/tests/fpga_smp/smptest11/test11_x86/test11_x86.c:26-68 | the sequential program ends with the same array as every interleaving, which is the closed form of its steps |
| SmpWorkloadProof.LoadPattern | cache/tests/fpga_smp/smptest11/test11_x86/test11_x86.c:17-24 | the loaded table is even and in range, with every entry of the file at its place and zero in the gaps |
| UtList.AppendLists | sim/sim/utlist.h:512-527 | DL_APPEND turns links that list s into links that list s + [x], and changes no other node |
| UtList.PrependLists | sim/sim/utlist.h:497-510 | DL_PREPEND turns links that list s into links that list [x] + s |
| UtList.DeleteLists | sim/sim/utlist.h:547-566 | DL_DELETE removes exactly one node from the list, wherever it stands |
| UtList.InsertLists | sim/sim/simulator.c:759-763 | the relinking in the middle of sim_hook_add inserts before the given node |
| UtList.FrameKeeps | sim/sim/utlist.h:497-566 | a list whose nodes are not involved is unchanged |
| BitVec.Vector.Init | sim/sim/bitvec.c:6-14 | an empty set of the given length, refused beyond 128 |
| BitVec.Vector.Set | sim/sim/bitvec.c:16-24 | setting a bit changes that member of the set and no other, and is ignored beyond the length |
| BitVec.Vector.Get | sim/sim/bitvec.c:26-30 | reads membership |
| BitVec.AndReduce | sim/sim/bitvec.c:39-48 | the word-parallel test is true exactly when the two sets meet |
| SchedulerSpec.HeadIsNearest | sim/sim/simulator.c:782-786 | on an ordered list the head's delay is the minimum over all timed hooks iff no target has passed |
| SchedulerSpec.WaitsInTime | sim/sim/simulator.c:807-843 | a wait that ends no later than asked never passes a target |
| SchedulerSpec.WaitIsTight | sim/sim/simulator.c:815-820 | the wait is the one asked for or ends exactly at a listed target |
| SchedulerSpec.PastHeadHidesTarget | sim/sim/simulator.c:782-786 | with a passed target at the head a wait can run past a later target |
| SchedulerProof.InsertOrdered | sim/sim/simulator.c:743-772 | insertion keeps the order "timed ascending, then untimed" |
| SchedulerProof.InsertPlace | sim/sim/simulator.c:750-772 | a timed hook goes before the first hook without target or with a later one, an untimed hook to the end |
| SchedulerProof.RoundCalls | sim/sim/simulator.c:357-378 | a hook listed at the start is called iff its target is above zero and not after now, or a signal is both changed and in its subscription; the calls are a subsequence of the list, so none added meanwhile is called |
| SchedulerProof.RoundLeaves | sim/sim/simulator.c:363-377 | what a round leaves of a hook: called and kept, its new target if that is in the future and else none, in place iff unchanged; not called, as it was |
| SchedulerProof.RoundOrdered | sim/sim/simulator.c:379-388 | after the merge the list is ordered and holds every hook at most once |
| SchedulerProof.RoundConserves | sim/sim/simulator.c:350-389 | a hook is lost only by its own callback or a removal; nothing appears that was not added; no kept target has passed |
| SchedulerProof.FutureRound | sim/sim/simulator.c:357-389 | a round whose callbacks add only future targets leaves no passed target listed |
| SchedulerProof.RoundLeavesNonePast | sim/sim/simulator.c:367-370 | if no callback adds a passed target, none is left after the round |
| Scheduler.Simulator.HookAdd | sim/sim/simulator.c:750-772 | the relinked list is the ordered insertion, or the append while callbacks run |
| Scheduler.Simulator.HookRemove | sim/sim/simulator.c:774-776 | removes exactly that hook |
| Scheduler.Simulator.ImmediateAdd | sim/sim/simulator.c:778-780 | appends to the immediate list and leaves the hook list alone |
| Scheduler.Simulator.NextHookDelay | sim/sim/simulator.c:782-786 | computes the head's delay |
| Scheduler.Simulator.WaitTimeDelay | sim/sim/simulator.c:815-820 | the delay sent to the child reaches no further than any target, if none has passed |
| Scheduler.Simulator.CallHooks | sim/sim/simulator.c:357-378 | walking and relinking the detached list is the round of the specification; the hooks called are those that are listed and reached or subscribed to a changed signal, by the word-parallel test, in list order |
| Scheduler.Simulator.MergePending | sim/sim/simulator.c:379-385 | merging the pending list is insertion of its hooks one by one |
| Scheduler.Simulator.CallImmediate | sim/sim/simulator.c:386-388 | runs every immediate hook and empties the list |
| Scheduler.Simulator.FireEvents | sim/sim/simulator.c:350-389 | the whole round on linked lists equals the round on sequences, and calls exactly those hooks |
| Scheduler.RoundKeepsOrder | sim/sim/simulator.c:350-389 | a round with its immediate callbacks keeps order and distinctness |
| MemBusDevice.Device.ReadWriteCb | sim/sim/mem_bus.c:67-284 | the callback computes the effect of the specification on fields, signals and scheduler calls, and asks a range for exactly the bytes of legal lanes |
| MemBusTable.RwOuts | sim/sim/mem_bus.c:67-284 | decision table of the outputs: the line goes to 0 iff it is up and the callback resets or drops it after no delay, to 1 iff an operation is acknowledged, a read with its data before |
| MemBusTable.RwActions | sim/sim/mem_bus.c:67-284 | decision table of the scheduler calls: a drop for now + delay * 1000, a cancellation after a reset or an acknowledgement |
| MemBusTable.RwOperation | sim/sim/mem_bus.c:67-284 | an operation with no delay is acknowledged in its own round, one with a delay is pending for delay * 1000 ps; the count moves iff an acknowledgement does |
| MemBusTable.LegalLanes | sim/sim/mem_bus.c:131-188 | exactly which pairs of write enables and address modulo 4 are legal |
| MemBusDevice.Device.ScheduleAckDrop | sim/sim/mem_bus.c:25-36 | adds the drop hook for now + delay * 1000 unless it has a target; with no delay, writes 0 to a line that is up and floats the data |
| MemBusDevice.Device.DropAckCb | sim/sim/mem_bus.c:38-44 | writes 0 to a line that is up iff no operation was acknowledged since the scheduling, and retires |
| MemBusDevice.Device.CancelDropCb | sim/sim/mem_bus.c:46-55 | removes the drop hook if it is scheduled |
| MemBusProof.RwShape | sim/sim/mem_bus.c:98-280 | the callback adds the drop hook only when it is not scheduled, and counts an operation only together with a cancellation |
| MemBusProof.RwRaises | sim/sim/mem_bus.c:239-268 | the callback raises the acknowledge line exactly as often as it counts an operation |
| MemBusProof.RoundKeepsBus | sim/sim/mem_bus.c:17-55 | every firing round keeps the bus invariant, in whatever order drop, rw and cancel hooks and foreign hooks run |
| MemBusRuns.DropHookConsistent | sim/sim/mem_bus.c:25-55 | in every run, between rounds, the drop hook has a target iff it is listed, and then ack_drop_op equals op_count |
| MemBusRuns.NoStaleDropEver | sim/sim/mem_bus.c:38-44 | over a whole run a drop scheduled before an acknowledgement never takes effect after it |
| MemBusAck.IdleTurn | sim/sim/simulator.c:350-389 | from every state of a run a round before any target, with no changed signal, is possible |
| MemBusAck.StartTurn | sim/sim/mem_bus.c:234-238 | the round in which an operation with a delay starts leaves it pending for ack_delay * 1000 ps later, with the data of a read |
| MemBusRuns.PendingUntil | sim/sim/mem_bus.c:257-269 | with stable inputs nothing happens to a pending operation before its time |
| MemBusRuns.AckExactly | sim/sim/mem_bus.c:257-269 | a pending operation with stable inputs is acknowledged, once, iff the first round at or past its target is at the target |
| MemBusAck.WaitsNeverOverstep | sim/sim/simulator.c:807-843 | in a run whose waits are those of sim_wait_time, with other devices that set only future targets, no round is past a target of the bus |
| MemBusAck.TurnNonePast | sim/sim/simulator.c:350-389 | after every round no listed target has passed, if others add only future ones; the bus does so itself |
| MemBusAck.AcknowledgedOnTime | sim/sim/mem_bus.c:234-269 | from the start of an operation: exactly one round raises the acknowledge line, once, exactly ack_delay * 1000 ps later, after the data of a read |
| MemBusDrop.RwLevel | sim/sim/mem_bus.c:67-284 | the level of the line after the callback, case by case |
| MemBusDrop.SteadyTurn | sim/sim/mem_bus.c:17-55 | a round with unchanged signals leaves the line alone, unless the drop hook is reached: then it takes the line down and retires |
| MemBusDrop.DroppedOnTime | sim/sim/mem_bus.c:17-55 | in every run: after the bus is disabled with stable inputs the line is up until the round ackDropDelay * 1000 ps later exactly, and down from then on |
| MemBusDrop.DroppedAtOnce | sim/sim/mem_bus.c:17-22 | without a drop delay the line goes down in the round that disables the bus |
| MemBusDrop.AckEndsHigh | sim/sim/mem_bus.c:269-272 | a round that acknowledges an operation ends with the line up, whatever drop was due in it |
| MemBusDrop.DropOccurs | sim/sim/mem_bus.c:17-55 | such a run exists for every drop delay |
| MemBusAck.AloneRun | sim/sim/mem_bus.c:67-284 | every sequence of times, events and inputs with the line low has a run |
| MemBusAck.OnTimeOccurs | sim/sim/mem_bus.c:234-269 | a run of that kind exists |
| MemBusAck.OverstepLoses | sim/sim/simulator.c:845-851 | a run with a round past the target exists, for every delay, and loses the operation |
| DebugPlan.RegsPlan.ReadNext | sim/debug_plan.c:6-114 | one call stores the reply in its slot, gives the next request and counts |
| DebugPlan.MemPlan.WriteNext | sim/debug_plan.c:244-277 | one call gives the request for the words left, from the last word down |
| DebugPlanRuns.RunRegsRead | sim/debug_plan.c:6-114 | 37 requests capture every register but PC in its place and leave the whole machine as it was |
| DebugPlanRuns.RunRegsWrite | sim/debug_plan.c:116-200 | 27 requests make all 23 registers equal to the array and touch no memory |
| DebugPlanRuns.ReadThenWrite | sim/debug_plan.c:6-200 | writing back what was read restores the registers of any later machine |
| DebugPlanRuns.RunMemRead | sim/debug_plan.c:202-242 | N + 6 requests fill the buffer with the N words at the address; the machine is unchanged |
| DebugPlanRuns.RunMemWrite | sim/debug_plan.c:244-277 | N + 4 requests store exactly the N words in place, nothing else, and restore R0 |
| DebugPlanRuns.WordsApart | sim/debug_plan.c:301-311 | a block of at most 2^30 words does not meet itself when addresses wrap |
| DebugQueue.DebugHw.Next | sim/debug.c:40-62 | shows the head on the port, or schedules the drop of the enable line when there is none |
| DebugQueue.DebugHw.AddRequest | sim/debug.c:178-198 | reports exactly the queued commands; appends, and outside a completion starts the port and adds the ack hook if the command is now the head |
| DebugQueue.DebugHw.AckHookCb | sim/debug.c:71-111 | an acknowledged poll completes the head exactly once, even if on_done queues the same command, and shows the next; prev is non-null iff queued |
| DebugQueue.DebugHw.DropEnHookCb | sim/debug.c:64-69 | takes the enable line down and is no longer scheduled |
| DebugQueue.RequeueLoses | sim/debug.c:178-182 | appending a command that is queued already loses one when another is queued |
| DebugQueue.AppendKeepsExactly | sim/debug.c:178-183 | inside a completion no command is lost iff the command's prev link is null or the command itself |
| DebugQueueRuns.HeadListedTwice | sim/debug.c:183-188 | adding the head of the queue again adds the ack hook while it is listed |
| DebugQueueRuns.AddKeepsExactly | sim/debug.c:178-190 | outside a completion, queue, hooks and scheduler rules survive iff the command's prev link is null |
| DebugQueue.AckKeeps | sim/debug.c:80-103 | a completion keeps first-in first-out |
| DebugQueueRuns.RoundKeepsPort | sim/debug.c:64-111 | every firing round keeps the invariant of queue and hooks, among foreign hooks |
| DebugQueueRuns.RequestKeeps | sim/debug.c:178-190 | queueing between rounds keeps it, and keeps the scheduler's rules |
| DebugQueueRuns.FirstInFirstOut | sim/debug.c:11-111 | in every run: added = done + queue; the port shows the head field by field; the enable line is up iff a command is queued or the drop hook scheduled; the ack hook is listed iff the queue is non-empty, the drop hook iff scheduled and only when empty |
| DebugQueueTiming.RunTimed | sim/debug.c:34-62 | in every run that misses no poll, polls fall on clock edges, and the drop is a quarter period after the queue ran empty |
| DebugQueueTiming.PollTimes | sim/debug.c:34-111 | the first poll is at the clock edge one to two periods after the request, each later one a period on; with the queue empty the drop hook is added for a quarter period later |
| DebugQueueTiming.RoundLaw | sim/debug.c:64-111 | what a round does: an acknowledged head is completed at its poll and only then; with none queued the enable line goes down a quarter period after the queue ran empty |
| DebugQueueTiming.EnableFalls | sim/debug.c:40-69 | after the queue runs empty, with no request, the enable line is up until the first round at or past a quarter period later, and down from then on |
| DebugQueueTiming.WaitIsTimely | sim/sim/simulator.c:815-820 | a wait through the scheduler misses no poll |
| LineReader.ReaderSplits | sim/sim/simulator.c:41-93 | the returned lines are the stream split at CR/LF with empties dropped iff every line fits |
| LineReader.SplitRuns | sim/sim/simulator.c:48-60 | the pieces of a stream are its maximal runs without CR and LF that one of them ends, in order |
| LineReader.FitRuns | sim/sim/simulator.c:64-69 | every line fits iff no such run exceeds 2048 characters |
| LineReader.Reader.Next | sim/sim/simulator.c:41-93 | one call consumes characters and returns the next line of the automaton, whatever the chunks; it holds neither CR nor LF |
| LineReader.Reader.Compact | sim/sim/simulator.c:70-77 | moving the rest down keeps the unread characters |
| LineReader.ReadAll | sim/sim/simulator.c:35-93 | for every schedule of read() no returned line is empty or holds CR or LF; if no run between them exceeds 2048 the lines are exactly the maximal runs that one of them ends |
| IdleProtocol.RunKeeps | sim/sim/simulator.c:442-491 | every step of host and child keeps the order of commands, echoes and reports |
| IdleProtocol.MatchExactly | sim/sim/simulator.c:442-491 | an echo ends the loop iff a multiple of 65536 echoes is outstanding behind it |
| IdleProtocol.IdleMeansQuiet | sim/sim/simulator.c:442-491 | on normal return all commands are executed, all reports applied in order, both directions empty, and the answered echo followed the last report |
| GdbTrap.SaveFills | testrom/sh2.c:293-354 | the entry code fills the register file with all 23 registers in the order of register_file_S |
| GdbTrap.LeaveRestores | testrom/sh2.c:494-541 | gdb_return_from_exception makes the machine what the register file says, from any machine state |
| GdbTrap.TrapRoundTrip | testrom/sh2.c:378-401 | TRAPA #32 and a return with an untouched file restore every register and resume at the trapping instruction; only the file and five stack words are written |
| GdbTrap.OtherRoundTrip | testrom/sh2.c:404-490 | the same for the other entries, which resume at the stacked address |
| GdbStep.StepDestIsTarget | testrom/sh2.c:49-146 | get_stepi_dest is the address control reaches after the instruction and its delay slot, for every opcode and register state |
| GdbStep.StepDestTable | testrom/sh2.c:49-146 | the same as a table by opcode: displacements from PC + 4 in words with their sign, registers, and the words at R15 and VBR + 4 * imm, upper half first |
| GdbStep.FetchesSame | testrom/sh2.c:163-165 | the planted trap leaves what the step fetches unchanged iff the destination held the trap already, or is neither the instruction nor its slot |
| GdbStep.StepUndone | testrom/sh2.c:254-263 | for every re-entry and all stores meanwhile: memory is as the program made it iff the trap stands, its opcode was not zero and entry is there (or both places hold the trap), or the program overwrote it and the opcode is zero or in place |
| GdbStep.LoadsSame | testrom/sh2.c:163-165 | the planted trap leaves what the step loads unchanged iff the destination held the trap already or is not loaded |
| GdbStep.OneStep | testrom/sh2.c:153-169 | a whole step: the program fetches, loads and branches as it would have, reaches the destination, meets TRAPA #32 there, and the word is put back |
| GdbStep.Stub.Step | testrom/sh2.c:153-169 | plants exactly one word, at the target, and saves the opcode |
| GdbStep.Stub.OnEntry | testrom/sh2.c:254-263 | puts a saved opcode back at PC |
| GdbCodec.UnhexHex | testrom/gdb.c:161-175 | decoding hex inverts encoding, whatever follows |
| GdbCodec.AccessesTile | testrom/gdb.c:153-157 | the accesses are aligned, the largest that fit, inside the range, adjacent, and cover it |
| GdbCodec.Target.MemToHexbuf | testrom/gdb.c:202-250 | the aligned codec equals the byte-by-byte one, with exactly those accesses |
| GdbCodec.Target.HexbufToMem | testrom/gdb.c:262-313 | stores exactly the decoded bytes and nothing else, for every alignment and length |
| GdbCodec.Target.XmemToMem | testrom/gdb.c:338-383 | the same for escaped binary |
| GdbCodec.UnescapeEscape | testrom/gdb.c:316-330 | decoding inverts any escaping the protocol allows, and stops where it ends |
| GdbCodec.EscapeHidesFraming | testrom/gdb.c:316-330 | escaped text holds no '#' and no '$', unless the sender escapes the bytes that flip to them |
| GdbPacket.ReceiveFrame | testrom/gdb.c:405-476 | a framed payload is received as sent, after any noise |
| GdbPacket.ReceiveDamaged | testrom/gdb.c:465-470 | a wrong checksum is answered with '-' and reception starts over |
| GdbPacket.ReceiveSound | testrom/gdb.c:431-476 | whatever is accepted stood in the stream between '$' and '#' with the right checksum |
| GdbPacket.Line.PutMsg | testrom/gdb.c:405-428 | sends the message once for every reply up to the first '+' |
| GdbPacket.Line.GetMsg | testrom/gdb.c:431-476 | the reading loops compute that reception; the 200-byte buffer then holds payload, '#' and NUL, for payloads up to 198 |
| GdbPacket.RegistersRoundTrip | testrom/gdb.c:634-691 | the text that g reports, sent through G, denotes the same register values |
| GdbPacket.FirstTransmission | testrom/gdb.c:576-595 | the first reply to m is a proper packet |
| GdbPacket.RepeatedTransmission | testrom/gdb.c:561-598 | a repeated reply is a proper packet iff the sums of those before it cancel out modulo 256 |
| GdbCommands.ReadRegisters | testrom/gdb.c:664-691 | sends the hex of all registers in one proper packet for every reply up to the first '+' |
| GdbCommands.WriteRegisters | testrom/gdb.c:634-661 | on whatever the buffer holds: sets the registers before the first '#' at a register boundary, at most all, and no other |
| GdbCommands.ReadThenWriteRegisters | testrom/gdb.c:634-691 | g, then G with the text that was sent, is the identity on the register file |
| GdbCommands.ParseLong | testrom/gdb.c:179-185 | the value modulo 2^32 of the digits before the delimiter, and where to go on |
| GdbCommands.ArgTextIs | testrom/gdb.c:569-571 | the arguments GDB writes parse to the address and the length |
| GdbCommands.SendMemory | testrom/gdb.c:576-594 | one transmission: the bytes in hex, whatever the pieces, with the sum running on |
| GdbCommands.ReadMemory | testrom/gdb.c:561-598 | from the argument text: the bytes of memory in hex, with the running checksum of the code, for every reply up to the first '+' |
| GdbCommands.WriteMemory | testrom/gdb.c:601-615 | from the argument text: stores exactly the decoded bytes and answers OK |
| GdbCommands.ReadThenWriteMemory | testrom/gdb.c:561-615 | m, then M with the text of the reply, is the identity on memory, for every 32-bit address and every length below 2^31 |
| GdbCommands.ReceiveEscaped | testrom/gdb.c:617-631 | a framed X command with any legal escaping, after noise, is received whole and stores exactly its bytes |
| GdbWire.DigitChars | testrom/gdb.c:161-175 | the sixteen digits sent, and the characters of either case that are read as each value |
| GdbWire.HexText | testrom/gdb.c:240-246 | each byte is two of these digits, the upper half first |
| GdbWire.UnitText | testrom/gdb.c:316-330 | a unit of escaped text is a right brace and a character with bit 5 inverted, or a character |
| GdbWire.FrameText | testrom/gdb.c:405-428 | a packet is dollar, payload, hash and two digits of the sum of its bytes modulo 256 |
| GdbWire.AcceptedText | testrom/gdb.c:431-476 | what is accepted stood between dollar and hash with that sum behind it; all replies but the last are minus, the last is plus |
| GdbWire.BufferHolds | testrom/gdb.c:431-476 | a packet fits the buffer of 200 iff its payload has at most 198 characters |
| GdbWire.RegisterText | testrom/gdb.c:634-661 | the text of a register in G is read as eight hex digits, the highest first |
| GdbWire.ReplyText | testrom/gdb.c:664-691 | the reply to g is 184 digits: the 23 registers in order, eight digits each |
| HashTable.Table.Find | sim/sim/uthash.h:94-104 | agrees with the dictionary, for any hash function |
| HashTable.Table.Add | sim/sim/uthash.h:173-195 | adds one key and keeps chains, counts and application order; the bucket array doubles iff the bucket has then ten times its multiplier plus one and expansion was not given up |
| HashTable.Table.Push | sim/sim/uthash.h:611-622 | links the item in at the head of its chain |
| HashTable.Table.Expand | sim/sim/uthash.h:666-712 | twice as many buckets hold exactly the same items; ideal length, multipliers and items in excess are right, and expansion is given up after two in a row that leave more than half in excess |
| HashTable.Table.ChainBound | sim/sim/uthash.h:638-664 | until expansion is given up there are fewer than twenty items a bucket, and no chain is longer than ten times its multiplier plus one |
| HashLoad.LoadBound | sim/sim/uthash.h:638-664 | the bound on the load follows from the thresholds that every insertion keeps |
| HashLoad.BalancedExpanded | sim/sim/uthash.h:666-712 | an expansion of a table within that bound gives one within it |
| HashTable.Table.Fsck | sim/sim/uthash.h:278-328 | the checker reports no fault iff back links, bucket counts, total and application order are right |
| HashTable.Table.AddChecked | sim/sim/uthash.h:173-195 | after an insertion the checker never reports a fault |
| HashTable.Table.GetSignal | sim/sim/vpibridge.c:166-205 | returns the item of that name, created if it is new and known, else null with the table unchanged |
| HashTable.InsertAll | sim/sim/uthash.h:94-201 | for every sequence of distinct keys and every hash function: no fault at any step, and lookups agree with the sequence |
| NumberText.RenderLength | cache/tests/fpga_smp/smptest03/sub_cpu1/lib/vsprintf.c:81-141 | the output is exactly max(width, sign + prefix + max(precision, digits)) long |
| NumberText.DigitsValue | cache/tests/fpga_smp/smptest03/sub_cpu1/lib/vsprintf.c:102-106 | the digits printed denote the value and have no leading zero |
| NumberText.Divide | cache/tests/fpga_smp/smptest03/sub_cpu1/lib/vsprintf.c:102-106 | the division loop leaves those digits in reverse in the buffer and never needs more than 32 places |
| NumberText.Number | cache/tests/fpga_smp/smptest03/sub_cpu1/lib/vsprintf.c:62-143 | the text is spaces, sign, prefix, zeros, digits and spaces, each exactly as the flags, width and precision ask, for every flag set; refuses other bases |
| NumberText.RenderPrinted | cache/tests/fpga_smp/smptest03/sub_cpu1/lib/vsprintf.c:62-143 | the laid out text has these six parts: minus iff SIGN is set and the word is 2^31 or more, padding before the sign, as zeros or behind the digits |
| NumberText.SignedValue | cache/tests/fpga_smp/smptest03/sub_cpu1/lib/vsprintf.c:81-106 | sign and digits together denote the word, or the word less 2^32 under SIGN from 2^31 on |
| NumberText.Strtoul | cache/tests/fpga_smp/smptest03/sub_cpu1/lib/strtoul.c:31-67 | value modulo 2^32 of the longest run of digits, in the base the prefix selects, and where it ends |
| NumberText.SameBase | cache/tests/fpga_smp/smptest03/sub_cpu1/lib/strtoul.c:55-66 | strtoul inverts number under every base 2..16, padded with zeros or not |
| NumberText.OctalPrefix | cache/tests/fpga_smp/smptest03/sub_cpu1/lib/strtoul.c:36-53 | the prefixed octal form parses back under base 0 and base 8 |
| NumberText.HexPrefix | cache/tests/fpga_smp/smptest03/sub_cpu1/lib/strtoul.c:46-51 | the prefixed hexadecimal form parses back under base 0 iff the prefix is lower case or the value zero |
| NumberText.Decimal | cache/tests/fpga_smp/smptest03/sub_cpu1/lib/strtoul.c:36-41 | a decimal parses back under base 0 iff it has no added zeros or is below eight |
| NumberText.PrintThenParse | cache/tests/fpga_smp/smptest03/sub_cpu1/lib/vsprintf.c:62-143 | number then strtoul is the identity on 32-bit values |
| PrimeTheory.PrimeAboveRoot | cache/tests/fpga_smp/smptest17/sub_cpu1_main/cpu1.c:55-66 | a number from three on that is no square has a prime below it whose square is above it |
| PrimeTheory.MultipleIsLarge | cache/tests/fpga_smp/smptest17/sub_cpu1_main/cpu1.c:55-66 | a common multiple of 1..m+1 is at least 2^m, on which that fact rests |
| PrimeList.ScanStaysInside | cache/tests/fpga_smp/smptest17/sub_cpu1_main/cpu1.c:53-66 | the divisor scan never leaves the recorded entries, for every candidate |
| PrimeList.PrimeIfUndecided | cache/tests/fpga_smp/smptest17/sub_cpu1_main/cpu1.c:56-61 | a number no recorded prime up to its root divides is prime |
| PrimeList.ListPrimes | cache/tests/fpga_smp/smptest17/sub_cpu1_main/cpu1.c:49-71 | for every limit from three on, the array holds exactly the primes below it, ascending, and count is their number |

## Left out

- Process, pty, socket, terminal and file handling, parsing of commands and times, logging: I/O plumbing.
- VPI callbacks beyond get_signal, the other uthash operations (delete, sort, select, Bloom filter, hash functions): not needed by the modelled code, or abstract here.
- Integer width of times and counters: picoseconds, op_count, delays, the loop counters of the SMP tests and their `i << 2` are unbounded; pico_scale is one.
- Linked lists: links are maps from addresses instead of heap nodes; that the C structures do not overlap is taken for granted.
- Callbacks that remove or re-time hooks already listed, which the header forbids; adding a debug command from a foreign callback, which would do that.
- Scheduler.Simulator.WaitTimeDelay: covers the delay that is sent, not the forced variant's loop around it.
- MemBusRuns.AckExactly: covers stable inputs; changes during an operation are covered by the invariants only.
- DebugQueueTiming.RoundLaw: takes a clock period of at least four picoseconds (the source's are multiples of 1000) and rounds that miss no poll, as the scheduler's waits give (WaitIsTimely).
- Ranges of the memory bus and what they store: their answer is an input of the model.
- DebugPlanRuns.RunRegsRead: does not state the captured PC word, whose timing depends on the hardware.
- DebugPlanRuns.RunMemWrite: takes at most 2^30 words, because addresses wrap at 2^32.
- SmpWorkloadProof.ConcurrentOutcome: covers the final array, not the values printed inside the loop, which do depend on the schedule; the finish flag starts at zero and file entries are below 2560.
- Cache and memory ordering of the SMP tests: sequential consistency is assumed.
- IdleProtocol.IdleMeansQuiet: takes at most 65536 echoes outstanding; MatchExactly says what happens beyond.
- GdbTrap.TrapRoundTrip: keeps SR as a whole word, requires twenty bytes of stack below R15 and a stack apart from the register file.
- GdbStep.OneStep: the program's stores keep away from the planted word; StepUndone covers the rest.
- GdbCommands.ReadThenWriteMemory: memory blocks that cross 2^32 are modelled without wrapping, here and in GdbCodec.
- GdbPacket.Line.GetMsg: requires payloads of at most 198 bytes, which is what the buffer holds; longer ones are not modelled.
- The expedited stop reply, file I/O and console packets of the stub.
- GdbCodec.Target.XmemToMem: requires that the text holds the bytes asked for, as WriteMemory and WriteXbinMemory do of the buffer.
- NumberText.SameBase: covers texts without sign and leading spaces, which strtoul does not skip.
- PrimeList.ListPrimes: integers are unbounded and the array is large enough for the primes below the limit.
- The other copies of the C library, the spin-lock, DMA, interrupt and cache tests, the HDL sources.
