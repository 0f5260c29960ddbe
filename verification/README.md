# COS user-space schedulers: a verified model

COS lets a user-space process, the *lord*, decide which task runs on which CPU. The lord drains a ring of task events
written by the kernel, keeps a run queue, a task table and a CPU table, gives queued tasks to CPUs, commits its picks
through a shared page (the *shoot area*) and undoes what the kernel refuses. This project models the two schedulers
built that way, the shared structures they stand on, and the request hand-over of the RocksDB workload that feeds
them scheduling hints, and proves what they keep over every run.

| files | what they model |
|---|---|
| `Kernel`, `RunQueue`, `ShootArea`, `Lord` | machine integers and messages; the run queue; the shoot area; outcomes and the rollback loops |
| `FifoModel`, `FifoLord`, `FifoTheorems`, `FifoLeaks` | the FIFO scheduler: its steps as functions on the whole state; the class that works in place and computes them; what holds of them; when it loses a CPU |
| `ShinjukuModel`, `ShinjukuLord`, `ShinjukuEffect`, `ShinjukuInvariants`, `ShinjukuPolicy`, `ShinjukuOrder` | the same for the preempting Shinjuku scheduler |
| `MessageQueue`, `MessageRing` | the message queue object, and the ring under any interleaving of producer and consumer |
| `LordOnRing` | each lord's endless loop on the ring, interleaved with the producer |
| `Epistle`, `EpistleConcurrent` | the shared hint table as a sequential class, and under any number of threads |
| `Handshake`, `HandshakeOnTable` | load generator, workers and main thread of the RocksDB workload, with atomic hints, and on the hint table step by step |

Each scheduler is proved twice over. The class (`FifoLord`, `ShinjukuLord`) has the source's fields, heap tasks and
loops; the `ensures` of each method equates what it leaves behind with a function on values. The theorem files then
state what that function does without naming its body: `Settled` is the whole effect of a schedule and `Effected` the
whole effect of a message, said of the states before and after, and all invariants follow from them.

## What the main results say

* **Shinjuku, no discipline on messages.** The queue holds exactly the alive tasks in state Queued, each once, over
  every run, whatever the kernel sends, whatever the epistle reads as and whatever is refused. A message stops the
  lord exactly under `Stops`, and a schedule exactly when the entry of a COS CPU names a task that is not running.
* **Shinjuku, ownership.** From a good state a message keeps the lord alive and the state good *if and only if* it is
  `Safe`; so over whole runs ownership holds throughout and no exit, assert or null task is met *if and only if* the
  messages are disciplined. A concrete run from the start shows what else can happen.
* **Shinjuku, policy.** Over every run that the lord survives, whatever the messages: rollback is a transaction for
  every set of refused CPUs. A CPU is usable *if and only if* it runs no task of the lord, or that task had its slice or
  is idle; idle CPUs are used first, then those of CFS, then those with a task to displace, and a task that is not idle
  is left queued only when all usable CPUs are taken.
* **Own messages.** Either lord drains its ring as if its own messages were not in it, and over every run is never a task
  of its own.
* **Both queues.** Over every run, tasks that stay queued and are not refused themselves (and, for Shinjuku, are never
  read as idle) keep their order, and a task at index i sees at most i picks, whoever stands behind it and whoever else
  is refused.
* **FIFO.** Queue agreement and CPU exclusivity hold for every message stream. The code saves the old CPU state after
  it has overwritten it (`scheduler/fifo/fifo_lord.h:102-103`), so its rollback, whose comments say "revert the cpu
  states", restores the refused CPUs *if and only if* nothing was refused. Every COS CPU has a running task at the end
  of a run *if and only if* nothing was refused and no RUNNABLE or COS_PREEMPT came for a running task; a CPU lost in
  one of these ways is lost for ever. The model follows the code, with concrete runs from the start for each.
* **Epistle.** The sequential table refines a map with default 0. Under any interleaving, an add takes effect at one
  step, its value write, a get returns the current value, and every operation is wait-free while its key is stored or a
  slot is empty; alone, it does what the sequential one does. A key gets a second slot
  *if and only if* a compare-and-swap takes an empty slot for a key that is stored; and that happens only after an
  earlier one was lost to another thread inserting the same key, which sends an adding thread past its own key. As long
  as no swap was lost for a key, that key is an atomic register, whatever races there are for others. Starting no add of
  a new key that another thread is adding avoids the races, and nothing less does: any two adders of a new key can go on
  so that it is stored twice, while two slots are empty.
* **Ring.** Messages in flight have slots of their own *if and only if* there are at most 511 of them, or at most 32
  when the 32-bit counter wraps among them; a producer that leaves such room is always read in order. Put together
  with either lord's loop, over every interleaving, the lord's state is that of the run made of the delivered messages
  and its schedules, so all results about runs apply. It schedules exactly as often as its loop comes to it, each time
  after all that was published when it found the ring empty, and left alone it handles all that waits and schedules.
* **Handshake.** No assert of generator or worker ever fails, with any number of workers and in the exit phase too, and
  finished plus pending requests are always the polled ones, in order. The same holds when every add and get is
  broken into its steps on the hint table: each step is one step of the atomic protocol or a step inside a call, and
  calls return. One turn of each thread's loop is proved to do what it is for, and the threads end in order.

## Assumptions

* The process stops (`Halt`, `Dead`) where the source calls `exit(1)`, fails an assert, uses a null task, or indexes
  outside the CPU table; each way has a `Cause`. The CPU table is an array of `cpu_num` entries (the source reserves
  room for them and then indexes them), and `cpu_num` is at most 511, the size of the shoot area.
* `shoot_task` fails as a whole and writes nothing, or succeeds and writes any `info` words on CPUs of the mask.
* Pid 0 is not excluded: as in the source, a queue headed by pid 0 reads as empty. Where a property depends on it, the
  contract says so.
* Reads of the epistle inside a schedule may return anything, a value for each running task examined and a value for each
  queued task scanned. The clock may be anything; it is assumed not to go back only in `Clocked`.
* The producer of the ring, inside the kernel and not part of this model, writes the slot first and moves `head` next.
* Memory is sequentially consistent.
* The hint table holds no entry for a worker's thread id when the workload starts. The workload opens the lord's table
  without clearing it (`workload/rocksdb.cpp:850`), so this excludes a thread id used again under the same lord.

## Model

| member | source | states |
|---|---|---|
| `RunQueue.WithoutCuts` | scheduler/fifo/fifo_lord.h:47-59 | erasing cuts out the first occurrence and touches no other place of the queue |
| `RunQueue.WithoutKeepsTheRest` | scheduler/shinjuku/shinjuku_lord.h:58-70 | on a queue without duplicates erasing leaves exactly the other tasks |
| `RunQueue.PosWithout` | scheduler/fifo/fifo_lord.h:47-59 | erasing moves those behind up by one and nobody else |
| `RunQueue.EditKeepsOrder` | scheduler/fifo/fifo_lord.h:33-59 | enqueue and erase let no task overtake another nor fall back |
| `RunQueue.RunQueue.Enqueue` | scheduler/shinjuku/shinjuku_lord.h:44-46 | appends at the tail |
| `RunQueue.RunQueue.Dequeue` | scheduler/shinjuku/shinjuku_lord.h:48-51 | drops the head; an empty queue stays empty |
| `RunQueue.RunQueue.Peek` | scheduler/shinjuku/shinjuku_lord.h:53-56 | a non-zero answer is the head; 0 means empty or headed by pid 0 |
| `RunQueue.RunQueue.RemoveFromRq` | scheduler/shinjuku/shinjuku_lord.h:58-70 | in-place search and erase: fails exactly when the task is not queued (the exit), otherwise leaves `Without` |
| `ShootArea.CommittedAt` | lib/shoot_area.h:25-31 | each picked CPU's slot holds its pick, every other slot is untouched |
| `ShootArea.FailuresAreTheSetSlots` | lib/shoot_area.h:33-42 | the scan reports exactly the slots with `info` set, each once, upwards, with the pid in the slot |
| `ShootArea.RoundTrip` | lib/shoot_area.h:25-42 | commit, any answer, scan: what is undone are exactly the refused picks of this round, with this round's pids, each once and upwards, never a stale pid; the area is clean again |
| `ShootArea.AreaAfterRound` | lib/shoot_area.h:25-42 | the whole area after a round: picked slots keep the committed pids, all others are as they were |
| `ShootArea.UndonePids` | scheduler/shinjuku/shinjuku_lord.h:203-237 | a picked task goes back to the queue exactly when its CPU was refused, and never twice |
| `ShootArea.PlacesPairUp` | scheduler/shinjuku/shinjuku_lord.h:171-182 | picks pair tasks and CPUs one to one |
| `ShootArea.ShootArea.CommitShootMessage` | lib/shoot_area.h:25-31 | the loop leaves exactly the committed slots and the sequence number |
| `ShootArea.ShootArea.CheckShootState` | lib/shoot_area.h:33-42 | the loop returns the failures of the old slots and resets every scanned `info` |
| `Lord.LastSeqFromTheFront` | lib/lord.h:26-35 | taking messages from the front ends with the sequence number of the last message that is not the lord's own |
| `Lord.RestoreAt` | scheduler/shinjuku/shinjuku_lord.h:213-217 | total rollback gives every saved CPU its saved entry and changes no other |
| `Lord.RestoreEachAt` | scheduler/shinjuku/shinjuku_lord.h:222-236 | partial rollback gives each refused CPU its saved entry and changes no other |
| `Lord.RestoreAll` | scheduler/shinjuku/shinjuku_lord.h:213-217 | the loop over the array computes the total rollback |
| `Lord.RestoreFirst` | scheduler/shinjuku/shinjuku_lord.h:228-235 | the inner loop writes back the first saved entry of that CPU and stops |
| `FifoModel.PickFromSound` | scheduler/fifo/fifo_lord.h:80-106 | picks take the head of the queue in order to ascending CPUs that are not COS and not the lord's |
| `FifoLord.FifoLord.constructor` | scheduler/fifo/fifo_lord.h:68-73 | empty queue and table, all CPUs idle |
| `FifoLord.FifoLord.OnRunnable` | scheduler/fifo/fifo_lord.h:156-174 | in place, with every early return, computes the abstract handler |
| `FifoLord.FifoLord.OnBlocked` | scheduler/fifo/fifo_lord.h:176-194 | likewise; leaves the queue or frees the CPU |
| `FifoLord.FifoLord.OnNew` | scheduler/fifo/fifo_lord.h:196-210 | likewise; a second NEW stops the lord |
| `FifoLord.FifoLord.OnNewBlocked` | scheduler/fifo/fifo_lord.h:212-223 | likewise; the task is known but not queued |
| `FifoLord.FifoLord.OnDead` | scheduler/fifo/fifo_lord.h:225-249 | likewise; forgets the task |
| `FifoLord.FifoLord.OnPreemptCos` | scheduler/fifo/fifo_lord.h:253-274 | likewise, with both asserts |
| `FifoLord.FifoLord.OnPreempt` | scheduler/fifo/fifo_lord.h:277-299 | likewise; the CPU becomes NOCOS |
| `FifoLord.FifoLord.ConsumeMessage` | lib/lord.h:26-66 | the drain loop applies the handlers to exactly the messages in the ring, in order, and leaves tail == head |
| `FifoLord.FifoLord.Pick` | scheduler/fifo/fifo_lord.h:80-106 | the CPU loop makes exactly the abstract picks; it exits exactly when one of them is unknown |
| `FifoLord.FifoLord.UndoAll` | scheduler/fifo/fifo_lord.h:119-132 | all picks requeued in order, all saved CPU states written back |
| `FifoLord.FifoLord.UndoFailed` | scheduler/fifo/fifo_lord.h:134-151 | the refused ones requeued and their saved states written back, in scan order |
| `FifoLord.FifoLord.Schedule` | scheduler/fifo/fifo_lord.h:75-152 | the whole schedule computes the abstract schedule for every answer of the kernel |
| `FifoTheorems.RollbackIsIdentity` | scheduler/fifo/fifo_lord.h:102-103 | because the state is saved after the overwrite, both rollbacks change nothing |
| `FifoTheorems.ScheduleSettles` | scheduler/fifo/fifo_lord.h:75-152 | from a good state no schedule stops, and its whole effect on queue, tasks, CPUs, area and sequence number is `Settled` |
| `FifoTheorems.EachPickSettles` | scheduler/fifo/fifo_lord.h:100-151 | each picked task is recorded on its CPU, running or queued again as the kernel answered; no other task is touched |
| `FifoTheorems.AreaAfterSchedule` | lib/shoot_area.h:25-42 | after a schedule the picked CPUs' slots hold the new pids, all others are as they were, and no info is set |
| `FifoTheorems.ScheduleKeepsInv` | scheduler/fifo/fifo_lord.h:75-152 | every schedule, whatever is refused, keeps agreement, exclusivity and a clean area |
| `FifoTheorems.MessageEffect` | scheduler/fifo/fifo_lord.h:156-299 | a message changes its own task, that task's CPU entry and its queue place, and nothing else |
| `FifoTheorems.MessageKeepsInv` | scheduler/fifo/fifo_lord.h:156-299 | every message keeps the invariant, or is one of the four kernel errors, which are exactly those that stop the lord |
| `FifoTheorems.InitInv` | scheduler/fifo/fifo_lord.h:68-73 | the initial state is good |
| `FifoTheorems.EveryRunIsSafe` | scheduler/fifo/fifo_lord.h:47-299 | over every run: queue equals queued tasks, no two tasks share a CPU, each on a COS CPU not the lord's; the assert at 272 and the exits for an unqueued or unknown task are never reached |
| `FifoTheorems.DrainIsARun` | lib/lord.h:26-66 | draining equals running the messages one by one; `seq_` is that of the last non-lord message |
| `FifoTheorems.CommitsTheLastSeq` | scheduler/fifo/fifo_lord.h:108-112 | drain then schedule commits the last sequence number modulo 2^16 |
| `FifoTheorems.StopsForItsReason` | scheduler/fifo/fifo_lord.h:196-299 | the cause of a stop is the one that the message has |
| `FifoTheorems.DrainSkipsOwn` | lib/lord.h:31-33 | draining equals draining the messages without the lord's own |
| `FifoTheorems.LordIsNeverScheduled` | lib/lord.h:31-33 | over every run the lord's pid is never known, queued or picked |
| `FifoTheorems.PicksZipQueueWithFreeCpus` | scheduler/fifo/fifo_lord.h:80-106 | the picks are the queue zipped with the ascending free CPUs, as many as the shorter has |
| `FifoTheorems.FreeAreTheFreeCpus` | scheduler/fifo/fifo_lord.h:80-84 | the free CPUs are exactly those neither COS nor the lord's, ascending |
| `FifoTheorems.WorkConserving` | scheduler/fifo/fifo_lord.h:80-106 | before the shoot the queue reads as empty or every CPU but the lord's is COS |
| `FifoTheorems.RestoresOnlyIfNothingRefused` | scheduler/fifo/fifo_lord.h:129-149 | refused CPUs regain their old state if and only if nothing was refused |
| `FifoTheorems.RestorationFails` | scheduler/fifo/fifo_lord.h:102-132 | from the start, lord on CPU 2 of four and 511 slots: one task announced and one failed call lose the CPU |
| `FifoTheorems.RefusalLeaks` | scheduler/fifo/fifo_lord.h:119-151 | each refused CPU stays COS with no task on it |
| `FifoLeaks.ScheduleLeaksExactlyOnRefusal` | scheduler/fifo/fifo_lord.h:75-152 | a schedule leaves every COS CPU with a running task if and only if no pick is refused |
| `FifoLeaks.MessageLeaksExactlyWhenItLeaves` | scheduler/fifo/fifo_lord.h:156-299 | a survived message does if and only if it is not RUNNABLE or COS_PREEMPT of a running task |
| `FifoLeaks.CoveredExactlyWithoutLeaks` | scheduler/fifo/fifo_lord.h:75-299 | over every survived run: every COS CPU has a running task in the end if and only if no event was of these kinds |
| `FifoLeaks.LostWithNothingRefused` | scheduler/fifo/fifo_lord.h:156-174 | from the start: RUNNABLE, or COS_PREEMPT, of a task running on CPU 0 loses that CPU |
| `FifoLeaks.LosingAllStarvesForEver` | scheduler/fifo/fifo_lord.h:80-106 | once all CPUs but the lord's are lost, no run ever picks again |
| `FifoTheorems.LeaksAreForEver` | scheduler/fifo/fifo_lord.h:75-299 | no run gives such a CPU back |
| `FifoTheorems.OneTotalRefusalCanStarveForEver` | scheduler/fifo/fifo_lord.h:119-132 | after one failed call that covered all CPUs nothing is ever picked again |
| `FifoTheorems.TotalRefusalRotates` | scheduler/fifo/fifo_lord.h:119-127 | a failed call of k picks rotates the queue by k |
| `FifoTheorems.TurnMovesUp` | scheduler/fifo/fifo_lord.h:80-151 | a schedule moves a task that stays queued and is not refused up by exactly the tasks picked |
| `FifoTheorems.WaitIsBounded` | scheduler/fifo/fifo_lord.h:33-151 | over every run, a task at index i that stays queued and is not refused itself sees at most i picks, each of which moves it up |
| `FifoTheorems.NoOvertaking` | scheduler/fifo/fifo_lord.h:33-151 | over every run, tasks that stay queued and are not refused themselves keep their order |
| `ShinjukuPolicy.FreeExactlyWhenUsable` | scheduler/shinjuku/shinjuku_lord.h:101-132 | a CPU is free if and only if it is from 3 on, not the lord's, and not COS, or its task had its slice in true time, or its task's hint is idle |
| `ShinjukuPolicy.FreeIsInOrder` | scheduler/shinjuku/shinjuku_lord.h:149-161 | free CPUs stand in the order idle, CFS, to be displaced, ascending in each |
| `ShinjukuPolicy.PickedInOrder` | scheduler/shinjuku/shinjuku_lord.h:149-161 | a free CPU that goes before a picked one has been picked before it |
| `ShinjukuPolicy.IdleBeforeCfs` | scheduler/shinjuku/shinjuku_lord.h:150-155 | when a CPU is taken from CFS every idle CPU has been given a task at an earlier place of the picks |
| `ShinjukuLord.ShinjukuLord.constructor` | scheduler/shinjuku/shinjuku_lord.h:79-84 | empty queue and table, all CPUs idle with pid 0 |
| `ShinjukuLord.ShinjukuLord.OnRunnable` | scheduler/shinjuku/shinjuku_lord.h:247-267 | in place, with every early return, computes the abstract handler |
| `ShinjukuLord.ShinjukuLord.OnBlocked` | scheduler/shinjuku/shinjuku_lord.h:269-289 | likewise; leaves the queue or frees the CPU |
| `ShinjukuLord.ShinjukuLord.OnNew` | scheduler/shinjuku/shinjuku_lord.h:291-305 | likewise; a second NEW stops the lord |
| `ShinjukuLord.ShinjukuLord.OnNewBlocked` | scheduler/shinjuku/shinjuku_lord.h:307-318 | likewise; the task is known but not queued |
| `ShinjukuLord.ShinjukuLord.OnDead` | scheduler/shinjuku/shinjuku_lord.h:320-345 | likewise; forgets the task |
| `ShinjukuLord.ShinjukuLord.OnPreempt` | scheduler/shinjuku/shinjuku_lord.h:348-371 | likewise; the CPU becomes CFS and keeps its pid entry |
| `ShinjukuLord.ShinjukuLord.OnPreemptCos` | scheduler/shinjuku/shinjuku_lord.h:374-399 | likewise, with both asserts |
| `ShinjukuLord.ShinjukuLord.ConsumeMessage` | lib/lord.h:26-66 | the drain loop applies the handlers to exactly the messages in the ring, in order, and leaves tail == head |
| `ShinjukuLord.ShinjukuLord.Classify` | scheduler/shinjuku/shinjuku_lord.h:101-132 | the first loop yields the three lists, or stops at the first CPU whose task is missing or not running |
| `ShinjukuLord.ShinjukuLord.NextCpu` | scheduler/shinjuku/shinjuku_lord.h:149-161 | takes from the idle list, then the CFS list, then the preemptible list |
| `ShinjukuLord.ShinjukuLord.Pick` | scheduler/shinjuku/shinjuku_lord.h:136-185 | the pick loop terminates with exactly the abstract picks, rest, set-aside tasks and saved CPU states |
| `ShinjukuLord.ShinjukuLord.PutIdleBack` | scheduler/shinjuku/shinjuku_lord.h:188-191 | the set-aside tasks go to the tail, in order |
| `ShinjukuLord.ShinjukuLord.UndoAll` | scheduler/shinjuku/shinjuku_lord.h:203-217 | all picks requeued in order, all saved CPU states written back |
| `ShinjukuLord.ShinjukuLord.UndoFailed` | scheduler/shinjuku/shinjuku_lord.h:219-237 | the refused ones requeued and their saved states written back, in scan order |
| `ShinjukuLord.ShinjukuLord.Schedule` | scheduler/shinjuku/shinjuku_lord.h:89-243 | the whole schedule computes the abstract schedule for every clock, epistle and answer of the kernel |
| `ShinjukuEffect.PickLoopRefines` | scheduler/shinjuku/shinjuku_lord.h:136-185 | for some scanned prefix: picks are its non-idle tasks in order on a prefix of the free CPUs, idle ones set aside in order, the rest untouched; it stops only on an empty queue or when CPUs run out |
| `ShinjukuEffect.PicksSplitTheQueue` | scheduler/shinjuku/shinjuku_lord.h:136-191 | every queued task is picked, set aside or left, exactly one of them: none lost, none doubled |
| `ShinjukuEffect.TotalRollback` | scheduler/shinjuku/shinjuku_lord.h:180-217 | marking then total rollback gives back the CPU table |
| `ShinjukuEffect.PartialRollback` | scheduler/shinjuku/shinjuku_lord.h:180-236 | marking then partial rollback leaves new owners exactly on the CPUs that were not refused |
| `ShinjukuEffect.ScheduleSettles` | scheduler/shinjuku/shinjuku_lord.h:89-243 | the whole effect of a schedule on queue, tasks, CPUs, area and sequence number is `Settled` |
| `ShinjukuInvariants.FineExactlyWhenEntriesRun` | scheduler/shinjuku/shinjuku_lord.h:116-124 | the first loop stops exactly when a COS CPU names a task that is missing or not running |
| `ShinjukuInvariants.ScheduleKeepsCore` | scheduler/shinjuku/shinjuku_lord.h:89-243 | without any discipline a schedule keeps agreement, or stops in exactly that case |
| `ShinjukuInvariants.MessageEffect` | scheduler/shinjuku/shinjuku_lord.h:247-399 | a message changes its own task, that task's CPU entry and its queue place, and nothing else |
| `ShinjukuInvariants.MessageKeepsCore` | scheduler/shinjuku/shinjuku_lord.h:247-399 | without any discipline a message keeps agreement, or is one of `Stops`, which are exactly those that stop the lord |
| `ShinjukuInvariants.EveryRunAgrees` | scheduler/shinjuku/shinjuku_lord.h:58-399 | over every run of any messages: queue equals queued tasks; the exits for an unqueued or unknown task are never reached; reserved CPUs and the lord's are never used |
| `ShinjukuInvariants.DrainIsARun` | lib/lord.h:26-66 | draining equals running the messages one by one; `seq_` is that of the last non-lord message |
| `ShinjukuInvariants.CommitsTheLastSeq` | scheduler/shinjuku/shinjuku_lord.h:196-200 | drain then schedule commits the last sequence number modulo 2^16 |
| `ShinjukuInvariants.StopsForItsReason` | scheduler/shinjuku/shinjuku_lord.h:291-399 | the cause of a stop is the one that the message has |
| `ShinjukuInvariants.DrainSkipsOwn` | lib/lord.h:31-33 | draining equals draining the messages without the lord's own |
| `ShinjukuInvariants.LordIsNeverScheduled` | lib/lord.h:31-33 | over every run the lord's pid is never known, queued or picked |
| `ShinjukuInvariants.ReservedCpusAreLeftAlone` | scheduler/shinjuku/shinjuku_lord.h:101-105 | over every run CPUs 0 to 2 and the lord's keep their entries and run no task |
| `ShinjukuInvariants.EightMustWait` | scheduler/shinjuku/shinjuku_lord.h:10-126 | one nanosecond before a slice of 400 microseconds ends its task is not displaced |
| `ShinjukuInvariants.DisciplineIsExact` | scheduler/shinjuku/shinjuku_lord.h:247-399 | a message keeps the lord alive and ownership intact if and only if it is `Safe` |
| `ShinjukuInvariants.UnsafeMessageBreaks` | scheduler/shinjuku/shinjuku_lord.h:269-399 | any other message that is survived leaves a CPU without its owner or a task off its CPU |
| `ShinjukuInvariants.DisplacedTaskBlocks` | scheduler/shinjuku/shinjuku_lord.h:269-289 | from the start: a displaced task that blocks before its COS_PREEMPT frees the CPU under the task that took it over |
| `ShinjukuInvariants.SettledKeepsOwned` | scheduler/shinjuku/shinjuku_lord.h:176-236 | every outcome of a schedule keeps ownership |
| `ShinjukuInvariants.ScheduleKeepsInv` | scheduler/shinjuku/shinjuku_lord.h:89-243 | from a good state every schedule succeeds and leaves a good state: the lookup at 118 is never null and the assert at 122 holds |
| `ShinjukuInvariants.DisciplinedRunsAreTheGoodOnes` | scheduler/shinjuku/shinjuku_lord.h:89-399 | over every run: ownership throughout and no exit or assert, if and only if the messages are disciplined |
| `ShinjukuInvariants.OneOwner` | scheduler/shinjuku/shinjuku_lord.h:176-182 | of two tasks recorded on a CPU one is displaced; the CPU's entry names its one owner |
| `ShinjukuPolicy.RollbackIsTransactional` | scheduler/shinjuku/shinjuku_lord.h:203-237 | in every schedule that is survived, for every answer, the CPU table changes exactly on assigned minus refused CPUs, to the picked pids |
| `ShinjukuPolicy.OldOwnersAfterwards` | scheduler/shinjuku/shinjuku_lord.h:180-236 | the owner that was to be displaced from a refused CPU owns it still, unchanged; from a granted one it is displaced |
| `ShinjukuPolicy.RefusedTasksGoToTheTail` | scheduler/shinjuku/shinjuku_lord.h:203-226 | refused tasks are queued at the tail, in order of assignment on total and by CPU on partial failure |
| `ShinjukuPolicy.EachPickSettles` | scheduler/shinjuku/shinjuku_lord.h:176-237 | each picked task is recorded on its CPU with this schedule's time, running or queued again as the kernel answered; no other task is touched |
| `ShinjukuPolicy.AreaAfterSchedule` | lib/shoot_area.h:25-42 | after a schedule the picked CPUs' slots hold the new pids, all others are as they were, and no info is set |
| `ShinjukuPolicy.DisplacementIsJustified` | scheduler/shinjuku/shinjuku_lord.h:126-161 | in every state: a displaced task had its slice or is idle, and every idle and CFS CPU was used first |
| `ShinjukuPolicy.NoTaskWaitsForAFreeCpu` | scheduler/shinjuku/shinjuku_lord.h:136-191 | in every state: a non-idle task left queued means every CPU that runs no task, or one whose slice is over or hint is idle, was used (or pid 0 ended the scan) |
| `ShinjukuPolicy.RunsAreTimely` | scheduler/shinjuku/shinjuku_lord.h:98-178 | over every run no shoot time lies in the future, so the u64 subtraction never wraps |
| `ShinjukuPolicy.SlicesAreRespected` | scheduler/shinjuku/shinjuku_lord.h:89-185 | from the start, after every survived run of any messages, the next schedule displaces only after a full slice or an idle hint, with every idle and CFS CPU used first |
| `ShinjukuOrder.TurnMovesUp` | scheduler/shinjuku/shinjuku_lord.h:136-237 | a schedule moves a task that stays queued, is not idle and not refused up by exactly the tasks picked and set aside |
| `ShinjukuOrder.WaitIsBounded` | scheduler/shinjuku/shinjuku_lord.h:39-399 | over every run, a task at index i that stays queued and is never read as idle nor refused itself sees at most i picks |
| `ShinjukuOrder.NoOvertaking` | scheduler/shinjuku/shinjuku_lord.h:39-399 | over every such run two such tasks keep their order |
| `MessageQueue.StepCloser` | lib/message_queue.h:31 | moving tail, modulo 2^32, leaves one message less |
| `MessageQueue.MessageQueue.ConsumeMsg` | lib/message_queue.h:27-34 | returns the oldest message and leaves the others; the zero message from an empty queue |
| `MessageQueue.MessageQueue.Empty` | lib/message_queue.h:36-38 | true exactly when no message is left |
| `MessageRing.OwnSlotsExactlyWhenTheyFit` | kernel/message_queue.h:13-25 | slots in flight are distinct if and only if at most 511 messages, or 32 across the counter wrap |
| `MessageRing.MoveKeepsInv` | lib/message_queue.h:27-34 | each of the four steps of producer and consumer keeps the ring's invariant, wrap included |
| `MessageRing.DeliveredInOrder` | lib/message_queue.h:27-38 | over every interleaving, with room left, what is consumed is a prefix of what was produced |
| `MessageRing.RoomIsExact` | lib/message_queue.h:27-38 | that room is exactly what the producer must leave: without it some write destroys an undelivered message |
| `MessageRing.ContentsAreUndelivered` | lib/message_queue.h:27-38 | what the queue object reports are the messages produced and not delivered |
| `MessageRing.NoSideIsStuck` | lib/message_queue.h:27-38 | the producer can always go on, and the consumer can read exactly when something published was not delivered |
| `LordOnRing.RunKeepsInv` | lib/lord.h:26-66 | over every interleaving of producer and lord's loop: handled is delivered, and a schedule comes after all that was published when the ring was found empty |
| `LordOnRing.EachDecisionIsATurn` | scheduler/fifo/fifo_scheduler.cpp:18-21 | over every run the schedules handled are exactly those the loop came to, in order |
| `LordOnRing.EachTurnFollowsADrain` | scheduler/shinjuku/shinjuku_scheduler.cpp:18-21 | a schedule comes after the ring was found empty with all published handled, and the lord drains again next |
| `LordOnRing.LordAloneDrainsAndSchedules` | scheduler/shinjuku/shinjuku_scheduler.cpp:18-21 | from every state the lord, left alone, handles all that waits, once each and in order, then schedules |
| `LordOnRing.FifoSystemIsSafe` | scheduler/fifo/fifo_scheduler.cpp:18-21 | over every interleaving with room left, the FIFO lord's state is the run of the delivered prefix and its schedules; the invariant holds and it stops for a kernel error only |
| `LordOnRing.ShinjukuSystemIsSafe` | scheduler/shinjuku/shinjuku_scheduler.cpp:18-21 | the same for Shinjuku, with agreement, and with ownership if the handled messages are disciplined |
| `Epistle.ProbingStopsExactlyWhen` | lib/epistle.h:52-85 | a probe stops within 512 steps if and only if the key or an empty slot exists, else it never stops |
| `Epistle.ProbesAreLinear` | lib/epistle.h:54-85 | the probe for a key looks at slot (key + d) mod 512 after d steps |
| `Epistle.FirstSlots` | lib/epistle.h:83-85 | a key below 512 starts at its own number; keys share their first slot exactly when they are a multiple of 512 apart |
| `Epistle.GetAfterAdd` | lib/epistle.h:52-80 | get after add returns the value added, and no other key is disturbed |
| `Epistle.AddIsMapUpdate` | lib/epistle.h:52-67 | an add keeps the table valid and is exactly a map update |
| `Epistle.LookupIsMapLookup` | lib/epistle.h:69-80 | a get is a map look-up with default 0 |
| `Epistle.Epistle.constructor` | lib/epistle.h:48-54 | the zeroed table is valid and empty |
| `Epistle.Epistle.Add` | lib/epistle.h:52-67 | the probing loop terminates (cyclic distance) and writes exactly the abstract add |
| `Epistle.Epistle.Get` | lib/epistle.h:69-80 | the probing loop terminates and returns the look-up |
| `EpistleConcurrent.StepKeepsInv` | lib/epistle.h:52-80 | every step of every thread keeps each stored key reachable through taken slots and never changes a taken key |
| `EpistleConcurrent.TakenForEver` | lib/epistle.h:55-58 | over every run a claimed slot keeps its key |
| `EpistleConcurrent.AddTakesEffectAtItsWrite` | lib/epistle.h:52-67 | what readers see for a key changes only at the value write of an add of that key, to that value |
| `EpistleConcurrent.GetReadsTheCurrentValue` | lib/epistle.h:69-80 | a get returns what the table holds for its key at the step where it returns |
| `EpistleConcurrent.AddAloneIsSequential` | lib/epistle.h:52-67 | from every state an add left alone ends and does exactly what the sequential add does |
| `EpistleConcurrent.GetAloneIsSequential` | lib/epistle.h:69-80 | from every state a get left alone ends and returns exactly what the sequential get does |
| `EpistleConcurrent.UniqueExactlyUnlessClaimedAgain` | lib/epistle.h:55-58 | a step gives a key a second slot if and only if its swap takes an empty slot for a stored key |
| `EpistleConcurrent.OneSlotExactlyUnlessClaimedAgain` | lib/epistle.h:55-58 | over every run: one slot a key if and only if no swap so far did that |
| `EpistleConcurrent.SingleForExactlyUnlessLost` | lib/epistle.h:55-62 | key by key, a step first sends an adding thread past its own key if and only if its swap is lost to that key |
| `EpistleConcurrent.SingleExactlyUnlessOwnKeyLost` | lib/epistle.h:55-62 | the same for all keys at once |
| `EpistleConcurrent.SingleExactlyWithoutLoss` | lib/epistle.h:55-62 | over every run: one slot a key and no adding thread past its own key, up to now, if and only if no swap so far was lost to the same key |
| `EpistleConcurrent.TwiceOnlyAfterLoss` | lib/epistle.h:55-62 | a key in two slots goes back to an earlier swap lost to that key |
| `EpistleConcurrent.ValuesComeFromAdds` | lib/epistle.h:52-80 | over every run a key reads as 0 or as a value some add of it wrote |
| `EpistleConcurrent.GetReturnsZeroOrAdded` | lib/epistle.h:69-80 | and so does every get |
| `EpistleConcurrent.DisciplineAvoidsRaces` | lib/epistle.h:52-67 | a key whose adds are started only when it is stored or nobody else adds it is never lost to a race, over every run |
| `EpistleConcurrent.DisciplinedRunsStaySingle` | lib/epistle.h:52-67 | if that holds of all keys, each key has one slot at most |
| `EpistleConcurrent.EachKeyIsARegister` | lib/epistle.h:52-80 | over every run, while no swap was lost for a key, that key reads as the value of the last add that wrote it |
| `EpistleConcurrent.GetReturnsTheLatest` | lib/epistle.h:69-80 | and every get of it returns that |
| `EpistleConcurrent.DisciplinedKeysAreRegisters` | lib/epistle.h:52-80 | so it is throughout for a key whose adds are disciplined |
| `EpistleConcurrent.OperationsAreWaitFree` | lib/epistle.h:52-80 | over every run, races included, an operation ends within 8 * 512 turns of its own thread, whatever the others do, while its key is stored or a slot is empty |
| `EpistleConcurrent.RaceFreeOperationsAreFaster` | lib/epistle.h:52-80 | a get, or an add of a key with no lost swap, within 4 * 512 |
| `EpistleConcurrent.AnyRaceCanStoreTwice` | lib/epistle.h:52-62 | from every state in which two threads add one new key and two slots are empty, some steps of those two store it twice |
| `EpistleConcurrent.MayStartIsNeeded` | lib/epistle.h:52-62 | so an add started while another thread adds the same new key can end with the key stored twice |
| `EpistleConcurrent.RaceStoresTwice` | lib/epistle.h:55-58 | four such steps are enough when both saw the same empty slot and the next one is empty |
| `EpistleConcurrent.RaceHappens` | lib/epistle.h:55-58 | a run of eight steps from the zeroed table, to a key in two slots |
| `Handshake.StepKeepsInv` | workload/rocksdb.cpp:445-576 | every step of a worker, the generator or main keeps who owns each batch and what was polled |
| `Handshake.NoAssertFails` | workload/rocksdb.cpp:445-576 | over every interleaving of any number of workers, to the end of the exit phase, no assert fails and no work entry is missing |
| `Handshake.BatchesAreHandedOver` | workload/rocksdb.cpp:462-560 | over every interleaving a batch is cleared or filled only while its worker cannot read it; finished followed by pending equals polled, in order |
| `Handshake.WorkerStarts` | workload/rocksdb.cpp:445-451 | a new worker raises its lock and registers as idle |
| `Handshake.WorkerTurn` | workload/rocksdb.cpp:453-493 | one turn of the loop: a runnable worker with a batch handles all of it, in order, and is back idle; otherwise it is back as it was; once exit_all is raised it leaves |
| `Handshake.WorkerFinishesItsBatch` | workload/rocksdb.cpp:456-492 | a runnable worker that has passed the loop test finishes its whole batch, even if exit_all is raised meanwhile |
| `Handshake.GeneratorTurn` | workload/rocksdb.cpp:519-528 | a round begins at the first worker, passes runnable ones and turns to the first idle one; with none, a new round begins; once exit_all is raised the exit phase does |
| `Handshake.GeneratorExitTurn` | workload/rocksdb.cpp:570-575 | in the exit phase every worker is made runnable, until exit_generator is raised |
| `Handshake.WaitsExactlyFor` | workload/rocksdb.cpp:874-926 | generator and main wait for nothing but their lock, a worker's lock, or a worker's end |
| `Handshake.RunsEndInOrder` | workload/rocksdb.cpp:914-932 | over every interleaving a worker ends only after exit_all, the generator is stopped only when all workers have ended and ends only then |
| `Handshake.GeneratorDealsABatch` | workload/rocksdb.cpp:519-566 | an idle worker is dealt exactly what the network gives, announced and made runnable; nothing if it gives nothing |
| `HandshakeOnTable.LostOnlyInTheExitPhase` | workload/rocksdb.cpp:570-575 | an add whose value no reader sees is a worker's first or the generator's, and the generator is in its exit phase |
| `HandshakeOnTable.MoveSimulates` | workload/rocksdb.cpp:445-576 | each move is the thread's next step on the table inside a call, unseen, or exactly one step of the atomic protocol |
| `HandshakeOnTable.CallsReturn` | lib/epistle.h:52-80 | a thread left alone is back from its add or get after finitely many moves, while its key is stored or a slot is empty |
| `HandshakeOnTable.RunsAreHandshakes` | workload/rocksdb.cpp:445-576 | over every interleaving of the table's steps, from any table that stores no worker's key: no assert fails and that simulation holds |
| `HandshakeOnTable.BatchesAreHandedOver` | workload/rocksdb.cpp:462-560 | over the same interleavings batches are handed over without overlap or loss |

## Left out

- System calls, memory mapping, cgroups, thread creation and affinity: the kernel interface, kept only as the answer of `shoot_task`.
- Kernel-side scheduling and its check of sequence numbers: not in the repository; expressed as assumptions on messages and answers.
- Logging, signals, timers and the endless main loops: only their order, drain then schedule, is used.
- The RocksDB database, Poisson arrivals, percentiles and printing, the other workloads, the neural network and the Python scripts: load and output, with no scheduling state.
- Weak-memory effects of fences and atomics: every access is one atomic step in program order of its thread.
- Concurrent objects in place: `EpistleConcurrent`, `MessageRing`, `LordOnRing`, `Handshake` and `HandshakeOnTable` model their threads as steps on values, because the steps of several threads interleave; in-place update is modelled by the classes `Epistle`, `MessageQueue`, `ShootArea`, `RunQueue` and the two lords.
- Epistle.Epistle.Add: requires a stored key or an empty slot, because the source loops for ever otherwise; `ProbingStopsExactlyWhen` states exactly when that is. The same holds for `Get`.
- HandshakeOnTable.RunsAreHandshakes: the lord's own gets of the hints are not among the threads; a get changes nothing in the table.
- Handshake.WorkerFinishesItsBatch: progress of each side is proved for that side running alone; no fairness or liveness of the interleaved protocol is claimed.
- MessageRing.DeliveredInOrder: requires the producer to leave room, which the kernel's code, not part of this model, would have to ensure; `RoomIsExact` states that nothing less would do.
- FifoTheorems.NoOvertaking: for tasks not refused themselves, like `WaitIsBounded`, because a refused task goes to the tail; `TotalRefusalRotates` says where.
- ShinjukuOrder.NoOvertaking: for tasks never read as idle nor refused themselves, like `WaitIsBounded`, because such a task goes to the tail.
- ShinjukuLord.ShinjukuLord.Schedule: repeated reads of the epistle for one task in one schedule do not occur in the source, so one answer a read is kept; reclaiming the memory of dead tasks is not modelled.
- The two schedulers' queues are one class here, because their code is the same; the commit of time stamps to standard error by the FIFO lord is dropped.
- CPU numbers beyond the width of `cpu_set_t`: not modelled.
