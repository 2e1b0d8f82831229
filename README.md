# CPU scheduling simulators — a verified model

This project models the two discrete-event CPU-scheduling simulators of the
CSC4320-OS homework: the three-level multilevel feedback queue (`mlfq.c`)
and the round robin scheduler (`round_robin.c`). Each simulator keeps:

- a process table whose rows are updated in place;
- one or more FIFO ready queues;
- a simulated clock and a completion counter;
- an append-only Gantt log of `(process id, start, end)` segments.

Each simulator has two layers:

- **Value-level model** (`mlfq_model.dfy`, `rr_model.dfy`).
  - A state datatype.
  - One loop iteration as a function `Step`, with one function per phase of the iteration: idle jump, slice, admission or scan, completion.
  - The loop invariant, proved preserved by every phase.
  - The whole run as a terminating function `Run`. `Schedule` applies it to a loaded table.
- **Imperative layer** (`mlfq.dfy`, `round_robin.dfy`).
  - The source's own loops and in-place updates: the MLFQ `Queue` is a class over a 100-slot buffer; the process table is an array; the round-robin `in_queue` flags are an array of 100 booleans.
  - Each method is proved to compute the matching model function.
  - So `MlfqSchedule` and `RoundRobinSchedule` leave the table and return the log that `Schedule` describes.

The properties, including concrete traces of the code, are in
`mlfq_properties.dfy` and `rr_properties.dfy`. `timeline.dfy` holds the
Gantt entry type.

The model follows the code as written.

- **MLFQ admission.** Arrivals are admitted only when their arrival time *equals* the clock. A process that arrives inside a slice is picked up only when every queue has drained, and the idle jump then moves the clock *backwards*. For P1(0,10), P2(3,2), `MlfqProperties.LateArrivalTrace` proves the log P1:0-4, P1:4-10, P2:3-5. Its third segment starts before the second ends.
- **Round robin scan.** The scan after a slice uses `<=`, and runs after the dispatched row's flag has been cleared. As a result:
  - a row that still has work is appended twice;
  - a row that has just finished stays queued, and its later dispatch logs a zero-length segment and raises the counter a second time.
- **A textbook round robin would differ.** For P1(0,5), P2(1,3), P3(2,1) with quantum 2, a textbook round robin gives P1:0-2, P2:2-4, … . This code instead produces P1:0-2, P1:2-4, P2:4-6, P3:6-7, P1:7-8, P1:8-8 and exits with P2 unfinished. The model follows the code (`RoundRobinProperties.UnfinishedAtExit`).
- **Segment ordering.** Segments of a scheduler log are usually expected not to overlap and to have positive length.
  - MLFQ: every segment has positive length, which `MlfqProperties.ScheduleCompletes` proves; segments can overlap (`MlfqProperties.LateArrivalTrace`).
  - Round robin: a segment can have length 0 (P1:8-8 above), so segment lengths are only proved to lie between 0 and the quantum. The segments never overlap: each starts no earlier than the previous one ends (`RoundRobinProperties.ScheduleEnds`).

## Model

| member | source | states |
|---|---|---|
| MlfqModel.InitProcess | homeworks/assignment2/mlfq.c:50-60 | the row has the given id, arrival and burst; the remaining time equals the burst; the statistics are zero; it starts at level 0 and is not completed |
| Mlfq.Queue.constructor | homeworks/assignment2/mlfq.c:62-66 | a fresh 100-slot queue with front and rear at 0 (no entries) and the given quantum |
| Mlfq.InitQueues | homeworks/assignment2/mlfq.c:62-70 | three distinct empty queues with quanta 4, 8 and the run-to-completion sentinel -1 |
| Mlfq.Queue.IsQueueEmpty | homeworks/assignment2/mlfq.c:72-74 | true exactly when the queue has no live entry (front equals rear) |
| MlfqModel.QueueState.Enqueue | homeworks/assignment2/mlfq.c:76-78 | the live contents gain the id at the back; the front and the quantum are unchanged |
| Mlfq.Queue.Enqueue | homeworks/assignment2/mlfq.c:76-78 | writes only the slot at rear and advances rear by one; the live contents become the old contents plus the id (FIFO) |
| MlfqModel.QueueState.Dequeue | homeworks/assignment2/mlfq.c:80-82 | the head followed by the new live contents is exactly the old live contents; the slots are unchanged |
| Mlfq.Queue.Dequeue | homeworks/assignment2/mlfq.c:80-82 | returns the head, advances front by one, leaves rear and the buffer alone |
| MlfqModel.ReadyLevel | homeworks/assignment2/mlfq.c:86-90 | the first level from `from` whose queue is not empty: every level before it is empty |
| Mlfq.GetNextProcess | homeworks/assignment2/mlfq.c:85-92 | the head of the first non-empty queue, or -1, read without removing it |
| MlfqModel.NextProcess | homeworks/assignment2/mlfq.c:85-92 | with every queue empty the result is -1; otherwise it is the first live entry of the first non-empty level |
| MlfqModel.NextIsWaitingHead | homeworks/assignment2/mlfq.c:85-92 | under the invariant, -1 exactly when all queues are empty; otherwise the head of the first non-empty level, a row not completed with work left whose level is that queue |
| MlfqModel.ArrivalsMembers | homeworks/assignment2/mlfq.c:95-102 | the admitted indices are exactly the rows not completed whose arrival equals the clock, in ascending order |
| MlfqModel.AdmitUpTo | homeworks/assignment2/mlfq.c:96-101 | every row visited that arrives at the clock is set to level 0, every other row is unchanged |
| MlfqModel.AdmitQueues | homeworks/assignment2/mlfq.c:95-102 | queue 0 gains the arrivals at its back; its front, its quantum and queues 1 and 2 are unchanged |
| Mlfq.AddNewArrivals | homeworks/assignment2/mlfq.c:95-102 | the loop leaves the table and queue 0 equal to AdmitUpTo and the old slots plus the arrivals |
| Mlfq.AdmitArrivals | homeworks/assignment2/mlfq.c:95-102 | the three queues become AdmitQueues of the old ones and the table AdmitUpTo |
| MlfqModel.AddNewArrivals | homeworks/assignment2/mlfq.c:95-102 | each row is admitted to level 0 exactly when it arrives at the clock and is not completed; queue 0's live contents gain the arrivals at the back; queues 1 and 2, the clock, the counter and the log are kept |
| MlfqModel.AdmitFacts | homeworks/assignment2/mlfq.c:95-102 | admission keeps the queue shape; the arrivals were not queued before and are not the running row |
| MlfqModel.AdmitInv | homeworks/assignment2/mlfq.c:95-102 | admission keeps the invariant, the static fields and the total remaining time |
| MlfqProperties.NoArrivals | homeworks/assignment2/mlfq.c:95-102 | with no row arriving at the clock, admission changes nothing |
| MlfqModel.EarliestUpTo | homeworks/assignment2/mlfq.c:121-127 | -1 exactly when every row is completed; otherwise a row not completed with the smallest arrival, the lowest index on ties |
| Mlfq.FindNextArrival | homeworks/assignment2/mlfq.c:121-127 | the search loop returns EarliestUpTo of the table |
| MlfqModel.Idle | homeworks/assignment2/mlfq.c:119-133 | with every row completed nothing changes; otherwise the clock becomes the arrival of the earliest unfinished row (EarliestUpTo); the log, the counter and the table size are kept |
| MlfqModel.IdleInv | homeworks/assignment2/mlfq.c:119-133 | with every queue empty and work left, the clock becomes the earliest arrival, a queue is non-empty afterwards and the invariant holds |
| Mlfq.IdleJump | homeworks/assignment2/mlfq.c:120-132 | the idle branch leaves the table, the queues and the clock equal to Idle of the state |
| MlfqModel.ExecutionTime | homeworks/assignment2/mlfq.c:144-150 | at the -1 level the slice is all the remaining time; otherwise min(remaining, quantum) |
| MlfqModel.Slice | homeworks/assignment2/mlfq.c:136-158 | exactly one segment is logged, for the head, from the old clock to the new one; the clock advances by exactly what the head's remaining time loses; the counter is kept |
| MlfqModel.SliceFacts | homeworks/assignment2/mlfq.c:136-158 | the slice is positive, the quantum or the rest (all of it at level 2); the clock grows and the remaining time shrinks by it; one segment [t, t+slice] is logged |
| MlfqModel.SliceInv | homeworks/assignment2/mlfq.c:136-158 | the slice keeps the invariant (the running row excepted), the static fields and the level, and strictly lowers the total remaining time |
| Mlfq.RunSlice | homeworks/assignment2/mlfq.c:136-158 | dequeues from the running row's level, lowers its remaining time by ExecutionTime, advances the clock by the same amount and logs the segment |
| MlfqModel.Finish | homeworks/assignment2/mlfq.c:162-175 | only the dispatched row changes, and not its remaining time; the clock and the log are kept; the counter rises by one exactly when the row has nothing left |
| MlfqModel.FinishInv | homeworks/assignment2/mlfq.c:162-175 | completion or demotion restores the invariant; a completed row has consistent statistics and a waiting time of at least 0 |
| MlfqModel.FinishEffects | homeworks/assignment2/mlfq.c:162-175 | the effects of completion or demotion: the static fields and the total remaining time are kept, and the counter or the next level's contents change by one |
| Mlfq.Settle | homeworks/assignment2/mlfq.c:162-175 | the completion/demotion branch leaves the table, the queues and the counter equal to Finish |
| MlfqModel.CapacityOf | homeworks/assignment2/mlfq.c:76-78 | every queue has held at most n entries, so the unchecked `rear++` write stays inside the 100-slot buffer |
| MlfqModel.DispatchSafeOf | homeworks/assignment2/mlfq.c:142-175 | under the invariant every enqueue of a dispatch has a free slot |
| MlfqModel.Dispatch | homeworks/assignment2/mlfq.c:135-175 | one segment is appended to the log, for the head of the first non-empty queue, starting at the clock; the counter rises by at most one |
| Mlfq.DispatchStep | homeworks/assignment2/mlfq.c:135-175 | the dispatch branch (slice, admission, completion or demotion) computes Dispatch of the state |
| MlfqModel.DispatchInv | homeworks/assignment2/mlfq.c:135-175 | a dispatch keeps the invariant and strictly lowers the total remaining time |
| MlfqModel.Step | homeworks/assignment2/mlfq.c:117-176 | the log is append-only: an idle iteration logs nothing and counts nothing, a dispatching one appends exactly one segment |
| MlfqModel.StepInv | homeworks/assignment2/mlfq.c:117-176 | one loop iteration keeps the invariant; it lowers the total remaining time or is an idle step that fills a queue |
| MlfqModel.StartInv | homeworks/assignment2/mlfq.c:105-114 | the state before the loop satisfies the invariant and admission at 0 is sound |
| MlfqModel.Run | homeworks/assignment2/mlfq.c:117-176 | the loop terminates with the counter at n and the invariant holding |
| MlfqModel.Schedule | homeworks/assignment2/mlfq.c:105-177 | the run from the loaded table ends with every row counted, the invariant holding and the static fields kept |
| Mlfq.MlfqSchedule | homeworks/assignment2/mlfq.c:105-177 | the table left in place and the log returned are those of Schedule |
| MlfqProperties.ScheduleCompletes | homeworks/assignment2/mlfq.c:117-176 | see the four points below this table |
| MlfqProperties.SingleProcessTrace | homeworks/assignment2/mlfq.c:105-177 | P1(0,10) gives P1:0-4 then P1:4-10, completion 10, waiting 0, ending at level 1 |
| MlfqProperties.LateArrivalTrace | homeworks/assignment2/mlfq.c:95-133 | P1(0,10), P2(3,2) gives P1:0-4, P1:4-10, P2:3-5; P2's segment starts before the previous one ends |
| MlfqProperties.LateSchedule | homeworks/assignment2/mlfq.c:105-177 | the whole final state of that run |
| RoundRobinModel.InitProcess | homeworks/assignment2/round_robin.c:55-64 | the row has the given id, arrival and burst; the remaining time equals the burst; the statistics are zero; not completed |
| RoundRobinModel.ZeroArrivalsMembers | homeworks/assignment2/round_robin.c:78-83 | the initial queue is exactly the rows arriving at 0, in ascending index order |
| RoundRobinModel.InitialFlags | homeworks/assignment2/round_robin.c:74-83 | a row is flagged exactly when it arrives at 0 |
| RoundRobin.EnqueueZeroArrivals | homeworks/assignment2/round_robin.c:78-83 | the loop builds ZeroArrivalsUpTo and flags exactly InitialFlags |
| RoundRobinModel.StartInv | homeworks/assignment2/round_robin.c:70-83 | the state before the loop satisfies the invariant |
| RoundRobinModel.EarliestUpTo | homeworks/assignment2/round_robin.c:89-95 | -1 exactly when no row is both uncompleted and unflagged; otherwise such a row with the smallest arrival, the lowest index on ties |
| RoundRobin.FindNextArrival | homeworks/assignment2/round_robin.c:89-95 | the search loop returns EarliestUpTo of the table and flags |
| RoundRobinModel.Idle | homeworks/assignment2/round_robin.c:88-102 | the table, the front, the counter and the log are kept; the queue keeps its entries and gains at most one |
| RoundRobinModel.IdleInv | homeworks/assignment2/round_robin.c:88-102 | with the queue drained and the counter below n, a row is found; the clock becomes its arrival, only it is queued, and the invariant holds |
| RoundRobin.IdleJump | homeworks/assignment2/round_robin.c:88-102 | the idle branch leaves the queue, the flags and the clock equal to Idle of the state |
| RoundRobinModel.ExecutionTime | homeworks/assignment2/round_robin.c:110 | the slice is the quantum or the remaining time, and at most both |
| RoundRobinModel.Slice | homeworks/assignment2/round_robin.c:105-120 | the queue is kept and the front advances past the head; the counter is kept |
| RoundRobinModel.SliceInv | homeworks/assignment2/round_robin.c:105-120 | the head leaves the live part of the queue and loses its flag, every other flag kept; the slice e lies between 0 and the quantum; the segment (head's id, t, t+e) is appended and the clock becomes t+e; the head's remaining time falls by e and no other row changes; the invariant is kept; with work left the total remaining time falls |
| RoundRobin.RunSlice | homeworks/assignment2/round_robin.c:105-120 | the slice leaves the table, the flags, the clock and the log equal to Slice |
| RoundRobinModel.JoinersMembers | homeworks/assignment2/round_robin.c:123-129 | the scan appends exactly the rows not completed, not flagged and arrived by the clock, in ascending order |
| RoundRobinModel.MarkUpTo | homeworks/assignment2/round_robin.c:123-129 | after visiting the rows below k, a row's flag is its old flag or whether it joined; the rows above k are untouched |
| RoundRobinModel.Scan | homeworks/assignment2/round_robin.c:123-129 | the queue gains exactly JoinersUpTo at its back; the table, the front, the clock, the counter and the log are kept |
| RoundRobinModel.ScanInv | homeworks/assignment2/round_robin.c:123-129 | the scan keeps the invariant, and a row is in the appended part exactly when it joins |
| RoundRobin.ScanArrivals | homeworks/assignment2/round_robin.c:123-129 | the loop appends JoinersUpTo and sets the flags to MarkUpTo |
| RoundRobinModel.Settle | homeworks/assignment2/round_robin.c:132-141 | only the dispatched row changes, and not its remaining time; the front, the clock and the log are kept; the counter rises by at most one |
| RoundRobinModel.SettleInv | homeworks/assignment2/round_robin.c:132-141 | completion or re-queueing keeps the invariant and the total remaining time; the counter rises by one exactly when nothing is left |
| RoundRobin.CompleteOrRequeue | homeworks/assignment2/round_robin.c:132-141 | the completion check leaves the table, the queue, the flags and the counter equal to Settle |
| RoundRobinModel.Dispatch | homeworks/assignment2/round_robin.c:104-141 | the front advances by one; one segment is appended to the log, for the head, starting at the clock; the counter rises by at most one |
| RoundRobinModel.DispatchInv | homeworks/assignment2/round_robin.c:104-141 | a dispatch keeps the invariant; it lowers the total remaining time, or it keeps it and raises the counter by one |
| RoundRobin.DispatchStep | homeworks/assignment2/round_robin.c:104-141 | slice, scan and completion check compute Dispatch of the state |
| RoundRobinModel.Step | homeworks/assignment2/round_robin.c:86-142 | the counter never falls; an idle iteration logs nothing and counts nothing, a dispatching one appends exactly one segment |
| RoundRobinModel.StepInv | homeworks/assignment2/round_robin.c:86-142 | see the three cases below this table |
| RoundRobinModel.Run | homeworks/assignment2/round_robin.c:86-142 | the loop terminates with the counter at n, the invariant holding and the static fields kept |
| RoundRobinModel.DispatchOrdered | homeworks/assignment2/round_robin.c:104-141 | a dispatch keeps the log in time order: its segment starts at the clock, which no earlier segment passes; if it drains the queue, every row not completed arrives after the clock |
| RoundRobinModel.StepOrdered | homeworks/assignment2/round_robin.c:86-142 | every iteration keeps the log in time order; an idle jump after the first segment moves the clock forward |
| RoundRobinModel.RunOrdered | homeworks/assignment2/round_robin.c:86-142 | the whole loop keeps the log in time order, with the last segment ending no later than the clock |
| RoundRobinModel.DispatchTimed | homeworks/assignment2/round_robin.c:104-141 | a dispatch keeps every row's times consistent: no row has run before it arrives or for longer than it has been in the system, and a row it completes gets a waiting time of at least 0 |
| RoundRobinModel.StepTimed | homeworks/assignment2/round_robin.c:86-142 | every iteration keeps every row's times consistent; an idle jump changes no row |
| RoundRobinModel.RunTimed | homeworks/assignment2/round_robin.c:86-142 | the whole loop keeps every row's times consistent, so every completed row ends with a waiting time of at least 0 |
| RoundRobinModel.ScheduleOrderedTimed | homeworks/assignment2/round_robin.c:69-143 | the run from a loaded table ends with its log in time order and every row's times consistent |
| RoundRobinModel.Schedule | homeworks/assignment2/round_robin.c:69-143 | the run from the initial queue ends with the counter at n and the static fields of every row kept |
| RoundRobin.RoundRobinSchedule | homeworks/assignment2/round_robin.c:69-143 | the table left in place and the log returned are those of Schedule |
| RoundRobinProperties.ScheduleEnds | homeworks/assignment2/round_robin.c:86-142 | see the five points below this table |
| RoundRobinProperties.DispatchAppendsTwice | homeworks/assignment2/round_robin.c:123-141 | a row with more than a quantum left is appended by the scan and then once more |
| RoundRobinProperties.DispatchKeepsFinished | homeworks/assignment2/round_robin.c:123-141 | a row that finishes in its slice is completed and counted, yet the scan has queued and flagged it again |
| RoundRobinProperties.RedispatchCountsAgain | homeworks/assignment2/round_robin.c:105-137 | dispatching an already completed row logs a zero-length segment, recomputes its statistics at the same clock and raises the counter while the number of completed rows stays the same |
| RoundRobinProperties.TraceStart | homeworks/assignment2/round_robin.c:78-83 | for P1(0,5), P2(1,3), P3(2,1) the initial queue is [P1] with only P1 flagged |
| RoundRobinProperties.TraceSchedule | homeworks/assignment2/round_robin.c:69-143 | the whole final state of the run on that table with quantum 2 |
| RoundRobinProperties.UnfinishedAtExit | homeworks/assignment2/round_robin.c:69-143 | see the run described below this table |

`MlfqProperties.ScheduleCompletes` states, for every table the loop accepts:

- every row ends completed, with its static fields kept and consistent statistics;
- the waiting time is at least 0;
- a row has exactly its final level + 1 ≤ 3 segments, whose lengths sum to its burst;
- the log holds at most 3n ≤ 1000 entries, and no queue ever holds more than n ≤ 100 entries.

Each iteration covered by `RoundRobinModel.StepInv` keeps the invariant, never lowers the counter, and does one of three things:

- lowers the total remaining time;
- raises the counter;
- is an idle step after which the queue is non-empty.

`RoundRobinProperties.ScheduleEnds` states that at exit:

- the counter is n, but the completed rows may be fewer;
- completed rows have consistent statistics and a waiting time of at least 0, and the others still have zero statistics;
- every segment is between 0 and the quantum long;
- each segment starts no earlier than the previous one ends;
- the summed length of the logged segments plus the remaining work equals the total burst.

`RoundRobinProperties.UnfinishedAtExit` states that the run on P1(0,5), P2(1,3), P3(2,1) with quantum 2:

- logs P1:0-2, P1:2-4, P2:4-6, P3:6-7, P1:7-8, P1:8-8;
- exits with the counter at 3 but only two rows completed;
- leaves P2 with 1 unit left and zero statistics.

## Left out

- `read_processes_from_file` (both files) is file I/O. Its per-record initialisation is the one of `init_process`, which is modelled.
- The output and `main` are not modelled: `print_ascii_gantt`, `print_scheduling_results`, `gantt_data`, `generate_gantt_data` and `main` do console and file output. The averages they print are floating-point divisions.
- `plot_gantt.py` and `plots.py` are plotting over an external library. They are not part of this model.
- `mlfq.h` and `round_robin.h` hold declarations only. Their record layouts are reproduced in the model, and so are the constants of `mlfq.h` and `MAX_PROCESSES` of `round_robin.h`. `print_gantt_chart` is declared but never defined.
- `TIME_QUANTUM` of `round_robin.h` is not modelled: the quantum is a parameter of `RoundRobinModel.Schedule`, and main's default of 4 only matters to the program's output. `MAX_GANTT_ENTRIES` of `round_robin.h` is not modelled either: the round-robin log has no bound (see below).
- Mlfq.MlfqSchedule: requires every burst to be positive, at most 100 rows, and rows as the loader leaves them. With a zero burst, a zero-length slice re-admits at an unchanged clock and queues a row twice; that path is not modelled.
- RoundRobin.RoundRobinSchedule: requires a positive quantum, at most 100 rows, rows as the loader leaves them, and no negative burst.
  - With a quantum of 0 or less some inputs spin forever: P1(0,5) with quantum 0 logs zero-length segments without end. A terminating function cannot describe all such runs, although some of them end (P1(0,0), P2(0,5) with quantum 0 stops after three iterations).
  - A negative burst is not a CPU demand. Its first slice is the negative remaining time itself, so the row completes at once while the clock runs backwards and the logged segment ends before it starts. The invariant the model proves (remaining time between 0 and the burst, segments between 0 and the quantum long) excludes such rows.
- RoundRobin.RoundRobinSchedule: the 100-slot `queue` and the 1000-slot `gantt` arrays of the source are sequences here. Duplicates accumulate in the queue and nothing bounds the log, so the source's unchecked writes past the ends are not modelled; the model behaves as if the arrays were unbounded.
- `next_arrival == -1` in round_robin.c, where the loop spins forever without changing state, is modelled by `Idle` returning the state unchanged. `RoundRobinModel.IdleInv` proves that branch unreachable while the counter is below n.
- C `int` is 32 bits. The model uses unbounded integers, so clocks or sums that would overflow are not modelled.
- The MLFQ `Queue` buffer is an array updated in place. The round-robin queue is a sequence, so aliasing of its slots is not modelled.
