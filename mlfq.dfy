/** The multilevel feedback queue simulator of mlfq.c in its own imperative
    form: ready queues over fixed 100-slot buffers updated in place, a
    process table updated in place, and the scheduling loop; each operation
    is proved to agree with the value-level model in MlfqModel. */
module Mlfq {
  import opened Timeline
  import opened MlfqModel

  /** A ready queue (Queue in mlfq.h): a fixed buffer, a front index and a
      rear index; slots before `front` were dequeued, slots from `rear` on
      were never written. */
  class Queue {
    const processes: array<int>
    var front: int
    var rear: int
    var quantum: int

    ghost predicate Valid()
      reads this
    {
      processes.Length == MAX_PROCESSES && 0 <= front <= rear <= processes.Length
    }

    /** The queue as a value: everything ever enqueued, and the front. */
    function Value(): (v: QueueState)
      requires Valid()
      reads this, processes
      ensures 0 <= v.front <= |v.slots| == rear
    {
      QueueState(processes[..rear], front, quantum)
    }

    /** One slot of init_queues: front and rear at 0, the given quantum. */
    constructor(quantum: int)
      ensures Valid() && Value() == QueueState([], 0, quantum)
      ensures fresh(processes)
    {
      processes := new int[MAX_PROCESSES];
      front := 0;
      rear := 0;
      this.quantum := quantum;
    }

    /** is_queue_empty. */
    function IsQueueEmpty(): (b: bool)
      requires Valid()
      reads this, processes
      ensures b <==> Value().IsEmpty()
      ensures b <==> Value().Contents() == []
    {
      front == rear
    }

    /** enqueue: writes the slot at rear and advances rear; the caller keeps
        rear below the buffer size. */
    method Enqueue(processId: int)
      requires Valid() && rear < MAX_PROCESSES
      modifies this, processes
      ensures Valid() && Value() == old(Value()).Enqueue(processId)
      ensures Value().Contents() == old(Value().Contents()) + [processId]
      ensures processes[..] == old(processes[..])[old(rear) := processId]
      ensures front == old(front) && rear == old(rear) + 1
    {
      processes[rear] := processId;
      rear := rear + 1;
      assert processes[..rear] == old(processes[..rear]) + [processId];
    }

    /** dequeue: returns the slot at front and advances front. */
    method Dequeue() returns (processId: int)
      requires Valid() && front < rear
      modifies this
      ensures Valid() && Value() == old(Value()).Dequeue()
      ensures processId == old(Value()).Head()
      ensures [processId] + Value().Contents() == old(Value().Contents())
      ensures rear == old(rear) && front == old(front) + 1
    {
      processId := processes[front];
      front := front + 1;
    }
  }

  /** The three queues of mlfq_schedule: distinct queues over distinct buffers. */
  ghost predicate ValidQueues(qs: seq<Queue>)
    reads qs
  {
    && |qs| == NUM_QUEUES
    && qs[0].Valid() && qs[1].Valid() && qs[2].Valid()
    && qs[0] != qs[1] && qs[0] != qs[2] && qs[1] != qs[2]
    && qs[0].processes != qs[1].processes && qs[0].processes != qs[2].processes
    && qs[1].processes != qs[2].processes
  }

  function AbsQueues(qs: seq<Queue>): (v: seq<QueueState>)
    requires ValidQueues(qs)
    reads qs, qs[0].processes, qs[1].processes, qs[2].processes
    ensures |v| == NUM_QUEUES && Bounded(v)
    ensures forall i :: 0 <= i < NUM_QUEUES ==> v[i] == qs[i].Value()
  {
    [qs[0].Value(), qs[1].Value(), qs[2].Value()]
  }

  /** init_queues: three empty queues with quanta 4, 8 and the FCFS sentinel. */
  method InitQueues() returns (qs: seq<Queue>)
    ensures ValidQueues(qs) && AbsQueues(qs) == InitialQueues()
    ensures forall i :: 0 <= i < NUM_QUEUES ==> fresh(qs[i]) && fresh(qs[i].processes)
  {
    var q1 := new Queue(Q1_QUANTUM);
    var q2 := new Queue(Q2_QUANTUM);
    var q3 := new Queue(FCFS_QUANTUM);
    qs := [q1, q2, q3];
  }

  /** get_next_process: the head of the first non-empty queue, or -1. */
  function GetNextProcess(qs: seq<Queue>): (r: int)
    requires ValidQueues(qs)
    reads qs, qs[0].processes, qs[1].processes, qs[2].processes
    ensures r == NextProcess(AbsQueues(qs))
  {
    var v := AbsQueues(qs);
    assert !v[0].IsEmpty() ==> ReadyLevel(v, 0) == 0;
    assert v[0].IsEmpty() && !v[1].IsEmpty() ==> ReadyLevel(v, 0) == 1;
    if !qs[0].IsQueueEmpty() then qs[0].processes[qs[0].front]
    else if !qs[1].IsQueueEmpty() then qs[1].processes[qs[1].front]
    else if !qs[2].IsQueueEmpty() then qs[2].processes[qs[2].front]
    else -1
  }

  /** One row of the add_new_arrivals loop, on values. */
  lemma AdmitRow(ps: seq<Process>, t: int, i: nat, cur: seq<Process>, base: seq<int>, slots: seq<int>)
    requires i < |ps| && cur == AdmitUpTo(ps, t, i) && slots == base + ArrivalsUpTo(ps, t, i)
    ensures cur[i] == ps[i] && |cur| == |ps|
    ensures Arrives(cur[i], t) ==>
              cur[i := cur[i].(currentQueue := 0)] == AdmitUpTo(ps, t, i + 1) &&
              slots + [i] == base + ArrivalsUpTo(ps, t, i + 1)
    ensures !Arrives(cur[i], t) ==> cur == AdmitUpTo(ps, t, i + 1) && slots == base + ArrivalsUpTo(ps, t, i + 1)
  {
  }

  lemma {:induction false} ArrivalsGrow(ps: seq<Process>, t: int, i: nat, k: nat)
    requires i <= k <= |ps|
    ensures |ArrivalsUpTo(ps, t, i)| <= |ArrivalsUpTo(ps, t, k)|
    decreases k - i
  {
    if i < k {
      ArrivalsGrow(ps, t, i, k - 1);
    }
  }

  /** add_new_arrivals on queue 0 (`q`): rows that are not completed and
      arrive exactly at `currentTime` are put at level 0 and appended to the
      queue in index order; nothing else changes. The caller keeps the
      queue within its buffer. */
  method AddNewArrivals(q: Queue, procs: array<Process>, currentTime: int)
    requires q.Valid() && q.rear + |ArrivalsUpTo(procs[..], currentTime, procs.Length)| <= MAX_PROCESSES
    modifies procs, q, q.processes
    ensures q.Valid()
    ensures procs[..] == AdmitUpTo(old(procs[..]), currentTime, procs.Length)
    ensures q.Value() == old(q.Value()).(slots := old(q.Value()).slots + ArrivalsUpTo(old(procs[..]), currentTime, procs.Length))
  {
    ghost var ps := procs[..];
    ghost var q0 := q.Value();
    for i := 0 to procs.Length
      invariant q.Valid() && q.Value() == q0.(slots := q0.slots + ArrivalsUpTo(ps, currentTime, i))
      invariant procs[..] == AdmitUpTo(ps, currentTime, i)
    {
      AdmitRow(ps, currentTime, i, procs[..], q0.slots, q.Value().slots);
      if !procs[i].isCompleted && procs[i].arrivalTime == currentTime {
        procs[i] := procs[i].(currentQueue := 0);
        ArrivalsGrow(ps, currentTime, i + 1, procs.Length);
        q.Enqueue(i);
      }
    }
  }

  /** add_new_arrivals on the three queues: only queue 0 changes. */
  method AdmitArrivals(queues: seq<Queue>, procs: array<Process>, currentTime: int)
    requires ValidQueues(queues)
    requires queues[0].rear + |ArrivalsUpTo(procs[..], currentTime, procs.Length)| <= MAX_PROCESSES
    modifies procs, queues[0], queues[0].processes
    ensures ValidQueues(queues)
    ensures procs[..] == AdmitUpTo(old(procs[..]), currentTime, procs.Length)
    ensures AbsQueues(queues) == AdmitQueues(old(AbsQueues(queues)), old(procs[..]), currentTime)
  {
    AddNewArrivals(queues[0], procs, currentTime);
  }

  /** The search of the idle branch (mlfq.c:121-127): among rows not
      completed, the first with the smallest arrival time, or -1. */
  method FindNextArrival(procs: array<Process>) returns (nextArrival: int)
    ensures nextArrival == EarliestUpTo(procs[..], procs.Length)
  {
    nextArrival := -1;
    for i := 0 to procs.Length
      invariant nextArrival == EarliestUpTo(procs[..], i)
    {
      if !procs[i].isCompleted &&
         (nextArrival == -1 || procs[i].arrivalTime < procs[nextArrival].arrivalTime) {
        nextArrival := i;
      }
    }
  }

  /** The idle branch of mlfq_schedule (mlfq.c:120-132): with every queue
      empty, the clock moves to the earliest arrival among unfinished rows
      and the arrivals at that instant are admitted. */
  method IdleJump(queues: seq<Queue>, procs: array<Process>, currentTime: int, ghost s: Sched)
    returns (time: int)
    requires ValidQueues(queues) && Inv(s) && AllEmpty(s.queues) && s.completed < |s.procs|
    requires s.procs == procs[..] && s.queues == AbsQueues(queues) && s.time == currentTime
    modifies procs, queues[0], queues[0].processes
    ensures ValidQueues(queues)
    ensures Sched(procs[..], AbsQueues(queues), time, s.completed, s.gantt, s.owners) == Idle(s)
  {
    IdleInv(s);
    time := currentTime;
    var nextArrival := FindNextArrival(procs);
    if nextArrival != -1 {
      time := procs[nextArrival].arrivalTime;
      ghost var s' := s.(time := time);
      IdleRetime(s, time);
      AdmitInv(s', -1);
      CapacityOf(MlfqModel.AddNewArrivals(s'));
      AdmitArrivals(queues, procs, time);
    }
  }

  /** The slice (mlfq.c:136-158): the process is dequeued from the queue of
      its level and runs for min(remaining, quantum), or for all of its
      remaining time at the FCFS level; the segment is logged and the clock
      and the remaining time move by the slice. */
  method RunSlice(queues: seq<Queue>, procs: array<Process>, currentProcess: int, currentTime: int,
                  gantt: seq<GanttEntry>)
    returns (time: int, gantt': seq<GanttEntry>)
    requires ValidQueues(queues) && 0 <= currentProcess < procs.Length
    requires 0 <= procs[currentProcess].currentQueue < NUM_QUEUES
    requires !queues[procs[currentProcess].currentQueue].IsQueueEmpty()
    modifies procs, queues[procs[currentProcess].currentQueue]
    ensures ValidQueues(queues)
    ensures
      var ps := old(procs[..]);
      var qs := old(AbsQueues(queues));
      var pr := ps[currentProcess];
      var level := pr.currentQueue;
      var exec := ExecutionTime(pr.remainingTime, qs[level].quantum);
      && procs[..] == ps[currentProcess := pr.(remainingTime := pr.remainingTime - exec)]
      && AbsQueues(queues) == qs[level := qs[level].Dequeue()]
      && time == currentTime + exec
      && gantt' == gantt + [GanttEntry(pr.id, currentTime, currentTime + exec)]
  {
    var p := procs[currentProcess];
    var currentQueue := p.currentQueue;
    var quantum := queues[currentQueue].quantum;
    var _ := queues[currentQueue].Dequeue();

    var executionTime;
    if quantum == FCFS_QUANTUM {
      executionTime := p.remainingTime;
    } else {
      executionTime := if p.remainingTime > quantum then quantum else p.remainingTime;
    }
    gantt' := gantt + [GanttEntry(p.id, currentTime, currentTime + executionTime)];
    time := currentTime + executionTime;
    procs[currentProcess] := p.(remainingTime := p.remainingTime - executionTime);
  }

  /** Completion or demotion (mlfq.c:162-175) of the process just run:
      on completion the statistics are derived from the clock and the
      counter goes up; otherwise the process is put one level lower (the
      last level re-queues at itself). The caller keeps the target queue
      within its buffer. The ghost `s` is the state on entry. */
  method Settle(queues: seq<Queue>, procs: array<Process>, currentProcess: int, currentQueue: int,
                currentTime: int, completed: int, ghost s: Sched)
    returns (completed': int)
    requires ValidQueues(queues) && 0 <= currentProcess < procs.Length && 0 <= currentQueue < NUM_QUEUES
    requires s.procs == procs[..] && s.queues == AbsQueues(queues) && s.time == currentTime && s.completed == completed
    requires s.procs[currentProcess].remainingTime != 0 ==>
               |s.queues[if currentQueue < NUM_QUEUES - 1 then currentQueue + 1 else currentQueue].slots| < MAX_PROCESSES
    modifies procs, queues[1], queues[1].processes, queues[2], queues[2].processes
    ensures ValidQueues(queues)
    ensures procs[..] == Finish(s, currentProcess, currentQueue).procs
    ensures AbsQueues(queues) == Finish(s, currentProcess, currentQueue).queues
    ensures completed' == Finish(s, currentProcess, currentQueue).completed
  {
    FinishCases(s, currentProcess, currentQueue);
    completed' := completed;
    var p := procs[currentProcess];
    if p.remainingTime == 0 {
      var turnaround := currentTime - p.arrivalTime;
      procs[currentProcess] := p.(completionTime := currentTime, turnaroundTime := turnaround,
                                  waitingTime := turnaround - p.burstTime, isCompleted := true);
      completed' := completed' + 1;
    } else if currentQueue < NUM_QUEUES - 1 {
      procs[currentProcess] := p.(currentQueue := currentQueue + 1);
      queues[currentQueue + 1].Enqueue(currentProcess);
      assert AbsQueues(queues) == s.queues[currentQueue + 1 := s.queues[currentQueue + 1].Enqueue(currentProcess)];
    } else {
      queues[currentQueue].Enqueue(currentProcess);
      assert AbsQueues(queues) == s.queues[currentQueue := s.queues[currentQueue].Enqueue(currentProcess)];
    }
  }

  /** The dispatch branch of mlfq_schedule (mlfq.c:135-175): the slice, the
      admission of the arrivals at the new clock, then completion or demotion. */
  method DispatchStep(queues: seq<Queue>, procs: array<Process>, currentProcess: int, currentTime: int,
                      completed: int, gantt: seq<GanttEntry>, ghost s: Sched)
    returns (time: int, completed': int, gantt': seq<GanttEntry>, ghost owners': seq<int>)
    requires ValidQueues(queues) && DispatchSafe(s) && NextProcess(s.queues) == currentProcess
    requires s.procs == procs[..] && s.queues == AbsQueues(queues) && s.time == currentTime
    requires s.completed == completed && s.gantt == gantt
    modifies procs, queues[0], queues[0].processes, queues[1], queues[1].processes, queues[2], queues[2].processes
    ensures ValidQueues(queues)
    ensures Sched(procs[..], AbsQueues(queues), time, completed', gantt', owners') == Dispatch(s)
  {
    var currentQueue := procs[currentProcess].currentQueue;
    assert currentQueue == s.procs[currentProcess].currentQueue;
    time, gantt' := RunSlice(queues, procs, currentProcess, currentTime, gantt);
    owners' := s.owners + [currentProcess];
    SliceUnfold(s, currentProcess, procs[..], AbsQueues(queues), time, gantt');
    ghost var s1 := Slice(s);
    AdmitArrivals(queues, procs, time);
    ghost var s2 := MlfqModel.AddNewArrivals(s1);
    assert procs[..] == s2.procs && AbsQueues(queues) == s2.queues;
    completed' := Settle(queues, procs, currentProcess, currentQueue, time, completed, s2);
  }

  /** mlfq_schedule: the table is updated in place and the log is returned;
      both are those of the value-level run Schedule, so every property
      proved of Schedule holds of them. */
  method MlfqSchedule(procs: array<Process>) returns (gantt: seq<GanttEntry>)
    requires Ready(procs[..])
    modifies procs
    ensures procs[..] == Schedule(old(procs[..])).procs
    ensures gantt == Schedule(old(procs[..])).gantt
  {
    ghost var ps := procs[..];
    var queues := InitQueues();
    var currentTime := 0;
    var completedProcesses := 0;
    gantt := [];
    ghost var owners: seq<int> := [];

    ghost var s := Start(ps);
    StartInv(ps);
    AdmitInv(s, -1);
    CapacityOf(MlfqModel.AddNewArrivals(s));
    AdmitArrivals(queues, procs, 0);
    s := MlfqModel.AddNewArrivals(s);

    while completedProcesses < procs.Length
      invariant ValidQueues(queues)
      invariant forall q :: 0 <= q < NUM_QUEUES ==> fresh(queues[q]) && fresh(queues[q].processes)
      invariant s == Sched(procs[..], AbsQueues(queues), currentTime, completedProcesses, gantt, owners)
      invariant Inv(s) && Run(s) == Schedule(ps)
      decreases TotalRemaining(procs[..]), if AllEmpty(AbsQueues(queues)) then 1 else 0
    {
      StepInv(s);
      var nextProcess := GetNextProcess(queues);
      if nextProcess == -1 {
        assert AllEmpty(s.queues) by { NextIsWaitingHead(s); }
        currentTime := IdleJump(queues, procs, currentTime, s);
      } else {
        DispatchSafeOf(s);
        currentTime, completedProcesses, gantt, owners :=
          DispatchStep(queues, procs, nextProcess, currentTime, completedProcesses, gantt, s);
      }
      s := Step(s);
    }
  }
}
