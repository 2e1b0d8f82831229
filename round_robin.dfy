/** The Round Robin simulator (round_robin.c) as imperative code: the table is
    an array updated in place, the in_queue flags an array of MAX_PROCESSES
    booleans, and the ready queue and the Gantt log are sequences that grow.
    Each phase of the loop is a method proved to compute the matching
    function of RoundRobinModel, so round_robin_schedule computes Schedule. */
module RoundRobin {
  import opened Timeline
  import opened RoundRobinModel

  /** The state the locals of round_robin_schedule stand for. */
  ghost function Locals(procs: array<Process>, queue: seq<int>, front: int, inQueue: array<bool>,
                        time: int, completed: int, gantt: seq<GanttEntry>): RR
    requires procs.Length <= inQueue.Length
    reads procs, inQueue
  {
    RR(procs[..], queue, front, inQueue[..procs.Length], time, completed, gantt)
  }

  /** The loop before the main loop (round_robin.c:78-83): every row that
      arrives at 0 is queued, in index order, and flagged. */
  method EnqueueZeroArrivals(procs: array<Process>, inQueue: array<bool>) returns (queue: seq<int>)
    requires procs.Length <= inQueue.Length
    requires forall j :: 0 <= j < procs.Length ==> !inQueue[j]
    modifies inQueue
    ensures queue == ZeroArrivalsUpTo(procs[..], procs.Length)
    ensures inQueue[..procs.Length] == InitialFlags(procs[..])
  {
    queue := [];
    for i := 0 to procs.Length
      invariant queue == ZeroArrivalsUpTo(procs[..], i)
      invariant forall j :: 0 <= j < procs.Length ==> inQueue[j] == (j < i && procs[j].arrivalTime == 0)
    {
      if procs[i].arrivalTime == 0 {
        queue := queue + [i];
        inQueue[i] := true;
      }
    }
  }

  /** The search of the idle branch (round_robin.c:89-95): among rows neither
      completed nor flagged, the first with the smallest arrival, or -1. */
  method FindNextArrival(procs: array<Process>, inQueue: array<bool>) returns (nextArrival: int)
    requires procs.Length <= inQueue.Length
    ensures nextArrival == EarliestUpTo(procs[..], inQueue[..procs.Length], procs.Length)
  {
    nextArrival := -1;
    for i := 0 to procs.Length
      invariant nextArrival == EarliestUpTo(procs[..], inQueue[..procs.Length], i)
    {
      if !procs[i].isCompleted && !inQueue[i] &&
         (nextArrival == -1 || procs[i].arrivalTime < procs[nextArrival].arrivalTime) {
        nextArrival := i;
      }
    }
  }

  /** The idle branch (round_robin.c:88-102): the clock jumps to the picked
      row's arrival and that row alone is queued and flagged. */
  method IdleJump(procs: array<Process>, inQueue: array<bool>, queue: seq<int>, currentTime: int, ghost s: RR)
    returns (queue': seq<int>, time: int)
    requires procs.Length <= inQueue.Length && WF(s)
    requires s.procs == procs[..] && s.queue == queue && s.inQueue == inQueue[..procs.Length] && s.time == currentTime
    modifies inQueue
    ensures queue' == Idle(s).queue && inQueue[..procs.Length] == Idle(s).inQueue && time == Idle(s).time
  {
    queue', time := queue, currentTime;
    var nextArrival := FindNextArrival(procs, inQueue);
    if nextArrival != -1 {
      time := procs[nextArrival].arrivalTime;
      queue' := queue + [nextArrival];
      inQueue[nextArrival] := true;
      assert inQueue[..procs.Length] == s.inQueue[nextArrival := true];
    }
  }

  /** The slice (round_robin.c:105-120): the head is taken and unflagged,
      runs for min(remaining, quantum), and the segment is logged. */
  method RunSlice(procs: array<Process>, inQueue: array<bool>, currentProcess: int, currentTime: int,
                  quantum: int, gantt: seq<GanttEntry>, ghost s: RR)
    returns (time: int, gantt': seq<GanttEntry>)
    requires procs.Length <= inQueue.Length && WF(s) && s.front < |s.queue| && currentProcess == s.queue[s.front]
    requires s.procs == procs[..] && s.inQueue == inQueue[..procs.Length] && s.time == currentTime && s.gantt == gantt
    modifies procs, inQueue
    ensures procs[..] == Slice(s, quantum).procs && inQueue[..procs.Length] == Slice(s, quantum).inQueue
    ensures time == Slice(s, quantum).time && gantt' == Slice(s, quantum).gantt
  {
    var p := procs[currentProcess];
    inQueue[currentProcess] := false;
    var executionTime := if p.remainingTime > quantum then quantum else p.remainingTime;
    gantt' := gantt + [GanttEntry(p.id, currentTime, currentTime + executionTime)];
    time := currentTime + executionTime;
    procs[currentProcess] := p.(remainingTime := p.remainingTime - executionTime);
    assert inQueue[..procs.Length] == s.inQueue[currentProcess := false];
  }

  /** The post-slice scan (round_robin.c:123-129): every row neither
      completed nor flagged that has arrived by the clock is appended and
      flagged, in index order. */
  method ScanArrivals(procs: array<Process>, inQueue: array<bool>, queue: seq<int>, currentTime: int)
    returns (queue': seq<int>)
    requires procs.Length <= inQueue.Length
    modifies inQueue
    ensures queue' == queue + JoinersUpTo(procs[..], old(inQueue[..procs.Length]), currentTime, procs.Length)
    ensures inQueue[..procs.Length] == MarkUpTo(procs[..], old(inQueue[..procs.Length]), currentTime, procs.Length)
  {
    ghost var flags := inQueue[..procs.Length];
    queue' := queue;
    for i := 0 to procs.Length
      invariant queue' == queue + JoinersUpTo(procs[..], flags, currentTime, i)
      invariant inQueue[..procs.Length] == MarkUpTo(procs[..], flags, currentTime, i)
    {
      assert inQueue[i] == flags[i];
      if !procs[i].isCompleted && !inQueue[i] && procs[i].arrivalTime <= currentTime {
        queue' := queue' + [i];
        inQueue[i] := true;
      }
      assert inQueue[..procs.Length] == MarkUpTo(procs[..], flags, currentTime, i + 1);
    }
  }

  /** The completion check (round_robin.c:132-141): with nothing left the
      statistics are set from the clock and the counter goes up; otherwise
      the row is appended and flagged. */
  method CompleteOrRequeue(procs: array<Process>, inQueue: array<bool>, queue: seq<int>, currentProcess: int,
                           currentTime: int, completed: int, ghost s: RR)
    returns (queue': seq<int>, completed': int)
    requires procs.Length <= inQueue.Length && WF(s) && 0 <= currentProcess < |s.procs|
    requires s.procs == procs[..] && s.queue == queue && s.inQueue == inQueue[..procs.Length]
    requires s.time == currentTime && s.completed == completed
    modifies procs, inQueue
    ensures procs[..] == Settle(s, currentProcess).procs && queue' == Settle(s, currentProcess).queue
    ensures inQueue[..procs.Length] == Settle(s, currentProcess).inQueue
    ensures completed' == Settle(s, currentProcess).completed
  {
    queue', completed' := queue, completed;
    var p := procs[currentProcess];
    if p.remainingTime == 0 {
      var turnaround := currentTime - p.arrivalTime;
      procs[currentProcess] := p.(completionTime := currentTime, turnaroundTime := turnaround,
                                  waitingTime := turnaround - p.burstTime, isCompleted := true);
      completed' := completed + 1;
    } else {
      queue' := queue + [currentProcess];
      inQueue[currentProcess] := true;
      assert inQueue[..procs.Length] == s.inQueue[currentProcess := true];
    }
  }

  /** The dispatch branch (round_robin.c:104-141): slice, scan, then
      completion or re-queueing. */
  method DispatchStep(procs: array<Process>, inQueue: array<bool>, queue: seq<int>, front: int, currentTime: int,
                      quantum: int, completed: int, gantt: seq<GanttEntry>, ghost s: RR)
    returns (queue': seq<int>, front': int, time: int, completed': int, gantt': seq<GanttEntry>)
    requires procs.Length <= inQueue.Length && WF(s) && s.front < |s.queue|
    requires s == Locals(procs, queue, front, inQueue, currentTime, completed, gantt)
    modifies procs, inQueue
    ensures Locals(procs, queue', front', inQueue, time, completed', gantt') == Dispatch(s, quantum)
  {
    var currentProcess := queue[front];
    front' := front + 1;
    time, gantt' := RunSlice(procs, inQueue, currentProcess, currentTime, quantum, gantt, s);
    ghost var s1 := Slice(s, quantum);
    queue' := ScanArrivals(procs, inQueue, queue, time);
    ghost var s2 := Scan(s1);
    assert s2 == Locals(procs, queue', front', inQueue, time, completed, gantt');
    queue', completed' := CompleteOrRequeue(procs, inQueue, queue', currentProcess, time, completed, s2);
  }

  /** round_robin_schedule: the table is updated in place and the log is
      returned; both are those of the value-level run Schedule, so every
      property proved of Schedule holds of them. */
  method RoundRobinSchedule(procs: array<Process>, quantum: int) returns (gantt: seq<GanttEntry>)
    requires Ready(procs[..]) && 0 < quantum
    modifies procs
    ensures procs[..] == Schedule(old(procs[..]), quantum).procs
    ensures gantt == Schedule(old(procs[..]), quantum).gantt
  {
    ghost var ps := procs[..];
    var n := procs.Length;
    var currentTime := 0;
    var completedProcesses := 0;
    var front := 0;
    var inQueue := new bool[MAX_PROCESSES](_ => false);
    gantt := [];
    var queue := EnqueueZeroArrivals(procs, inQueue);

    ghost var s := Start(ps);
    assert s == Locals(procs, queue, front, inQueue, currentTime, completedProcesses, gantt);
    StartInv(ps, quantum);

    while completedProcesses < n
      invariant n == procs.Length <= inQueue.Length
      invariant s == Locals(procs, queue, front, inQueue, currentTime, completedProcesses, gantt)
      invariant Inv(s, quantum) && Run(s, quantum) == Schedule(ps, quantum)
      decreases TotalRemaining(procs[..]), n - completedProcesses, if front == |queue| then 1 else 0
    {
      StepInv(s, quantum);
      RunUnfold(s, Step(s, quantum), quantum);
      if front == |queue| {
        queue, currentTime := IdleJump(procs, inQueue, queue, currentTime, s);
      } else {
        queue, front, currentTime, completedProcesses, gantt :=
          DispatchStep(procs, inQueue, queue, front, currentTime, quantum, completedProcesses, gantt, s);
      }
      s := Step(s, quantum);
    }
    RunDone(s, quantum);
  }
}
