/** Value-level model of the multilevel feedback queue simulator (mlfq.c):
    the process table, the three linear ready queues, one iteration of the
    scheduling loop as a function on a state value, the invariant the loop
    keeps, and the whole run as a terminating recursive function. */
module MlfqModel {
  import opened Timeline

  const MAX_PROCESSES: int := 100
  const MAX_GANTT_ENTRIES: int := 1000
  const NUM_QUEUES: int := 3
  const Q1_QUANTUM: int := 4
  const Q2_QUANTUM: int := 8
  /** The quantum of the lowest level: run to completion. */
  const FCFS_QUANTUM: int := -1

  datatype Process = Process(
    id: int,
    arrivalTime: int,
    burstTime: int,
    remainingTime: int,
    completionTime: int,
    turnaroundTime: int,
    waitingTime: int,
    currentQueue: int,
    isCompleted: bool)

  /** A row as the loader or init_process leaves it: nothing run yet. */
  predicate Unscheduled(p: Process) {
    !p.isCompleted && p.remainingTime == p.burstTime
  }

  function InitProcess(id: int, arrival: int, burst: int): (p: Process)
    ensures Unscheduled(p) && p.currentQueue == 0
    ensures p.id == id && p.arrivalTime == arrival && p.burstTime == burst
    ensures p.completionTime == 0 && p.turnaroundTime == 0 && p.waitingTime == 0
  {
    Process(id, arrival, burst, burst, 0, 0, 0, 0, false)
  }

  /** What mlfq_schedule needs of its table: rows not yet run, positive
      bursts, and no more rows than a ready queue has slots. */
  ghost predicate Ready(ps: seq<Process>) {
    |ps| <= MAX_PROCESSES &&
    forall i :: 0 <= i < |ps| ==> Unscheduled(ps[i]) && ps[i].burstTime > 0
  }

  /** The statistics a completed row carries. */
  predicate StatsHold(p: Process) {
    p.turnaroundTime == p.completionTime - p.arrivalTime &&
    p.waitingTime == p.turnaroundTime - p.burstTime
  }

  /** Rows agree on the fields the scheduler never writes. */
  ghost predicate SameStatic(a: seq<Process>, b: seq<Process>) {
    |a| == |b| &&
    forall i :: 0 <= i < |a| ==>
      a[i].id == b[i].id && a[i].arrivalTime == b[i].arrivalTime && a[i].burstTime == b[i].burstTime
  }

  lemma SameStaticSet(ps: seq<Process>, p: int, x: Process)
    requires 0 <= p < |ps|
    requires x.id == ps[p].id && x.arrivalTime == ps[p].arrivalTime && x.burstTime == ps[p].burstTime
    ensures SameStatic(ps, ps[p := x])
  {
  }

  predicate Distinct(s: seq<int>) {
    forall a, b :: 0 <= a < b < |s| ==> s[a] != s[b]
  }

  /** A linear FIFO queue over a fixed buffer (Queue in mlfq.h): `slots` is
      everything ever enqueued, so `rear` is |slots|; `front` is the next
      slot to dequeue. */
  datatype QueueState = QueueState(slots: seq<int>, front: int, quantum: int) {
    predicate IsEmpty() {
      front == |slots|
    }

    function Contents(): seq<int>
      requires 0 <= front <= |slots|
    {
      slots[front..]
    }

    function Enqueue(x: int): (q: QueueState)
      requires 0 <= front <= |slots|
      ensures q.front == front && q.front <= |q.slots| && q.quantum == quantum
      ensures q.Contents() == Contents() + [x]
    {
      this.(slots := slots + [x])
    }

    function Head(): int
      requires 0 <= front < |slots|
    {
      slots[front]
    }

    function Dequeue(): (q: QueueState)
      requires 0 <= front < |slots|
      ensures 0 <= q.front <= |q.slots| && q.quantum == quantum && q.slots == slots
      ensures [Head()] + q.Contents() == Contents()
    {
      this.(front := front + 1)
    }
  }

  function InitialQueues(): seq<QueueState> {
    [QueueState([], 0, Q1_QUANTUM), QueueState([], 0, Q2_QUANTUM), QueueState([], 0, FCFS_QUANTUM)]
  }

  ghost predicate Bounded(qs: seq<QueueState>) {
    forall q :: 0 <= q < |qs| ==> 0 <= qs[q].front <= |qs[q].slots|
  }

  predicate AllEmpty(qs: seq<QueueState>) {
    forall q :: 0 <= q < |qs| ==> qs[q].IsEmpty()
  }

  /** The lowest-numbered non-empty level at or above `from`, or |qs|. */
  function ReadyLevel(qs: seq<QueueState>, from: nat): (l: nat)
    requires from <= |qs|
    ensures from <= l <= |qs|
    ensures forall q :: from <= q < l ==> qs[q].IsEmpty()
    ensures l < |qs| ==> !qs[l].IsEmpty()
    decreases |qs| - from
  {
    if from == |qs| then from
    else if !qs[from].IsEmpty() then from
    else ReadyLevel(qs, from + 1)
  }

  /** get_next_process: the head of the lowest-numbered non-empty queue, left in place. */
  function NextProcess(qs: seq<QueueState>): (r: int)
    requires Bounded(qs)
    ensures AllEmpty(qs) ==> r == -1
    ensures !AllEmpty(qs) ==> var l := ReadyLevel(qs, 0); l < |qs| && 0 < |qs[l].Contents()| && r == qs[l].Contents()[0]
  {
    var l := ReadyLevel(qs, 0);
    if l == |qs| then -1 else qs[l].Head()
  }

  /** The state of one mlfq_schedule run. `owners` is a proof-only log that
      records, for each Gantt entry, the table index of the process it belongs to. */
  datatype Sched = Sched(
    procs: seq<Process>,
    queues: seq<QueueState>,
    time: int,
    completed: int,
    gantt: seq<GanttEntry>,
    owners: seq<int>)

  // ---------------------------------------------------------------------
  // add_new_arrivals

  predicate Arrives(p: Process, t: int) {
    !p.isCompleted && p.arrivalTime == t
  }

  /** The indices below k that add_new_arrivals admits at time t, in order. */
  function ArrivalsUpTo(ps: seq<Process>, t: int, k: nat): (r: seq<int>)
    requires k <= |ps|
    ensures |r| <= k
  {
    if k == 0 then [] else ArrivalsUpTo(ps, t, k - 1) + (if Arrives(ps[k - 1], t) then [k - 1] else [])
  }

  /** The indices admitted are exactly the rows below k that arrive at t, in
      strictly increasing order. */
  lemma {:induction false} ArrivalsMembers(ps: seq<Process>, t: int, k: nat)
    requires k <= |ps|
    ensures var r := ArrivalsUpTo(ps, t, k);
      && (forall x :: x in r <==> 0 <= x < k && Arrives(ps[x], t))
      && (forall a, b :: 0 <= a < b < |r| ==> r[a] < r[b])
  {
    if k > 0 {
      ArrivalsMembers(ps, t, k - 1);
      var r0 := ArrivalsUpTo(ps, t, k - 1);
      forall a | 0 <= a < |r0| ensures r0[a] < k - 1 { assert r0[a] in r0; }
      if Arrives(ps[k - 1], t) {
        assert ArrivalsUpTo(ps, t, k) == r0 + [k - 1];
      } else {
        assert ArrivalsUpTo(ps, t, k) == r0;
      }
    }
  }

  function AdmitOne(p: Process, t: int): Process {
    if Arrives(p, t) then p.(currentQueue := 0) else p
  }

  /** The table after add_new_arrivals has visited the rows below k. */
  function AdmitUpTo(ps: seq<Process>, t: int, k: nat): (r: seq<Process>)
    requires k <= |ps|
    ensures |r| == |ps|
    ensures forall j :: 0 <= j < |ps| ==> r[j] == if j < k then AdmitOne(ps[j], t) else ps[j]
  {
    if k == 0 then ps else AdmitUpTo(ps, t, k - 1)[k - 1 := AdmitOne(ps[k - 1], t)]
  }

  /** The queues after add_new_arrivals: the arrivals appended to queue 0. */
  function AdmitQueues(qs: seq<QueueState>, ps: seq<Process>, t: int): (r: seq<QueueState>)
    requires |qs| == NUM_QUEUES
    ensures |r| == NUM_QUEUES && r[1] == qs[1] && r[2] == qs[2]
    ensures r[0].front == qs[0].front && r[0].quantum == qs[0].quantum
    ensures r[0].slots == qs[0].slots + ArrivalsUpTo(ps, t, |ps|)
    ensures Bounded(qs) ==> Bounded(r)
  {
    qs[0 := qs[0].(slots := qs[0].slots + ArrivalsUpTo(ps, t, |ps|))]
  }

  function AddNewArrivals(s: Sched): (r: Sched)
    requires |s.queues| == NUM_QUEUES
    ensures |r.procs| == |s.procs| && |r.queues| == NUM_QUEUES
    ensures r.time == s.time && r.completed == s.completed && r.gantt == s.gantt && r.owners == s.owners
    ensures forall i :: 0 <= i < |s.procs| ==> r.procs[i] == AdmitOne(s.procs[i], s.time)
    ensures r.queues[1] == s.queues[1] && r.queues[2] == s.queues[2]
    ensures Bounded(s.queues) ==>
              Bounded(r.queues) && r.queues[0].Contents() == s.queues[0].Contents() + ArrivalsUpTo(s.procs, s.time, |s.procs|)
  {
    s.(procs := AdmitUpTo(s.procs, s.time, |s.procs|), queues := AdmitQueues(s.queues, s.procs, s.time))
  }

  // ---------------------------------------------------------------------
  // The idle jump

  /** The row the idle jump picks among the rows below k: a non-completed one
      with the smallest arrival time, the first such on ties; -1 if none. */
  function EarliestUpTo(ps: seq<Process>, k: nat): (r: int)
    requires k <= |ps|
    ensures -1 <= r < k
    ensures r == -1 <==> forall i :: 0 <= i < k ==> ps[i].isCompleted
    ensures r != -1 ==> !ps[r].isCompleted
    ensures r != -1 ==> forall i :: 0 <= i < k && !ps[i].isCompleted ==> ps[r].arrivalTime <= ps[i].arrivalTime
    ensures r != -1 ==> forall i :: 0 <= i < r && !ps[i].isCompleted ==> ps[r].arrivalTime < ps[i].arrivalTime
  {
    if k == 0 then -1
    else
      var b := EarliestUpTo(ps, k - 1);
      if !ps[k - 1].isCompleted && (b == -1 || ps[k - 1].arrivalTime < ps[b].arrivalTime) then k - 1 else b
  }

  /** The idle jump (mlfq.c:119-133): with every queue empty, the clock is
      set to the earliest arrival among the rows not completed and the
      arrivals at that instant are admitted; with every row completed nothing
      changes. */
  function Idle(s: Sched): (r: Sched)
    requires |s.queues| == NUM_QUEUES
    ensures |r.procs| == |s.procs| && |r.queues| == NUM_QUEUES
    ensures r.completed == s.completed && r.gantt == s.gantt && r.owners == s.owners
    ensures var next := EarliestUpTo(s.procs, |s.procs|);
      && (next == -1 ==> r == s)
      && (next != -1 ==> r.time == s.procs[next].arrivalTime)
  {
    var next := EarliestUpTo(s.procs, |s.procs|);
    if next == -1 then s else AddNewArrivals(s.(time := s.procs[next].arrivalTime))
  }

  // ---------------------------------------------------------------------
  // Dispatch

  function ExecutionTime(remaining: int, quantum: int): (e: int)
    ensures quantum == FCFS_QUANTUM ==> e == remaining
    ensures quantum != FCFS_QUANTUM ==> e <= remaining && e <= quantum && (e == remaining || e == quantum)
  {
    if quantum == FCFS_QUANTUM then remaining
    else if remaining > quantum then quantum else remaining
  }

  /** Completion or demotion of the dispatched process p, taken from `level`. */
  function Finish(s: Sched, p: int, level: int): (r: Sched)
    requires |s.queues| == NUM_QUEUES && 0 <= p < |s.procs| && 0 <= level < NUM_QUEUES
    requires 0 <= s.queues[level].front <= |s.queues[level].slots|
    requires level < NUM_QUEUES - 1 ==> 0 <= s.queues[level + 1].front <= |s.queues[level + 1].slots|
    ensures r.time == s.time && r.gantt == s.gantt && r.owners == s.owners
    ensures |r.procs| == |s.procs| && forall i :: 0 <= i < |s.procs| && i != p ==> r.procs[i] == s.procs[i]
    ensures r.procs[p].remainingTime == s.procs[p].remainingTime
    ensures r.completed == s.completed + (if s.procs[p].remainingTime == 0 then 1 else 0)
  {
    var pr := s.procs[p];
    if pr.remainingTime == 0 then
      var turnaround := s.time - pr.arrivalTime;
      s.(procs := s.procs[p := pr.(completionTime := s.time, turnaroundTime := turnaround,
                                   waitingTime := turnaround - pr.burstTime, isCompleted := true)],
         completed := s.completed + 1)
    else if level < NUM_QUEUES - 1 then
      s.(procs := s.procs[p := pr.(currentQueue := level + 1)],
         queues := s.queues[level + 1 := s.queues[level + 1].Enqueue(p)])
    else
      s.(queues := s.queues[level := s.queues[level].Enqueue(p)])
  }

  /** Finish case by case, for callers that follow the source's branches. */
  lemma FinishCases(s: Sched, p: int, level: int)
    requires |s.queues| == NUM_QUEUES && 0 <= p < |s.procs| && 0 <= level < NUM_QUEUES
    requires 0 <= s.queues[level].front <= |s.queues[level].slots|
    requires level < NUM_QUEUES - 1 ==> 0 <= s.queues[level + 1].front <= |s.queues[level + 1].slots|
    ensures
      var pr := s.procs[p];
      var r := Finish(s, p, level);
      && (pr.remainingTime == 0 ==>
            var turnaround := s.time - pr.arrivalTime;
            && r.procs == s.procs[p := pr.(completionTime := s.time, turnaroundTime := turnaround,
                                            waitingTime := turnaround - pr.burstTime, isCompleted := true)]
            && r.queues == s.queues && r.completed == s.completed + 1)
      && (pr.remainingTime != 0 && level < NUM_QUEUES - 1 ==>
            && r.procs == s.procs[p := pr.(currentQueue := level + 1)]
            && r.queues == s.queues[level + 1 := s.queues[level + 1].Enqueue(p)] && r.completed == s.completed)
      && (pr.remainingTime != 0 && level == NUM_QUEUES - 1 ==>
            && r.procs == s.procs
            && r.queues == s.queues[level := s.queues[level].Enqueue(p)] && r.completed == s.completed)
  {
  }

  // ---------------------------------------------------------------------
  // Counting over the table and the log

  function CountCompleted(ps: seq<Process>): (c: int)
    ensures 0 <= c <= |ps|
  {
    if |ps| == 0 then 0 else CountCompleted(ps[..|ps| - 1]) + (if ps[|ps| - 1].isCompleted then 1 else 0)
  }

  function TotalRemaining(ps: seq<Process>): int {
    if |ps| == 0 then 0 else TotalRemaining(ps[..|ps| - 1]) + ps[|ps| - 1].remainingTime
  }

  /** How many log entries belong to process i. */
  function SegCount(owners: seq<int>, i: int): int {
    if |owners| == 0 then 0 else SegCount(owners[..|owners| - 1], i) + (if owners[|owners| - 1] == i then 1 else 0)
  }

  /** The total length of the log entries that belong to process i. */
  function SegSum(gantt: seq<GanttEntry>, owners: seq<int>, i: int): int
    requires |gantt| == |owners|
  {
    if |owners| == 0 then 0
    else
      var k := |owners| - 1;
      SegSum(gantt[..k], owners[..k], i) + (if owners[k] == i then gantt[k].endTime - gantt[k].startTime else 0)
  }

  lemma SegAppend(gantt: seq<GanttEntry>, owners: seq<int>, e: GanttEntry, p: int, i: int)
    requires |gantt| == |owners|
    ensures SegCount(owners + [p], i) == SegCount(owners, i) + (if p == i then 1 else 0)
    ensures SegSum(gantt + [e], owners + [p], i) == SegSum(gantt, owners, i) + (if p == i then e.endTime - e.startTime else 0)
  {
    assert (owners + [p])[..|owners|] == owners;
    assert (gantt + [e])[..|gantt|] == gantt;
  }

  // ---------------------------------------------------------------------
  // The loop invariant

  ghost predicate QueueWF(q: QueueState, n: int) {
    && 0 <= q.front <= |q.slots|
    && Distinct(q.slots)
    && (forall k :: 0 <= k < |q.slots| ==> 0 <= q.slots[k] < n)
  }

  /** Process i sits in the live part of queue q. */
  ghost predicate Waiting(s: Sched, i: int, q: int)
    requires 0 <= q < |s.queues| && 0 <= s.queues[q].front <= |s.queues[q].slots|
  {
    i in s.queues[q].Contents()
  }

  ghost predicate Shape(s: Sched) {
    && |s.procs| <= MAX_PROCESSES
    && |s.queues| == NUM_QUEUES
    && s.queues[0].quantum == Q1_QUANTUM
    && s.queues[1].quantum == Q2_QUANTUM
    && s.queues[2].quantum == FCFS_QUANTUM
    && QueueWF(s.queues[0], |s.procs|)
    && QueueWF(s.queues[1], |s.procs|)
    && QueueWF(s.queues[2], |s.procs|)
    && |s.owners| == |s.gantt| == s.queues[0].front + s.queues[1].front + s.queues[2].front
    && (forall k :: 0 <= k < |s.gantt| ==>
          0 <= s.owners[k] < |s.procs| && s.gantt[k].processId == s.procs[s.owners[k]].id &&
          s.gantt[k].startTime < s.gantt[k].endTime)
  }

  /** What holds of row i. A process is either not yet admitted, or admitted
      and then exactly one of: waiting in the queue of its level, running
      (index r, between dequeue and completion or demotion), or completed. */
  ghost predicate ProcInv(s: Sched, i: int, r: int)
    requires Shape(s) && 0 <= i < |s.procs|
  {
    var p := s.procs[i];
    var L := p.currentQueue;
    && 0 < p.burstTime
    && 0 <= p.remainingTime <= p.burstTime
    && SegSum(s.gantt, s.owners, i) == p.burstTime - p.remainingTime
    && if i !in s.queues[0].slots then
         && !p.isCompleted && p.remainingTime == p.burstTime && i != r
         && i !in s.queues[1].slots && i !in s.queues[2].slots
         && SegCount(s.owners, i) == 0
       else
         && 0 <= L < NUM_QUEUES
         && (i in s.queues[1].slots <==> 1 <= L)
         && (i in s.queues[2].slots <==> 2 <= L)
         && (0 < L ==> !Waiting(s, i, 0))
         && (1 < L ==> !Waiting(s, i, 1))
         && if i == r then
              && !p.isCompleted && !Waiting(s, i, L) && SegCount(s.owners, i) == L + 1
              && s.time - p.arrivalTime >= p.burstTime - p.remainingTime
              && (L == NUM_QUEUES - 1 ==> p.remainingTime == 0)
            else if p.isCompleted then
              && !Waiting(s, i, L) && SegCount(s.owners, i) == L + 1
              && p.remainingTime == 0 && StatsHold(p) && 0 <= p.waitingTime
            else
              && Waiting(s, i, L) && SegCount(s.owners, i) == L && 0 < p.remainingTime
              && s.time - p.arrivalTime >= p.burstTime - p.remainingTime
  }

  /** The invariant with r the running process, or -1 for none. */
  ghost predicate InvR(s: Sched, r: int) {
    && Shape(s)
    && (forall i :: 0 <= i < |s.procs| ==> ProcInv(s, i, r))
    && s.completed == CountCompleted(s.procs)
  }

  /** The invariant of the while loop of mlfq_schedule. */
  ghost predicate Inv(s: Sched) {
    InvR(s, -1)
  }

  // ---------------------------------------------------------------------
  // Facts about the counting functions

  lemma {:induction false} CountCompletedUpdate(ps: seq<Process>, i: int, x: Process)
    requires 0 <= i < |ps|
    ensures CountCompleted(ps[i := x]) ==
            CountCompleted(ps) - (if ps[i].isCompleted then 1 else 0) + (if x.isCompleted then 1 else 0)
  {
    var k := |ps| - 1;
    if i < k {
      assert ps[i := x][..k] == ps[..k][i := x];
      CountCompletedUpdate(ps[..k], i, x);
    } else {
      assert ps[i := x][..k] == ps[..k];
    }
  }

  lemma {:induction false} CountCompletedSame(a: seq<Process>, b: seq<Process>)
    requires |a| == |b| && forall i :: 0 <= i < |a| ==> a[i].isCompleted == b[i].isCompleted
    ensures CountCompleted(a) == CountCompleted(b)
  {
    if |a| > 0 {
      CountCompletedSame(a[..|a| - 1], b[..|b| - 1]);
    }
  }

  lemma {:induction false} CountCompletedAll(ps: seq<Process>)
    ensures CountCompleted(ps) == |ps| <==> forall i :: 0 <= i < |ps| ==> ps[i].isCompleted
  {
    if |ps| > 0 {
      var k := |ps| - 1;
      CountCompletedAll(ps[..k]);
      assert (forall i :: 0 <= i < |ps| ==> ps[i].isCompleted) <==>
             (forall i :: 0 <= i < k ==> ps[..k][i].isCompleted) && ps[k].isCompleted;
    }
  }

  lemma {:induction false} TotalRemainingUpdate(ps: seq<Process>, i: int, x: Process)
    requires 0 <= i < |ps|
    ensures TotalRemaining(ps[i := x]) == TotalRemaining(ps) - ps[i].remainingTime + x.remainingTime
  {
    var k := |ps| - 1;
    if i < k {
      assert ps[i := x][..k] == ps[..k][i := x];
      TotalRemainingUpdate(ps[..k], i, x);
    } else {
      assert ps[i := x][..k] == ps[..k];
    }
  }

  lemma {:induction false} TotalRemainingSame(a: seq<Process>, b: seq<Process>)
    requires |a| == |b| && forall i :: 0 <= i < |a| ==> a[i].remainingTime == b[i].remainingTime
    ensures TotalRemaining(a) == TotalRemaining(b)
  {
    if |a| > 0 {
      TotalRemainingSame(a[..|a| - 1], b[..|b| - 1]);
    }
  }

  lemma {:induction false} TotalRemainingNonNegative(ps: seq<Process>)
    requires forall i :: 0 <= i < |ps| ==> 0 <= ps[i].remainingTime
    ensures 0 <= TotalRemaining(ps)
  {
    if |ps| > 0 {
      TotalRemainingNonNegative(ps[..|ps| - 1]);
    }
  }

  /** A duplicate-free sequence of indices below n has at most n elements:
      this is why no linear queue is overrun. */
  lemma {:induction false} DistinctBound(sl: seq<int>, n: nat)
    requires Distinct(sl) && forall k :: 0 <= k < |sl| ==> 0 <= sl[k] < n
    ensures |sl| <= n
  {
    if n == 0 {
    } else if n - 1 in sl {
      var j :| 0 <= j < |sl| && sl[j] == n - 1;
      var rest := sl[..j] + sl[j + 1..];
      assert forall k :: 0 <= k < |rest| ==> rest[k] == if k < j then sl[k] else sl[k + 1];
      DistinctBound(rest, n - 1);
    } else {
      DistinctBound(sl, n - 1);
    }
  }

  lemma CapacityOf(s: Sched)
    requires Shape(s)
    ensures forall q :: 0 <= q < NUM_QUEUES ==> |s.queues[q].slots| <= |s.procs|
  {
    DistinctBound(s.queues[0].slots, |s.procs|);
    DistinctBound(s.queues[1].slots, |s.procs|);
    DistinctBound(s.queues[2].slots, |s.procs|);
  }

  // ---------------------------------------------------------------------
  // get_next_process under the invariant

  /** Under the invariant, get_next_process returns -1 exactly when all three
      queues are empty; otherwise it returns the head of the lowest-numbered
      non-empty queue, and that process is a waiting, unfinished process whose
      current_queue is that level, so the dequeue at its current_queue removes it. */
  lemma NextIsWaitingHead(s: Sched)
    requires Inv(s)
    ensures Bounded(s.queues)
    ensures NextProcess(s.queues) == -1 <==> AllEmpty(s.queues)
    ensures NextProcess(s.queues) != -1 ==>
      var p := NextProcess(s.queues);
      var l := ReadyLevel(s.queues, 0);
      && 0 <= p < |s.procs| && l < NUM_QUEUES
      && s.procs[p].currentQueue == l
      && !s.queues[l].IsEmpty() && s.queues[l].Head() == p
      && (forall q :: 0 <= q < l ==> s.queues[q].IsEmpty())
      && !s.procs[p].isCompleted && 0 < s.procs[p].remainingTime
      && ProcInv(s, p, -1)
  {
    var qs := s.queues;
    var l := ReadyLevel(qs, 0);
    if l < NUM_QUEUES {
      var p := qs[l].Head();
      assert qs[l].Contents()[0] == p;
      WaitingFacts(s, p, l);
    }
  }

  /** A process in the live part of queue q is a row of the table, unfinished,
      with work left, and its current_queue is q. */
  lemma WaitingFacts(s: Sched, i: int, q: int)
    requires Inv(s) && 0 <= q < NUM_QUEUES && i in s.queues[q].Contents()
    ensures 0 <= i < |s.procs| && ProcInv(s, i, -1)
    ensures s.procs[i].currentQueue == q && !s.procs[i].isCompleted && 0 < s.procs[i].remainingTime
  {
    var sl := s.queues[q].slots;
    var k :| s.queues[q].front <= k < |sl| && sl[k] == i;
    assert i in sl;
    assert ProcInv(s, i, -1);
    assert Waiting(s, i, q);
  }

  // ---------------------------------------------------------------------
  // The slice: dequeue, run, record (mlfq.c:136-158)

  /** What the slice needs: the next process is a row of the table whose
      level is a queue that holds it. */
  ghost predicate SliceReady(s: Sched) {
    && |s.queues| == NUM_QUEUES && Bounded(s.queues) && NextProcess(s.queues) != -1
    && 0 <= NextProcess(s.queues) < |s.procs|
    && 0 <= s.procs[NextProcess(s.queues)].currentQueue < NUM_QUEUES
    && !s.queues[s.procs[NextProcess(s.queues)].currentQueue].IsEmpty()
  }

  lemma SliceReadyOf(s: Sched)
    requires Inv(s) && NextProcess(s.queues) != -1
    ensures SliceReady(s)
  {
    NextIsWaitingHead(s);
  }

  /** The dispatch up to and including the time and remaining-time update. */
  function Slice(s: Sched): (r: Sched)
    requires SliceReady(s)
    ensures |r.procs| == |s.procs| && |r.queues| == NUM_QUEUES && Bounded(r.queues)
    ensures var p := NextProcess(s.queues);
      && r.completed == s.completed
      && r.time - s.time == s.procs[p].remainingTime - r.procs[p].remainingTime
      && r.gantt == s.gantt + [GanttEntry(s.procs[p].id, s.time, r.time)]
  {
    var p := NextProcess(s.queues);
    var pr := s.procs[p];
    var level := pr.currentQueue;
    var exec := ExecutionTime(pr.remainingTime, s.queues[level].quantum);
    s.(procs := s.procs[p := pr.(remainingTime := pr.remainingTime - exec)],
       queues := s.queues[level := s.queues[level].Dequeue()],
       time := s.time + exec,
       gantt := s.gantt + [GanttEntry(pr.id, s.time, s.time + exec)],
       owners := s.owners + [p])
  }

  /** The slice spelled out: the head p of the first non-empty queue is
      dequeued from its level and runs for ExecutionTime; a state with
      exactly those changes is Slice(s). */
  lemma SliceUnfold(s: Sched, p: int, procs': seq<Process>, queues': seq<QueueState>, time': int,
                    gantt': seq<GanttEntry>)
    requires SliceReady(s) && NextProcess(s.queues) == p
    requires
      var pr := s.procs[p];
      var level := pr.currentQueue;
      var exec := ExecutionTime(pr.remainingTime, s.queues[level].quantum);
      && procs' == s.procs[p := pr.(remainingTime := pr.remainingTime - exec)]
      && queues' == s.queues[level := s.queues[level].Dequeue()]
      && time' == s.time + exec
      && gantt' == s.gantt + [GanttEntry(pr.id, s.time, s.time + exec)]
    ensures Slice(s) == Sched(procs', queues', time', s.completed, gantt', s.owners + [p])
  {
  }

  lemma DropHead(sl: seq<int>, f: int, i: int)
    requires Distinct(sl) && 0 <= f < |sl|
    ensures (i in sl[f + 1..]) <==> (i in sl[f..] && i != sl[f])
  {
    assert sl[f..] == [sl[f]] + sl[f + 1..];
    if i in sl[f + 1..] {
      var j :| 0 <= j < |sl[f + 1..]| && sl[f + 1..][j] == i;
      assert sl[f + 1 + j] == i;
    }
  }

  /** What the slice needs of the dispatched process: it heads the queue of
      its level, is unfinished and has work left. */
  ghost predicate SliceOk(s: Sched) {
    && Shape(s) && SliceReady(s)
    && var p := NextProcess(s.queues);
       && s.queues[s.procs[p].currentQueue].Head() == p
       && !s.procs[p].isCompleted && 0 < s.procs[p].remainingTime
  }

  lemma SliceOkOf(s: Sched)
    requires Inv(s) && SliceReady(s)
    ensures SliceOk(s) && ProcInv(s, NextProcess(s.queues), -1)
  {
    NextIsWaitingHead(s);
  }

  /** One slice: at levels 0 and 1 it runs min(remaining, quantum), at level 2
      all of the remaining time; it is positive, the clock and the log advance
      by it, and the remaining time falls by it and stays non-negative. */
  lemma SliceFacts(s: Sched)
    requires SliceOk(s)
    ensures
      var p := NextProcess(s.queues);
      var s1 := Slice(s);
      var pr := s.procs[p];
      var level := pr.currentQueue;
      var exec := s.procs[p].remainingTime - s1.procs[p].remainingTime;
      && 0 <= p < |s.procs| && 0 <= level < NUM_QUEUES
      && (level < NUM_QUEUES - 1 ==>
            exec == if pr.remainingTime < s.queues[level].quantum then pr.remainingTime else s.queues[level].quantum)
      && (level == NUM_QUEUES - 1 ==> exec == pr.remainingTime)
      && 0 < exec && 0 <= s1.procs[p].remainingTime
      && s1.time == s.time + exec
      && s1.gantt == s.gantt + [GanttEntry(pr.id, s.time, s.time + exec)]
      && s1.owners == s.owners + [p]
      && s1.procs == s.procs[p := pr.(remainingTime := pr.remainingTime - exec)]
      && |s1.queues| == NUM_QUEUES
      && s1.queues[level] == s.queues[level].Dequeue()
      && (forall q :: 0 <= q < NUM_QUEUES && q != level ==> s1.queues[q] == s.queues[q])
      && s1.completed == s.completed
      && Shape(s1)
  {
  }

  lemma SliceProcInv(s: Sched, i: int)
    requires SliceOk(s) && 0 <= i < |s.procs| && ProcInv(s, i, -1) && ProcInv(s, NextProcess(s.queues), -1)
    ensures Shape(Slice(s)) && ProcInv(Slice(s), i, NextProcess(s.queues))
    ensures i in Slice(s).queues[0].slots && !Slice(s).procs[i].isCompleted ==>
              Slice(s).procs[i].arrivalTime < Slice(s).time
  {
    if i == NextProcess(s.queues) {
      SliceProcInvSelf(s);
    } else {
      SliceProcInvOther(s, i);
    }
  }

  /** The dispatched process: its slice is appended to its own segments. */
  lemma SliceProcInvSelf(s: Sched)
    requires SliceOk(s) && ProcInv(s, NextProcess(s.queues), -1)
    ensures 0 <= NextProcess(s.queues) < |s.procs|
    ensures Shape(Slice(s)) && ProcInv(Slice(s), NextProcess(s.queues), NextProcess(s.queues))
    ensures var p := NextProcess(s.queues);
      p in Slice(s).queues[0].slots && !Slice(s).procs[p].isCompleted ==>
        Slice(s).procs[p].arrivalTime < Slice(s).time
  {
    SliceFacts(s);
    var p := NextProcess(s.queues);
    var s1 := Slice(s);
    var level := s.procs[p].currentQueue;
    SegAppend(s.gantt, s.owners, s1.gantt[|s.gantt|], p, p);
    var ql := s.queues[level];
    DropHead(ql.slots, ql.front, p);
    assert !Waiting(s1, p, level);
    assert s1.procs[p].currentQueue == level;
  }

  /** Any other process keeps its row and its place in the queues. */
  lemma SliceProcInvOther(s: Sched, i: int)
    requires SliceOk(s) && 0 <= i < |s.procs| && i != NextProcess(s.queues) && ProcInv(s, i, -1)
    ensures Shape(Slice(s)) && ProcInv(Slice(s), i, NextProcess(s.queues))
    ensures i in Slice(s).queues[0].slots && !Slice(s).procs[i].isCompleted ==>
              Slice(s).procs[i].arrivalTime < Slice(s).time
  {
    SliceFacts(s);
    var p := NextProcess(s.queues);
    var s1 := Slice(s);
    var level := s.procs[p].currentQueue;
    SegAppend(s.gantt, s.owners, s1.gantt[|s.gantt|], p, i);
    var ql := s.queues[level];
    DropHead(ql.slots, ql.front, i);
    assert Waiting(s1, i, level) <==> Waiting(s, i, level);
    assert forall q :: 0 <= q < NUM_QUEUES && q != level ==> (Waiting(s1, i, q) <==> Waiting(s, i, q));
    assert s1.procs[i] == s.procs[i];
  }

  /** The invariant holds after the slice, with the dispatched process as the
      running one; total remaining work strictly falls. */
  lemma SliceInv(s: Sched)
    requires Inv(s) && SliceReady(s)
    ensures
      var p := NextProcess(s.queues);
      var s1 := Slice(s);
      && 0 <= p < |s.procs|
      && InvR(s1, p)
      && s1.procs[p].currentQueue == s.procs[p].currentQueue
      && SameStatic(s.procs, s1.procs)
      && TotalRemaining(s1.procs) < TotalRemaining(s.procs)
      && (forall i :: 0 <= i < |s1.procs| && i in s1.queues[0].slots && !s1.procs[i].isCompleted ==>
            s1.procs[i].arrivalTime < s1.time)
  {
    SliceOkOf(s);
    SliceFacts(s);
    var p := NextProcess(s.queues);
    var s1 := Slice(s);
    forall i | 0 <= i < |s.procs|
      ensures ProcInv(s1, i, p)
      ensures i in s1.queues[0].slots && !s1.procs[i].isCompleted ==> s1.procs[i].arrivalTime < s1.time
    {
      assert ProcInv(s, i, -1);
      SliceProcInv(s, i);
    }
    SameStaticSet(s.procs, p, s1.procs[p]);
    TotalRemainingUpdate(s.procs, p, s1.procs[p]);
    CountCompletedUpdate(s.procs, p, s1.procs[p]);
  }

  // ---------------------------------------------------------------------
  // Admission (mlfq.c:95-102) under the invariant

  /** The processes add_new_arrivals admits were never admitted before, so it
      admits each process at most once. */
  ghost predicate ArrivalsNew(s: Sched, r: int) {
    && Shape(s)
    && (r == -1 || 0 <= r < |s.procs|)
    && forall i :: 0 <= i < |s.procs| && i in s.queues[0].slots && !s.procs[i].isCompleted ==>
         s.procs[i].arrivalTime < s.time
  }

  lemma AdmitFacts(s: Sched, r: int)
    requires InvR(s, r) && ArrivalsNew(s, r)
    ensures
      var s2 := AddNewArrivals(s);
      var A := ArrivalsUpTo(s.procs, s.time, |s.procs|);
      && Shape(s2)
      && |s2.procs| == |s.procs|
      && s2.queues[0].slots == s.queues[0].slots + A
      && s2.queues[0].front == s.queues[0].front
      && s2.queues[0].Contents() == s.queues[0].Contents() + A
      && s2.queues[1] == s.queues[1] && s2.queues[2] == s.queues[2]
      && (forall x :: x in A ==> 0 <= x < |s.procs| && x !in s.queues[0].slots && x != r)
      && (forall i :: 0 <= i < |s.procs| ==> s2.procs[i] == AdmitOne(s.procs[i], s.time))
  {
    ArrivalsMembers(s.procs, s.time, |s.procs|);
    var A := ArrivalsUpTo(s.procs, s.time, |s.procs|);
    var s2 := AddNewArrivals(s);
    var sl := s.queues[0].slots;
    forall x | x in A ensures x !in sl && x != r {
      assert ProcInv(s, x, r);
    }
    assert Distinct(sl + A) by {
      forall a, b | 0 <= a < b < |sl + A| ensures (sl + A)[a] != (sl + A)[b] {
        if b >= |sl| && a < |sl| {
          assert (sl + A)[b] in A;
          assert (sl + A)[a] in sl;
        }
      }
    }
    forall k | 0 <= k < |sl + A| ensures 0 <= (sl + A)[k] < |s.procs| {
      if k >= |sl| { assert (sl + A)[k] in A; }
    }
    assert s2.queues[0].Contents() == s.queues[0].Contents() + A;
  }

  lemma AdmitProcInv(s: Sched, r: int, i: int)
    requires InvR(s, r) && ArrivalsNew(s, r) && 0 <= i < |s.procs|
    ensures Shape(AddNewArrivals(s)) && ProcInv(AddNewArrivals(s), i, r)
  {
    AdmitFacts(s, r);
    ArrivalsMembers(s.procs, s.time, |s.procs|);
    var A := ArrivalsUpTo(s.procs, s.time, |s.procs|);
    var s2 := AddNewArrivals(s);
    assert ProcInv(s, i, r);
    assert Waiting(s2, i, 0) <==> Waiting(s, i, 0) || i in A;
    assert Waiting(s2, i, 1) == Waiting(s, i, 1) && Waiting(s2, i, 2) == Waiting(s, i, 2);
    if i in A {
      assert s2.procs[i] == s.procs[i].(currentQueue := 0);
    } else {
      assert s2.procs[i] == s.procs[i];
    }
  }

  /** add_new_arrivals keeps the invariant, changes nothing but the admitted
      rows' current_queue (to 0) and queue 0 (the arrivals are appended in
      index order), and admits only processes not admitted before. */
  lemma AdmitInv(s: Sched, r: int)
    requires InvR(s, r) && ArrivalsNew(s, r)
    ensures
      var s2 := AddNewArrivals(s);
      && InvR(s2, r)
      && SameStatic(s.procs, s2.procs)
      && TotalRemaining(s2.procs) == TotalRemaining(s.procs)
      && s2.queues[0].slots == s.queues[0].slots + ArrivalsUpTo(s.procs, s.time, |s.procs|)
      && s2.queues[1] == s.queues[1] && s2.queues[2] == s.queues[2]
      && (r != -1 ==> s2.procs[r] == s.procs[r])
  {
    AdmitFacts(s, r);
    var s2 := AddNewArrivals(s);
    forall i | 0 <= i < |s.procs| ensures ProcInv(s2, i, r) {
      AdmitProcInv(s, r, i);
    }
    CountCompletedSame(s.procs, s2.procs);
    TotalRemainingSame(s.procs, s2.procs);
    if r != -1 {
      assert ProcInv(s, r, r);
    }
  }

  // ---------------------------------------------------------------------
  // Completion or demotion (mlfq.c:162-175) under the invariant

  /** Completion or demotion keeps the shape of the state: a demoted process
      is new to the queue it joins, so that queue stays duplicate-free. */
  lemma FinishShape(s: Sched, p: int, level: int)
    requires Shape(s) && 0 <= p < |s.procs| && ProcInv(s, p, p) && s.procs[p].currentQueue == level
    ensures 0 <= level < NUM_QUEUES && Shape(Finish(s, p, level))
    ensures s.procs[p].remainingTime != 0 ==>
      && level < NUM_QUEUES - 1 && p !in s.queues[level + 1].slots
      && Finish(s, p, level).queues[level + 1].slots == s.queues[level + 1].slots + [p]
  {
    if s.procs[p].remainingTime != 0 {
      var q := s.queues[level + 1];
      assert p !in q.slots;
      assert Distinct(q.slots + [p]);
    }
  }

  lemma FinishCompleteSelf(s: Sched, p: int, level: int)
    requires Shape(s) && 0 <= p < |s.procs| && ProcInv(s, p, p) && s.procs[p].currentQueue == level
    requires s.procs[p].remainingTime == 0
    ensures 0 <= level < NUM_QUEUES && Shape(Finish(s, p, level)) && ProcInv(Finish(s, p, level), p, -1)
  {
    FinishShape(s, p, level);
    var s3 := Finish(s, p, level);
    assert s3.queues == s.queues && s3.gantt == s.gantt && s3.owners == s.owners;
  }

  /** What row i must satisfy depends only on the row, the queues, the log
      and the clock, as long as i is not the running process. */
  lemma ProcInvFrame(s: Sched, t: Sched, i: int, r: int, r': int)
    requires Shape(s) && Shape(t) && |t.procs| == |s.procs| && 0 <= i < |s.procs| && i != r && i != r'
    requires t.procs[i] == s.procs[i] && t.queues == s.queues && t.time == s.time
    requires t.gantt == s.gantt && t.owners == s.owners
    ensures ProcInv(t, i, r') == ProcInv(s, i, r)
  {
  }

  lemma FinishCompleteOther(s: Sched, p: int, level: int, i: int)
    requires Shape(s) && 0 <= p < |s.procs| && ProcInv(s, p, p) && s.procs[p].currentQueue == level
    requires 0 <= i < |s.procs| && ProcInv(s, i, p)
    requires s.procs[p].remainingTime == 0 && i != p
    ensures 0 <= level < NUM_QUEUES && Shape(Finish(s, p, level)) && ProcInv(Finish(s, p, level), i, -1)
  {
    FinishShape(s, p, level);
    ProcInvFrame(s, Finish(s, p, level), i, p, -1);
  }

  lemma FinishDemoteOther(s: Sched, p: int, level: int, i: int)
    requires Shape(s) && 0 <= p < |s.procs| && ProcInv(s, p, p) && s.procs[p].currentQueue == level
    requires 0 <= i < |s.procs| && ProcInv(s, i, p)
    requires s.procs[p].remainingTime != 0 && i != p
    ensures 0 <= level < NUM_QUEUES - 1 && Shape(Finish(s, p, level)) && ProcInv(Finish(s, p, level), i, -1)
  {
    FinishShape(s, p, level);
    var s3 := Finish(s, p, level);
    var nl := level + 1;
    var q := s.queues[nl];
    assert s3.queues[nl].Contents() == q.Contents() + [p];
    assert s3.procs[i] == s.procs[i];
    assert Waiting(s3, i, nl) <==> Waiting(s, i, nl);
    assert i in s3.queues[nl].slots <==> i in q.slots;
  }

  lemma FinishDemoteSelf(s: Sched, p: int, level: int)
    requires Shape(s) && 0 <= p < |s.procs| && ProcInv(s, p, p) && s.procs[p].currentQueue == level
    requires s.procs[p].remainingTime != 0
    ensures 0 <= level < NUM_QUEUES - 1 && Shape(Finish(s, p, level)) && ProcInv(Finish(s, p, level), p, -1)
  {
    FinishShape(s, p, level);
    var s3 := Finish(s, p, level);
    var nl := level + 1;
    assert s3.queues[nl].Contents() == s.queues[nl].Contents() + [p];
    assert Waiting(s3, p, nl);
  }

  lemma FinishProcInv(s: Sched, p: int, level: int, i: int)
    requires Shape(s) && 0 <= p < |s.procs| && ProcInv(s, p, p) && s.procs[p].currentQueue == level
    requires 0 <= i < |s.procs| && ProcInv(s, i, p)
    ensures 0 <= level < NUM_QUEUES && Shape(Finish(s, p, level)) && ProcInv(Finish(s, p, level), i, -1)
  {
    if s.procs[p].remainingTime == 0 {
      if i == p {
        FinishCompleteSelf(s, p, level);
      } else {
        FinishCompleteOther(s, p, level, i);
      }
    } else if i == p {
      FinishDemoteSelf(s, p, level);
    } else {
      FinishDemoteOther(s, p, level, i);
    }
  }

  /** Completion sets completion_time to the clock, derives turnaround and
      waiting time (waiting is never negative) and counts the process once;
      otherwise the process goes to the tail of the next lower queue. The
      invariant is restored with no running process. */
  lemma FinishInv(s: Sched, p: int, level: int)
    requires InvR(s, p) && 0 <= p < |s.procs| && s.procs[p].currentQueue == level
    ensures 0 <= level < NUM_QUEUES && Shape(s)
    ensures
      var s3 := Finish(s, p, level);
      var pr := s.procs[p];
      && Inv(s3)
      && SameStatic(s.procs, s3.procs)
      && TotalRemaining(s3.procs) == TotalRemaining(s.procs)
      && (pr.remainingTime == 0 ==>
            s3.procs[p].isCompleted && s3.procs[p].completionTime == s.time &&
            StatsHold(s3.procs[p]) && 0 <= s3.procs[p].waitingTime && s3.completed == s.completed + 1)
      && (pr.remainingTime != 0 ==>
            level < NUM_QUEUES - 1 && s3.procs[p].currentQueue == level + 1 &&
            s3.queues[level + 1].Contents() == s.queues[level + 1].Contents() + [p] &&
            s3.completed == s.completed)
  {
    FinishKeepsInv(s, p, level);
    FinishEffects(s, p, level);
  }

  lemma FinishKeepsInv(s: Sched, p: int, level: int)
    requires InvR(s, p) && 0 <= p < |s.procs| && s.procs[p].currentQueue == level
    ensures 0 <= level < NUM_QUEUES && Shape(s)
    ensures Inv(Finish(s, p, level))
  {
    FinishShape(s, p, level);
    assert ProcInv(s, p, p);
    var s3 := Finish(s, p, level);
    forall i | 0 <= i < |s.procs| ensures ProcInv(s3, i, -1) {
      assert ProcInv(s, i, p);
      FinishProcInv(s, p, level, i);
    }
    CountCompletedUpdate(s.procs, p, s3.procs[p]);
  }

  lemma FinishEffects(s: Sched, p: int, level: int)
    requires InvR(s, p) && 0 <= p < |s.procs| && s.procs[p].currentQueue == level
    ensures 0 <= level < NUM_QUEUES && Shape(s)
    ensures
      var s3 := Finish(s, p, level);
      var pr := s.procs[p];
      && SameStatic(s.procs, s3.procs)
      && TotalRemaining(s3.procs) == TotalRemaining(s.procs)
      && (pr.remainingTime == 0 ==>
            s3.procs[p].isCompleted && s3.procs[p].completionTime == s.time &&
            StatsHold(s3.procs[p]) && 0 <= s3.procs[p].waitingTime && s3.completed == s.completed + 1)
      && (pr.remainingTime != 0 ==>
            level < NUM_QUEUES - 1 && s3.procs[p].currentQueue == level + 1 &&
            s3.queues[level + 1].Contents() == s.queues[level + 1].Contents() + [p] &&
            s3.completed == s.completed)
  {
    assert ProcInv(s, p, p);
    var s3 := Finish(s, p, level);
    TotalRemainingUpdate(s.procs, p, s3.procs[p]);
  }

  // ---------------------------------------------------------------------
  // One loop iteration and the whole run

  /** The dispatch branch of the loop body (mlfq.c:135-175). */
  function Dispatch(s: Sched): (r: Sched)
    requires SliceReady(s)
    ensures var p := NextProcess(s.queues);
      && |r.gantt| == |s.gantt| + 1 && r.gantt[..|s.gantt|] == s.gantt
      && r.gantt[|s.gantt|].processId == s.procs[p].id && r.gantt[|s.gantt|].startTime == s.time
      && s.completed <= r.completed <= s.completed + 1
  {
    var p := NextProcess(s.queues);
    Finish(AddNewArrivals(Slice(s)), p, s.procs[p].currentQueue)
  }

  /** The dispatch branch stays within the fixed buffers: the arrivals it
      admits fit in queue 0, and a process it re-queues fits in its queue. */
  ghost predicate DispatchSafe(s: Sched) {
    && SliceReady(s)
    && var p := NextProcess(s.queues);
    var level := s.procs[p].currentQueue;
    var s1 := Slice(s);
    var s2 := AddNewArrivals(s1);
    && |s1.queues[0].slots| + |ArrivalsUpTo(s1.procs, s1.time, |s1.procs|)| <= MAX_PROCESSES
    && (s2.procs[p].remainingTime != 0 ==>
          |s2.queues[if level < NUM_QUEUES - 1 then level + 1 else level].slots| < MAX_PROCESSES)
  }

  lemma DispatchSafeOf(s: Sched)
    requires Inv(s) && NextProcess(s.queues) != -1
    ensures SliceReady(s) && DispatchSafe(s)
  {
    SliceReadyOf(s);
    SliceInv(s);
    var p := NextProcess(s.queues);
    var s1 := Slice(s);
    AdmitInv(s1, p);
    var s2 := AddNewArrivals(s1);
    CapacityOf(s2);
    assert ProcInv(s2, p, p);
    FinishShape(s2, p, s.procs[p].currentQueue);
    FinishKeepsInv(s2, p, s.procs[p].currentQueue);
    CapacityOf(Finish(s2, p, s.procs[p].currentQueue));
  }

  lemma IdleRetime(s: Sched, t: int)
    requires Inv(s) && AllEmpty(s.queues)
    ensures Inv(s.(time := t)) && ArrivalsNew(s.(time := t), -1)
  {
    var s' := s.(time := t);
    forall i | 0 <= i < |s.procs| ensures ProcInv(s', i, -1) && (i in s.queues[0].slots ==> s.procs[i].isCompleted) {
      assert ProcInv(s, i, -1);
      assert forall q :: 0 <= q < NUM_QUEUES ==> s.queues[q].Contents() == [];
    }
  }

  /** When every queue is empty and some process is unfinished, the idle jump
      sets the clock to the earliest arrival among unfinished processes (which
      may lie before the current clock) and admits the arrivals at that instant,
      so queue 0 is no longer empty. */
  lemma IdleInv(s: Sched)
    requires Inv(s) && AllEmpty(s.queues) && s.completed < |s.procs|
    ensures
      var next := EarliestUpTo(s.procs, |s.procs|);
      var s' := Idle(s);
      && 0 <= next < |s.procs|
      && s'.time == s.procs[next].arrivalTime
      && Inv(s') && !AllEmpty(s'.queues)
      && SameStatic(s.procs, s'.procs)
      && TotalRemaining(s'.procs) == TotalRemaining(s.procs)
      && s'.gantt == s.gantt
  {
    CountCompletedAll(s.procs);
    var next := EarliestUpTo(s.procs, |s.procs|);
    var t := s.procs[next].arrivalTime;
    IdleRetime(s, t);
    AdmitInv(s.(time := t), -1);
    var A := ArrivalsUpTo(s.procs, t, |s.procs|);
    assert next in A by {
      ArrivalsMembers(s.procs, t, |s.procs|);
    }
    assert AddNewArrivals(s.(time := t)).queues[0].Contents() == s.queues[0].Contents() + A;
  }

  /** One iteration of the while loop of mlfq_schedule (mlfq.c:117-176). */
  function Step(s: Sched): (r: Sched)
    requires Inv(s)
    ensures NextProcess(s.queues) == -1 ==> r.gantt == s.gantt && r.completed == s.completed
    ensures NextProcess(s.queues) != -1 ==> |r.gantt| == |s.gantt| + 1 && r.gantt[..|s.gantt|] == s.gantt
  {
    if NextProcess(s.queues) == -1 then Idle(s)
    else
      SliceReadyOf(s);
      Dispatch(s)
  }

  /** Every iteration keeps the invariant and leaves the fields the scheduler
      never writes alone; it either runs a positive slice (so total remaining
      work falls) or is an idle jump after which a dispatch follows. */
  lemma StepInv(s: Sched)
    requires Inv(s) && s.completed < |s.procs|
    ensures Inv(Step(s)) && SameStatic(s.procs, Step(s).procs)
    ensures 0 <= TotalRemaining(Step(s).procs)
    ensures TotalRemaining(Step(s).procs) < TotalRemaining(s.procs) ||
            (TotalRemaining(Step(s).procs) == TotalRemaining(s.procs) &&
             AllEmpty(s.queues) && !AllEmpty(Step(s).queues))
  {
    NextIsWaitingHead(s);
    if NextProcess(s.queues) == -1 {
      IdleInv(s);
    } else {
      DispatchInv(s);
    }
    InvRemaining(Step(s));
  }

  /** A dispatching iteration keeps the invariant and strictly lowers the
      total remaining work. */
  lemma DispatchInv(s: Sched)
    requires Inv(s) && NextProcess(s.queues) != -1
    ensures SliceReady(s) && Inv(Dispatch(s)) && SameStatic(s.procs, Dispatch(s).procs)
    ensures TotalRemaining(Dispatch(s).procs) < TotalRemaining(s.procs)
  {
    SliceReadyOf(s);
    SliceInv(s);
    var p := NextProcess(s.queues);
    var s1 := Slice(s);
    AdmitInv(s1, p);
    FinishInv(AddNewArrivals(s1), p, s.procs[p].currentQueue);
  }

  lemma InvRemaining(s: Sched)
    requires Inv(s)
    ensures 0 <= TotalRemaining(s.procs)
  {
    forall i | 0 <= i < |s.procs| ensures 0 <= s.procs[i].remainingTime {
      assert ProcInv(s, i, -1);
    }
    TotalRemainingNonNegative(s.procs);
  }

  /** The while loop of mlfq_schedule: it ends, with every process completed. */
  function Run(s: Sched): (r: Sched)
    requires Inv(s)
    ensures Inv(r) && r.completed == |r.procs| && SameStatic(s.procs, r.procs)
    decreases TotalRemaining(s.procs), if AllEmpty(s.queues) then 1 else 0
  {
    if s.completed >= |s.procs| then s
    else
      StepInv(s);
      var r := Run(Step(s));
      assert SameStatic(s.procs, r.procs) by {
        assert SameStatic(s.procs, Step(s).procs) && SameStatic(Step(s).procs, r.procs);
      }
      r
  }

  /** One iteration of the loop, while some process is not completed. */
  lemma RunUnfold(s: Sched, t: Sched)
    requires Inv(s) && s.completed < |s.procs| && Step(s) == t
    ensures Inv(t) && Run(s) == Run(t)
  {
    StepInv(s);
  }

  /** The loop ends once every process is completed. */
  lemma RunDone(s: Sched)
    requires Inv(s) && s.completed == |s.procs|
    ensures Run(s) == s
  {
  }

  /** The state before the loop (mlfq.c:106-114): empty queues, clock 0, then
      the arrivals at time 0 admitted. */
  function Start(ps: seq<Process>): Sched {
    Sched(ps, InitialQueues(), 0, 0, [], [])
  }

  lemma StartInv(ps: seq<Process>)
    requires Ready(ps)
    ensures Inv(Start(ps)) && ArrivalsNew(Start(ps), -1)
  {
    var s := Start(ps);
    assert Shape(s);
    forall i | 0 <= i < |ps| ensures ProcInv(s, i, -1) {
      assert ps[i].burstTime > 0 && Unscheduled(ps[i]);
    }
    assert CountCompleted(ps) == 0 by {
      CountZero(ps);
    }
  }

  lemma {:induction false} CountZero(ps: seq<Process>)
    requires forall i :: 0 <= i < |ps| ==> !ps[i].isCompleted
    ensures CountCompleted(ps) == 0
  {
    if |ps| > 0 {
      CountZero(ps[..|ps| - 1]);
    }
  }

  /** mlfq_schedule as a function of the input table. */
  function Schedule(ps: seq<Process>): (r: Sched)
    requires Ready(ps)
    ensures Inv(r) && r.completed == |r.procs| && SameStatic(ps, r.procs)
  {
    StartInv(ps);
    AdmitInv(Start(ps), -1);
    Run(AddNewArrivals(Start(ps)))
  }
}
