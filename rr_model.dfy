/** Value-level model of the Round Robin simulator (round_robin.c) as it is
    written: one linear ready queue that only ever grows, the in_queue flags,
    one iteration of the scheduling loop as a function on a state value, the
    invariant the loop keeps, and the whole run as a terminating function. */
module RoundRobinModel {
  import opened Timeline

  const MAX_PROCESSES: int := 100

  datatype Process = Process(
    id: int,
    arrivalTime: int,
    burstTime: int,
    remainingTime: int,
    completionTime: int,
    turnaroundTime: int,
    waitingTime: int,
    isCompleted: bool)

  /** A row as the loader or init_process leaves it: nothing run yet. */
  predicate Unscheduled(p: Process) {
    && !p.isCompleted && p.remainingTime == p.burstTime
    && p.completionTime == 0 && p.turnaroundTime == 0 && p.waitingTime == 0
  }

  /** init_process: the burst is all still to run, the statistics are zero. */
  function InitProcess(id: int, arrival: int, burst: int): (p: Process)
    ensures Unscheduled(p)
    ensures p.id == id && p.arrivalTime == arrival && p.burstTime == burst
  {
    Process(id, arrival, burst, burst, 0, 0, 0, false)
  }

  /** What round_robin_schedule needs of its table: no more rows than the
      in_queue flag array holds, rows not yet run, and no negative burst.
      A negative burst is not a CPU demand: its first slice is the negative
      remaining time itself, so the clock runs backwards and the logged
      segment ends before it starts; the invariant below (remaining time
      between 0 and the burst, segments of length 0 to the quantum) excludes
      such rows. */
  ghost predicate Ready(ps: seq<Process>) {
    |ps| <= MAX_PROCESSES &&
    forall i :: 0 <= i < |ps| ==> Unscheduled(ps[i]) && 0 <= ps[i].burstTime
  }

  /** The statistics a completed row carries. */
  predicate StatsHold(p: Process) {
    p.turnaroundTime == p.completionTime - p.arrivalTime &&
    p.waitingTime == p.turnaroundTime - p.burstTime
  }

  /** Rows agree on the fields the scheduler never writes. */
  ghost predicate SameStatic(a: seq<Process>, b: seq<Process>) {
    |a| == |b| &&
    forall i :: 0 <= i < |a| ==>
      a[i].id == b[i].id && a[i].arrivalTime == b[i].arrivalTime && a[i].burstTime == b[i].burstTime
  }

  /** The state of round_robin_schedule between iterations: the table, the
      queue (everything ever appended; `front` is the next slot to take, the
      length is `rear`), the flags of the rows below n, the clock, the
      completion counter and the Gantt log. */
  datatype RR = RR(
    procs: seq<Process>,
    queue: seq<int>,
    front: int,
    inQueue: seq<bool>,
    time: int,
    completed: int,
    gantt: seq<GanttEntry>)

  /** The shape every state has: one flag per row, `front` within the queue,
      every queued index a row. */
  ghost predicate WF(s: RR) {
    && |s.inQueue| == |s.procs|
    && 0 <= s.front <= |s.queue|
    && forall k :: 0 <= k < |s.queue| ==> 0 <= s.queue[k] < |s.procs|
  }

  // ---------------------------------------------------------------------
  // The initial queue (round_robin.c:78-83)

  /** The rows below k that arrive at time 0, in index order. */
  function ZeroArrivalsUpTo(ps: seq<Process>, k: nat): (r: seq<int>)
    requires k <= |ps|
    ensures |r| <= k
  {
    if k == 0 then [] else ZeroArrivalsUpTo(ps, k - 1) + (if ps[k - 1].arrivalTime == 0 then [k - 1] else [])
  }

  /** The initial queue is exactly the rows arriving at 0, in increasing
      index order. */
  lemma {:induction false} ZeroArrivalsMembers(ps: seq<Process>, k: nat)
    requires k <= |ps|
    ensures var r := ZeroArrivalsUpTo(ps, k);
      && (forall x :: x in r <==> 0 <= x < k && ps[x].arrivalTime == 0)
      && (forall a, b :: 0 <= a < b < |r| ==> r[a] < r[b])
  {
    if k > 0 {
      ZeroArrivalsMembers(ps, k - 1);
      var r0 := ZeroArrivalsUpTo(ps, k - 1);
      forall a | 0 <= a < |r0| ensures r0[a] < k - 1 { assert r0[a] in r0; }
      if ps[k - 1].arrivalTime == 0 {
        assert ZeroArrivalsUpTo(ps, k) == r0 + [k - 1];
      } else {
        assert ZeroArrivalsUpTo(ps, k) == r0;
      }
    }
  }

  /** The flags after the initial loop: set exactly for the rows arriving at 0. */
  function InitialFlags(ps: seq<Process>): (r: seq<bool>)
    ensures |r| == |ps| && forall i :: 0 <= i < |ps| ==> r[i] == (ps[i].arrivalTime == 0)
  {
    seq(|ps|, i requires 0 <= i < |ps| => ps[i].arrivalTime == 0)
  }

  /** The state before the main loop. */
  function Start(ps: seq<Process>): RR {
    RR(ps, ZeroArrivalsUpTo(ps, |ps|), 0, InitialFlags(ps), 0, 0, [])
  }

  // ---------------------------------------------------------------------
  // The idle jump (round_robin.c:88-101)

  /** A row the idle scan may pick: not completed and not flagged. */
  predicate Waits(p: Process, flagged: bool) {
    !p.isCompleted && !flagged
  }

  /** The row the idle scan picks among the rows below k: one that waits,
      with the smallest arrival time, the first such on ties; -1 if none. */
  function EarliestUpTo(ps: seq<Process>, flags: seq<bool>, k: nat): (r: int)
    requires k <= |ps| == |flags|
    ensures -1 <= r < k
    ensures r == -1 <==> forall i :: 0 <= i < k ==> !Waits(ps[i], flags[i])
    ensures r != -1 ==> Waits(ps[r], flags[r])
    ensures r != -1 ==> forall i :: 0 <= i < k && Waits(ps[i], flags[i]) ==> ps[r].arrivalTime <= ps[i].arrivalTime
    ensures r != -1 ==> forall i :: 0 <= i < r && Waits(ps[i], flags[i]) ==> ps[r].arrivalTime < ps[i].arrivalTime
  {
    if k == 0 then -1
    else
      var b := EarliestUpTo(ps, flags, k - 1);
      if Waits(ps[k - 1], flags[k - 1]) && (b == -1 || ps[k - 1].arrivalTime < ps[b].arrivalTime) then k - 1 else b
  }

  /** With the queue drained: the clock jumps to the picked row's arrival and
      only that row is queued and flagged; with no row to pick, nothing
      changes (the source then simply loops again). */
  function Idle(s: RR): (r: RR)
    requires WF(s)
    ensures WF(r) && r.procs == s.procs && r.front == s.front && r.completed == s.completed && r.gantt == s.gantt
    ensures |s.queue| <= |r.queue| <= |s.queue| + 1 && r.queue[..|s.queue|] == s.queue
  {
    var next := EarliestUpTo(s.procs, s.inQueue, |s.procs|);
    if next == -1 then s
    else s.(time := s.procs[next].arrivalTime, queue := s.queue + [next], inQueue := s.inQueue[next := true])
  }

  // ---------------------------------------------------------------------
  // Dispatch (round_robin.c:104-141)

  /** The slice of a dispatch: the quantum, or the remaining time if that is
      not larger. */
  function ExecutionTime(remaining: int, quantum: int): (e: int)
    ensures e <= remaining && e <= quantum && (e == remaining || e == quantum)
  {
    if remaining > quantum then quantum else remaining
  }

  /** Lines 105-120: take the head, clear its flag, record the segment, and
      advance the clock and lower the remaining time by the slice. */
  function Slice(s: RR, quantum: int): (r: RR)
    requires WF(s) && s.front < |s.queue|
    ensures WF(r) && r.queue == s.queue && r.front == s.front + 1 && r.completed == s.completed
  {
    var cp := s.queue[s.front];
    var pr := s.procs[cp];
    var exec := ExecutionTime(pr.remainingTime, quantum);
    s.(procs := s.procs[cp := pr.(remainingTime := pr.remainingTime - exec)],
       front := s.front + 1,
       inQueue := s.inQueue[cp := false],
       time := s.time + exec,
       gantt := s.gantt + [GanttEntry(pr.id, s.time, s.time + exec)])
  }

  /** A row the post-slice scan appends: not completed, not flagged, arrived
      by the clock. */
  predicate Joins(p: Process, flagged: bool, t: int) {
    !p.isCompleted && !flagged && p.arrivalTime <= t
  }

  /** The rows below k that the scan appends, in index order. A row's flag is
      only read before the scan sets it, so the original flags decide. */
  function JoinersUpTo(ps: seq<Process>, flags: seq<bool>, t: int, k: nat): (r: seq<int>)
    requires k <= |ps| == |flags|
    ensures |r| <= k
  {
    if k == 0 then [] else JoinersUpTo(ps, flags, t, k - 1) + (if Joins(ps[k - 1], flags[k - 1], t) then [k - 1] else [])
  }

  /** The scan appends exactly the rows below k that join, in increasing
      index order. */
  lemma {:induction false} JoinersMembers(ps: seq<Process>, flags: seq<bool>, t: int, k: nat)
    requires k <= |ps| == |flags|
    ensures var r := JoinersUpTo(ps, flags, t, k);
      && (forall x :: x in r <==> 0 <= x < k && Joins(ps[x], flags[x], t))
      && (forall a, b :: 0 <= a < b < |r| ==> r[a] < r[b])
  {
    if k > 0 {
      JoinersMembers(ps, flags, t, k - 1);
      var r0 := JoinersUpTo(ps, flags, t, k - 1);
      forall a | 0 <= a < |r0| ensures r0[a] < k - 1 { assert r0[a] in r0; }
      if Joins(ps[k - 1], flags[k - 1], t) {
        assert JoinersUpTo(ps, flags, t, k) == r0 + [k - 1];
      } else {
        assert JoinersUpTo(ps, flags, t, k) == r0;
      }
    }
  }

  /** The flags after the scan has visited the rows below k. */
  function MarkUpTo(ps: seq<Process>, flags: seq<bool>, t: int, k: nat): (r: seq<bool>)
    requires k <= |ps| == |flags|
    ensures |r| == |flags|
    ensures forall j :: 0 <= j < |flags| ==>
              r[j] == if j < k then flags[j] || Joins(ps[j], flags[j], t) else flags[j]
  {
    if k == 0 then flags else MarkUpTo(ps, flags, t, k - 1)[k - 1 := flags[k - 1] || Joins(ps[k - 1], flags[k - 1], t)]
  }

  /** Lines 123-129: append and flag every row that joins at the clock. */
  function Scan(s: RR): (r: RR)
    requires WF(s)
    ensures WF(r) && r.procs == s.procs && r.front == s.front && r.time == s.time
    ensures r.completed == s.completed && r.gantt == s.gantt
    ensures r.queue == s.queue + JoinersUpTo(s.procs, s.inQueue, s.time, |s.procs|)
  {
    var J := JoinersUpTo(s.procs, s.inQueue, s.time, |s.procs|);
    JoinersMembers(s.procs, s.inQueue, s.time, |s.procs|);
    assert forall k :: 0 <= k < |J| ==> J[k] in J;
    s.(queue := s.queue + J, inQueue := MarkUpTo(s.procs, s.inQueue, s.time, |s.procs|))
  }

  /** The statistics set when a row's remaining time is 0 at the clock t. */
  function Complete(p: Process, t: int): Process {
    var turnaround := t - p.arrivalTime;
    p.(completionTime := t, turnaroundTime := turnaround, waitingTime := turnaround - p.burstTime, isCompleted := true)
  }

  /** Lines 132-141: a row with nothing left is (again) completed and counted;
      any other row is appended once more and flagged. */
  function Settle(s: RR, cp: int): (r: RR)
    requires WF(s) && 0 <= cp < |s.procs|
    ensures WF(r) && r.front == s.front && r.time == s.time && r.gantt == s.gantt
    ensures |r.procs| == |s.procs| && forall i :: 0 <= i < |s.procs| && i != cp ==> r.procs[i] == s.procs[i]
    ensures r.procs[cp].remainingTime == s.procs[cp].remainingTime
    ensures s.completed <= r.completed <= s.completed + 1
  {
    if s.procs[cp].remainingTime == 0 then
      s.(procs := s.procs[cp := Complete(s.procs[cp], s.time)], completed := s.completed + 1)
    else
      s.(queue := s.queue + [cp], inQueue := s.inQueue[cp := true])
  }

  /** One dispatching iteration. */
  function Dispatch(s: RR, quantum: int): (r: RR)
    requires WF(s) && s.front < |s.queue|
    ensures WF(r) && r.front == s.front + 1 && s.completed <= r.completed <= s.completed + 1
    ensures |r.gantt| == |s.gantt| + 1 && r.gantt[..|s.gantt|] == s.gantt
    ensures r.gantt[|s.gantt|].processId == s.procs[s.queue[s.front]].id && r.gantt[|s.gantt|].startTime == s.time
  {
    Settle(Scan(Slice(s, quantum)), s.queue[s.front])
  }

  /** One iteration of the while loop of round_robin_schedule. */
  function Step(s: RR, quantum: int): (r: RR)
    requires WF(s)
    ensures WF(r) && s.completed <= r.completed
    ensures s.front == |s.queue| ==> r.gantt == s.gantt && r.completed == s.completed
    ensures s.front < |s.queue| ==> |r.gantt| == |s.gantt| + 1 && r.gantt[..|s.gantt|] == s.gantt
  {
    if s.front == |s.queue| then Idle(s) else Dispatch(s, quantum)
  }

  // ---------------------------------------------------------------------
  // Counting functions. They mirror those of MlfqModel: round_robin.c has its
  // own process record (without current_queue), so they range over this
  // module's Process type.

  function CountCompleted(ps: seq<Process>): (c: int)
    ensures 0 <= c <= |ps|
  {
    if |ps| == 0 then 0 else CountCompleted(ps[..|ps| - 1]) + (if ps[|ps| - 1].isCompleted then 1 else 0)
  }

  function TotalRemaining(ps: seq<Process>): int {
    if |ps| == 0 then 0 else TotalRemaining(ps[..|ps| - 1]) + ps[|ps| - 1].remainingTime
  }

  function TotalBurst(ps: seq<Process>): int {
    if |ps| == 0 then 0 else TotalBurst(ps[..|ps| - 1]) + ps[|ps| - 1].burstTime
  }

  /** The CPU time the log records: the sum of its segment lengths. */
  function LogTotal(g: seq<GanttEntry>): int {
    if |g| == 0 then 0 else LogTotal(g[..|g| - 1]) + (g[|g| - 1].endTime - g[|g| - 1].startTime)
  }

  lemma {:induction false} CountCompletedUpdate(ps: seq<Process>, i: int, x: Process)
    requires 0 <= i < |ps|
    ensures CountCompleted(ps[i := x]) ==
            CountCompleted(ps) - (if ps[i].isCompleted then 1 else 0) + (if x.isCompleted then 1 else 0)
  {
    var k := |ps| - 1;
    if i < k {
      assert ps[i := x][..k] == ps[..k][i := x];
      CountCompletedUpdate(ps[..k], i, x);
    } else {
      assert ps[i := x][..k] == ps[..k];
    }
  }

  lemma {:induction false} CountCompletedAll(ps: seq<Process>)
    ensures CountCompleted(ps) == |ps| <==> forall i :: 0 <= i < |ps| ==> ps[i].isCompleted
  {
    if |ps| > 0 {
      var k := |ps| - 1;
      CountCompletedAll(ps[..k]);
      assert (forall i :: 0 <= i < |ps| ==> ps[i].isCompleted) <==>
             (forall i :: 0 <= i < k ==> ps[..k][i].isCompleted) && ps[k].isCompleted;
    }
  }

  lemma {:induction false} TotalsUpdate(ps: seq<Process>, i: int, x: Process)
    requires 0 <= i < |ps|
    ensures TotalRemaining(ps[i := x]) == TotalRemaining(ps) - ps[i].remainingTime + x.remainingTime
    ensures TotalBurst(ps[i := x]) == TotalBurst(ps) - ps[i].burstTime + x.burstTime
  {
    var k := |ps| - 1;
    if i < k {
      assert ps[i := x][..k] == ps[..k][i := x];
      TotalsUpdate(ps[..k], i, x);
    } else {
      assert ps[i := x][..k] == ps[..k];
    }
  }

  lemma {:induction false} TotalRemainingNonNegative(ps: seq<Process>)
    requires forall i :: 0 <= i < |ps| ==> 0 <= ps[i].remainingTime
    ensures 0 <= TotalRemaining(ps)
  {
    if |ps| > 0 {
      TotalRemainingNonNegative(ps[..|ps| - 1]);
    }
  }

  lemma LogTotalAppend(g: seq<GanttEntry>, e: GanttEntry)
    ensures LogTotal(g + [e]) == LogTotal(g) + (e.endTime - e.startTime)
  {
    assert (g + [e])[..|g|] == g;
  }

  lemma {:induction false} TotalsOfUnscheduled(ps: seq<Process>)
    requires forall i :: 0 <= i < |ps| ==> Unscheduled(ps[i])
    ensures TotalRemaining(ps) == TotalBurst(ps)
  {
    if |ps| > 0 {
      TotalsOfUnscheduled(ps[..|ps| - 1]);
    }
  }

  lemma {:induction false} CountCompletedNone(ps: seq<Process>)
    requires forall i :: 0 <= i < |ps| ==> !ps[i].isCompleted
    ensures CountCompleted(ps) == 0
  {
    if |ps| > 0 {
      CountCompletedNone(ps[..|ps| - 1]);
    }
  }

  // ---------------------------------------------------------------------
  // The loop invariant

  /** What holds of every row: the remaining time stays within the burst; a
      completed row has nothing left and consistent statistics; a row not
      completed still carries the zero statistics it started with. */
  predicate RowOk(p: Process) {
    && 0 <= p.remainingTime <= p.burstTime
    && (p.isCompleted ==> p.remainingTime == 0 && StatsHold(p))
    && (!p.isCompleted ==> p.completionTime == 0 && p.turnaroundTime == 0 && p.waitingTime == 0)
  }

  /** A flagged row has a copy in the live part of the queue, and every row
      in the live part has arrived by the clock. */
  ghost predicate QueueOk(s: RR)
    requires WF(s)
  {
    && (forall i :: 0 <= i < |s.procs| && s.inQueue[i] ==> i in s.queue[s.front..])
    && (forall k :: s.front <= k < |s.queue| ==> s.procs[s.queue[k]].arrivalTime <= s.time)
  }

  /** Every segment is between 0 and the quantum long, and the log accounts
      for exactly the work done. */
  ghost predicate LogOk(s: RR, quantum: int) {
    && (forall k :: 0 <= k < |s.gantt| ==> 0 <= s.gantt[k].endTime - s.gantt[k].startTime <= quantum)
    && LogTotal(s.gantt) + TotalRemaining(s.procs) == TotalBurst(s.procs)
  }

  /** The invariant of the while loop of round_robin_schedule. The counter is
      at least the number of completed rows (it can be more: a finished row
      that is dispatched again is counted again). */
  ghost predicate Inv(s: RR, quantum: int) {
    && WF(s) && QueueOk(s)
    && (forall i :: 0 <= i < |s.procs| ==> RowOk(s.procs[i]))
    && CountCompleted(s.procs) <= s.completed <= |s.procs|
    && LogOk(s, quantum)
  }

  lemma StartInv(ps: seq<Process>, quantum: int)
    requires Ready(ps) && 0 < quantum
    ensures Inv(Start(ps), quantum)
  {
    var s := Start(ps);
    ZeroArrivalsMembers(ps, |ps|);
    var Z := ZeroArrivalsUpTo(ps, |ps|);
    assert forall k :: 0 <= k < |Z| ==> Z[k] in Z;
    assert s.queue[s.front..] == Z;
    CountCompletedNone(ps);
    TotalsOfUnscheduled(ps);
  }

  /** A drained queue holds no flag, and with the counter below n some row
      is not completed: the idle scan finds it, so a dispatch follows. */
  lemma IdleInv(s: RR, quantum: int)
    requires Inv(s, quantum) && s.front == |s.queue| && s.completed < |s.procs|
    ensures
      var next := EarliestUpTo(s.procs, s.inQueue, |s.procs|);
      var r := Idle(s);
      && 0 <= next < |s.procs|
      && r.time == s.procs[next].arrivalTime
      && r.queue == s.queue + [next]
      && Inv(r, quantum) && r.front < |r.queue|
  {
    assert forall i :: 0 <= i < |s.procs| ==> !s.inQueue[i] by {
      assert s.queue[s.front..] == [];
    }
    CountCompletedAll(s.procs);
    var i :| 0 <= i < |s.procs| && !s.procs[i].isCompleted;
    assert Waits(s.procs[i], s.inQueue[i]);
    var next := EarliestUpTo(s.procs, s.inQueue, |s.procs|);
    var r := Idle(s);
    assert r.queue[r.front..] == [next];
  }

  /** The slice keeps the invariant: the head leaves the live part and loses
      its flag, the segment is between 0 and the quantum long, and the
      remaining time falls by exactly the recorded length. */
  lemma SliceInv(s: RR, quantum: int)
    requires Inv(s, quantum) && 0 < quantum && s.front < |s.queue|
    ensures
      var cp := s.queue[s.front];
      var pr := s.procs[cp];
      var r := Slice(s, quantum);
      var e := ExecutionTime(pr.remainingTime, quantum);
      && Inv(r, quantum) && SameStatic(s.procs, r.procs)
      && 0 <= e <= quantum
      && r.gantt == s.gantt + [GanttEntry(pr.id, s.time, s.time + e)]
      && r.time == s.time + e
      && r.queue == s.queue && r.front == s.front + 1
      && !r.inQueue[cp] && (forall i :: 0 <= i < |s.procs| && i != cp ==> r.inQueue[i] == s.inQueue[i])
      && r.procs[cp].remainingTime == pr.remainingTime - e
      && r.procs[cp].isCompleted == pr.isCompleted
      && (forall i :: 0 <= i < |s.procs| && i != cp ==> r.procs[i] == s.procs[i])
      && s.time <= r.time
      && (0 < pr.remainingTime ==> TotalRemaining(r.procs) < TotalRemaining(s.procs))
      && (pr.remainingTime == 0 ==> r.procs == s.procs && r.time == s.time)
  {
    var cp := s.queue[s.front];
    var pr := s.procs[cp];
    var r := Slice(s, quantum);
    var exec := ExecutionTime(pr.remainingTime, quantum);
    assert RowOk(pr);
    TotalsUpdate(s.procs, cp, r.procs[cp]);
    CountCompletedUpdate(s.procs, cp, r.procs[cp]);
    LogTotalAppend(s.gantt, r.gantt[|s.gantt|]);
    forall i | 0 <= i < |r.procs| && r.inQueue[i] ensures i in r.queue[r.front..] {
      assert i in s.queue[s.front..];
      assert s.queue[s.front..] == [cp] + r.queue[r.front..];
    }
    forall k | r.front <= k < |r.queue| ensures r.procs[r.queue[k]].arrivalTime <= r.time {
      assert s.procs[s.queue[k]].arrivalTime <= s.time;
    }
    if pr.remainingTime == 0 {
      assert r.procs[cp] == pr;
      assert r.procs == s.procs;
    }
  }

  /** The scan keeps the invariant: what it appends it flags, and only rows
      that have arrived join. */
  lemma ScanInv(s: RR, quantum: int)
    requires Inv(s, quantum)
    ensures
      var r := Scan(s);
      && Inv(r, quantum)
      && (forall i :: 0 <= i < |s.procs| ==> (i in r.queue[|s.queue|..] <==> Joins(s.procs[i], s.inQueue[i], s.time)))
  {
    var r := Scan(s);
    var J := JoinersUpTo(s.procs, s.inQueue, s.time, |s.procs|);
    JoinersMembers(s.procs, s.inQueue, s.time, |s.procs|);
    assert r.queue[|s.queue|..] == J;
    assert r.queue[r.front..] == s.queue[s.front..] + J;
    forall i | 0 <= i < |r.procs| && r.inQueue[i] ensures i in r.queue[r.front..] {
      if !s.inQueue[i] {
        assert i in J;
      }
    }
    forall k | r.front <= k < |r.queue| ensures r.procs[r.queue[k]].arrivalTime <= r.time {
      if k >= |s.queue| {
        assert r.queue[k] == J[k - |s.queue|];
        assert J[k - |s.queue|] in J;
      }
    }
  }

  /** Completion or re-queueing keeps the invariant: a row with nothing left
      is (again) marked completed, with its statistics taken at the clock, and
      counted once more; any other row goes back to the tail, flagged. */
  lemma SettleInv(s: RR, cp: int, quantum: int)
    requires Inv(s, quantum) && 0 <= cp < |s.procs| && s.completed < |s.procs|
    requires s.procs[cp].arrivalTime <= s.time
    ensures
      var r := Settle(s, cp);
      && Inv(r, quantum) && SameStatic(s.procs, r.procs)
      && TotalRemaining(r.procs) == TotalRemaining(s.procs)
      && (s.procs[cp].remainingTime == 0 ==> r.completed == s.completed + 1)
      && (s.procs[cp].remainingTime != 0 ==> r.completed == s.completed)
  {
    var r := Settle(s, cp);
    var pr := s.procs[cp];
    if pr.remainingTime == 0 {
      TotalsUpdate(s.procs, cp, r.procs[cp]);
      CountCompletedUpdate(s.procs, cp, r.procs[cp]);
      assert r.procs[cp] == Complete(pr, s.time);
      assert forall i :: 0 <= i < |s.procs| && i != cp ==> r.procs[i] == s.procs[i];
    } else {
      assert r.queue[r.front..] == s.queue[s.front..] + [cp];
    }
  }

  /** A dispatch keeps the invariant; it lowers the total remaining time, or
      (a row with nothing left) leaves it and raises the counter. */
  lemma DispatchInv(s: RR, quantum: int)
    requires Inv(s, quantum) && 0 < quantum && s.front < |s.queue| && s.completed < |s.procs|
    ensures
      var r := Dispatch(s, quantum);
      && Inv(r, quantum) && SameStatic(s.procs, r.procs)
      && s.completed <= r.completed
      && (TotalRemaining(r.procs) < TotalRemaining(s.procs) ||
          (TotalRemaining(r.procs) == TotalRemaining(s.procs) && r.completed == s.completed + 1))
  {
    var cp := s.queue[s.front];
    assert s.procs[cp].arrivalTime <= s.time;
    SliceInv(s, quantum);
    var s1 := Slice(s, quantum);
    ScanInv(s1, quantum);
    var s2 := Scan(s1);
    SettleInv(s2, cp, quantum);
  }

  /** Every iteration keeps the invariant and leaves the fields the scheduler
      never writes alone; it lowers the total remaining time, or raises the
      counter, or is an idle jump after which the queue is not drained. */
  lemma StepInv(s: RR, quantum: int)
    requires Inv(s, quantum) && 0 < quantum && s.completed < |s.procs|
    ensures
      var r := Step(s, quantum);
      && Inv(r, quantum) && SameStatic(s.procs, r.procs)
      && 0 <= TotalRemaining(r.procs) && s.completed <= r.completed
      && (TotalRemaining(r.procs) < TotalRemaining(s.procs) ||
          (TotalRemaining(r.procs) == TotalRemaining(s.procs) && s.completed < r.completed) ||
          (TotalRemaining(r.procs) == TotalRemaining(s.procs) && s.completed == r.completed &&
           s.front == |s.queue| && r.front < |r.queue|))
  {
    if s.front == |s.queue| {
      IdleInv(s, quantum);
    } else {
      DispatchInv(s, quantum);
    }
    InvRemaining(Step(s, quantum), quantum);
  }

  lemma InvRemaining(s: RR, quantum: int)
    requires Inv(s, quantum)
    ensures 0 <= TotalRemaining(s.procs)
  {
    forall i | 0 <= i < |s.procs| ensures 0 <= s.procs[i].remainingTime {
      assert RowOk(s.procs[i]);
    }
    TotalRemainingNonNegative(s.procs);
  }

  /** The while loop of round_robin_schedule: it ends once the counter
      reaches n. */
  function Run(s: RR, quantum: int): (r: RR)
    requires Inv(s, quantum) && 0 < quantum
    ensures Inv(r, quantum) && r.completed == |r.procs| && SameStatic(s.procs, r.procs)
    decreases TotalRemaining(s.procs), |s.procs| - s.completed, if s.front == |s.queue| then 1 else 0
  {
    if s.completed >= |s.procs| then s
    else
      StepInv(s, quantum);
      InvRemaining(s, quantum);
      var r := Run(Step(s, quantum), quantum);
      assert SameStatic(s.procs, r.procs) by {
        assert SameStatic(s.procs, Step(s, quantum).procs) && SameStatic(Step(s, quantum).procs, r.procs);
      }
      r
  }

  /** One iteration of the loop, while the counter is below n. */
  lemma RunUnfold(s: RR, t: RR, quantum: int)
    requires Inv(s, quantum) && 0 < quantum && s.completed < |s.procs| && Step(s, quantum) == t
    ensures Inv(t, quantum) && Run(s, quantum) == Run(t, quantum)
  {
    StepInv(s, quantum);
  }

  /** The loop ends once the counter reaches n. */
  lemma RunDone(s: RR, quantum: int)
    requires Inv(s, quantum) && 0 < quantum && s.completed == |s.procs|
    ensures Run(s, quantum) == s
  {
  }

  // ---------------------------------------------------------------------
  // Order of the log

  /** The log is in time order and ends no later than the clock; once a
      segment has been logged, a drained queue means every row not completed
      arrives after the clock (the post-slice scan has queued all the others). */
  ghost predicate Ordered(s: RR)
    requires WF(s)
  {
    && (forall k :: 0 < k < |s.gantt| ==> s.gantt[k - 1].endTime <= s.gantt[k].startTime)
    && (|s.gantt| > 0 ==> s.gantt[|s.gantt| - 1].endTime <= s.time)
    && (|s.gantt| > 0 && s.front == |s.queue| ==>
          forall i :: 0 <= i < |s.procs| && !s.procs[i].isCompleted ==> s.time < s.procs[i].arrivalTime)
  }

  /** A dispatch starts its segment at the clock, which the last segment does
      not pass, and ends it at the new clock. If it drains the queue, the scan
      found no row to append and the dispatched row completed, so every row
      not completed arrives later. */
  lemma DispatchOrdered(s: RR, quantum: int)
    requires Inv(s, quantum) && Ordered(s) && 0 < quantum && s.front < |s.queue| && s.completed < |s.procs|
    ensures Ordered(Dispatch(s, quantum))
  {
    var cp := s.queue[s.front];
    SliceInv(s, quantum);
    var s1 := Slice(s, quantum);
    var s2 := Scan(s1);
    var r := Settle(s2, cp);
    assert r.gantt == s1.gantt && r.time == s1.time;
    forall k | 0 < k < |r.gantt| ensures r.gantt[k - 1].endTime <= r.gantt[k].startTime {
      if k < |s.gantt| {
        assert r.gantt[k - 1] == s.gantt[k - 1] && r.gantt[k] == s.gantt[k];
      } else {
        assert r.gantt[k - 1] == s.gantt[|s.gantt| - 1];
      }
    }
    if r.front == |r.queue| {
      assert s2.procs[cp].remainingTime == 0 && r.queue == s2.queue;
      var J := JoinersUpTo(s1.procs, s1.inQueue, s1.time, |s1.procs|);
      assert |J| == 0;
      JoinersMembers(s1.procs, s1.inQueue, s1.time, |s1.procs|);
      forall i | 0 <= i < |r.procs| && !r.procs[i].isCompleted ensures r.time < r.procs[i].arrivalTime {
        assert i != cp;
        assert r.procs[i] == s1.procs[i];
        assert i !in J;
      }
    }
  }

  /** Every iteration keeps the log in order. An idle jump moves the clock
      forward: the row it picks is not completed, so it arrives after the
      clock once anything has been logged. */
  lemma StepOrdered(s: RR, quantum: int)
    requires Inv(s, quantum) && Ordered(s) && 0 < quantum && s.completed < |s.procs|
    ensures Ordered(Step(s, quantum))
  {
    if s.front == |s.queue| {
      IdleInv(s, quantum);
    } else {
      DispatchOrdered(s, quantum);
    }
  }

  /** The whole loop keeps the log in order. */
  lemma RunOrdered(s: RR, quantum: int)
    requires Inv(s, quantum) && Ordered(s) && 0 < quantum
    ensures Ordered(Run(s, quantum))
    decreases TotalRemaining(s.procs), |s.procs| - s.completed, if s.front == |s.queue| then 1 else 0
  {
    if s.completed < |s.procs| {
      StepInv(s, quantum);
      InvRemaining(s, quantum);
      StepOrdered(s, quantum);
      RunUnfold(s, Step(s, quantum), quantum);
      RunOrdered(Step(s, quantum), quantum);
    }
  }

  // ---------------------------------------------------------------------
  // Waiting times

  /** A row against the clock t: it has not run before it arrives, it has
      not run for longer than it has been in the system, and once completed
      its waiting time is not negative. */
  predicate RowTimes(p: Process, t: int) {
    && (t < p.arrivalTime ==> p.remainingTime == p.burstTime)
    && (p.arrivalTime <= t ==> p.burstTime - p.remainingTime <= t - p.arrivalTime)
    && (p.isCompleted ==> 0 <= p.waitingTime)
  }

  /** Every row keeps RowTimes against the clock; before the first segment
      no row has run. */
  ghost predicate Timed(s: RR) {
    && (forall i :: 0 <= i < |s.procs| ==> RowTimes(s.procs[i], s.time))
    && (|s.gantt| == 0 ==> forall i :: 0 <= i < |s.procs| ==> s.procs[i].remainingTime == s.procs[i].burstTime)
  }

  /** A dispatch runs the head, which has arrived, for as long as the clock
      advances; a row it completes has run no longer than it has been in the
      system, so its waiting time is not negative. */
  lemma DispatchTimed(s: RR, quantum: int)
    requires Inv(s, quantum) && Timed(s) && 0 < quantum && s.front < |s.queue| && s.completed < |s.procs|
    ensures Timed(Dispatch(s, quantum))
  {
    var cp := s.queue[s.front];
    assert s.procs[cp].arrivalTime <= s.time;
    SliceInv(s, quantum);
    var s1 := Slice(s, quantum);
    forall i | 0 <= i < |s1.procs| ensures RowTimes(s1.procs[i], s1.time) {
      assert RowTimes(s.procs[i], s.time);
      if i == cp {
        assert s1.procs[cp] == s.procs[cp].(remainingTime := s1.procs[cp].remainingTime);
      }
    }
    var s2 := Scan(s1);
    var r := Settle(s2, cp);
    forall i | 0 <= i < |r.procs| ensures RowTimes(r.procs[i], r.time) {
      assert RowTimes(s2.procs[i], s2.time);
    }
  }

  /** An idle jump changes no row; it moves the clock forward once a segment
      has been logged, and before that every row still has all its work. */
  lemma StepTimed(s: RR, quantum: int)
    requires Inv(s, quantum) && Ordered(s) && Timed(s) && 0 < quantum && s.completed < |s.procs|
    ensures Timed(Step(s, quantum))
  {
    if s.front == |s.queue| {
      IdleInv(s, quantum);
      var r := Idle(s);
      forall i | 0 <= i < |r.procs| ensures RowTimes(r.procs[i], r.time) {
        assert RowTimes(s.procs[i], s.time);
      }
    } else {
      DispatchTimed(s, quantum);
    }
  }

  /** The whole loop keeps every row's times consistent. */
  lemma RunTimed(s: RR, quantum: int)
    requires Inv(s, quantum) && Ordered(s) && Timed(s) && 0 < quantum
    ensures Timed(Run(s, quantum))
    decreases TotalRemaining(s.procs), |s.procs| - s.completed, if s.front == |s.queue| then 1 else 0
  {
    if s.completed < |s.procs| {
      StepInv(s, quantum);
      InvRemaining(s, quantum);
      StepOrdered(s, quantum);
      StepTimed(s, quantum);
      RunUnfold(s, Step(s, quantum), quantum);
      RunTimed(Step(s, quantum), quantum);
    }
  }

  /** The run from a loaded table ends with its log in order and every row's
      times consistent. */
  lemma ScheduleOrderedTimed(ps: seq<Process>, quantum: int)
    requires Ready(ps) && 0 < quantum
    ensures var r := Schedule(ps, quantum); WF(r) && Ordered(r) && Timed(r)
  {
    StartInv(ps, quantum);
    RunOrdered(Start(ps), quantum);
    RunTimed(Start(ps), quantum);
  }

  /** round_robin_schedule on a table: the initial queue, then the loop. */
  function Schedule(ps: seq<Process>, quantum: int): (r: RR)
    requires Ready(ps) && 0 < quantum
    ensures Inv(r, quantum) && r.completed == |r.procs| && SameStatic(ps, r.procs)
  {
    StartInv(ps, quantum);
    Run(Start(ps), quantum)
  }
}
