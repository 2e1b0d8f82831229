/** What the Round Robin simulator as written does: the properties every run
    has, the queue quirks of one dispatch (the dispatched row is appended
    twice, a finished row stays queued, a finished row dispatched again is
    counted again), and a concrete run where the counter reaches n while a
    row is still unfinished. */
module RoundRobinProperties {
  import opened Timeline
  import opened RoundRobinModel

  /** At the end of every run the counter equals n; every completed row has
      nothing left, consistent statistics and a waiting time of at least 0;
      every other row keeps zero statistics; every segment is between 0 and
      the quantum long, each segment starts no earlier than the previous one
      ends, and the log records exactly the work done. */
  lemma ScheduleEnds(ps: seq<Process>, quantum: int)
    requires Ready(ps) && 0 < quantum
    ensures
      var r := Schedule(ps, quantum);
      && r.completed == |ps| && CountCompleted(r.procs) <= |ps|
      && (forall i :: 0 <= i < |ps| && r.procs[i].isCompleted ==>
            r.procs[i].remainingTime == 0 && StatsHold(r.procs[i]) && 0 <= r.procs[i].waitingTime)
      && (forall i :: 0 <= i < |ps| && !r.procs[i].isCompleted ==>
            r.procs[i].completionTime == 0 && r.procs[i].turnaroundTime == 0 && r.procs[i].waitingTime == 0)
      && (forall k :: 0 <= k < |r.gantt| ==> 0 <= r.gantt[k].endTime - r.gantt[k].startTime <= quantum)
      && LogTotal(r.gantt) + TotalRemaining(r.procs) == TotalBurst(ps)
      && (forall k :: 0 < k < |r.gantt| ==> r.gantt[k - 1].endTime <= r.gantt[k].startTime)
  {
    ScheduleOrderedTimed(ps, quantum);
    var r := Schedule(ps, quantum);
    forall i | 0 <= i < |ps| ensures RowOk(r.procs[i]) && RowTimes(r.procs[i], r.time) {
    }
    TotalBurstSame(ps, r.procs);
  }

  lemma {:induction false} TotalBurstSame(a: seq<Process>, b: seq<Process>)
    requires SameStatic(a, b)
    ensures TotalBurst(a) == TotalBurst(b)
  {
    if |a| > 0 {
      TotalBurstSame(a[..|a| - 1], b[..|b| - 1]);
    }
  }

  /** A dispatched row that is not finished by its slice is appended twice:
      once by the post-slice scan (its flag was cleared at the dispatch) and
      once more at the tail. */
  lemma DispatchAppendsTwice(s: RR, quantum: int)
    requires Inv(s, quantum) && 0 < quantum && s.front < |s.queue|
    requires s.procs[s.queue[s.front]].remainingTime > quantum
    ensures
      var cp := s.queue[s.front];
      var d := Dispatch(s, quantum);
      var tail := d.queue[|s.queue|..];
      && |tail| >= 2 && tail[|tail| - 1] == cp && cp in tail[..|tail| - 1]
      && d.inQueue[cp] && d.completed == s.completed
  {
    var cp := s.queue[s.front];
    assert RowOk(s.procs[cp]) && s.procs[cp].arrivalTime <= s.time;
    var s1 := Slice(s, quantum);
    var J := JoinersUpTo(s1.procs, s1.inQueue, s1.time, |s1.procs|);
    JoinersMembers(s1.procs, s1.inQueue, s1.time, |s1.procs|);
    assert cp in J;
    var d := Dispatch(s, quantum);
    assert d.queue[|s.queue|..] == J + [cp];
  }

  /** A row that finishes in its slice is completed and counted, yet the
      post-slice scan has already appended it again. */
  lemma DispatchKeepsFinished(s: RR, quantum: int)
    requires Inv(s, quantum) && 0 < quantum && s.front < |s.queue|
    requires !s.procs[s.queue[s.front]].isCompleted && s.procs[s.queue[s.front]].remainingTime <= quantum
    ensures
      var cp := s.queue[s.front];
      var pr := s.procs[cp];
      var d := Dispatch(s, quantum);
      && d.procs[cp].isCompleted && d.procs[cp].remainingTime == 0
      && d.procs[cp].completionTime == s.time + pr.remainingTime
      && d.completed == s.completed + 1
      && cp in d.queue[|s.queue|..] && d.inQueue[cp]
  {
    var cp := s.queue[s.front];
    assert RowOk(s.procs[cp]) && s.procs[cp].arrivalTime <= s.time;
    var s1 := Slice(s, quantum);
    var J := JoinersUpTo(s1.procs, s1.inQueue, s1.time, |s1.procs|);
    JoinersMembers(s1.procs, s1.inQueue, s1.time, |s1.procs|);
    assert cp in J;
    var d := Dispatch(s, quantum);
    assert d.queue[|s.queue|..] == J;
  }

  /** Dispatching a row that is already completed records a zero-length
      segment, takes its statistics again at the clock, and raises the counter
      once more although no row has newly completed. */
  lemma RedispatchCountsAgain(s: RR, quantum: int)
    requires Inv(s, quantum) && 0 < quantum && s.front < |s.queue|
    requires s.procs[s.queue[s.front]].isCompleted
    ensures
      var cp := s.queue[s.front];
      var pr := s.procs[cp];
      var d := Dispatch(s, quantum);
      && d.gantt == s.gantt + [GanttEntry(pr.id, s.time, s.time)]
      && d.time == s.time
      && d.procs == s.procs[cp := Complete(pr, s.time)]
      && d.completed == s.completed + 1
      && CountCompleted(d.procs) == CountCompleted(s.procs)
  {
    var cp := s.queue[s.front];
    var pr := s.procs[cp];
    assert RowOk(pr);
    var s1 := Slice(s, quantum);
    assert s1.procs == s.procs;
    var d := Dispatch(s, quantum);
    CountCompletedUpdate(s.procs, cp, d.procs[cp]);
  }

  // P1(arrival 0, burst 5), P2(1, 3), P3(2, 1) with quantum 2. The trace is
  // P1:0-2, P1:2-4, P2:4-6, P3:6-7, P1:7-8, P1:8-8: after the first slice
  // P1 is queued twice ahead of P2, and P1's second completion at 8 brings
  // the counter to 3 while P2 still has 1 unit left.

  function TraceTable(): seq<Process> {
    [InitProcess(1, 0, 5), InitProcess(2, 1, 3), InitProcess(3, 2, 1)]
  }

  // The states of that run before the loop and after each iteration.

  function Trace0(): RR {
    RR(TraceTable(), [0], 0, [true, false, false], 0, 0, [])
  }

  /** P1 runs 0-2; the scan appends P1 (its flag is clear), P2 and P3, and
      P1 is appended once more. */
  function Trace1(): RR {
    RR([Process(1, 0, 5, 3, 0, 0, 0, false), InitProcess(2, 1, 3), InitProcess(3, 2, 1)],
       [0, 0, 1, 2, 0], 1, [true, true, true], 2, 0, [GanttEntry(1, 0, 2)])
  }

  /** P1 runs again 2-4 and is appended twice more. */
  function Trace2(): RR {
    RR([Process(1, 0, 5, 1, 0, 0, 0, false), InitProcess(2, 1, 3), InitProcess(3, 2, 1)],
       [0, 0, 1, 2, 0, 0, 0], 2, [true, true, true], 4, 0, [GanttEntry(1, 0, 2), GanttEntry(1, 2, 4)])
  }

  /** P2 runs 4-6 and is appended twice. */
  function Trace3(): RR {
    RR([Process(1, 0, 5, 1, 0, 0, 0, false), Process(2, 1, 3, 1, 0, 0, 0, false), InitProcess(3, 2, 1)],
       [0, 0, 1, 2, 0, 0, 0, 1, 1], 3, [true, true, true], 6, 0,
       [GanttEntry(1, 0, 2), GanttEntry(1, 2, 4), GanttEntry(2, 4, 6)])
  }

  /** P3 runs 6-7 and completes, but the scan has appended it again. */
  function Trace4(): RR {
    RR([Process(1, 0, 5, 1, 0, 0, 0, false), Process(2, 1, 3, 1, 0, 0, 0, false), Process(3, 2, 1, 0, 7, 5, 4, true)],
       [0, 0, 1, 2, 0, 0, 0, 1, 1, 2], 4, [true, true, true], 7, 1,
       [GanttEntry(1, 0, 2), GanttEntry(1, 2, 4), GanttEntry(2, 4, 6), GanttEntry(3, 6, 7)])
  }

  /** P1 runs 7-8 and completes, appended again by the scan. */
  function Trace5(): RR {
    RR([Process(1, 0, 5, 0, 8, 8, 3, true), Process(2, 1, 3, 1, 0, 0, 0, false), Process(3, 2, 1, 0, 7, 5, 4, true)],
       [0, 0, 1, 2, 0, 0, 0, 1, 1, 2, 0], 5, [true, true, true], 8, 2,
       [GanttEntry(1, 0, 2), GanttEntry(1, 2, 4), GanttEntry(2, 4, 6), GanttEntry(3, 6, 7), GanttEntry(1, 7, 8)])
  }

  /** The stale copy of P1: a zero-length segment 8-8 and a third count. */
  function Trace6(): RR {
    RR([Process(1, 0, 5, 0, 8, 8, 3, true), Process(2, 1, 3, 1, 0, 0, 0, false), Process(3, 2, 1, 0, 7, 5, 4, true)],
       [0, 0, 1, 2, 0, 0, 0, 1, 1, 2, 0], 6, [false, true, true], 8, 3,
       [GanttEntry(1, 0, 2), GanttEntry(1, 2, 4), GanttEntry(2, 4, 6), GanttEntry(3, 6, 7), GanttEntry(1, 7, 8),
        GanttEntry(1, 8, 8)])
  }

  lemma TraceStart()
    ensures Ready(TraceTable()) && Start(TraceTable()) == Trace0()
  {
    var ps := TraceTable();
    assert ZeroArrivalsUpTo(ps, 1) == [0];
    assert ZeroArrivalsUpTo(ps, 3) == [0];
    assert InitialFlags(ps) == [true, false, false];
  }

  /** The scan over a three-row table, spelled out row by row. */
  lemma Scan3(s: RR)
    requires WF(s) && |s.procs| == 3
    ensures
      var j0 := Joins(s.procs[0], s.inQueue[0], s.time);
      var j1 := Joins(s.procs[1], s.inQueue[1], s.time);
      var j2 := Joins(s.procs[2], s.inQueue[2], s.time);
      Scan(s) == s.(queue := s.queue + ((if j0 then [0] else []) + (if j1 then [1] else []) + (if j2 then [2] else [])),
                    inQueue := [s.inQueue[0] || j0, s.inQueue[1] || j1, s.inQueue[2] || j2])
  {
    var ps, f, t := s.procs, s.inQueue, s.time;
    assert JoinersUpTo(ps, f, t, 1) == (if Joins(ps[0], f[0], t) then [0] else []);
    assert JoinersUpTo(ps, f, t, 2) == JoinersUpTo(ps, f, t, 1) + (if Joins(ps[1], f[1], t) then [1] else []);
  }

  lemma TraceStep1()
    ensures Step(Trace0(), 2) == Trace1()
  {
    var s := Trace0();
    var s1 := Slice(s, 2);
    assert s1 == s.(procs := s.procs[0 := Process(1, 0, 5, 3, 0, 0, 0, false)], front := 1,
                    inQueue := [false, false, false], time := 2, gantt := s.gantt + [GanttEntry(1, 0, 2)]);
    Scan3(s1);
    var s2 := Scan(s1);
    assert s2 == s1.(queue := s.queue + [0, 1, 2], inQueue := [true, true, true]);
  }

  lemma TraceStep2()
    ensures Step(Trace1(), 2) == Trace2()
  {
    var s := Trace1();
    assert s.queue[1] == 0;
    var s1 := Slice(s, 2);
    assert s1 == s.(procs := s.procs[0 := Process(1, 0, 5, 1, 0, 0, 0, false)], front := 2,
                    inQueue := [false, true, true], time := 4, gantt := s.gantt + [GanttEntry(1, 2, 4)]);
    Scan3(s1);
    var s2 := Scan(s1);
    assert s2 == s1.(queue := s.queue + [0], inQueue := [true, true, true]);
  }

  lemma TraceStep3()
    ensures Step(Trace2(), 2) == Trace3()
  {
    var s := Trace2();
    assert s.queue[2] == 1;
    var s1 := Slice(s, 2);
    assert s1 == s.(procs := s.procs[1 := Process(2, 1, 3, 1, 0, 0, 0, false)], front := 3,
                    inQueue := [true, false, true], time := 6, gantt := s.gantt + [GanttEntry(2, 4, 6)]);
    Scan3(s1);
    var s2 := Scan(s1);
    assert s2 == s1.(queue := s.queue + [1], inQueue := [true, true, true]);
  }

  lemma TraceStep4()
    ensures Step(Trace3(), 2) == Trace4()
  {
    var s := Trace3();
    assert s.queue[3] == 2;
    var p := Process(3, 2, 1, 0, 0, 0, 0, false);
    var s1 := Slice(s, 2);
    assert s1 == s.(procs := s.procs[2 := p], front := 4, inQueue := [true, true, false], time := 7,
                    gantt := s.gantt + [GanttEntry(3, 6, 7)]);
    Scan3(s1);
    var s2 := Scan(s1);
    assert s2 == s1.(queue := s.queue + [2], inQueue := [true, true, true]);
    assert Complete(p, 7) == Process(3, 2, 1, 0, 7, 5, 4, true);
    assert s2.procs[2 := Complete(p, 7)] == Trace4().procs;
  }

  lemma TraceStep5()
    ensures Step(Trace4(), 2) == Trace5()
  {
    var s := Trace4();
    assert s.queue[4] == 0;
    var p := Process(1, 0, 5, 0, 0, 0, 0, false);
    var ps := [p, Process(2, 1, 3, 1, 0, 0, 0, false), Process(3, 2, 1, 0, 7, 5, 4, true)];
    var g := [GanttEntry(1, 0, 2), GanttEntry(1, 2, 4), GanttEntry(2, 4, 6), GanttEntry(3, 6, 7), GanttEntry(1, 7, 8)];
    var s1 := RR(ps, [0, 0, 1, 2, 0, 0, 0, 1, 1, 2], 5, [false, true, true], 8, 1, g);
    assert Slice(s, 2) == s1;
    Scan3(s1);
    var s2 := RR(ps, [0, 0, 1, 2, 0, 0, 0, 1, 1, 2, 0], 5, [true, true, true], 8, 1, g);
    assert Scan(s1) == s2;
    assert Complete(p, 8) == Process(1, 0, 5, 0, 8, 8, 3, true);
    assert ps[0 := Complete(p, 8)] == Trace5().procs;
  }

  lemma TraceStep6()
    ensures Step(Trace5(), 2) == Trace6()
  {
    var s := Trace5();
    assert s.queue[5] == 0;
    var s1 := RR([Process(1, 0, 5, 0, 8, 8, 3, true), Process(2, 1, 3, 1, 0, 0, 0, false), Process(3, 2, 1, 0, 7, 5, 4, true)],
                 [0, 0, 1, 2, 0, 0, 0, 1, 1, 2, 0], 6, [false, true, true], 8, 2,
                 [GanttEntry(1, 0, 2), GanttEntry(1, 2, 4), GanttEntry(2, 4, 6), GanttEntry(3, 6, 7), GanttEntry(1, 7, 8),
                  GanttEntry(1, 8, 8)]);
    assert Slice(s, 2) == s1;
    Scan3(s1);
    assert Scan(s1) == s1;
  }

  lemma TraceSchedule()
    ensures Ready(TraceTable()) && Schedule(TraceTable(), 2) == Trace6()
  {
    var ps := TraceTable();
    TraceStart();
    StartInv(ps, 2);
    TraceStep1();
    RunUnfold(Trace0(), Trace1(), 2);
    TraceStep2();
    RunUnfold(Trace1(), Trace2(), 2);
    TraceStep3();
    RunUnfold(Trace2(), Trace3(), 2);
    TraceStep4();
    RunUnfold(Trace3(), Trace4(), 2);
    TraceStep5();
    RunUnfold(Trace4(), Trace5(), 2);
    TraceStep6();
    RunUnfold(Trace5(), Trace6(), 2);
    RunDone(Trace6(), 2);
  }

  /** What the last state of the run holds. */
  lemma ExitState()
    ensures
      var r := Trace6();
      && r.gantt == [GanttEntry(1, 0, 2), GanttEntry(1, 2, 4), GanttEntry(2, 4, 6),
                     GanttEntry(3, 6, 7), GanttEntry(1, 7, 8), GanttEntry(1, 8, 8)]
      && r.completed == 3 && CountCompleted(r.procs) == 2
      && !r.procs[1].isCompleted && r.procs[1].remainingTime == 1
      && r.procs[1].completionTime == 0 && r.procs[1].turnaroundTime == 0 && r.procs[1].waitingTime == 0
  {
    var ps := Trace6().procs;
    assert ps[..2][..1] == ps[..1];
    assert CountCompleted(ps[..1]) == 1;
    assert CountCompleted(ps[..2]) == 1;
  }

  /** The run ends with the counter at 3 after P1:0-2, P1:2-4, P2:4-6,
      P3:6-7, P1:7-8, P1:8-8, while P2 still has 1 unit left and its
      statistics were never set; only two rows are completed. */
  lemma UnfinishedAtExit()
    ensures Ready(TraceTable())
    ensures
      var r := Schedule(TraceTable(), 2);
      && r.gantt == [GanttEntry(1, 0, 2), GanttEntry(1, 2, 4), GanttEntry(2, 4, 6),
                     GanttEntry(3, 6, 7), GanttEntry(1, 7, 8), GanttEntry(1, 8, 8)]
      && r.completed == 3 && CountCompleted(r.procs) == 2
      && !r.procs[1].isCompleted && r.procs[1].remainingTime == 1
      && r.procs[1].completionTime == 0 && r.procs[1].turnaroundTime == 0 && r.procs[1].waitingTime == 0
  {
    TraceSchedule();
    ExitState();
  }
}
