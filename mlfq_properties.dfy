/** What a whole mlfq_schedule run promises, and two runs worked out on
    concrete tables. */
module MlfqProperties {
  import opened Timeline
  import opened MlfqModel

  /** Given positive bursts and at most MAX_PROCESSES rows, the run ends with
      every process completed, its statistics derived from its completion time
      and a waiting time that is never negative; each process got one segment
      per level it visited (at most three), whose lengths add up to its burst;
      no ready queue received more than n entries, and the log has at most 3n
      entries, within MAX_GANTT_ENTRIES. */
  lemma ScheduleCompletes(ps: seq<Process>)
    requires Ready(ps)
    ensures
      var r := Schedule(ps);
      && |r.procs| == |ps|
      && |r.gantt| == |r.owners| <= 3 * |ps| <= MAX_GANTT_ENTRIES
      && (forall q :: 0 <= q < NUM_QUEUES ==> |r.queues[q].slots| <= |ps| <= MAX_PROCESSES)
      && (forall k :: 0 <= k < |r.gantt| ==>
            0 <= r.owners[k] < |ps| && r.gantt[k].processId == ps[r.owners[k]].id &&
            r.gantt[k].startTime < r.gantt[k].endTime)
      && forall i :: 0 <= i < |ps| ==>
           && r.procs[i].id == ps[i].id
           && r.procs[i].arrivalTime == ps[i].arrivalTime
           && r.procs[i].burstTime == ps[i].burstTime
           && r.procs[i].isCompleted
           && r.procs[i].remainingTime == 0
           && StatsHold(r.procs[i])
           && 0 <= r.procs[i].waitingTime
           && 0 <= r.procs[i].currentQueue < NUM_QUEUES
           && SegCount(r.owners, i) == r.procs[i].currentQueue + 1 <= 3
           && SegSum(r.gantt, r.owners, i) == ps[i].burstTime
  {
    StartInv(ps);
    AdmitInv(Start(ps), -1);
    var s0 := AddNewArrivals(Start(ps));
    var r := Schedule(ps);
    assert SameStatic(ps, r.procs) by {
      assert SameStatic(ps, s0.procs) && SameStatic(s0.procs, r.procs);
    }
    CountCompletedAll(r.procs);
    CapacityOf(r);
    forall i | 0 <= i < |ps|
      ensures r.procs[i].isCompleted && r.procs[i].remainingTime == 0 && StatsHold(r.procs[i])
      ensures 0 <= r.procs[i].waitingTime && 0 <= r.procs[i].currentQueue < NUM_QUEUES
      ensures SegCount(r.owners, i) == r.procs[i].currentQueue + 1
      ensures SegSum(r.gantt, r.owners, i) == ps[i].burstTime
    {
      assert ProcInv(r, i, -1);
    }
  }

  lemma {:induction false} NoArrivalsUpTo(ps: seq<Process>, t: int, k: nat)
    requires k <= |ps|
    requires forall i :: 0 <= i < k ==> !Arrives(ps[i], t)
    ensures ArrivalsUpTo(ps, t, k) == [] && AdmitUpTo(ps, t, k) == ps
  {
    if k > 0 {
      NoArrivalsUpTo(ps, t, k - 1);
      assert AdmitOne(ps[k - 1], t) == ps[k - 1];
    }
  }

  /** add_new_arrivals at an instant when nothing arrives changes nothing. */
  lemma NoArrivals(s: Sched)
    requires |s.queues| == NUM_QUEUES
    requires forall i :: 0 <= i < |s.procs| ==> !Arrives(s.procs[i], s.time)
    ensures AddNewArrivals(s) == s
  {
    NoArrivalsUpTo(s.procs, s.time, |s.procs|);
    assert s.queues[0].slots + [] == s.queues[0].slots;
    assert s.queues[0].(slots := s.queues[0].slots + []) == s.queues[0];
  }

  /** The state of the single-process run before the loop and after each iteration. */
  function Single(k: nat): Sched {
    if k == 0 then
      Sched([Process(1, 0, 10, 10, 0, 0, 0, 0, false)],
            [QueueState([0], 0, 4), QueueState([], 0, 8), QueueState([], 0, -1)], 0, 0, [], [])
    else if k == 1 then
      Sched([Process(1, 0, 10, 6, 0, 0, 0, 1, false)],
            [QueueState([0], 1, 4), QueueState([0], 0, 8), QueueState([], 0, -1)], 4, 0,
            [GanttEntry(1, 0, 4)], [0])
    else
      Sched([Process(1, 0, 10, 0, 10, 10, 0, 1, true)],
            [QueueState([0], 1, 4), QueueState([0], 1, 8), QueueState([], 0, -1)], 10, 1,
            [GanttEntry(1, 0, 4), GanttEntry(1, 4, 10)], [0, 0])
  }

  lemma SingleStart()
    ensures Ready([InitProcess(1, 0, 10)]) && AddNewArrivals(Start([InitProcess(1, 0, 10)])) == Single(0)
  {
    var ps := [InitProcess(1, 0, 10)];
    assert ArrivalsUpTo(ps, 0, 1) == [0];
    assert AdmitUpTo(ps, 0, 1) == ps;
  }

  function SingleSliced(k: nat): Sched {
    if k == 0 then
      Single(1).(procs := [Process(1, 0, 10, 6, 0, 0, 0, 0, false)],
                 queues := [QueueState([0], 1, 4), QueueState([], 0, 8), QueueState([], 0, -1)])
    else
      Single(2).(procs := [Process(1, 0, 10, 0, 0, 0, 0, 1, false)], completed := 0)
  }

  lemma SingleSlice(k: nat)
    requires k < 2 && Inv(Single(k)) && SliceReady(Single(k))
    ensures NextProcess(Single(k).queues) == 0 && Single(k).procs[0].currentQueue == k
    ensures Slice(Single(k)) == SingleSliced(k)
  {
    var s := Single(k);
    NextIsWaitingHead(s);
    if k == 0 {
      assert ReadyLevel(s.queues, 0) == 0;
    } else {
      assert ReadyLevel(s.queues, 0) == 1;
    }
  }

  lemma SingleFinish(k: nat)
    requires k < 2
    ensures Finish(AddNewArrivals(SingleSliced(k)), 0, k) == Single(k + 1)
  {
    NoArrivals(SingleSliced(k));
  }

  lemma SingleStep(k: nat)
    requires k < 2 && Inv(Single(k))
    ensures Step(Single(k)) == Single(k + 1)
  {
    var s := Single(k);
    NextIsWaitingHead(s);
    SliceReadyOf(s);
    SingleSlice(k);
    SingleFinish(k);
    assert Step(s) == Dispatch(s);
  }

  /** One process P1(arrival 0, burst 10): a 4-unit slice at level 0, then the
      remaining 6 at level 1 (6 is within the quantum 8); completion at 10,
      turnaround 10, waiting 0, final level 1. */
  lemma SingleProcessTrace()
    ensures
      var r := Schedule([InitProcess(1, 0, 10)]);
      && r.gantt == [GanttEntry(1, 0, 4), GanttEntry(1, 4, 10)]
      && r.procs[0].completionTime == 10 && r.procs[0].turnaroundTime == 10
      && r.procs[0].waitingTime == 0 && r.procs[0].currentQueue == 1
  {
    var ps := [InitProcess(1, 0, 10)];
    SingleStart();
    StartInv(ps);
    AdmitInv(Start(ps), -1);
    SingleStep(0);
    RunUnfold(Single(0), Single(1));
    SingleStep(1);
    RunUnfold(Single(1), Single(2));
    RunDone(Single(2));
    var r := Single(2);
    assert r.procs[0] == Process(1, 0, 10, 0, 10, 10, 0, 1, true);
  }

  // P1(arrival 0, burst 10), P2(arrival 3, burst 2): P2 arrives inside P1's
  // first slice, is not admitted (admission tests arrival == clock) and is
  // picked up only by the idle jump after P1 completes, which puts the clock
  // back from 10 to 3.

  function LateTable(): seq<Process> {
    [InitProcess(1, 0, 10), InitProcess(2, 3, 2)]
  }

  /** The states of that run before the loop and after each iteration. */
  function Late(k: nat): Sched {
    if k == 0 then
      Sched(LateTable(), [QueueState([0], 0, 4), QueueState([], 0, 8), QueueState([], 0, -1)], 0, 0, [], [])
    else if k == 1 then
      Sched([Process(1, 0, 10, 6, 0, 0, 0, 1, false), InitProcess(2, 3, 2)],
            [QueueState([0], 1, 4), QueueState([0], 0, 8), QueueState([], 0, -1)], 4, 0,
            [GanttEntry(1, 0, 4)], [0])
    else if k == 2 then
      Sched([Process(1, 0, 10, 0, 10, 10, 0, 1, true), InitProcess(2, 3, 2)],
            [QueueState([0], 1, 4), QueueState([0], 1, 8), QueueState([], 0, -1)], 10, 1,
            [GanttEntry(1, 0, 4), GanttEntry(1, 4, 10)], [0, 0])
    else if k == 3 then
      Late(2).(queues := [QueueState([0, 1], 1, 4), QueueState([0], 1, 8), QueueState([], 0, -1)], time := 3)
    else
      Sched([Process(1, 0, 10, 0, 10, 10, 0, 1, true), Process(2, 3, 2, 0, 5, 2, 0, 0, true)],
            [QueueState([0, 1], 2, 4), QueueState([0], 1, 8), QueueState([], 0, -1)], 5, 2,
            [GanttEntry(1, 0, 4), GanttEntry(1, 4, 10), GanttEntry(2, 3, 5)], [0, 0, 1])
  }

  /** The dispatching iterations: 0 and 1 run P1 from levels 0 and 1, 3 runs P2. */
  predicate LateDispatch(k: nat) {
    k == 0 || k == 1 || k == 3
  }

  function LateRunning(k: nat): int {
    if k == 3 then 1 else 0
  }

  function LateLevel(k: nat): int {
    if k == 1 then 1 else 0
  }

  /** Late(k) after the slice and before admission and completion. */
  function LateSliced(k: nat): Sched {
    if k == 0 then
      Late(1).(procs := [Process(1, 0, 10, 6, 0, 0, 0, 0, false), InitProcess(2, 3, 2)],
               queues := [QueueState([0], 1, 4), QueueState([], 0, 8), QueueState([], 0, -1)])
    else if k == 1 then
      Late(2).(procs := [Process(1, 0, 10, 0, 0, 0, 0, 1, false), InitProcess(2, 3, 2)], completed := 0)
    else
      Late(4).(procs := [Process(1, 0, 10, 0, 10, 10, 0, 1, true), Process(2, 3, 2, 0, 0, 0, 0, 0, false)],
               completed := 1)
  }

  lemma LateStart()
    ensures Ready(LateTable()) && AddNewArrivals(Start(LateTable())) == Late(0)
  {
    var ps := LateTable();
    assert ArrivalsUpTo(ps, 0, 1) == [0];
    assert ArrivalsUpTo(ps, 0, 2) == [0];
    assert AdmitUpTo(ps, 0, 2) == ps;
    assert [] + [0] == [0];
  }

  lemma LateSlice(k: nat)
    requires LateDispatch(k) && Inv(Late(k)) && SliceReady(Late(k))
    ensures NextProcess(Late(k).queues) == LateRunning(k)
    ensures Late(k).procs[LateRunning(k)].currentQueue == LateLevel(k)
    ensures Slice(Late(k)) == LateSliced(k)
  {
    if k == 0 {
      LateSlice0();
    } else if k == 1 {
      LateSlice1();
    } else {
      LateSlice3();
    }
  }

  lemma LateSlice0()
    requires Inv(Late(0)) && SliceReady(Late(0))
    ensures NextProcess(Late(0).queues) == 0 && Slice(Late(0)) == LateSliced(0)
  {
    NextIsWaitingHead(Late(0));
  }

  lemma LateSlice1()
    requires Inv(Late(1)) && SliceReady(Late(1))
    ensures NextProcess(Late(1).queues) == 0 && Slice(Late(1)) == LateSliced(1)
  {
    NextIsWaitingHead(Late(1));
    assert ReadyLevel(Late(1).queues, 0) == 1;
  }

  lemma LateSlice3()
    requires Inv(Late(3)) && SliceReady(Late(3))
    ensures NextProcess(Late(3).queues) == 1 && Slice(Late(3)) == LateSliced(3)
  {
    NextIsWaitingHead(Late(3));
    assert ReadyLevel(Late(3).queues, 0) == 0;
  }

  lemma LateFinish(k: nat)
    requires LateDispatch(k)
    ensures Finish(AddNewArrivals(LateSliced(k)), LateRunning(k), LateLevel(k)) == Late(k + 1)
  {
    NoArrivals(LateSliced(k));
  }

  lemma LateStep(k: nat)
    requires LateDispatch(k) && Inv(Late(k))
    ensures Step(Late(k)) == Late(k + 1)
  {
    var s := Late(k);
    NextIsWaitingHead(s);
    SliceReadyOf(s);
    LateSlice(k);
    LateFinish(k);
    assert Step(s) == Dispatch(s);
  }

  /** The idle jump after P1 completes at 10: the clock goes back to 3. */
  lemma LateIdle()
    requires Inv(Late(2))
    ensures Step(Late(2)) == Late(3)
  {
    var s := Late(2);
    assert ReadyLevel(s.queues, 0) == NUM_QUEUES;
    assert EarliestUpTo(s.procs, 2) == 1;
    LateIdleAdmit();
  }

  /** At the clock 3 only P2 arrives; it joins queue 0 behind the long-gone P1 entry. */
  lemma LateIdleAdmit()
    ensures AddNewArrivals(Late(2).(time := 3)) == Late(3)
  {
    var s' := Late(2).(time := 3);
    assert ArrivalsUpTo(s'.procs, 3, 1) == [];
    assert ArrivalsUpTo(s'.procs, 3, 2) == [1];
    assert AdmitUpTo(s'.procs, 3, 2) == s'.procs;
    assert s'.queues[0].slots + [1] == [0, 1];
  }

  /** P1(0,10), P2(3,2) yields P1:0-4, P1:4-10, P2:3-5: the third segment starts
      before the second ends, so time in the log is not monotone. */
  lemma LateArrivalTrace()
    ensures Ready(LateTable())
    ensures
      var r := Schedule(LateTable());
      && |r.procs| == 2
      && r.gantt == [GanttEntry(1, 0, 4), GanttEntry(1, 4, 10), GanttEntry(2, 3, 5)]
      && r.gantt[2].startTime < r.gantt[1].endTime
      && r.procs[1].completionTime == 5 && r.procs[1].turnaroundTime == 2 && r.procs[1].waitingTime == 0
  {
    LateSchedule();
    var r := Late(4);
    assert r.procs[1] == Process(2, 3, 2, 0, 5, 2, 0, 0, true);
    assert r.gantt == [GanttEntry(1, 0, 4), GanttEntry(1, 4, 10), GanttEntry(2, 3, 5)];
  }

  lemma LateSchedule()
    ensures Ready(LateTable()) && Schedule(LateTable()) == Late(4)
  {
    var ps := LateTable();
    LateStart();
    StartInv(ps);
    AdmitInv(Start(ps), -1);
    LateStep(0);
    RunUnfold(Late(0), Late(1));
    LateStep(1);
    RunUnfold(Late(1), Late(2));
    LateIdle();
    RunUnfold(Late(2), Late(3));
    LateStep(3);
    RunUnfold(Late(3), Late(4));
    RunDone(Late(4));
  }
}
