/** The timeline segment both simulators append to their Gantt log
    (GanttEntry in mlfq.h and in round_robin.h). */
module Timeline {
  datatype GanttEntry = GanttEntry(processId: int, startTime: int, endTime: int)
}
