/** The in-memory scheduler (src/Scheduler/InMemoryScheduler.php): an append-only queue. */
module Scheduler {
  import opened Envelopes

  /** One queue entry: ['runAt' => $runAt, 'message' => $message]. */
  datatype ScheduledTask = ScheduledTask(runAt: string, message: Envelope)

  class InMemoryScheduler {
    var queue: seq<ScheduledTask>

    constructor ()
      ensures queue == []
    {
      queue := [];
    }

    /** InMemoryScheduler::schedule: the new entry goes last; earlier entries stay as they were. */
    method Schedule(message: Envelope, runAt: string)
      modifies this
      ensures queue == old(queue) + [ScheduledTask(runAt, message)]
      ensures queue[..|old(queue)|] == old(queue)
    {
      queue := queue + [ScheduledTask(runAt, message)];
    }

    /** InMemoryScheduler::due: the whole queue in insertion order, whatever `now` is; nothing is removed. */
    method Due(now: string) returns (tasks: seq<ScheduledTask>)
      ensures tasks == queue
    {
      tasks := queue;
    }
  }

  /**
   * Scheduling a sequence of tasks on a fresh scheduler: two calls of due,
   * at any two moments, both return every task in scheduling order.
   */
  method ScheduleAllThenDueTwice(tasks: seq<ScheduledTask>, now1: string, now2: string)
    returns (first: seq<ScheduledTask>, second: seq<ScheduledTask>)
    ensures first == tasks && second == tasks
  {
    var s := new InMemoryScheduler();
    var i := 0;
    while i < |tasks|
      invariant 0 <= i <= |tasks|
      invariant s.queue == tasks[..i]
    {
      s.Schedule(tasks[i].message, tasks[i].runAt);
      assert tasks[..i + 1] == tasks[..i] + [tasks[i]];
      i := i + 1;
    }
    assert tasks[..i] == tasks;
    first := s.Due(now1);
    second := s.Due(now2);
  }
}
