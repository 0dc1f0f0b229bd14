/** The task scheduler: it stores task records in the order they were scheduled, keeps one
    pending one-shot timer per task that is waiting to run, runs a task when its timer fires,
    and cancels or reschedules tasks that are still waiting. */
module Scheduler {
  import opened Common
  import opened Tasks

  class TaskScheduler {
    /** The task records by id. */
    var tasks: map<string, Task>
    /** The ids in the order they were first stored. */
    var order: seq<string>
    /** The pending one-shot timers: task id to the time it is due to run. */
    var timers: map<string, Time>

    /** The records and the order list hold the same ids, each record is stored under its own
        id, and every timer belongs to a stored task. */
    ghost predicate Valid()
      reads this
    {
      && (forall i, j :: 0 <= i < j < |order| ==> order[i] != order[j])
      && (forall id :: id in tasks <==> id in order)
      && (forall id :: id in tasks ==> tasks[id].taskId == id)
      && (forall id :: id in timers ==> id in tasks)
    }

    /** A task is waiting to run exactly when a timer for it is pending. */
    ghost predicate Consistent()
      reads this
    {
      forall id :: id in tasks ==> (tasks[id].status == Scheduled <==> id in timers)
    }

    constructor()
      ensures Valid() && Consistent()
      ensures tasks == map[] && order == [] && timers == map[]
    {
      tasks := map[];
      order := [];
      timers := map[];
    }

    /** Stores a new task under `freshId` (the identifier drawn for it) and registers its
        timer for the requested run date; when registering raises (`registration` is the
        error), the task is stored as failed with that error and no timer is added. */
    method ScheduleTask(taskType: string, sessionId: string, agentType: string,
                        scheduleTime: Option<string>, parameters: Option<map<string, string>>,
                        freshId: string, now: Time, parse: string -> Option<Time>,
                        registration: Option<string>)
      returns (taskId: string)
      requires Valid()
      modifies this
      ensures Valid()
      ensures taskId == freshId
      ensures var info := NewTask(freshId, taskType, sessionId, agentType,
                                  if parameters.Some? then parameters.value else map[],
                                  now, RunDate(scheduleTime, now, parse));
        if registration.None? then
          tasks == old(tasks)[freshId := info] && timers == old(timers)[freshId := info.scheduledFor]
        else
          tasks == old(tasks)[freshId := info.(status := Failed, error := registration)] && timers == old(timers)
      ensures order == if freshId in old(tasks) then old(order) else old(order) + [freshId]
      ensures old(Consistent()) && freshId !in old(tasks) ==> Consistent()
    {
      var runDate := RunDate(scheduleTime, now, parse);
      var info := NewTask(freshId, taskType, sessionId, agentType,
                          if parameters.Some? then parameters.value else map[], now, runDate);
      if freshId !in tasks {
        order := order + [freshId];
      }
      tasks := tasks[freshId := info];
      if registration.None? {
        timers := timers[freshId := runDate];
      } else {
        tasks := tasks[freshId := info.(status := Failed, error := registration)];
      }
      taskId := freshId;
    }

    /** Runs a stored task, whatever its status: it is marked running with its start time and
        then completed with the agent's result or failed with the error. `factoryError` is the
        error the agent factory raises for the task's agent type, if any; `respond` is the
        agent; `year` is the current calendar year. An unknown id changes nothing. */
    method ExecuteTask(taskId: string, now: Time, factoryError: Option<string>,
                       respond: AgentCall -> CallOutcome, year: nat)
      requires Valid()
      modifies this
      ensures Valid()
      ensures order == old(order) && timers == old(timers)
      ensures taskId !in old(tasks) ==> tasks == old(tasks)
      ensures taskId in old(tasks) ==>
        tasks == old(tasks)[taskId := Finished(Started(old(tasks[taskId]), now),
                                               Execution(old(tasks[taskId]), factoryError, respond, year), now)]
      ensures old(Consistent()) && taskId !in timers ==> Consistent()
    {
      if taskId !in tasks {
        return;
      }
      ghost var before := tasks;
      var running := Started(tasks[taskId], now);
      tasks := tasks[taskId := running];
      var outcome := Execution(running, factoryError, respond, year);
      RunEnds(before[taskId], factoryError, respond, year, now);
      tasks := tasks[taskId := Finished(running, outcome, now)];
      UpdateTwice(before, taskId, running, Finished(running, outcome, now));
    }

    /** A pending timer fires: it is consumed and its task runs. */
    method FireTimer(taskId: string, now: Time, factoryError: Option<string>,
                     respond: AgentCall -> CallOutcome, year: nat)
      requires Valid()
      requires taskId in timers
      modifies this
      ensures Valid()
      ensures timers == old(timers) - {taskId}
      ensures order == old(order)
      ensures tasks == old(tasks)[taskId := Finished(Started(old(tasks[taskId]), now),
                                                     Execution(old(tasks[taskId]), factoryError, respond, year), now)]
      ensures tasks[taskId].status in {Completed, Failed}
      ensures old(Consistent()) ==> Consistent()
    {
      timers := timers - {taskId};
      ExecuteTask(taskId, now, factoryError, respond, year);
    }

    /** Cancels a task that is still waiting: its timer is removed and it is marked cancelled.
        Any other task, an unknown id, or a waiting task whose timer is missing (removing it
        raises) is refused with `false` and nothing changes. */
    method CancelTask(taskId: string, now: Time) returns (cancelled: bool)
      requires Valid()
      modifies this
      ensures Valid()
      ensures cancelled <==> taskId in old(tasks) && old(tasks[taskId].status) == Scheduled && taskId in old(timers)
      ensures old(Consistent()) ==> (cancelled <==> taskId in old(tasks) && old(tasks[taskId].status) == Scheduled)
      ensures cancelled ==>
        tasks == old(tasks)[taskId := old(tasks[taskId]).(status := Cancelled, cancelledAt := Some(now))]
        && timers == old(timers) - {taskId}
      ensures !cancelled ==> tasks == old(tasks) && timers == old(timers)
      ensures order == old(order)
      ensures old(Consistent()) ==> Consistent()
    {
      if taskId !in tasks || tasks[taskId].status != Scheduled || taskId !in timers {
        return false;
      }
      timers := timers - {taskId};
      tasks := tasks[taskId := tasks[taskId].(status := Cancelled, cancelledAt := Some(now))];
      return true;
    }

    /** Moves a waiting task to the time `newTime` parses to, as written: the old timer is
        removed and a new one registered; `registration` is the error registering raises, if
        any. An unknown id, a task that is not waiting, a time that does not parse, a missing
        timer or a failed registration is refused with `false`; after a failed registration
        the old timer stays removed while the record still says the task is waiting. */
    method RescheduleTask(taskId: string, newTime: string, now: Time,
                          parse: string -> Option<Time>, registration: Option<string>)
      returns (rescheduled: bool)
      requires Valid()
      modifies this
      ensures Valid()
      ensures order == old(order)
      ensures rescheduled <==>
        taskId in old(tasks) && old(tasks[taskId].status) == Scheduled
        && parse(ReplaceZ(newTime)).Some? && taskId in old(timers) && registration.None?
      ensures old(Consistent()) && registration.None? ==>
        (rescheduled <==> taskId in old(tasks) && old(tasks[taskId].status) == Scheduled && parse(ReplaceZ(newTime)).Some?)
      ensures rescheduled ==>
        tasks == old(tasks)[taskId := old(tasks[taskId]).(scheduledFor := parse(ReplaceZ(newTime)).value, rescheduledAt := Some(now))]
      ensures !rescheduled ==> tasks == old(tasks)
      ensures var waiting := taskId in old(tasks) && old(tasks[taskId].status) == Scheduled
                             && parse(ReplaceZ(newTime)).Some? && taskId in old(timers);
        && (waiting ==> timers == TimersAfterReschedule(old(timers), taskId, parse(ReplaceZ(newTime)).value, registration))
        && (!waiting ==> timers == old(timers))
      ensures old(Consistent()) && registration.None? ==> Consistent()
    {
      if taskId !in tasks || tasks[taskId].status != Scheduled {
        return false;
      }
      var parsed := parse(ReplaceZ(newTime));
      if parsed.None? || taskId !in timers {
        return false;
      }
      timers := timers - {taskId};
      if registration.Some? {
        return false;
      }
      timers := timers[taskId := parsed.value];
      tasks := tasks[taskId := tasks[taskId].(scheduledFor := parsed.value, rescheduledAt := Some(now))];
      return true;
    }

    /** Moves a waiting task as `RescheduleTask` does, but registers the new timer in place of
        the old one in a single step, so that a failed registration leaves the old timer, the
        record and the waiting-iff-timer invariant as they were. */
    method RescheduleTaskReplacing(taskId: string, newTime: string, now: Time,
                                   parse: string -> Option<Time>, registration: Option<string>)
      returns (rescheduled: bool)
      requires Valid()
      modifies this
      ensures Valid()
      ensures order == old(order)
      ensures rescheduled <==>
        taskId in old(tasks) && old(tasks[taskId].status) == Scheduled
        && parse(ReplaceZ(newTime)).Some? && taskId in old(timers) && registration.None?
      ensures old(Consistent()) && registration.None? ==>
        (rescheduled <==> taskId in old(tasks) && old(tasks[taskId].status) == Scheduled && parse(ReplaceZ(newTime)).Some?)
      ensures rescheduled ==>
        tasks == old(tasks)[taskId := old(tasks[taskId]).(scheduledFor := parse(ReplaceZ(newTime)).value, rescheduledAt := Some(now))]
        && timers == old(timers)[taskId := parse(ReplaceZ(newTime)).value]
      ensures !rescheduled ==> tasks == old(tasks) && timers == old(timers)
      ensures old(Consistent()) ==> Consistent()
    {
      if taskId !in tasks || tasks[taskId].status != Scheduled {
        return false;
      }
      var parsed := parse(ReplaceZ(newTime));
      if parsed.None? || taskId !in timers {
        return false;
      }
      timers := TimersAfterReplace(timers, taskId, parsed.value, registration);
      if registration.Some? {
        return false;
      }
      tasks := tasks[taskId := tasks[taskId].(scheduledFor := parsed.value, rescheduledAt := Some(now))];
      return true;
    }

    /** The record of a task, or `None` for an unknown id. */
    function GetTaskStatus(taskId: string): (r: Option<Task>)
      reads this
      ensures r.Some? <==> taskId in tasks
      ensures r.Some? ==> r.value == tasks[taskId]
    {
      if taskId in tasks then Some(tasks[taskId]) else None
    }

    /** Every record, in the order the tasks were scheduled. */
    function GetAllTasks(): (r: seq<Task>)
      requires Valid()
      reads this
      ensures |r| == |order|
      ensures forall k :: 0 <= k < |r| ==> r[k] == tasks[order[k]]
    {
      seq(|order|, k requires 0 <= k < |order| && order[k] in tasks reads this => tasks[order[k]])
    }

    /** The records of one session, in the order the tasks were scheduled. */
    function GetTasksBySession(sessionId: string): (r: seq<Task>)
      requires Valid()
      reads this
      ensures |r| <= |order|
      ensures forall k :: 0 <= k < |r| ==> r[k].sessionId == sessionId
    {
      SessionFilter(GetAllTasks(), sessionId)
    }

    /** The session query lists exactly the stored records of that session. */
    lemma TasksBySessionExact(sessionId: string)
      requires Valid()
      ensures forall t :: t in GetTasksBySession(sessionId)
                <==> (exists id :: id in tasks && tasks[id] == t) && t.sessionId == sessionId
    {
      var all := GetAllTasks();
      SessionFilterMembers(all, sessionId);
      forall t ensures t in all <==> exists id :: id in tasks && tasks[id] == t {
        if t in all {
          var k :| 0 <= k < |all| && all[k] == t;
          assert order[k] in tasks && tasks[order[k]] == t;
        }
        if exists id :: id in tasks && tasks[id] == t {
          var id :| id in tasks && tasks[id] == t;
          var k :| 0 <= k < |order| && order[k] == id;
          assert all[k] == t;
        }
      }
    }
  }
}
